/**
 * The string operations of Python's `str` that the ledger relies on:
 * `in`, `startswith`, `strip`, `split`/`join`, `replace`, `zfill`,
 * ASCII case mapping, and decimal digit strings.
 */
module Text {

  // ---------------------------------------------------------------------
  // Characters
  // ---------------------------------------------------------------------

  /** The characters for which Python's `str.isspace()` holds (these are also what `\s` matches). */
  const SpaceChars: seq<char> := [
    ' ', '\t', '\n', '\r', '\U{b}', '\U{c}', '\U{1c}', '\U{1d}', '\U{1e}', '\U{1f}', '\U{85}', '\U{a0}',
    '\U{1680}', '\U{2000}', '\U{2001}', '\U{2002}', '\U{2003}', '\U{2004}', '\U{2005}', '\U{2006}',
    '\U{2007}', '\U{2008}', '\U{2009}', '\U{200a}', '\U{2028}', '\U{2029}', '\U{202f}', '\U{205f}', '\U{3000}']

  predicate IsSpace(c: char) {
    SpaceFrom(c, 0)
  }

  /** `c` is one of `SpaceChars[k..]`. */
  predicate SpaceFrom(c: char, k: nat)
    decreases |SpaceChars| - k
  {
    k < |SpaceChars| && (SpaceChars[k] == c || SpaceFrom(c, k + 1))
  }

  /** Every whitespace character is a control character, a space, or lies above U+0084. */
  lemma {:induction false} SpaceFromRange(c: char, k: nat)
    requires SpaceFrom(c, k)
    ensures c <= ' ' || '\U{85}' <= c
    decreases |SpaceChars| - k
  {
    if SpaceChars[k] != c {
      SpaceFromRange(c, k + 1);
    }
  }

  /** Printable ASCII characters other than ' ' are not whitespace. */
  lemma PrintableNotSpace(c: char)
    requires '!' <= c <= '~'
    ensures !IsSpace(c)
  {
    if IsSpace(c) {
      SpaceFromRange(c, 0);
    }
  }

  predicate IsDigit(c: char) {
    '0' <= c <= '9'
  }

  predicate AllDigits(s: string) {
    forall i :: 0 <= i < |s| ==> IsDigit(s[i])
  }

  predicate NoSpace(s: string) {
    forall i :: 0 <= i < |s| ==> !IsSpace(s[i])
  }

  /** Every character is whitespace: the strings for which `not s.strip()` holds. */
  predicate IsBlank(s: string) {
    forall i :: 0 <= i < |s| ==> IsSpace(s[i])
  }

  // ---------------------------------------------------------------------
  // Substrings and prefixes
  // ---------------------------------------------------------------------

  /** Python's `s.startswith(prefix)`. */
  predicate StartsWith(s: string, prefix: string) {
    |prefix| <= |s| && s[..|prefix|] == prefix
  }

  /** `sub` occurs in `s` at index `i`. */
  predicate OccursAt(s: string, sub: string, i: int) {
    0 <= i && i + |sub| <= |s| && s[i..i + |sub|] == sub
  }

  /** Python's `sub in s`: true exactly when `sub` occurs somewhere in `s`. */
  function Contains(s: string, sub: string): (b: bool)
    ensures b <==> exists i :: OccursAt(s, sub, i)
    decreases |s|
  {
    if StartsWith(s, sub) then
      assert OccursAt(s, sub, 0);
      true
    else if s == [] then
      false
    else
      var tail := s[1..];
      var b := Contains(tail, sub);
      if b then
        var i :| OccursAt(tail, sub, i);
        assert s[i + 1..i + 1 + |sub|] == tail[i..i + |sub|];
        assert OccursAt(s, sub, i + 1);
        b
      else
        assert forall i :: OccursAt(s, sub, i) ==> i >= 1 && OccursAt(tail, sub, i - 1) by {
          forall i | OccursAt(s, sub, i) ensures i >= 1 && OccursAt(tail, sub, i - 1) {
            assert tail[i - 1..i - 1 + |sub|] == s[i..i + |sub|];
          }
        }
        b
  }

  // ---------------------------------------------------------------------
  // strip, split, join
  // ---------------------------------------------------------------------

  /** Number of leading whitespace characters. */
  function LeadingSpace(s: string): (k: nat)
    ensures k <= |s| && IsBlank(s[..k]) && (k == |s| || !IsSpace(s[k]))
  {
    if s != [] && IsSpace(s[0]) then
      var k := LeadingSpace(s[1..]);
      assert s[..k + 1] == [s[0]] + s[1..][..k];
      k + 1
    else
      0
  }

  /** Index where the trailing whitespace begins. */
  function TrailingSpaceStart(s: string): (k: nat)
    ensures k <= |s| && IsBlank(s[k..]) && (k == 0 || !IsSpace(s[k - 1]))
  {
    if s != [] && IsSpace(s[|s| - 1]) then
      var k := TrailingSpaceStart(s[..|s| - 1]);
      assert s[k..] == s[..|s| - 1][k..] + [s[|s| - 1]];
      k
    else
      |s|
  }

  /** Python's `s.lstrip()`: drop leading whitespace. */
  function LStrip(s: string): string
  {
    s[LeadingSpace(s)..]
  }

  /** Python's `s.rstrip()`: drop trailing whitespace. */
  function RStrip(s: string): string
  {
    s[..TrailingSpaceStart(s)]
  }

  /** Python's `s.strip()`: a slice of `s` without leading or trailing whitespace. */
  function Strip(s: string): (r: string)
  {
    RStrip(LStrip(s))
  }

  /**
   * `s.strip()` is the slice of `s` that starts after the leading whitespace; it
   * neither begins nor ends with whitespace, and only whitespace was cut off.
   */
  lemma {:induction false} StripIsTrimmedSlice(s: string)
    ensures var r, i := Strip(s), |s| - |LStrip(s)|;
      && (r == [] || (!IsSpace(r[0]) && !IsSpace(r[|r| - 1])))
      && i + |r| <= |s| && s[i..i + |r|] == r
      && IsBlank(s[..i]) && IsBlank(s[i + |r|..])
  {
    StripEnds(s);
    StripSlice(s);
  }

  /**
   * `r` is `s` with only surrounding whitespace cut off: a slice of `s`
   * with nothing but whitespace on either side, itself neither beginning
   * nor ending with whitespace.
   */
  predicate TrimmedOf(r: string, s: string)
  {
    && (r == [] || (!IsSpace(r[0]) && !IsSpace(r[|r| - 1])))
    && |r| <= |s|
    && exists i :: 0 <= i <= |s| - |r| && s[i..i + |r|] == r && IsBlank(s[..i]) && IsBlank(s[i + |r|..])
  }

  /** `s.strip()` cuts off only the surrounding whitespace. */
  lemma StripTrimmedOf(s: string)
    ensures TrimmedOf(Strip(s), s)
  {
    StripIsTrimmedSlice(s);
    var i := |s| - |LStrip(s)|;
    assert Strip(s) == s[i..i + |Strip(s)|];
  }

  lemma {:induction false} StripSlice(s: string)
    ensures var r, i := Strip(s), |s| - |LStrip(s)|;
      && i + |r| <= |s| && s[i..i + |r|] == r
      && IsBlank(s[..i]) && IsBlank(s[i + |r|..])
  {
    SuffixSlices(s, |s| - |LStrip(s)|, |Strip(s)|);
  }

  lemma {:induction false} StripEnds(s: string)
    ensures var r := Strip(s); r == [] || (!IsSpace(r[0]) && !IsSpace(r[|r| - 1]))
  {
    var l := LStrip(s);
    var r := RStrip(l);
    assert r != [] ==> r[0] == l[0];
  }

  lemma {:induction false} SuffixSlices<T>(s: seq<T>, i: nat, k: nat)
    requires i + k <= |s|
    ensures s[i..][..k] == s[i..i + k] && s[i..][k..] == s[i + k..]
  {
  }

  lemma {:induction false} StripEmptyIffBlank(s: string)
    ensures Strip(s) == [] <==> IsBlank(s)
  {
    var l := LStrip(s);
    if Strip(s) == [] {
      assert IsBlank(l[0..]);
      assert s == s[..|s| - |l|] + l;
    }
  }

  /** A string that neither begins nor ends with whitespace is its own `strip()`. */
  lemma {:induction false} StripOfUnspaced(s: string)
    requires s != [] && !IsSpace(s[0]) && !IsSpace(s[|s| - 1])
    ensures Strip(s) == s
  {
    assert LStrip(s) == s;
  }

  lemma {:induction false} DigitsNoSpace(s: string)
    requires AllDigits(s)
    ensures NoSpace(s)
  {
    forall i | 0 <= i < |s| ensures !IsSpace(s[i]) {
      PrintableNotSpace(s[i]);
    }
  }

  /** Length of the leading run of non-whitespace characters. */
  function WordLength(s: string): (k: nat)
    ensures k <= |s| && NoSpace(s[..k]) && (k == |s| || IsSpace(s[k]))
  {
    if s == [] || IsSpace(s[0]) then 0
    else
      var k := WordLength(s[1..]);
      assert s[..k + 1] == [s[0]] + s[1..][..k];
      k + 1
  }

  /** Python's `s.split()` with no separator: the maximal runs of non-whitespace characters. */
  function Words(s: string): seq<string>
    decreases |s|
  {
    var t := LStrip(s);
    if t == [] then []
    else
      var k := WordLength(t);
      [t[..k]] + Words(t[k..])
  }

  /** Every piece is a non-empty run of non-whitespace characters. */
  predicate AreWords(ws: seq<string>) {
    forall j :: 0 <= j < |ws| ==> ws[j] != [] && NoSpace(ws[j])
  }

  lemma {:induction false} WordsAreWords(s: string)
    ensures AreWords(Words(s))
    decreases |s|
  {
    var t := LStrip(s);
    if t != [] {
      var k := WordLength(t);
      WordsAreWords(t[k..]);
      ConsWords(t[..k], Words(t[k..]));
    }
  }

  lemma {:induction false} ConsWords(w: string, ws: seq<string>)
    requires w != [] && NoSpace(w) && AreWords(ws)
    ensures AreWords([w] + ws)
  {
    assert forall j :: 1 <= j < 1 + |ws| ==> ([w] + ws)[j] == ws[j - 1];
  }

  /** Python's `sep.join(parts)`. */
  function Join(sep: string, parts: seq<string>): string
  {
    if |parts| == 0 then ""
    else if |parts| == 1 then parts[0]
    else parts[0] + sep + Join(sep, parts[1..])
  }

  /** The characters of `s` that are not whitespace, in order. */
  function NonSpace(s: string): string
  {
    if s == [] then ""
    else if IsSpace(s[0]) then NonSpace(s[1..])
    else [s[0]] + NonSpace(s[1..])
  }

  lemma {:induction false} NonSpaceAppend(a: string, b: string)
    ensures NonSpace(a + b) == NonSpace(a) + NonSpace(b)
  {
    if a != [] {
      assert (a + b)[1..] == a[1..] + b;
      NonSpaceAppend(a[1..], b);
    } else {
      assert a + b == b;
    }
  }

  lemma {:induction false} NonSpaceOfBlank(s: string)
    requires IsBlank(s)
    ensures NonSpace(s) == ""
  {
    if s != [] {
      NonSpaceOfBlank(s[1..]);
    }
  }

  lemma {:induction false} NonSpaceOfWord(s: string)
    requires NoSpace(s)
    ensures NonSpace(s) == s
  {
    if s != [] {
      NonSpaceOfWord(s[1..]);
    }
  }

  /** A string built by joining non-empty, whitespace-free words with single spaces. */
  ghost predicate SingleSpaced(r: string) {
    && (r == [] || (!IsSpace(r[0]) && !IsSpace(r[|r| - 1])))
    && (forall i :: 0 <= i < |r| && IsSpace(r[i]) ==> r[i] == ' ')
    && (forall i :: 0 <= i < |r| - 1 && IsSpace(r[i]) ==> !IsSpace(r[i + 1]))
  }

  /** `s` occurs in `t + s + u`, after `t`. */
  lemma OccursInMiddle(t: string, s: string, u: string)
    ensures OccursAt(t + s + u, s, |t|)
  {
    assert (t + s + u)[|t|..|t| + |s|] == s;
  }

  /** Every part occurs in the text the parts are joined into. */
  lemma {:induction false} JoinContainsPart(sep: string, parts: seq<string>, i: nat)
    requires i < |parts|
    ensures Contains(Join(sep, parts), parts[i])
  {
    if |parts| == 1 {
      OccursInMiddle("", parts[0], "");
      assert "" + parts[0] + "" == parts[0];
    } else if i == 0 {
      OccursInMiddle("", parts[0], sep + Join(sep, parts[1..]));
      assert "" + parts[0] + (sep + Join(sep, parts[1..])) == Join(sep, parts);
    } else {
      var rest := Join(sep, parts[1..]);
      JoinContainsPart(sep, parts[1..], i - 1);
      assert parts[1..][i - 1] == parts[i];
      var k :| OccursAt(rest, parts[i], k);
      var pre := parts[0] + sep;
      assert Join(sep, parts) == pre + rest;
      OccursAfter(pre, rest, parts[i], k);
    }
  }

  /** An occurrence in `rest` is an occurrence in `pre + rest`, shifted by `|pre|`. */
  lemma OccursAfter(pre: string, rest: string, sub: string, k: int)
    requires OccursAt(rest, sub, k)
    ensures OccursAt(pre + rest, sub, |pre| + k)
  {
    assert (pre + rest)[|pre| + k..|pre| + k + |sub|] == rest[k..k + |sub|];
  }

  lemma {:induction false} JoinWordsSingleSpaced(ws: seq<string>)
    requires AreWords(ws)
    ensures SingleSpaced(Join(" ", ws))
    ensures NonSpace(Join(" ", ws)) == Join("", ws)
  {
    if |ws| == 1 {
      NonSpaceOfWord(ws[0]);
    } else if |ws| > 1 {
      var w, tail := ws[0], ws[1..];
      var rest := Join(" ", tail);
      assert tail[0] == ws[1];
      assert AreWords(tail) && rest != [];
      JoinWordsSingleSpaced(tail);
      assert Join(" ", ws) == w + " " + rest;
      SpacedWordSingleSpaced(w, rest);
      SpacedWordNonSpace(w, rest);
      JoinEmptyCons(w, tail);
      assert [w] + tail == ws;
    }
  }

  /** A word, one space, then single-spaced text, is single-spaced. */
  lemma {:induction false} SpacedWordSingleSpaced(w: string, rest: string)
    requires w != [] && NoSpace(w) && rest != [] && SingleSpaced(rest)
    ensures SingleSpaced(w + " " + rest)
  {
    var r := w + " " + rest;
    assert IsSpace(' ') by { assert SpaceChars[0] == ' '; }
    forall i | 0 <= i < |r| && IsSpace(r[i]) ensures r[i] == ' ' {
      if i > |w| {
        assert r[i] == rest[i - |w| - 1];
      }
    }
    forall i | 0 <= i < |r| - 1 && IsSpace(r[i]) ensures !IsSpace(r[i + 1]) {
      if i > |w| {
        assert r[i] == rest[i - |w| - 1];
        assert r[i + 1] == rest[i - |w|];
      }
    }
  }

  lemma {:induction false} SpacedWordNonSpace(w: string, rest: string)
    requires NoSpace(w)
    ensures NonSpace(w + " " + rest) == w + NonSpace(rest)
  {
    assert IsSpace(' ') by { assert SpaceChars[0] == ' '; }
    assert w + " " + rest == w + (" " + rest);
    NonSpaceOfWord(w);
    NonSpaceAppend(w, " " + rest);
    NonSpaceAppend(" ", rest);
    assert NonSpace(" ") == "";
  }

  lemma {:induction false} JoinEmptyCons(w: string, ws: seq<string>)
    ensures Join("", [w] + ws) == w + Join("", ws)
  {
    if |ws| > 0 {
      assert ([w] + ws)[1..] == ws;
    }
  }

  lemma {:induction false} LStripNonSpace(s: string)
    ensures NonSpace(LStrip(s)) == NonSpace(s)
  {
    var t := LStrip(s);
    var lead := s[..|s| - |t|];
    assert s == lead + t;
    NonSpaceOfBlank(lead);
    NonSpaceAppend(lead, t);
  }

  lemma {:induction false} WordsUnfold(s: string)
    requires LStrip(s) != []
    ensures WordLength(LStrip(s)) > 0
    ensures Words(s) == [LStrip(s)[..WordLength(LStrip(s))]] + Words(LStrip(s)[WordLength(LStrip(s))..])
  {
  }

  /** A whitespace-free word followed by whitespace (or by nothing) is one whole word. */
  lemma {:induction false} WordLengthOfWord(w: string, rest: string)
    requires NoSpace(w) && (rest == [] || IsSpace(rest[0]))
    ensures WordLength(w + rest) == |w|
  {
    if w == [] {
      assert w + rest == rest;
    } else {
      assert (w + rest)[1..] == w[1..] + rest;
      WordLengthOfWord(w[1..], rest);
    }
  }

  /** `(w + rest).split()` starts with `w` when `w` is a word ending where whitespace begins. */
  lemma {:induction false} WordsCons(w: string, rest: string)
    requires w != [] && NoSpace(w) && (rest == [] || IsSpace(rest[0]))
    ensures Words(w + rest) == [w] + Words(rest)
  {
    var s := w + rest;
    assert LStrip(s) == s;
    WordLengthOfWord(w, rest);
    WordsUnfold(s);
    assert s[..|w|] == w && s[|w|..] == rest;
  }

  /** Leading whitespace does not change `split()`. */
  lemma {:induction false} WordsLeadingSpace(t: string)
    ensures Words(" " + t) == Words(t)
  {
    assert (" " + t)[1..] == t;
  }

  /** `(w + " " + t).split()` is `w` followed by `t.split()`. */
  lemma {:induction false} WordsSpaced(w: string, t: string)
    requires w != [] && NoSpace(w)
    ensures Words(w + " " + t) == [w] + Words(t)
  {
    assert w + " " + t == w + (" " + t);
    WordsCons(w, " " + t);
    WordsLeadingSpace(t);
  }

  /** A single word splits to itself. */
  lemma {:induction false} WordsOfWord(w: string)
    requires w != [] && NoSpace(w)
    ensures Words(w) == [w]
  {
    WordsCons(w, "");
    assert w + "" == w;
  }

  lemma {:induction false} SpacedAssoc(a: string, b: string, c: string)
    ensures a + " " + b + " " + c == a + " " + (b + " " + c)
  {
  }

  /** Splitting "b c" (one space, words without whitespace) gives [b, c]. */
  lemma {:induction false} WordsOfTwo(b: string, c: string)
    requires b != [] && NoSpace(b) && c != [] && NoSpace(c)
    ensures Words(b + " " + c) == [b, c]
  {
    WordsSpaced(b, c);
    WordsOfWord(c);
  }

  /** Splitting "a b c" (single spaces, words without whitespace) gives [a, b, c]. */
  lemma {:induction false} WordsOfThree(a: string, b: string, c: string)
    requires a != [] && NoSpace(a) && b != [] && NoSpace(b) && c != [] && NoSpace(c)
    ensures Words(a + " " + b + " " + c) == [a, b, c]
  {
    SpacedAssoc(a, b, c);
    WordsOfTwo(b, c);
    WordsSpaced(a, b + " " + c);
  }

  /** Cutting `t` after a whitespace-free prefix. */
  lemma {:induction false} NonSpaceSplit(t: string, k: nat)
    requires k <= |t| && NoSpace(t[..k])
    ensures NonSpace(t) == t[..k] + NonSpace(t[k..])
  {
    assert t == t[..k] + t[k..];
    NonSpaceAppend(t[..k], t[k..]);
    NonSpaceOfWord(t[..k]);
  }

  lemma {:induction false} WordsKeepNonSpace(s: string)
    ensures Join("", Words(s)) == NonSpace(s)
    decreases |s|
  {
    LStripNonSpace(s);
    var t := LStrip(s);
    if t != [] {
      var k := WordLength(t);
      WordsUnfold(s);
      WordsKeepNonSpace(t[k..]);
      NonSpaceSplit(t, k);
      JoinEmptyCons(t[..k], Words(t[k..]));
    }
  }

  /** Python's `" ".join(s.split())`. */
  function CollapseWhitespace(s: string): (r: string)
  {
    Join(" ", Words(s))
  }

  /**
   * `" ".join(s.split())` removes leading and trailing whitespace, turns every
   * whitespace run into exactly one space, and keeps every other character in order.
   */
  lemma {:induction false} CollapseWhitespaceSpec(s: string)
    ensures SingleSpaced(CollapseWhitespace(s))
    ensures NonSpace(CollapseWhitespace(s)) == NonSpace(s)
  {
    WordsAreWords(s);
    JoinWordsSingleSpaced(Words(s));
    WordsKeepNonSpace(s);
  }

  /** Python's `s.split(sep)` for a one-character separator: never empty, and no piece contains `sep`. */
  function SplitOn(s: string, sep: char): (parts: seq<string>)
    ensures |parts| >= 1
    ensures forall j :: 0 <= j < |parts| ==> sep !in parts[j]
  {
    if s == [] then [""]
    else
      var rest := SplitOn(s[1..], sep);
      if s[0] == sep then [""] + rest
      else [[s[0]] + rest[0]] + rest[1..]
  }

  /** Splitting on a character and joining back with it gives the original string. */
  lemma {:induction false} JoinSplitOn(s: string, sep: char)
    ensures Join([sep], SplitOn(s, sep)) == s
  {
    if s != [] {
      var rest := SplitOn(s[1..], sep);
      JoinSplitOn(s[1..], sep);
      if s[0] == sep {
        assert SplitOn(s, sep)[1..] == rest;
      } else {
        var parts := SplitOn(s, sep);
        if |rest| > 1 {
          assert parts[1..] == rest[1..];
          assert Join([sep], rest) == rest[0] + [sep] + Join([sep], rest[1..]);
        }
      }
    }
  }

  /** A string without the separator splits into itself alone. */
  lemma {:induction false} SplitOnNoSep(a: string, sep: char)
    requires sep !in a
    ensures SplitOn(a, sep) == [a]
  {
    if a != [] {
      SplitOnNoSep(a[1..], sep);
      assert [a[0]] + a[1..] == a;
    }
  }

  /** A piece without the separator, then the separator: the piece comes first. */
  lemma {:induction false} SplitOnPiece(a: string, sep: char, b: string)
    requires sep !in a
    ensures SplitOn(a + [sep] + b, sep) == [a] + SplitOn(b, sep)
  {
    if a == [] {
      assert a + [sep] + b == [sep] + b;
      assert ([sep] + b)[1..] == b;
    } else {
      var s := a + [sep] + b;
      assert s[1..] == a[1..] + [sep] + b;
      SplitOnPiece(a[1..], sep, b);
      assert [a[0]] + a[1..] == a;
    }
  }

  /** Splitting at a separator splits the two sides independently. */
  lemma {:induction false} SplitOnJoined(b: string, sep: char, c: string)
    ensures SplitOn(b + [sep] + c, sep) == SplitOn(b, sep) + SplitOn(c, sep)
    decreases |b|
  {
    if b == [] {
      assert b + [sep] + c == [sep] + c;
      assert ([sep] + c)[1..] == c;
    } else {
      var s := b + [sep] + c;
      assert s[0] == b[0] && s[1..] == b[1..] + [sep] + c;
      SplitOnJoined(b[1..], sep, c);
    }
  }

  // ---------------------------------------------------------------------
  // Character replacement
  // ---------------------------------------------------------------------

  /** Python's `s.replace(c, d)` for single characters: same length, every `c` becomes `d`, the rest is kept. */
  function ReplaceChar(s: string, c: char, d: char): (r: string)
    ensures |r| == |s|
    ensures forall i :: 0 <= i < |s| ==> r[i] == if s[i] == c then d else s[i]
  {
    if s == [] then ""
    else [if s[0] == c then d else s[0]] + ReplaceChar(s[1..], c, d)
  }

  /** Python's `s.replace(c, "")`: every occurrence of `c` removed, the other characters kept in order. */
  function RemoveChar(s: string, c: char): (r: string)
    ensures c !in r
    ensures |r| <= |s|
    ensures forall x :: x != c ==> multiset(r)[x] == multiset(s)[x]
  {
    if s == [] then ""
    else
      var rest := RemoveChar(s[1..], c);
      assert s == [s[0]] + s[1..];
      if s[0] == c then rest else [s[0]] + rest
  }

  lemma {:induction false} RemoveCharAppend(a: string, b: string, c: char)
    ensures RemoveChar(a + b, c) == RemoveChar(a, c) + RemoveChar(b, c)
  {
    if a == [] {
      assert a + b == b;
    } else {
      assert (a + b)[1..] == a[1..] + b;
      RemoveCharAppend(a[1..], b, c);
    }
  }

  lemma {:induction false} RemoveCharAbsent(s: string, c: char)
    requires c !in s
    ensures RemoveChar(s, c) == s
  {
    if s != [] {
      RemoveCharAbsent(s[1..], c);
    }
  }

  // ---------------------------------------------------------------------
  // ASCII case mapping
  // ---------------------------------------------------------------------

  function LowerChar(c: char): char {
    if 'A' <= c <= 'Z' then (c as int + 32) as char else c
  }

  function UpperChar(c: char): char {
    if 'a' <= c <= 'z' then (c as int - 32) as char else c
  }

  /** Python's `s.lower()` on the ASCII letters. */
  function Lower(s: string): (r: string)
    ensures |r| == |s| && forall i :: 0 <= i < |s| ==> r[i] == LowerChar(s[i])
  {
    seq(|s|, i requires 0 <= i < |s| => LowerChar(s[i]))
  }

  /** Python's `s.upper()` on the ASCII letters. */
  function Upper(s: string): (r: string)
    ensures |r| == |s| && forall i :: 0 <= i < |s| ==> r[i] == UpperChar(s[i])
  {
    seq(|s|, i requires 0 <= i < |s| => UpperChar(s[i]))
  }

  // ---------------------------------------------------------------------
  // Decimal digit strings
  // ---------------------------------------------------------------------

  function DigitValue(c: char): nat
    requires IsDigit(c)
  {
    c as int - '0' as int
  }

  function DigitChar(d: nat): (c: char)
    requires d < 10
    ensures IsDigit(c) && DigitValue(c) == d
  {
    ('0' as int + d) as char
  }

  /** Python's `int(s)` on a string of decimal digits (the empty string gives 0). */
  function DigitsValue(s: string): nat
    requires AllDigits(s)
  {
    if s == [] then 0
    else DigitsValue(s[..|s| - 1]) * 10 + DigitValue(s[|s| - 1])
  }

  /** Python's `str(n)` for a natural number: decimal digits, no leading zero. */
  function NatToString(n: nat): (s: string)
    ensures s != [] && AllDigits(s)
    ensures |s| > 1 ==> s[0] != '0'
  {
    if n < 10 then [DigitChar(n)]
    else NatToString(n / 10) + [DigitChar(n % 10)]
  }

  /** Reading back the digits that `str(n)` wrote gives `n`. */
  lemma {:induction false} NatToStringRoundTrip(n: nat)
    ensures DigitsValue(NatToString(n)) == n
  {
    if n >= 10 {
      NatToStringRoundTrip(n / 10);
      var s := NatToString(n);
      assert s[..|s| - 1] == NatToString(n / 10);
    }
  }

  /** Distinct numbers print differently. */
  lemma {:induction false} NatToStringInjective(a: nat, b: nat)
    requires NatToString(a) == NatToString(b)
    ensures a == b
  {
    NatToStringRoundTrip(a);
    NatToStringRoundTrip(b);
  }

  /** Python's `str(n)` for any integer. */
  function IntToString(n: int): string
  {
    if n < 0 then "-" + NatToString(-n) else NatToString(n)
  }

  /** Python's `s.zfill(width)` on a digit string: left-padded with '0' up to `width`. */
  function ZFill(s: string, width: nat): (r: string)
    ensures |r| == if |s| < width then width else |s|
    ensures r[|r| - |s|..] == s
    ensures forall i :: 0 <= i < |r| - |s| ==> r[i] == '0'
  {
    if |s| < width then seq(width - |s|, _ => '0') + s else s
  }

  lemma {:induction false} DigitsValueLeadingZeros(z: string, s: string)
    requires AllDigits(s) && forall i :: 0 <= i < |z| ==> z[i] == '0'
    ensures AllDigits(z + s) && DigitsValue(z + s) == DigitsValue(s)
    decreases |s|
  {
    if s == [] {
      assert z + s == z;
      DigitsValueOfZeros(z);
    } else {
      assert (z + s)[..|z + s| - 1] == z + s[..|s| - 1];
      DigitsValueLeadingZeros(z, s[..|s| - 1]);
    }
  }

  lemma {:induction false} DigitsValueOfZeros(z: string)
    requires forall i :: 0 <= i < |z| ==> z[i] == '0'
    ensures AllDigits(z) && DigitsValue(z) == 0
  {
    if z != [] {
      DigitsValueOfZeros(z[..|z| - 1]);
    }
  }

  /** Zero-padding a digit string keeps its digits and its numeric value. */
  lemma {:induction false} ZFillKeepsValue(s: string, width: nat)
    requires AllDigits(s)
    ensures AllDigits(ZFill(s, width)) && DigitsValue(ZFill(s, width)) == DigitsValue(s)
  {
    var r := ZFill(s, width);
    DigitsValueLeadingZeros(r[..|r| - |s|], s);
    assert r == r[..|r| - |s|] + s;
  }

  function Pow10(n: nat): (p: nat)
    ensures p >= 1
  {
    if n == 0 then 1 else 10 * Pow10(n - 1)
  }

  // ---------------------------------------------------------------------
  // Decimal literals: Python's `Decimal(s)` on `digits[.digits]`
  // ---------------------------------------------------------------------

  /** Index of the first '.', or `|s|` when there is none. */
  function DotIndex(s: string): (k: nat)
    ensures k <= |s| && '.' !in s[..k] && (k < |s| ==> s[k] == '.')
  {
    if s == [] then 0
    else if s[0] == '.' then 0
    else
      var k := DotIndex(s[1..]);
      assert s[..k + 1] == [s[0]] + s[1..][..k];
      k + 1
  }

  /** Digits, at most one decimal point, and at least one digit: the literals `Decimal` reads here. */
  predicate IsDecimalText(s: string) {
    var k := DotIndex(s);
    && AllDigits(s[..k])
    && (k < |s| ==> AllDigits(s[k + 1..]))
    && (k > 0 || k + 1 < |s|)
  }

  /** Python's `Decimal(s)` on a plain decimal literal. */
  function DecimalValue(s: string): real
    requires IsDecimalText(s)
  {
    var k := DotIndex(s);
    var whole := DigitsValue(s[..k]) as real;
    if k == |s| then whole
    else whole + (DigitsValue(s[k + 1..]) as real) / (Pow10(|s| - k - 1) as real)
  }
}
