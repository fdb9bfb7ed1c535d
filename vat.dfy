// Swiss VAT (MWST) rates and helpers (`models/vat.py`). Amounts and rates
// are exact decimals, modelled as reals; `quantize(Decimal("0.01"))` rounds
// half to even at the cent.
module Vat {
  import opened Wrappers

  const NormalRate: real := 8.1
  const ReducedRate: real := 2.6
  const SpecialRate: real := 3.8
  const ZeroRate: real := 0.0

  /** `RATE_LABELS`, in the dictionary's order. */
  const RateLabels: seq<(real, string)> := [
    (NormalRate, "Normalsatz (8.1%)"),
    (ReducedRate, "Reduzierter Satz (2.6%)"),
    (SpecialRate, "Sondersatz Beherbergung (3.8%)"),
    (ZeroRate, "Befreit / Ausland")
  ]

  /** `RATE_LABELS.get(rate)`: decimals compare by value, so 8.10 finds 8.1. */
  function RateLabel(rate: real): (r: Option<string>)
    ensures r.Some? <==> rate in {8.1, 2.6, 3.8, 0.0}
    ensures r.Some? ==> (rate, r.value) in RateLabels
  {
    if rate == NormalRate then Some(RateLabels[0].1)
    else if rate == ReducedRate then Some(RateLabels[1].1)
    else if rate == SpecialRate then Some(RateLabels[2].1)
    else if rate == ZeroRate then Some(RateLabels[3].1)
    else None
  }

  /** The label table has exactly the four Swiss rates as keys, each once. */
  lemma RateLabelKeys()
    ensures |RateLabels| == 4
    ensures (set i | 0 <= i < |RateLabels| :: RateLabels[i].0) == {8.1, 2.6, 3.8, 0.0}
    ensures forall i, j :: 0 <= i < j < |RateLabels| ==> RateLabels[i].0 != RateLabels[j].0
  {
    var keys := set i | 0 <= i < |RateLabels| :: RateLabels[i].0;
    assert RateLabels[0].0 in keys && RateLabels[1].0 in keys;
    assert RateLabels[2].0 in keys && RateLabels[3].0 in keys;
  }

  /** `x` is a whole number of cents. */
  predicate IsCents(x: real)
  {
    (x * 100.0).Floor as real == x * 100.0
  }

  /** The difference of two whole numbers of cents is a whole number of cents. */
  lemma CentsDifference(a: real, b: real)
    requires IsCents(a) && IsCents(b)
    ensures IsCents(a - b)
  {
    var m, n := (a * 100.0).Floor, (b * 100.0).Floor;
    assert (a - b) * 100.0 == (m - n) as real;
  }

  /** Rounds a real to a whole number, ties to the even neighbour. */
  function RoundHalfEven(y: real): (n: int)
    ensures y - 0.5 <= n as real <= y + 0.5
    ensures n as real - y == 0.5 ==> n % 2 == 0
    ensures y - n as real == 0.5 ==> n % 2 == 0
  {
    var f := y.Floor;
    var frac := y - f as real;
    if frac < 0.5 then f
    else if frac > 0.5 then f + 1
    else if f % 2 == 0 then f
    else f + 1
  }

  /** `x.quantize(Decimal("0.01"))` with the default half-even rounding. */
  function RoundCents(x: real): (r: real)
    ensures IsCents(r)
    ensures x - 0.005 <= r <= x + 0.005
    ensures HalfCentTie(x, r) ==> (r * 100.0).Floor % 2 == 0
  {
    var n := RoundHalfEven(x * 100.0);
    assert (n as real / 100.0) * 100.0 == n as real;
    n as real / 100.0
  }

  /** `x` lies exactly half a cent from the cent amount `r`. */
  predicate HalfCentTie(x: real, r: real) {
    r - x == 0.005 || x - r == 0.005
  }

  lemma RoundHalfEvenOfInt(n: int)
    ensures RoundHalfEven(n as real) == n
  {
  }

  /** A whole number of cents is left as it is. */
  lemma RoundCentsOfCents(x: real)
    requires IsCents(x)
    ensures RoundCents(x) == x
  {
    RoundHalfEvenOfInt((x * 100.0).Floor);
  }

  lemma {:induction false} RoundHalfEvenMonotone(a: real, b: real)
    requires a <= b
    ensures RoundHalfEven(a) <= RoundHalfEven(b)
  {
    var fa, fb := a.Floor, b.Floor;
    if fa == fb {
    } else {
      assert fa < fb;
      assert RoundHalfEven(a) <= fa + 1 <= fb <= RoundHalfEven(b);
    }
  }

  /** Rounding to cents never reverses an order. */
  lemma RoundCentsMonotone(a: real, b: real)
    requires a <= b
    ensures RoundCents(a) <= RoundCents(b)
  {
    RoundHalfEvenMonotone(a * 100.0, b * 100.0);
  }

  /**
   * `compute_vat(gross, rate)`: zero at the zero rate; otherwise the VAT
   * contained in a gross amount, `gross * rate / (100 + rate)`, rounded to
   * cents. The division by `100 + rate` is undefined at rate -100.
   */
  function ComputeVat(gross: real, rate: real): (v: real)
    requires rate != -100.0
    ensures rate == 0.0 ==> v == 0.0
    ensures rate != 0.0 ==> IsCents(v)
    ensures rate != 0.0 ==> gross * rate / (100.0 + rate) - 0.005 <= v <= gross * rate / (100.0 + rate) + 0.005
    ensures rate != 0.0 && HalfCentTie(gross * rate / (100.0 + rate), v) ==> (v * 100.0).Floor % 2 == 0
  {
    if rate == ZeroRate then 0.0
    else RoundCents(gross * rate / (100.0 + rate))
  }

  /** `compute_net(gross, rate)`: the gross amount less its VAT. */
  function ComputeNet(gross: real, rate: real): (n: real)
    requires rate != -100.0
  {
    gross - ComputeVat(gross, rate)
  }

  /** Net and VAT always add back up to the gross amount; at rate 0 net is gross. */
  lemma NetPlusVatIsGross(gross: real, rate: real)
    requires rate != -100.0
    ensures ComputeNet(gross, rate) + ComputeVat(gross, rate) == gross
    ensures rate == 0.0 ==> ComputeNet(gross, rate) == gross
  {
  }

  lemma ShareBounds(gross: real, rate: real)
    requires gross >= 0.0 && rate >= 0.0
    ensures 0.0 <= gross * rate / (100.0 + rate) <= gross
  {
    var d := 100.0 + rate;
    assert gross * rate <= gross * d;
    assert gross * rate / d <= gross * d / d;
  }

  /**
   * For a non-negative gross amount in whole cents and a non-negative rate,
   * the VAT lies between 0 and the gross amount, so the net does too.
   */
  lemma VatWithinGross(gross: real, rate: real)
    requires gross >= 0.0 && IsCents(gross) && rate >= 0.0
    ensures 0.0 <= ComputeVat(gross, rate) <= gross
    ensures 0.0 <= ComputeNet(gross, rate) <= gross
  {
    if rate != 0.0 {
      var share := gross * rate / (100.0 + rate);
      ShareBounds(gross, rate);
      RoundCentsMonotone(0.0, share);
      RoundCentsMonotone(share, gross);
      RoundCentsOfCents(0.0);
      RoundCentsOfCents(gross);
      assert ComputeVat(gross, rate) == RoundCents(share);
    }
    var v := ComputeVat(gross, rate);
    assert 0.0 <= v <= gross;
    assert ComputeNet(gross, rate) == gross - v;
  }

  /** The normal-rate example: 8.11 gross at 8.1% holds 0.61 VAT and 7.50 net. */
  lemma NormalRateExample()
    ensures ComputeVat(8.11, NormalRate) == 0.61
    ensures ComputeNet(8.11, NormalRate) == 7.50
  {
    var share := 8.11 * 8.1 / 108.1;
    assert 60.5 < share * 100.0 < 61.5;
    assert RoundHalfEven(share * 100.0) == 61;
  }

  /**
   * A VAT share of exactly half a cent goes to the even cent: 0.005 gives
   * 0.00 and 0.015 gives 0.02, as `Decimal.quantize` rounds.
   */
  lemma TieToEvenExample()
    ensures ComputeVat(0.01, 100.0) == 0.0
    ensures ComputeVat(0.03, 100.0) == 0.02
  {
    assert 0.01 * 100.0 / 200.0 * 100.0 == 0.5;
    assert RoundHalfEven(0.5) == 0;
    assert 0.03 * 100.0 / 200.0 * 100.0 == 1.5;
    assert RoundHalfEven(1.5) == 2;
  }
}
