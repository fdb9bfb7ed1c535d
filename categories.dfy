// The Swiss KMU chart of expense accounts (`models/categories.py`): a fixed,
// insertion-ordered table keyed by account number, a lookup and the listing
// sorted by number.
module Categories {
  import opened Wrappers
  import Sorting

  /** An account of the chart; a value, so it can never be changed in place. */
  datatype KmuAccount = KmuAccount(number: int, name: string, description: string)

  /** `KMU_ACCOUNTS`, as (key, account) pairs in the dictionary's order. */
  const KmuAccounts: seq<(int, KmuAccount)> := [
    (6000, KmuAccount(6000, "Mietaufwand", "Office rent")),
    (6200, KmuAccount(6200, "Reparatur und Unterhalt", "Repairs and maintenance")),
    (6300, KmuAccount(6300, "Versicherungen", "Insurance premiums")),
    (6400, KmuAccount(6400, "Energie und Entsorgung", "Energy, utilities")),
    (6500, KmuAccount(6500, "Verwaltungsaufwand", "General admin expenses")),
    (6510, KmuAccount(6510, "Büromaterial", "Office supplies")),
    (6520, KmuAccount(6520, "Drucksachen", "Printed materials")),
    (6530, KmuAccount(6530, "Fachliteratur", "Professional literature")),
    (6540, KmuAccount(6540, "Spesen und Reisen", "Travel expenses")),
    (6570, KmuAccount(6570, "Lizenzen und Patente", "Domains, software licenses")),
    (6580, KmuAccount(6580, "Beratungsaufwand", "Consulting fees")),
    (6600, KmuAccount(6600, "Werbeaufwand", "Marketing and advertising")),
    (6700, KmuAccount(6700, "Übriger Betriebsaufwand", "Other operating expenses")),
    (6800, KmuAccount(6800, "Informatikaufwand", "IT expenses (general)")),
    (6810, KmuAccount(6810, "Informatik-Infrastruktur", "Hosting, servers, hardware")),
    (6820, KmuAccount(6820, "Informatik-Dienstleistungen", "API/SaaS/AI credits, dev services")),
    (6830, KmuAccount(6830, "Telekommunikation", "SMS, voice, phone, telecom API")),
    (6840, KmuAccount(6840, "Domänen und Hosting", "Domain registration, DNS hosting")),
    (6850, KmuAccount(6850, "Software-Abonnemente", "SaaS subscriptions, cloud tools"))
  ]

  /** The keys of a table, in order. */
  function Keys<K, V>(table: seq<(K, V)>): (ks: seq<K>)
    ensures |ks| == |table|
  {
    seq(|table|, i requires 0 <= i < |table| => table[i].0)
  }

  /** `dict.values()`, in order. */
  function Values<K, V>(table: seq<(K, V)>): (vs: seq<V>)
    ensures |vs| == |table|
  {
    seq(|table|, i requires 0 <= i < |table| => table[i].1)
  }

  /** The position of the first entry with key `key`, or `|table|` if none. */
  function FindKey<K(==), V>(table: seq<(K, V)>, key: K): (i: nat)
    ensures i <= |table|
    ensures i < |table| ==> table[i].0 == key
    ensures forall j :: 0 <= j < i ==> table[j].0 != key
  {
    if table == [] then 0
    else if table[0].0 == key then 0
    else 1 + FindKey(table[1..], key)
  }

  /** `dict.get(key)` on a table. */
  function Lookup<K(==), V>(table: seq<(K, V)>, key: K): (r: Option<V>)
    ensures r.Some? <==> key in Keys(table)
  {
    var i := FindKey(table, key);
    assert i < |table| ==> Keys(table)[i] == key;
    if i < |table| then Some(table[i].1) else None
  }

  /** When no earlier entry has an entry's key, the lookup finds that entry. */
  lemma LookupOfKey<K, V>(table: seq<(K, V)>, i: nat)
    requires i < |table|
    requires forall j :: 0 <= j < i ==> table[j].0 != table[i].0
    ensures Lookup(table, table[i].0) == Some(table[i].1)
  {
    var f := FindKey(table, table[i].0);
    assert f <= i;
    assert f >= i;
  }

  /** `get_account(number)`. */
  function GetAccount(number: int): Option<KmuAccount>
  {
    Lookup(KmuAccounts, number)
  }

  /** The listing key: the account number. */
  function NumberLe(a: KmuAccount, b: KmuAccount): bool
  {
    a.number <= b.number
  }

  /** `list_accounts()`: the accounts sorted by number. */
  function ListAccounts(): seq<KmuAccount>
  {
    Sorting.SortBy(Values(KmuAccounts), NumberLe)
  }

  /** The numbers of the table's accounts strictly increase along it. */
  predicate StrictlyAscending(accounts: seq<KmuAccount>)
  {
    forall i, j :: 0 <= i < j < |accounts| ==> accounts[i].number < accounts[j].number
  }

  lemma {:induction false} AdjacentAscending(accounts: seq<KmuAccount>)
    requires forall k :: 0 <= k < |accounts| - 1 ==> accounts[k].number < accounts[k + 1].number
    ensures StrictlyAscending(accounts)
    decreases |accounts|
  {
    if |accounts| > 1 {
      var front := accounts[..|accounts| - 1];
      AdjacentAscending(front);
      forall i, j | 0 <= i < j < |accounts|
        ensures accounts[i].number < accounts[j].number
      {
        if j == |accounts| - 1 && i < j - 1 {
          assert front[i].number < front[j - 1].number;
        }
      }
    }
  }

  /** Every entry's account carries its own key as its number, in 6000-6999. */
  lemma CatalogueWellFormed()
    ensures |KmuAccounts| == 19
    ensures forall i :: 0 <= i < |KmuAccounts| ==> KmuAccounts[i].1.number == KmuAccounts[i].0
    ensures forall i :: 0 <= i < |KmuAccounts| ==> 6000 <= KmuAccounts[i].0 <= 6999
  {
  }

  /** Every account's name starts with a letter other than 'U'. */
  lemma CatalogueNameInitials()
    ensures forall i :: 0 <= i < |KmuAccounts| ==> |KmuAccounts[i].1.name| > 0 && KmuAccounts[i].1.name[0] != 'U'
  {
  }

  /** The table is already in ascending key order, so its keys are distinct. */
  lemma CatalogueAscending()
    ensures StrictlyAscending(Values(KmuAccounts))
  {
    var vs := Values(KmuAccounts);
    assert forall k :: 0 <= k < |vs| - 1 ==> vs[k].number < vs[k + 1].number;
    AdjacentAscending(vs);
  }

  lemma CatalogueKeysDistinct()
    ensures forall j, k :: 0 <= j < k < |KmuAccounts| ==> KmuAccounts[j].0 != KmuAccounts[k].0
  {
    CatalogueAscending();
    CatalogueWellFormed();
    var vs := Values(KmuAccounts);
    forall j, k | 0 <= j < k < |KmuAccounts|
      ensures KmuAccounts[j].0 != KmuAccounts[k].0
    {
      assert vs[j].number < vs[k].number;
    }
  }

  /**
   * `get_account(n)` is the entry keyed `n`, whose number is `n`, when the
   * catalogue has one, and None otherwise.
   */
  lemma GetAccountSpec(n: int)
    ensures GetAccount(n).Some? <==> n in Keys(KmuAccounts)
    ensures GetAccount(n).Some? ==> GetAccount(n).value.number == n
    ensures GetAccount(n).Some? ==> 6000 <= n <= 6999
  {
    CatalogueWellFormed();
    var i := FindKey(KmuAccounts, n);
    if i < |KmuAccounts| {
      assert GetAccount(n).value == KmuAccounts[i].1;
    }
  }

  /**
   * `list_accounts()` holds every one of the 19 accounts exactly once, in
   * strictly ascending number order.
   */
  lemma ListAccountsSpec()
    ensures |ListAccounts()| == 19
    ensures multiset(ListAccounts()) == multiset(Values(KmuAccounts))
    ensures StrictlyAscending(ListAccounts())
  {
    CatalogueAscending();
    var vs := Values(KmuAccounts);
    assert Sorting.SortedBy(vs, NumberLe);
    Sorting.SortByOfSorted(vs, NumberLe);
  }

  /** The catalogue lookup of any entry's key finds that entry. */
  lemma GetAccountOfEntry(i: nat)
    requires i < |KmuAccounts|
    ensures GetAccount(KmuAccounts[i].0) == Some(KmuAccounts[i].1)
  {
    CatalogueKeysDistinct();
    LookupOfKey(KmuAccounts, i);
  }

  /** The catalogue has account `number`, and it is called `name`. */
  predicate InCatalogue(number: int, name: string)
  {
    GetAccount(number).Some? && GetAccount(number).value.name == name
  }

  /** Every catalogue entry's key finds an account of that name. */
  lemma EntryInCatalogue(i: nat)
    requires i < |KmuAccounts|
    ensures InCatalogue(KmuAccounts[i].0, KmuAccounts[i].1.name)
  {
    GetAccountOfEntry(i);
  }

  /** 6810, the account the Hetzner parser books to, is "Informatik-Infrastruktur". */
  lemma InfrastructureAccount(n: int, name: string)
    requires n == 6810 && name == "Informatik-Infrastruktur"
    ensures InCatalogue(n, name)
  {
    assert n == KmuAccounts[14].0 && name == KmuAccounts[14].1.name;
    EntryInCatalogue(14);
  }

  /** 6820, the account of the AI and API vendors, is "Informatik-Dienstleistungen". */
  lemma ServicesAccount(n: int, name: string)
    requires n == 6820 && name == "Informatik-Dienstleistungen"
    ensures InCatalogue(n, name)
  {
    assert n == KmuAccounts[15].0 && name == KmuAccounts[15].1.name;
    EntryInCatalogue(15);
  }

  /** 6830, the Twilio account, is "Telekommunikation". */
  lemma TelecomAccount(n: int, name: string)
    requires n == 6830 && name == "Telekommunikation"
    ensures InCatalogue(n, name)
  {
    assert n == KmuAccounts[16].0 && name == KmuAccounts[16].1.name;
    EntryInCatalogue(16);
  }

  /** 6840, the Namecheap account, is "Domänen und Hosting". */
  lemma DomainsAccount(n: int, name: string)
    requires n == 6840 && name == "Domänen und Hosting"
    ensures InCatalogue(n, name)
  {
    assert n == KmuAccounts[17].0 && name == KmuAccounts[17].1.name;
    EntryInCatalogue(17);
  }

  /** 6850, the Infomaniak account, is "Software-Abonnemente". */
  lemma SubscriptionsAccount(n: int, name: string)
    requires n == 6850 && name == "Software-Abonnemente"
    ensures InCatalogue(n, name)
  {
    assert n == KmuAccounts[18].0 && name == KmuAccounts[18].1.name;
    EntryInCatalogue(18);
  }
}
