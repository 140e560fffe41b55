/** buildMonthDetailVendorItems: the five largest vendors of a month, the rest folded into one row.
    Amounts are exact decimals. */
module VendorBreakdown {
  import opened Text

  datatype Vendor = Vendor(name: string, amount: real, count: nat)

  datatype Item = Item(name: string, amount: real, count: nat, isOther: bool)

  const VENDOR_LIMIT := 5

  /** The display name of the folded row. */
  const OTHER := "\U{305d}\U{306e}\U{4ed6}"

  // ---------------------------------------------------------------------------------------
  // The ranking
  // ---------------------------------------------------------------------------------------

  /** Go's string order: code point by code point. */
  predicate NameBefore(a: string, b: string) {
    if a == [] then b != []
    else b != [] && (a[0] < b[0] || (a[0] == b[0] && NameBefore(a[1..], b[1..])))
  }

  /** Larger amount first, then more billings, then the name. */
  predicate RanksBefore(a: Vendor, b: Vendor) {
    if a.amount != b.amount then a.amount > b.amount
    else if a.count != b.count then a.count > b.count
    else NameBefore(a.name, b.name)
  }

  lemma {:induction false} NamesCompare(a: string, b: string)
    ensures a == b <==> !NameBefore(a, b) && !NameBefore(b, a)
    ensures !(NameBefore(a, b) && NameBefore(b, a))
  {
    if a != [] && b != [] && a[0] == b[0] {
      NamesCompare(a[1..], b[1..]);
      assert a == [a[0]] + a[1..] && b == [b[0]] + b[1..];
    }
  }

  lemma {:induction false} NamesTransitive(a: string, b: string, c: string)
    requires NameBefore(a, b) && NameBefore(b, c)
    ensures NameBefore(a, c)
  {
    if a != [] && a[0] == b[0] && b[0] == c[0] {
      NamesTransitive(a[1..], b[1..], c[1..]);
    }
  }

  /** Equal rank means equal vendors: the ranking is a strict total order. */
  lemma RanksCompare(a: Vendor, b: Vendor)
    ensures a == b <==> !RanksBefore(a, b) && !RanksBefore(b, a)
    ensures !(RanksBefore(a, b) && RanksBefore(b, a))
  {
    NamesCompare(a.name, b.name);
  }

  lemma RanksTransitive(a: Vendor, b: Vendor, c: Vendor)
    requires !RanksBefore(b, a) && !RanksBefore(c, b)
    ensures !RanksBefore(c, a)
  {
    RanksCompare(a, b);
    RanksCompare(b, c);
    RanksCompare(a, c);
    if a.name != b.name && b.name != c.name && NameBefore(a.name, b.name) && NameBefore(b.name, c.name) {
      NamesTransitive(a.name, b.name, c.name);
    }
  }

  ghost predicate Ranked(s: seq<Vendor>) {
    forall i, j :: 0 <= i < j < |s| ==> !RanksBefore(s[j], s[i])
  }

  lemma SameFirst(a: seq<Vendor>, b: seq<Vendor>)
    requires Ranked(a) && Ranked(b) && multiset(a) == multiset(b) && a != [] && b != []
    ensures a[0] == b[0]
  {
    assert a[0] in multiset(b) && b[0] in multiset(a);
    var i :| 0 <= i < |b| && b[i] == a[0];
    var j :| 0 <= j < |a| && a[j] == b[0];
    RanksCompare(a[0], b[0]);
  }

  /** There is only one way to rank the same vendors. */
  lemma {:induction false} RankedUnique(a: seq<Vendor>, b: seq<Vendor>)
    requires Ranked(a) && Ranked(b) && multiset(a) == multiset(b)
    ensures a == b
  {
    SameLength(a, b);
    if a != [] {
      SameFirst(a, b);
      assert a == [a[0]] + a[1..] && b == [b[0]] + b[1..];
      SameLeft(multiset(a), multiset(a[1..]), multiset(b[1..]), a[0]);
      RankedUnique(a[1..], b[1..]);
    }
  }

  // ---------------------------------------------------------------------------------------
  // Sorting
  // ---------------------------------------------------------------------------------------

  function Insert(v: Vendor, s: seq<Vendor>): seq<Vendor> {
    if s == [] || !RanksBefore(s[0], v) then [v] + s else [s[0]] + Insert(v, s[1..])
  }

  /** What sort.Slice makes of the vendors; by `RankedUnique` any correct sort gives the same. */
  function Sort(s: seq<Vendor>): seq<Vendor> {
    if s == [] then [] else Insert(s[0], Sort(s[1..]))
  }

  lemma {:induction false} InsertKeepsAll(v: Vendor, s: seq<Vendor>)
    ensures multiset(Insert(v, s)) == multiset(s) + multiset{v}
  {
    if s != [] && RanksBefore(s[0], v) {
      InsertKeepsAll(v, s[1..]);
      assert s == [s[0]] + s[1..];
    }
  }

  lemma RanksFirst(v: Vendor, s: seq<Vendor>)
    requires Ranked(s) && s != [] && !RanksBefore(s[0], v)
    ensures Ranked([v] + s)
  {
    forall j | 0 <= j < |s|
      ensures !RanksBefore(s[j], v)
    {
      if j > 0 {
        RanksTransitive(v, s[0], s[j]);
      }
    }
  }

  lemma {:induction false} InsertRanked(v: Vendor, s: seq<Vendor>)
    requires Ranked(s)
    ensures Ranked(Insert(v, s))
  {
    if s != [] {
      if RanksBefore(s[0], v) {
        InsertRanked(v, s[1..]);
        InsertKeepsAll(v, s[1..]);
        RanksCompare(s[0], v);
        var rest := Insert(v, s[1..]);
        forall j | 0 <= j < |rest|
          ensures !RanksBefore(rest[j], s[0])
        {
          assert rest[j] in multiset(rest);
          assert rest[j] == v || rest[j] in s[1..];
        }
      } else {
        RanksFirst(v, s);
      }
    }
  }

  lemma {:induction false} SortRanks(s: seq<Vendor>)
    ensures Ranked(Sort(s)) && multiset(Sort(s)) == multiset(s)
  {
    if s != [] {
      SortRanks(s[1..]);
      InsertRanked(s[0], Sort(s[1..]));
      InsertKeepsAll(s[0], Sort(s[1..]));
      assert s == [s[0]] + s[1..];
    }
  }

  // ---------------------------------------------------------------------------------------
  // The breakdown
  // ---------------------------------------------------------------------------------------

  function TrimNames(s: seq<Vendor>): seq<Vendor> {
    if s == [] then [] else [s[0].(name := Trim(s[0].name))] + TrimNames(s[1..])
  }

  function Amounts(s: seq<Vendor>): real {
    if s == [] then 0.0 else s[0].amount + Amounts(s[1..])
  }

  function Counts(s: seq<Vendor>): nat {
    if s == [] then 0 else s[0].count + Counts(s[1..])
  }

  function Listed(s: seq<Vendor>): seq<Item> {
    seq(|s|, i requires 0 <= i < |s| => Item(s[i].name, s[i].amount, s[i].count, false))
  }

  function VendorItems(items: seq<Vendor>): seq<Item> {
    var s := Sort(TrimNames(items));
    if |s| <= VENDOR_LIMIT then Listed(s)
    else
      var folded := s[VENDOR_LIMIT..];
      Listed(s[..VENDOR_LIMIT]) + [Item(OTHER, Amounts(folded), Counts(folded), true)]
  }

  method BuildMonthDetailVendorItems(items: seq<Vendor>) returns (result: seq<Item>)
    ensures result == VendorItems(items)
  {
    if items == [] {
      return [];
    }
    var trimmed := [];
    for i := 0 to |items|
      invariant TrimNames(items) == trimmed + TrimNames(items[i..])
    {
      assert items[i..][1..] == items[i + 1..];
      trimmed := trimmed + [Vendor(Trim(items[i].name), items[i].amount, items[i].count)];
    }
    assert items[|items|..] == [] && TrimNames(items) == trimmed;
    var sorted := Sort(trimmed);
    var limit := if |sorted| < VENDOR_LIMIT then |sorted| else VENDOR_LIMIT;
    result := [];
    for i := 0 to limit
      invariant result == Listed(sorted[..i])
    {
      result := result + [Item(sorted[i].name, sorted[i].amount, sorted[i].count, false)];
    }
    if |sorted| <= VENDOR_LIMIT {
      assert sorted[..limit] == sorted;
      return;
    }
    var amount, count := 0.0, 0;
    var folded := sorted[VENDOR_LIMIT..];
    for i := 0 to |folded|
      invariant Amounts(folded) == amount + Amounts(folded[i..])
      invariant Counts(folded) == count + Counts(folded[i..])
    {
      assert folded[i..][1..] == folded[i + 1..];
      amount := amount + folded[i].amount;
      count := count + folded[i].count;
    }
    assert folded[|folded|..] == [];
    result := result + [Item(OTHER, amount, count, true)];
  }

  function ItemAmounts(s: seq<Item>): real {
    if s == [] then 0.0 else s[0].amount + ItemAmounts(s[1..])
  }

  function ItemCounts(s: seq<Item>): nat {
    if s == [] then 0 else s[0].count + ItemCounts(s[1..])
  }

  lemma {:induction false} InsertTotals(v: Vendor, s: seq<Vendor>)
    ensures Amounts(Insert(v, s)) == v.amount + Amounts(s) && Counts(Insert(v, s)) == v.count + Counts(s)
    ensures |Insert(v, s)| == |s| + 1
  {
    if s != [] && RanksBefore(s[0], v) {
      InsertTotals(v, s[1..]);
    }
  }

  lemma {:induction false} SortTotals(s: seq<Vendor>)
    ensures Amounts(Sort(TrimNames(s))) == Amounts(s) && Counts(Sort(TrimNames(s))) == Counts(s)
    ensures |Sort(TrimNames(s))| == |s|
  {
    if s != [] {
      SortTotals(s[1..]);
      InsertTotals(TrimNames(s)[0], Sort(TrimNames(s[1..])));
    }
  }

  lemma {:induction false} ListedTotals(s: seq<Vendor>, rest: seq<Item>)
    ensures ItemAmounts(Listed(s) + rest) == Amounts(s) + ItemAmounts(rest)
    ensures ItemCounts(Listed(s) + rest) == Counts(s) + ItemCounts(rest)
  {
    if s == [] {
      assert Listed(s) + rest == rest;
    } else {
      ListedTotals(s[1..], rest);
      assert (Listed(s) + rest)[1..] == Listed(s[1..]) + rest;
    }
  }

  lemma {:induction false} TotalsSplit(s: seq<Vendor>, n: nat)
    requires n <= |s|
    ensures Amounts(s) == Amounts(s[..n]) + Amounts(s[n..]) && Counts(s) == Counts(s[..n]) + Counts(s[n..])
  {
    if n > 0 {
      TotalsSplit(s[1..], n - 1);
      assert s[1..][..n - 1] == s[..n][1..] && s[1..][n - 1..] == s[n..];
    } else {
      assert s[n..] == s;
    }
  }

  /** The breakdown shows all money and all billings, in at most five rows plus one, and the extra
      row is there exactly when there are more than five vendors. */
  lemma BreakdownConserves(items: seq<Vendor>)
    ensures var r := VendorItems(items);
      && ItemAmounts(r) == Amounts(items) && ItemCounts(r) == Counts(items)
      && |r| == (if |items| <= VENDOR_LIMIT then |items| else VENDOR_LIMIT + 1)
      && forall i :: 0 <= i < |r| ==> (r[i].isOther <==> i == VENDOR_LIMIT)
  {
    var s := Sort(TrimNames(items));
    SortTotals(items);
    if |s| <= VENDOR_LIMIT {
      ListedTotals(s, []);
      assert Listed(s) + [] == Listed(s);
    } else {
      var folded := s[VENDOR_LIMIT..];
      ListedTotals(s[..VENDOR_LIMIT], [Item(OTHER, Amounts(folded), Counts(folded), true)]);
      TotalsSplit(s, VENDOR_LIMIT);
    }
  }

  lemma {:induction false} TrimNamesAppend(a: seq<Vendor>, b: seq<Vendor>)
    ensures TrimNames(a + b) == TrimNames(a) + TrimNames(b)
  {
    if a == [] {
      assert a + b == b;
    } else {
      assert (a + b)[1..] == a[1..] + b;
      TrimNamesAppend(a[1..], b);
    }
  }

  lemma TakeOut(b: seq<Vendor>, i: nat) returns (rest: seq<Vendor>)
    requires i < |b|
    ensures rest == b[..i] + b[i + 1..]
    ensures multiset(b) == multiset(rest) + multiset{b[i]}
    ensures multiset(TrimNames(b)) == multiset(TrimNames(rest)) + multiset{b[i].(name := Trim(b[i].name))}
  {
    var before, after := b[..i], b[i + 1..];
    rest := before + after;
    assert b == before + [b[i]] + after;
    TrimNamesAppend(before, after);
    TrimNamesAppend(before + [b[i]], after);
    TrimNamesAppend(before, [b[i]]);
  }

  lemma SameLength(a: seq<Vendor>, b: seq<Vendor>)
    requires multiset(a) == multiset(b)
    ensures |a| == |b|
  {
    assert |a| == |multiset(a)| == |multiset(b)| == |b|;
  }

  lemma SameLeft(whole: multiset<Vendor>, a: multiset<Vendor>, b: multiset<Vendor>, v: Vendor)
    requires whole == a + multiset{v} && whole == b + multiset{v}
    ensures a == b
  {
    assert a == whole - multiset{v} && b == whole - multiset{v};
  }

  /** Trimming does not depend on the order the vendors come in. */
  lemma {:induction false} TrimNamesMultiset(a: seq<Vendor>, b: seq<Vendor>)
    requires multiset(a) == multiset(b)
    ensures multiset(TrimNames(a)) == multiset(TrimNames(b))
  {
    SameLength(a, b);
    if a != [] {
      assert a[0] in multiset(b);
      var i :| 0 <= i < |b| && b[i] == a[0];
      var restA := TakeOut(a, 0);
      var restB := TakeOut(b, i);
      SameLeft(multiset(a), multiset(restA), multiset(restB), a[0]);
      TrimNamesMultiset(restA, restB);
    }
  }

  /** The breakdown depends only on which vendors there are, not on their order. */
  lemma BreakdownIgnoresOrder(a: seq<Vendor>, b: seq<Vendor>)
    requires multiset(a) == multiset(b)
    ensures VendorItems(a) == VendorItems(b)
  {
    TrimNamesMultiset(a, b);
    SortRanks(TrimNames(a));
    SortRanks(TrimNames(b));
    RankedUnique(Sort(TrimNames(a)), Sort(TrimNames(b)));
  }

  /** The listed vendors are in rank order, and each ranks at or above every folded one; listed and
      folded together are the given vendors. */
  lemma ListedRankFirst(items: seq<Vendor>) returns (listed: seq<Vendor>, folded: seq<Vendor>)
    ensures multiset(listed) + multiset(folded) == multiset(TrimNames(items))
    ensures Ranked(listed)
      && forall i, j :: 0 <= i < |listed| && 0 <= j < |folded| ==> !RanksBefore(folded[j], listed[i])
    ensures |listed| <= VENDOR_LIMIT && (folded != [] ==> |listed| == VENDOR_LIMIT)
    ensures VendorItems(items) ==
      Listed(listed) + if folded == [] then [] else [Item(OTHER, Amounts(folded), Counts(folded), true)]
  {
    var s := Sort(TrimNames(items));
    SortRanks(TrimNames(items));
    var n := if |s| <= VENDOR_LIMIT then |s| else VENDOR_LIMIT;
    listed, folded := s[..n], s[n..];
    assert s == listed + folded;
    forall i, j | 0 <= i < |listed| && 0 <= j < |folded|
      ensures !RanksBefore(folded[j], listed[i])
    {
      assert folded[j] == s[n + j] && listed[i] == s[i];
    }
    if folded == [] {
      assert listed == s && Listed(s) + [] == Listed(s);
    }
  }

  // ---------------------------------------------------------------------------------------
  // What the rows show
  // ---------------------------------------------------------------------------------------

  /** Up to the first difference the texts are the same, and there `a` ends or has the smaller character. */
  ghost predicate ComesFirst(a: string, b: string) {
    exists k: nat :: DifferAt(a, b, k)
  }

  predicate DifferAt(a: string, b: string, k: nat) {
    k <= |a| && k < |b| && a[..k] == b[..k] && (k == |a| || a[k] < b[k])
  }

  lemma {:induction false} NameBeforeMeans(a: string, b: string)
    ensures NameBefore(a, b) <==> ComesFirst(a, b)
  {
    if b != [] && (a == [] || a[0] < b[0]) {
      assert DifferAt(a, b, 0);
    } else if a != [] && b != [] && a[0] == b[0] {
      NameBeforeMeans(a[1..], b[1..]);
      if k: nat :| DifferAt(a[1..], b[1..], k) {
        assert a[..k + 1] == [a[0]] + a[1..][..k] && b[..k + 1] == [b[0]] + b[1..][..k];
        assert DifferAt(a, b, k + 1);
      }
      if k: nat :| DifferAt(a, b, k) {
        DifferLater(a, b, k);
      }
    }
  }

  lemma DifferLater(a: string, b: string, k: nat)
    requires a != [] && b != [] && a[0] == b[0] && DifferAt(a, b, k)
    ensures ComesFirst(a[1..], b[1..])
  {
    assert a[1..][..k - 1] == a[..k][1..] && b[1..][..k - 1] == b[..k][1..];
    assert DifferAt(a[1..], b[1..], k - 1);
  }

  /** `a` belongs above `b`: more money, or as much in more billings, or both the same and the name that
      comes first. */
  ghost predicate Above(a: Vendor, b: Vendor) {
    || a.amount > b.amount
    || (a.amount == b.amount && a.count > b.count)
    || (a.amount == b.amount && a.count == b.count && (a.name == b.name || ComesFirst(a.name, b.name)))
  }

  lemma AboveMeans(a: Vendor, b: Vendor)
    requires !RanksBefore(b, a)
    ensures Above(a, b)
  {
    NamesCompare(a.name, b.name);
    NameBeforeMeans(a.name, b.name);
  }

  /** The row of a listed vendor. */
  predicate ShowsListed(row: Item, v: Vendor) {
    row == Item(v.name, v.amount, v.count, false)
  }

  lemma {:induction false} TrimmedNames(items: seq<Vendor>)
    ensures |TrimNames(items)| == |items|
    ensures forall i :: 0 <= i < |items| ==> TrimNames(items)[i] == items[i].(name := Trim(items[i].name))
  {
    if items != [] {
      TrimmedNames(items[1..]);
    }
  }

  /** The first rows show the vendors that belong above all others, in that order, under their trimmed
      names; a sixth row, if any, is the other row with the sums of the rest. */
  lemma LargestListed(items: seq<Vendor>) returns (listed: seq<Vendor>, folded: seq<Vendor>)
    ensures multiset(listed) + multiset(folded) == multiset(TrimNames(items))
    ensures |TrimNames(items)| == |items|
    ensures forall i :: 0 <= i < |items| ==> TrimNames(items)[i] == items[i].(name := Trim(items[i].name))
    ensures |listed| <= 5 && (folded != [] ==> |listed| == 5)
    ensures forall i, j :: 0 <= i < j < |listed| ==> Above(listed[i], listed[j])
    ensures forall i, j :: 0 <= i < |listed| && 0 <= j < |folded| ==> Above(listed[i], folded[j])
    ensures var rows := VendorItems(items);
      && |rows| == |listed| + (if folded == [] then 0 else 1)
      && (forall i :: 0 <= i < |listed| ==> ShowsListed(rows[i], listed[i]))
      && (folded != [] ==> rows[5] == Item(OTHER, Amounts(folded), Counts(folded), true))
  {
    listed, folded := ListedRankFirst(items);
    TrimmedNames(items);
    forall i, j | 0 <= i < j < |listed|
      ensures Above(listed[i], listed[j])
    {
      AboveMeans(listed[i], listed[j]);
    }
    forall i, j | 0 <= i < |listed| && 0 <= j < |folded|
      ensures Above(listed[i], folded[j])
    {
      AboveMeans(listed[i], folded[j]);
    }
  }

  /** The sums add one vendor at a time. */
  lemma SumsMean(vs: seq<Vendor>, v: Vendor)
    ensures Amounts([]) == 0.0 && Counts([]) == 0
    ensures Amounts([v] + vs) == v.amount + Amounts(vs) && Counts([v] + vs) == v.count + Counts(vs)
  {
    assert ([v] + vs)[1..] == vs;
  }
}
