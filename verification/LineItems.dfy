/** Optional strings and product rows, as parsed emails and billings both carry them. */
module LineItems {
  import opened Options
  import opened Text
  import opened Filtering

  /** A float64: a number, or NaN or an infinity. */
  datatype Amount = Finite(value: real) | NotFinite

  predicate AtMostThreeDecimals(a: real) {
    (a * 1000.0).Floor as real == a * 1000.0
  }

  datatype LineItem = LineItem(
    raw: Option<string>, display: Option<string>, amount: Option<Amount>, currency: Option<string>)

  function TrimOptional(s: Option<string>): Option<string> {
    if s.None? || Trim(s.value) == "" then None else Some(Trim(s.value))
  }

  function UpperOptional(s: Option<string>): Option<string> {
    var t := TrimOptional(s);
    if t.None? then None else Some(Upper(t.value))
  }

  function Normalize(item: LineItem): LineItem {
    LineItem(TrimOptional(item.raw), TrimOptional(item.display), item.amount, UpperOptional(item.currency))
  }

  predicate IsEmpty(item: LineItem) {
    item == LineItem(None, None, None, None)
  }

  lemma OptionalsTwice(s: Option<string>)
    ensures TrimOptional(TrimOptional(s)) == TrimOptional(s)
    ensures UpperOptional(UpperOptional(s)) == UpperOptional(s)
  {
    if TrimOptional(s).Some? {
      var t := Trim(s.value);
      TrimTwice(s.value);
      TrimIsTrimmed(s.value);
      UpperOfTrimmed(t);
      TrimmedStays(Upper(t));
    }
  }

  lemma NormalizeTwice(item: LineItem)
    ensures Normalize(Normalize(item)) == Normalize(item)
  {
    OptionalsTwice(item.raw);
    OptionalsTwice(item.display);
    OptionalsTwice(item.currency);
  }

  /** The rows that say something, normalised. */
  function NormalizeItems(items: seq<LineItem>): seq<LineItem> {
    if items == [] then []
    else
      var item := Normalize(items[|items| - 1]);
      NormalizeItems(items[..|items| - 1]) + if IsEmpty(item) then [] else [item]
  }

  predicate Settled(items: seq<LineItem>) {
    forall i :: 0 <= i < |items| ==> Normalize(items[i]) == items[i] && !IsEmpty(items[i])
  }

  lemma {:induction false} NormalizeItemsSettles(items: seq<LineItem>)
    ensures Settled(NormalizeItems(items))
    ensures NormalizeItems(items) == [] <==> forall i :: 0 <= i < |items| ==> IsEmpty(Normalize(items[i]))
  {
    if items != [] {
      var before := items[..|items| - 1];
      NormalizeItemsSettles(before);
      NormalizeTwice(items[|items| - 1]);
      assert forall i :: 0 <= i < |before| ==> before[i] == items[i];
    }
  }

  lemma {:induction false} SettledStays(items: seq<LineItem>)
    requires Settled(items)
    ensures NormalizeItems(items) == items
  {
    if items != [] {
      SettledStays(items[..|items| - 1]);
    }
  }

  method NormalizeLineItems(items: seq<LineItem>) returns (r: seq<LineItem>)
    ensures r == NormalizeItems(items)
  {
    r := [];
    for i := 0 to |items|
      invariant r == NormalizeItems(items[..i])
    {
      assert items[..i + 1][..i] == items[..i];
      var item := Normalize(items[i]);
      if !IsEmpty(item) {
        r := r + [item];
      }
    }
    assert items[..|items|] == items;
  }

  // ---------------------------------------------------------------------------------------
  // What normalising keeps
  // ---------------------------------------------------------------------------------------

  /** No text, or white space only. */
  ghost predicate SaysNothing(s: Option<string>) {
    s.None? || AllSpace(s.value)
  }

  /** `t` is the text without the white space around it, if it says anything. */
  ghost predicate IsTrimmed(t: Option<string>, s: Option<string>) {
    if SaysNothing(s) then t == None else t == Some(Trim(s.value))
  }

  /** The same in capital letters. */
  ghost predicate IsTrimmedUpper(t: Option<string>, s: Option<string>) {
    if SaysNothing(s) then t == None else t == Some(Upper(Trim(s.value)))
  }

  /** `n` is the product row in normal form: names trimmed, currency in capitals, the amount as it is. */
  ghost predicate IsNormalOf(n: LineItem, item: LineItem) {
    && IsTrimmed(n.raw, item.raw) && IsTrimmed(n.display, item.display)
    && n.amount == item.amount && IsTrimmedUpper(n.currency, item.currency)
  }

  ghost predicate SaysSomething(item: LineItem) {
    !SaysNothing(item.raw) || !SaysNothing(item.display) || item.amount.Some? || !SaysNothing(item.currency)
  }

  lemma OptionalMeans(s: Option<string>)
    ensures IsTrimmed(TrimOptional(s), s) && IsTrimmedUpper(UpperOptional(s), s)
  {
    if s.Some? {
      BlankMeans(s.value);
    }
  }

  lemma NormalMeans(item: LineItem)
    ensures IsNormalOf(Normalize(item), item) && (IsEmpty(Normalize(item)) <==> !SaysSomething(item))
  {
    OptionalMeans(item.raw);
    OptionalMeans(item.display);
    OptionalMeans(item.currency);
  }

  /** Exactly the rows that say something are kept, in order and in normal form. */
  ghost predicate KeepsRows(kept: seq<LineItem>, items: seq<LineItem>) {
    Keeps(kept, items, SaysSomething, IsNormalOf)
  }

  lemma {:induction false} ItemsKept(items: seq<LineItem>)
    ensures KeepsRows(NormalizeItems(items), items)
  {
    if items != [] {
      var last := |items| - 1;
      ItemsKept(items[..last]);
      NormalMeans(items[last]);
      OneMore(NormalizeItems(items[..last]), NormalizeItems(items), items, SaysSomething, IsNormalOf,
              Normalize(items[last]));
    }
  }
}
