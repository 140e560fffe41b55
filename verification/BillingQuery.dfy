/** The two billing read models over the same tables: the 12-month trend and the detail of one
    month. Times are UTC: a month index (12 * year + month) and an offset inside the month. */
module BillingQuery {
  import opened Options
  import opened VendorBreakdown

  datatype Instant = Instant(month: int, offset: nat)

  predicate AtOrAfter(t: Instant, bound: Instant) {
    t.month > bound.month || (t.month == bound.month && t.offset >= bound.offset)
  }

  function MonthStart(month: int): Instant {
    Instant(month, 0)
  }

  datatype BillingRow = BillingRow(id: nat, user: nat, vendor: nat, dated: bool, summary: Instant)
  datatype LineRow = LineRow(billing: nat, user: nat, amount: Option<real>, currency: Option<string>)
  datatype VendorRow = VendorRow(id: nat, user: nat, name: string)

  datatype Tables = Tables(billings: seq<BillingRow>, lines: seq<LineRow>, vendors: seq<VendorRow>)

  /** The primary keys. */
  ghost predicate KeysUnique(t: Tables) {
    && (forall i, j :: 0 <= i < j < |t.billings| ==> t.billings[i].id != t.billings[j].id)
    && (forall i, j :: 0 <= i < j < |t.vendors| ==> t.vendors[i].id != t.vendors[j].id)
  }

  // ---------------------------------------------------------------------------------------
  // The queries
  // ---------------------------------------------------------------------------------------

  /** One row of billings joined with billing_line_items. */
  datatype Joined = Joined(billing: BillingRow, line: LineRow)

  predicate Matches(b: BillingRow, l: LineRow, user: nat, currency: string, from: Instant, to: Instant) {
    && l.billing == b.id && l.user == b.user
    && b.user == user && l.currency == Some(currency)
    && AtOrAfter(b.summary, from) && !AtOrAfter(b.summary, to)
  }

  function JoinLines(b: BillingRow, lines: seq<LineRow>, user: nat, currency: string, from: Instant,
                     to: Instant): seq<Joined> {
    if lines == [] then []
    else
      (if Matches(b, lines[0], user, currency, from, to) then [Joined(b, lines[0])] else [])
      + JoinLines(b, lines[1..], user, currency, from, to)
  }

  function Join(bs: seq<BillingRow>, lines: seq<LineRow>, user: nat, currency: string, from: Instant,
                to: Instant): seq<Joined> {
    if bs == [] then []
    else JoinLines(bs[0], lines, user, currency, from, to) + Join(bs[1..], lines, user, currency, from, to)
  }

  function Select(t: Tables, user: nat, currency: string, from: Instant, to: Instant): seq<Joined> {
    Join(t.billings, t.lines, user, currency, from, to)
  }

  /** SUM(COALESCE(amount, 0)) */
  function Total(rows: seq<Joined>): real {
    if rows == [] then 0.0
    else (if rows[0].line.amount.Some? then rows[0].line.amount.value else 0.0) + Total(rows[1..])
  }

  function BillingIds(rows: seq<Joined>): set<nat> {
    set r | r in rows :: r.billing.id
  }

  function FallbackIds(rows: seq<Joined>): set<nat> {
    set r | r in rows && !r.billing.dated :: r.billing.id
  }

  /** Total amount, COUNT(DISTINCT billing), and the same for billings without a billing date. */
  datatype Totals = Totals(amount: real, billings: nat, fallbacks: nat)

  const NOTHING := Totals(0.0, 0, 0)

  function TotalsOf(rows: seq<Joined>): Totals {
    Totals(Total(rows), |BillingIds(rows)|, |FallbackIds(rows)|)
  }

  function Where(rows: seq<Joined>, p: Joined -> bool): (r: seq<Joined>)
    ensures forall j :: j in r <==> j in rows && p(j)
  {
    if rows == [] then [] else (if p(rows[0]) then [rows[0]] else []) + Where(rows[1..], p)
  }

  function InMonth(rows: seq<Joined>, month: int): seq<Joined> {
    Where(rows, IsMonth(month))
  }

  function IsMonth(month: int): Joined -> bool {
    (r: Joined) => r.billing.summary.month == month
  }

  function BeforeMonth(month: int): Joined -> bool {
    (r: Joined) => r.billing.summary.month < month
  }

  const WINDOW_SIZE := 12

  datatype Aggregate = Aggregate(month: int, totals: Totals)

  /** The trend query: rows of the whole window, grouped by year and month, oldest first. */
  function MonthlyTrend(t: Tables, user: nat, currency: string, endMonth: int): seq<Aggregate> {
    var rows := Select(t, user, currency, MonthStart(endMonth - (WINDOW_SIZE - 1)), MonthStart(endMonth + 1));
    Groups(rows, endMonth - (WINDOW_SIZE - 1), endMonth + 1)
  }

  /** One aggregate for each month from `first` to before `end` that has rows. */
  function Groups(rows: seq<Joined>, first: int, end: int): seq<Aggregate>
    decreases end - first
  {
    if first >= end then []
    else
      (if InMonth(rows, first) == [] then [] else [Aggregate(first, TotalsOf(InMonth(rows, first)))])
      + Groups(rows, first + 1, end)
  }

  /** The detail query's totals: rows of one month only. */
  function MonthTotals(t: Tables, user: nat, currency: string, month: int): Totals {
    TotalsOf(Select(t, user, currency, MonthStart(month), MonthStart(month + 1)))
  }

  // ---------------------------------------------------------------------------------------
  // The trend use case
  // ---------------------------------------------------------------------------------------

  lemma {:induction false} GroupsLookUp(rows: seq<Joined>, first: int, end: int, i: nat)
    requires i < |Groups(rows, first, end)|
    ensures var a := Groups(rows, first, end)[i];
      && first <= a.month < end && InMonth(rows, a.month) != [] && a.totals == TotalsOf(InMonth(rows, a.month))
    decreases end - first
  {
    var here := if InMonth(rows, first) == [] then [] else [Aggregate(first, TotalsOf(InMonth(rows, first)))];
    if i >= |here| {
      GroupsLookUp(rows, first + 1, end, i - |here|);
    }
  }

  lemma {:induction false} GroupsComplete(rows: seq<Joined>, first: int, end: int, month: int)
    requires first <= month < end && InMonth(rows, month) != []
    ensures Aggregate(month, TotalsOf(InMonth(rows, month))) in Groups(rows, first, end)
    decreases end - first
  {
    var rest := Groups(rows, first + 1, end);
    if month > first {
      GroupsComplete(rows, first + 1, end, month);
      var x := Aggregate(month, TotalsOf(InMonth(rows, month)));
      var k :| 0 <= k < |rest| && rest[k] == x;
      assert Groups(rows, first, end) == rest || Groups(rows, first, end)[k + 1] == x;
    } else {
      assert Groups(rows, first, end)[0].month == first;
    }
  }

  /** What the answer shows for `month`: its aggregate, or zero when the query has none. */
  function Bucket(byMonth: map<int, Aggregate>, month: int): Aggregate {
    if month in byMonth then byMonth[month] else Aggregate(month, NOTHING)
  }

  ghost predicate Indexes(byMonth: map<int, Aggregate>, rows: seq<Joined>) {
    forall m :: m in byMonth ==> byMonth[m] == Aggregate(m, TotalsOf(InMonth(rows, m)))
  }

  method IndexByMonth(aggregates: seq<Aggregate>, ghost rows: seq<Joined>, ghost first: int, ghost end: int)
    returns (byMonth: map<int, Aggregate>)
    requires aggregates == Groups(rows, first, end)
    ensures Indexes(byMonth, rows)
    ensures forall a :: a in aggregates ==> a.month in byMonth
  {
    byMonth := map[];
    for i := 0 to |aggregates|
      invariant forall j :: 0 <= j < i ==> aggregates[j].month in byMonth
      invariant Indexes(byMonth, rows)
    {
      GroupsLookUp(rows, first, end, i);
      byMonth := byMonth[aggregates[i].month := aggregates[i]];
    }
  }

  lemma BucketRight(byMonth: map<int, Aggregate>, rows: seq<Joined>, first: int, end: int, month: int)
    requires Indexes(byMonth, rows) && first <= month < end
    requires forall a :: a in Groups(rows, first, end) ==> a.month in byMonth
    ensures Bucket(byMonth, month) == Aggregate(month, TotalsOf(InMonth(rows, month)))
  {
    if InMonth(rows, month) != [] {
      GroupsComplete(rows, first, end, month);
    }
  }

  lemma BucketIsMonthTotals(t: Tables, user: nat, currency: string, first: int, end: int,
                            byMonth: map<int, Aggregate>, month: int)
    requires var rows := Select(t, user, currency, MonthStart(first), MonthStart(end));
      Indexes(byMonth, rows) && forall a :: a in Groups(rows, first, end) ==> a.month in byMonth
    requires first <= month < end
    ensures Bucket(byMonth, month) == Aggregate(month, MonthTotals(t, user, currency, month))
  {
    BucketRight(byMonth, Select(t, user, currency, MonthStart(first), MonthStart(end)), first, end, month);
    BucketIsMonth(t, user, currency, first, end, month);
  }

  ghost predicate BucketsRight(t: Tables, user: nat, currency: string, first: int, items: seq<Aggregate>) {
    forall i :: 0 <= i < |items| ==> items[i] == Aggregate(first + i, MonthTotals(t, user, currency, first + i))
  }

  /** The buckets of `n` months from `first` on. */
  ghost function Buckets(byMonth: map<int, Aggregate>, first: int, n: nat): seq<Aggregate> {
    seq(n, i => Bucket(byMonth, first + i))
  }

  lemma BucketsAreMonths(t: Tables, user: nat, currency: string, first: int, n: nat, byMonth: map<int, Aggregate>)
    requires var rows := Select(t, user, currency, MonthStart(first), MonthStart(first + n));
      Indexes(byMonth, rows) && forall a :: a in Groups(rows, first, first + n) ==> a.month in byMonth
    ensures BucketsRight(t, user, currency, first, Buckets(byMonth, first, n))
  {
    forall i | 0 <= i < n
      ensures Buckets(byMonth, first, n)[i] == Aggregate(first + i, MonthTotals(t, user, currency, first + i))
    {
      BucketIsMonthTotals(t, user, currency, first, first + n, byMonth, first + i);
    }
  }

  /** The loop over the months of the window. */
  method BuildBuckets(t: Tables, user: nat, currency: string, first: int, n: nat, byMonth: map<int, Aggregate>)
    returns (items: seq<Aggregate>)
    requires Indexes(byMonth, Select(t, user, currency, MonthStart(first), MonthStart(first + n)))
    requires forall a ::
      a in Groups(Select(t, user, currency, MonthStart(first), MonthStart(first + n)), first, first + n) ==>
      a.month in byMonth
    ensures |items| == n && BucketsRight(t, user, currency, first, items)
  {
    items := [];
    var month := first;
    for i := 0 to n
      invariant month == first + i
      invariant items == Buckets(byMonth, first, i)
    {
      items := items + [Bucket(byMonth, month)];
      month := month + 1;
    }
    BucketsAreMonths(t, user, currency, first, n, byMonth);
  }

  /** Twelve buckets, oldest first; a month without rows is zero. */
  method GetTrend(t: Tables, user: nat, currency: string, endMonth: int) returns (items: seq<Aggregate>)
    ensures |items| == 12 && BucketsRight(t, user, currency, endMonth - 11, items)
  {
    var aggregates := MonthlyTrend(t, user, currency, endMonth);
    var first, n := endMonth - (WINDOW_SIZE - 1), WINDOW_SIZE;
    assert first + n == endMonth + 1;
    ghost var rows := Select(t, user, currency, MonthStart(first), MonthStart(first + n));
    var byMonth := IndexByMonth(aggregates, rows, first, first + n);
    items := BuildBuckets(t, user, currency, first, n, byMonth);
  }

  // ---------------------------------------------------------------------------------------
  // Bucket and detail agree
  // ---------------------------------------------------------------------------------------

  lemma {:induction false} WhereAppend(a: seq<Joined>, b: seq<Joined>, p: Joined -> bool)
    ensures Where(a + b, p) == Where(a, p) + Where(b, p)
  {
    if a == [] {
      assert a + b == b;
    } else {
      assert (a + b)[1..] == a[1..] + b;
      WhereAppend(a[1..], b, p);
      var here := if p(a[0]) then [a[0]] else [];
      assert here + (Where(a[1..], p) + Where(b, p)) == (here + Where(a[1..], p)) + Where(b, p);
    }
  }

  lemma InMonthAppend(a: seq<Joined>, b: seq<Joined>, month: int)
    ensures InMonth(a + b, month) == InMonth(a, month) + InMonth(b, month)
  {
    WhereAppend(a, b, IsMonth(month));
  }

  lemma {:induction false} LinesOfMonth(b: BillingRow, lines: seq<LineRow>, user: nat, currency: string, first: int,
                                        end: int, month: int)
    requires first <= month < end
    ensures InMonth(JoinLines(b, lines, user, currency, MonthStart(first), MonthStart(end)), month)
         == JoinLines(b, lines, user, currency, MonthStart(month), MonthStart(month + 1))
  {
    if lines != [] {
      LinesOfMonth(b, lines[1..], user, currency, first, end, month);
      var here :=
        if Matches(b, lines[0], user, currency, MonthStart(first), MonthStart(end)) then [Joined(b, lines[0])] else [];
      InMonthAppend(here, JoinLines(b, lines[1..], user, currency, MonthStart(first), MonthStart(end)), month);
    }
  }

  lemma {:induction false} RowsOfMonth(bs: seq<BillingRow>, lines: seq<LineRow>, user: nat, currency: string,
                                       first: int, end: int, month: int)
    requires first <= month < end
    ensures InMonth(Join(bs, lines, user, currency, MonthStart(first), MonthStart(end)), month)
         == Join(bs, lines, user, currency, MonthStart(month), MonthStart(month + 1))
  {
    if bs != [] {
      RowsOfMonth(bs[1..], lines, user, currency, first, end, month);
      LinesOfMonth(bs[0], lines, user, currency, first, end, month);
      InMonthAppend(JoinLines(bs[0], lines, user, currency, MonthStart(first), MonthStart(end)),
                    Join(bs[1..], lines, user, currency, MonthStart(first), MonthStart(end)), month);
    }
  }

  /** What the window query groups under a month is what the detail query of that month totals. */
  lemma BucketIsMonth(t: Tables, user: nat, currency: string, first: int, end: int, month: int)
    requires first <= month < end
    ensures TotalsOf(InMonth(Select(t, user, currency, MonthStart(first), MonthStart(end)), month))
         == MonthTotals(t, user, currency, month)
  {
    RowsOfMonth(t.billings, t.lines, user, currency, first, end, month);
  }

  // ---------------------------------------------------------------------------------------
  // Splitting rows keeps the totals
  // ---------------------------------------------------------------------------------------

  function Plus(a: Totals, b: Totals): Totals {
    Totals(a.amount + b.amount, a.billings + b.billings, a.fallbacks + b.fallbacks)
  }

  /** Rows of the same billing carry the same billing. */
  ghost predicate Keyed(rows: seq<Joined>) {
    forall r, s :: r in rows && s in rows && r.billing.id == s.billing.id ==> r.billing == s.billing
  }

  ghost predicate OnBilling(p: Joined -> bool) {
    forall r: Joined, s: Joined :: r.billing == s.billing ==> p(r) == p(s)
  }

  lemma TotalOfFirst(r: Joined, rest: seq<Joined>)
    ensures Total([r] + rest) == (if r.line.amount.Some? then r.line.amount.value else 0.0) + Total(rest)
    ensures [] + rest == rest
  {
    assert ([r] + rest)[1..] == rest;
  }

  lemma {:induction false} AmountSplits(rows: seq<Joined>, p: Joined -> bool, q: Joined -> bool, either: Joined -> bool)
    requires forall r :: !(p(r) && q(r)) && (either(r) <==> p(r) || q(r))
    ensures Total(Where(rows, either)) == Total(Where(rows, p)) + Total(Where(rows, q))
  {
    if rows != [] {
      AmountSplits(rows[1..], p, q, either);
      TotalOfFirst(rows[0], Where(rows[1..], p));
      TotalOfFirst(rows[0], Where(rows[1..], q));
      TotalOfFirst(rows[0], Where(rows[1..], either));
    }
  }

  /** Rows of disjoint kinds, told apart by their billing, add up in all three totals. */
  lemma TotalsSplitByBilling(rows: seq<Joined>, p: Joined -> bool, q: Joined -> bool, either: Joined -> bool)
    requires Keyed(rows) && OnBilling(p) && OnBilling(q)
    requires forall r :: !(p(r) && q(r)) && (either(r) <==> p(r) || q(r))
    ensures TotalsOf(Where(rows, either)) == Plus(TotalsOf(Where(rows, p)), TotalsOf(Where(rows, q)))
  {
    AmountSplits(rows, p, q, either);
    assert BillingIds(Where(rows, either)) == BillingIds(Where(rows, p)) + BillingIds(Where(rows, q));
    assert BillingIds(Where(rows, p)) !! BillingIds(Where(rows, q));
    assert FallbackIds(Where(rows, either)) == FallbackIds(Where(rows, p)) + FallbackIds(Where(rows, q));
    assert FallbackIds(Where(rows, p)) !! FallbackIds(Where(rows, q));
  }

  lemma {:induction false} WhereAll(rows: seq<Joined>, p: Joined -> bool)
    requires forall r :: r in rows ==> p(r)
    ensures Where(rows, p) == rows
  {
    if rows != [] {
      WhereAll(rows[1..], p);
    }
  }

  lemma {:induction false} NoneMatch(rows: seq<Joined>, p: Joined -> bool)
    requires forall r :: r in rows ==> !p(r)
    ensures Where(rows, p) == []
    ensures TotalsOf(Where(rows, p)) == NOTHING
  {
    if rows != [] {
      NoneMatch(rows[1..], p);
    }
  }

  lemma {:induction false} JoinedLinesMatch(b: BillingRow, lines: seq<LineRow>, user: nat, currency: string,
                                            from: Instant, to: Instant)
    ensures forall r :: r in JoinLines(b, lines, user, currency, from, to) ==>
      r.billing == b && Matches(b, r.line, user, currency, from, to)
  {
    if lines != [] {
      JoinedLinesMatch(b, lines[1..], user, currency, from, to);
    }
  }

  lemma {:induction false} JoinedMatch(bs: seq<BillingRow>, lines: seq<LineRow>, user: nat, currency: string,
                                       from: Instant, to: Instant)
    ensures forall r :: r in Join(bs, lines, user, currency, from, to) ==>
      r.billing in bs && Matches(r.billing, r.line, user, currency, from, to)
  {
    if bs != [] {
      JoinedMatch(bs[1..], lines, user, currency, from, to);
      JoinedLinesMatch(bs[0], lines, user, currency, from, to);
    }
  }

  lemma SelectKeyed(t: Tables, user: nat, currency: string, from: Instant, to: Instant)
    requires KeysUnique(t)
    ensures Keyed(Select(t, user, currency, from, to))
  {
    JoinedMatch(t.billings, t.lines, user, currency, from, to);
  }

  // ---------------------------------------------------------------------------------------
  // The buckets partition the window
  // ---------------------------------------------------------------------------------------

  function MonthsTogether(t: Tables, user: nat, currency: string, first: int, end: int): Totals
    decreases end - first
  {
    if first >= end then NOTHING
    else Plus(MonthsTogether(t, user, currency, first, end - 1), MonthTotals(t, user, currency, end - 1))
  }

  /** The rows of a window, before month `k`. */
  function WindowBefore(t: Tables, user: nat, currency: string, first: int, end: int, k: int): seq<Joined> {
    Where(Select(t, user, currency, MonthStart(first), MonthStart(end)), BeforeMonth(k))
  }

  lemma NothingBefore(t: Tables, user: nat, currency: string, first: int, end: int)
    ensures WindowBefore(t, user, currency, first, end, first) == []
  {
    JoinedMatch(t.billings, t.lines, user, currency, MonthStart(first), MonthStart(end));
    NoneMatch(Select(t, user, currency, MonthStart(first), MonthStart(end)), BeforeMonth(first));
  }

  lemma OneMoreMonth(t: Tables, user: nat, currency: string, first: int, end: int, k: int)
    requires KeysUnique(t) && first <= k < end
    ensures TotalsOf(WindowBefore(t, user, currency, first, end, k + 1))
         == Plus(TotalsOf(WindowBefore(t, user, currency, first, end, k)), MonthTotals(t, user, currency, k))
  {
    SelectKeyed(t, user, currency, MonthStart(first), MonthStart(end));
    TotalsSplitByBilling(Select(t, user, currency, MonthStart(first), MonthStart(end)),
                         BeforeMonth(k), IsMonth(k), BeforeMonth(k + 1));
    BucketIsMonth(t, user, currency, first, end, k);
  }

  lemma {:induction false} MonthsUpTo(t: Tables, user: nat, currency: string, first: int, end: int, k: int)
    requires KeysUnique(t) && first <= k <= end
    ensures TotalsOf(WindowBefore(t, user, currency, first, end, k)) == MonthsTogether(t, user, currency, first, k)
    decreases k - first
  {
    if k == first {
      NothingBefore(t, user, currency, first, end);
    } else {
      MonthsUpTo(t, user, currency, first, end, k - 1);
      OneMoreMonth(t, user, currency, first, end, k - 1);
    }
  }

  /** The months of a window together total exactly the rows of the window: no row is lost, and no
      billing is counted in two months. */
  lemma MonthsPartitionWindow(t: Tables, user: nat, currency: string, first: int, end: int)
    requires KeysUnique(t) && first <= end
    ensures MonthsTogether(t, user, currency, first, end)
         == TotalsOf(Select(t, user, currency, MonthStart(first), MonthStart(end)))
  {
    var rows := Select(t, user, currency, MonthStart(first), MonthStart(end));
    MonthsUpTo(t, user, currency, first, end, end);
    JoinedMatch(t.billings, t.lines, user, currency, MonthStart(first), MonthStart(end));
    WhereAll(rows, BeforeMonth(end));
  }

  // ---------------------------------------------------------------------------------------
  // The vendor breakdown of a month
  // ---------------------------------------------------------------------------------------

  predicate BilledBy(b: BillingRow, v: VendorRow) {
    b.vendor == v.id && b.user == v.user
  }

  function OfVendor(v: VendorRow): Joined -> bool {
    (r: Joined) => BilledBy(r.billing, v)
  }

  function OfAny(vendors: seq<VendorRow>): Joined -> bool {
    (r: Joined) => exists i :: 0 <= i < |vendors| && BilledBy(r.billing, vendors[i])
  }

  /** The subtotal of one vendor; a vendor without rows has none. */
  function VendorAggregate(rows: seq<Joined>, v: VendorRow): seq<Vendor> {
    var mine := Where(rows, OfVendor(v));
    if mine == [] then [] else [Vendor(v.name, TotalsOf(mine).amount, TotalsOf(mine).billings)]
  }

  /** The rows joined with vendors, grouped by vendor. */
  function VendorAggregates(rows: seq<Joined>, vendors: seq<VendorRow>): seq<Vendor> {
    if vendors == [] then []
    else VendorAggregates(rows, vendors[..|vendors| - 1]) + VendorAggregate(rows, vendors[|vendors| - 1])
  }

  lemma {:induction false} AmountsAppend(a: seq<Vendor>, b: seq<Vendor>)
    ensures Amounts(a + b) == Amounts(a) + Amounts(b) && Counts(a + b) == Counts(a) + Counts(b)
  {
    if a == [] {
      assert a + b == b;
    } else {
      assert (a + b)[1..] == a[1..] + b;
      AmountsAppend(a[1..], b);
    }
  }

  /** Vendor subtotals that add up to these totals. */
  predicate AddUp(vs: seq<Vendor>, totals: Totals) {
    Amounts(vs) == totals.amount && Counts(vs) == totals.billings
  }

  lemma OneVendor(rows: seq<Joined>, v: VendorRow)
    ensures AddUp(VendorAggregate(rows, v), TotalsOf(Where(rows, OfVendor(v))))
  {
  }

  lemma AddUpTogether(a: seq<Vendor>, b: seq<Vendor>, s: Totals, t: Totals)
    requires AddUp(a, s) && AddUp(b, t)
    ensures AddUp(a + b, Plus(s, t))
  {
    AmountsAppend(a, b);
  }

  lemma VendorAdded(rows: seq<Joined>, vendors: seq<VendorRow>)
    requires Keyed(rows) && vendors != [] && Distinct(vendors)
    ensures var before, v := vendors[..|vendors| - 1], vendors[|vendors| - 1];
      TotalsOf(Where(rows, OfAny(vendors))) ==
        Plus(TotalsOf(Where(rows, OfAny(before))), TotalsOf(Where(rows, OfVendor(v))))
  {
    OneMoreVendor(vendors);
    TotalsSplitByBilling(rows, OfAny(vendors[..|vendors| - 1]), OfVendor(vendors[|vendors| - 1]), OfAny(vendors));
  }

  ghost predicate Distinct(vendors: seq<VendorRow>) {
    forall i, j :: 0 <= i < j < |vendors| ==> vendors[i].id != vendors[j].id
  }

  /** The vendor subtotals add up to the totals of the rows whose vendor is listed. */
  lemma {:induction false} VendorsTogether(rows: seq<Joined>, vendors: seq<VendorRow>)
    requires Keyed(rows) && Distinct(vendors)
    ensures AddUp(VendorAggregates(rows, vendors), TotalsOf(Where(rows, OfAny(vendors))))
    decreases |vendors|
  {
    if vendors == [] {
      NoneMatch(rows, OfAny(vendors));
    } else {
      var before, v := vendors[..|vendors| - 1], vendors[|vendors| - 1];
      VendorsTogether(rows, before);
      OneVendor(rows, v);
      AddUpTogether(VendorAggregates(rows, before), VendorAggregate(rows, v),
                    TotalsOf(Where(rows, OfAny(before))), TotalsOf(Where(rows, OfVendor(v))));
      VendorAdded(rows, vendors);
    }
  }

  lemma OneMoreVendor(vendors: seq<VendorRow>)
    requires vendors != [] && Distinct(vendors)
    ensures var before, v := vendors[..|vendors| - 1], vendors[|vendors| - 1];
      forall r :: !(OfAny(before)(r) && OfVendor(v)(r)) && (OfAny(vendors)(r) <==> OfAny(before)(r) || OfVendor(v)(r))
  {
    var before, v := vendors[..|vendors| - 1], vendors[|vendors| - 1];
    assert vendors == before + [v];
    forall r: Joined
      ensures !(OfAny(before)(r) && OfVendor(v)(r)) && (OfAny(vendors)(r) <==> OfAny(before)(r) || OfVendor(v)(r))
    {
      if i :| 0 <= i < |before| && BilledBy(r.billing, before[i]) {
        assert BilledBy(r.billing, vendors[i]);
      }
      if BilledBy(r.billing, v) {
        assert BilledBy(r.billing, vendors[|vendors| - 1]);
      }
    }
  }

  /** The rows of the month's detail. */
  function MonthRows(t: Tables, user: nat, currency: string, month: int): seq<Joined> {
    Select(t, user, currency, MonthStart(month), MonthStart(month + 1))
  }

  /** What the month detail shows: its totals and its vendor rows. */
  function MonthVendorItems(t: Tables, user: nat, currency: string, month: int): seq<Item> {
    VendorItems(VendorAggregates(MonthRows(t, user, currency, month), t.vendors))
  }

  /** Some vendor row has the id and the user of the row's billing. */
  predicate HasVendor(r: Joined, vendors: seq<VendorRow>) {
    exists i :: 0 <= i < |vendors| && BilledBy(r.billing, vendors[i])
  }

  ghost predicate AllHaveVendors(rows: seq<Joined>, vendors: seq<VendorRow>) {
    forall r :: r in rows ==> HasVendor(r, vendors)
  }

  lemma {:induction false} SubsetSize(a: set<nat>, b: set<nat>)
    requires a <= b
    ensures |a| <= |b| && (|a| == |b| ==> a == b)
  {
    if a != {} {
      var x :| x in a;
      SubsetSize(a - {x}, b - {x});
    }
  }

  /** Rows without a vendor are missing from the vendor subtotals, and their billings with them. */
  lemma CountedExactly(rows: seq<Joined>, vendors: seq<VendorRow>)
    requires Keyed(rows)
    ensures |BillingIds(Where(rows, OfAny(vendors)))| == |BillingIds(rows)| <==> AllHaveVendors(rows, vendors)
  {
    var kept := Where(rows, OfAny(vendors));
    SubsetSize(BillingIds(kept), BillingIds(rows));
    if BillingIds(kept) == BillingIds(rows) {
      forall r | r in rows
        ensures HasVendor(r, vendors)
      {
        assert r.billing.id in BillingIds(kept);
        var s :| s in kept && s.billing.id == r.billing.id;
        assert OfAny(vendors)(s) && s.billing == r.billing;
      }
    }
    if AllHaveVendors(rows, vendors) {
      WhereAll(rows, OfAny(vendors));
    }
  }

  lemma BreakdownCounts(t: Tables, user: nat, currency: string, month: int)
    requires KeysUnique(t)
    ensures var shown := TotalsOf(Where(MonthRows(t, user, currency, month), OfAny(t.vendors)));
      && ItemCounts(MonthVendorItems(t, user, currency, month)) == shown.billings
      && ItemAmounts(MonthVendorItems(t, user, currency, month)) == shown.amount
  {
    SelectKeyed(t, user, currency, MonthStart(month), MonthStart(month + 1));
    ShownCounts(MonthRows(t, user, currency, month), t.vendors);
  }

  lemma ShownCounts(rows: seq<Joined>, vendors: seq<VendorRow>)
    requires Keyed(rows) && Distinct(vendors)
    ensures var shown, items := TotalsOf(Where(rows, OfAny(vendors))), VendorItems(VendorAggregates(rows, vendors));
      ItemCounts(items) == shown.billings && ItemAmounts(items) == shown.amount
  {
    VendorsTogether(rows, vendors);
    BreakdownConserves(VendorAggregates(rows, vendors));
  }

  /** Breakdown and totals of a month count the same number of billings. */
  predicate CountsAgree(t: Tables, user: nat, currency: string, month: int) {
    ItemCounts(MonthVendorItems(t, user, currency, month)) == MonthTotals(t, user, currency, month).billings
  }

  /** The breakdown counts every billing of the month's totals exactly when every row of the month has
      a vendor row of its user: the totals do not join vendors, the breakdown does. Then the amounts
      agree too. No foreign key enforces this. */
  lemma BreakdownMatchesMonth(t: Tables, user: nat, currency: string, month: int)
    requires KeysUnique(t)
    ensures CountsAgree(t, user, currency, month) <==>
      AllHaveVendors(MonthRows(t, user, currency, month), t.vendors)
    ensures AllHaveVendors(MonthRows(t, user, currency, month), t.vendors) ==>
      ItemAmounts(MonthVendorItems(t, user, currency, month)) == MonthTotals(t, user, currency, month).amount
  {
    var rows := MonthRows(t, user, currency, month);
    BreakdownCounts(t, user, currency, month);
    SelectKeyed(t, user, currency, MonthStart(month), MonthStart(month + 1));
    CountedExactly(rows, t.vendors);
    if AllHaveVendors(rows, t.vendors) {
      WhereAll(rows, OfAny(t.vendors));
    }
  }

  /** A billing of user 1 whose vendor row belongs to user 0: it is in the month's totals and in no
      vendor's subtotal. */
  lemma OrphanIsNotBrokenDown()
    ensures var t := Tables([BillingRow(1, 1, 7, true, MonthStart(0))],
                            [LineRow(1, 1, Some(5.0), Some("JPY"))],
                            [VendorRow(7, 0, "a")]);
      && KeysUnique(t) && MonthTotals(t, 1, "JPY", 0) == Totals(5.0, 1, 0)
      && MonthVendorItems(t, 1, "JPY", 0) == []
  {
    var b, l, v :=
      BillingRow(1, 1, 7, true, MonthStart(0)), LineRow(1, 1, Some(5.0), Some("JPY")), VendorRow(7, 0, "a");
    var t := Tables([b], [l], [v]);
    var row := Joined(b, l);
    assert [b][1..] == [] && [l][1..] == [] && [row][1..] == [] && [v][..0] == [];
    assert JoinLines(b, [l], 1, "JPY", MonthStart(0), MonthStart(1)) == [row];
    assert Join([b], [l], 1, "JPY", MonthStart(0), MonthStart(1)) == [row]
      + Join([b][1..], [l], 1, "JPY", MonthStart(0), MonthStart(1));
    assert MonthRows(t, 1, "JPY", 0) == [row];
    assert BillingIds([row]) == {1} && FallbackIds([row]) == {};
    assert Where([row], OfVendor(v)) == [];
    assert VendorAggregates([row], [v][..0]) == [] && VendorAggregates([row], [v]) == [];
  }

  // ---------------------------------------------------------------------------------------
  // What the queries select and count
  // ---------------------------------------------------------------------------------------

  predicate Earlier(a: Instant, b: Instant) {
    a.month < b.month || (a.month == b.month && a.offset < b.offset)
  }

  /** A billing of the user with one of its own line items, in that currency and in that time. */
  predicate IsSelected(t: Tables, user: nat, currency: string, from: Instant, to: Instant, r: Joined) {
    && r.billing in t.billings && r.line in t.lines
    && r.line.billing == r.billing.id && r.line.user == user && r.billing.user == user
    && r.line.currency == Some(currency)
    && !Earlier(r.billing.summary, from) && Earlier(r.billing.summary, to)
  }

  lemma {:induction false} LinesJoined(b: BillingRow, lines: seq<LineRow>, user: nat, currency: string, from: Instant,
                                       to: Instant, r: Joined)
    ensures var rows := JoinLines(b, lines, user, currency, from, to);
      multiset(rows)[r] ==
        if r.billing == b && Matches(b, r.line, user, currency, from, to) then multiset(lines)[r.line] else 0
  {
    if lines != [] {
      LinesJoined(b, lines[1..], user, currency, from, to, r);
      assert lines == [lines[0]] + lines[1..];
    }
  }

  ghost predicate IdsUnique(bs: seq<BillingRow>) {
    forall i, j :: 0 <= i < j < |bs| ==> bs[i].id != bs[j].id
  }

  lemma {:induction false} BillingsJoined(bs: seq<BillingRow>, lines: seq<LineRow>, user: nat, currency: string,
                                          from: Instant, to: Instant, r: Joined)
    requires IdsUnique(bs)
    ensures multiset(Join(bs, lines, user, currency, from, to))[r] ==
      if r.billing in bs && Matches(r.billing, r.line, user, currency, from, to) then multiset(lines)[r.line] else 0
  {
    if bs != [] {
      BillingsJoined(bs[1..], lines, user, currency, from, to, r);
      LinesJoined(bs[0], lines, user, currency, from, to, r);
      assert bs[0] !in bs[1..] by {
        assert forall i :: 0 <= i < |bs[1..]| ==> bs[1..][i].id != bs[0].id;
      }
      assert r.billing in bs <==> r.billing == bs[0] || r.billing in bs[1..];
    }
  }

  /** The query has exactly those rows, and each as often as the line item occurs. */
  lemma SelectedExactly(t: Tables, user: nat, currency: string, from: Instant, to: Instant, r: Joined)
    requires KeysUnique(t)
    ensures multiset(Select(t, user, currency, from, to))[r] ==
      if IsSelected(t, user, currency, from, to, r) then multiset(t.lines)[r.line] else 0
  {
    BillingsJoined(t.billings, t.lines, user, currency, from, to, r);
    assert r.line in t.lines <==> multiset(t.lines)[r.line] > 0;
  }

  /** In a month's query the summary date is in that month. */
  lemma MonthSelected(t: Tables, user: nat, currency: string, month: int, r: Joined)
    requires KeysUnique(t) && r in MonthRows(t, user, currency, month)
    ensures r.billing.summary.month == month && r.billing.user == user && r.line.user == user
    ensures r.line.billing == r.billing.id && r.line.currency == Some(currency)
  {
    SelectedExactly(t, user, currency, MonthStart(month), MonthStart(month + 1), r);
    assert multiset(MonthRows(t, user, currency, month))[r] > 0;
  }

  /** The total adds the amounts, a missing one as zero. */
  lemma TotalMeans(r: Joined, rows: seq<Joined>)
    ensures Total([]) == 0.0
    ensures Total([r] + rows) == Total(rows) + match r.line.amount case None => 0.0 case Some(amount) => amount
  {
    assert ([r] + rows)[1..] == rows;
  }

  /** The counts are of different billings: all of them, and those without a billing date. */
  lemma CountsMean(rows: seq<Joined>) returns (all: set<nat>, undated: set<nat>)
    ensures forall id :: id in all <==> exists r :: r in rows && r.billing.id == id
    ensures forall id :: id in undated <==> exists r :: r in rows && !r.billing.dated && r.billing.id == id
    ensures TotalsOf(rows).amount == Total(rows)
    ensures TotalsOf(rows).billings == |all| && TotalsOf(rows).fallbacks == |undated|
  {
    all := set r | r in rows :: r.billing.id;
    undated := set r | r in rows && !r.billing.dated :: r.billing.id;
  }

  /** A vendor's subtotal is that of the rows billed by it: the billing has its id, and its user. */
  lemma SubtotalMeans(rows: seq<Joined>, v: VendorRow) returns (mine: seq<Joined>)
    ensures forall r :: r in mine <==> r in rows && r.billing.vendor == v.id && r.billing.user == v.user
    ensures mine == [] ==> VendorAggregate(rows, v) == []
    ensures mine != [] ==> VendorAggregate(rows, v) == [Vendor(v.name, Total(mine), |BillingIds(mine)|)]
  {
    mine := Where(rows, OfVendor(v));
  }
}
