/** Which parsed emails can become billings, and what they are turned into. */
module BillingEligibility {
  import opened Options
  import opened Text
  import opened LineItems
  import opened ParsedEmails
  import opened Filtering

  // ---------------------------------------------------------------------------------------
  // Value objects
  // ---------------------------------------------------------------------------------------

  datatype AmountCheck = AmountOk | AmountBad | ScaleBad

  /** NormalizeAmount, on exact decimals. */
  function CheckAmount(a: Amount): AmountCheck {
    if a.NotFinite? || a.value <= 0.0 then AmountBad
    else if !AtMostThreeDecimals(a.value) then ScaleBad
    else AmountOk
  }

  datatype CurrencyCheck = CurrencyOk(code: string) | CurrencyBlank | CurrencyBad

  function CheckCurrency(s: string): CurrencyCheck {
    var upper := Upper(Trim(s));
    if upper == "" then CurrencyBlank
    else if upper != "JPY" && upper != "USD" then CurrencyBad
    else CurrencyOk(upper)
  }

  datatype CycleCheck = CycleOk(cycle: string) | CycleBlank | CycleBad

  /** NewPaymentCycle */
  function CheckCycle(s: string): CycleCheck {
    var cycle := Lower(Trim(s));
    if cycle == "" then CycleBlank
    else if cycle != "one_time" && cycle != "recurring" then CycleBad
    else CycleOk(cycle)
  }

  lemma ChecksIgnoreSpace(s: string)
    ensures CheckCurrency(Trim(s)) == CheckCurrency(s) && CheckCycle(Trim(s)) == CheckCycle(s)
  {
    TrimTwice(s);
  }

  // ---------------------------------------------------------------------------------------
  // The policy
  // ---------------------------------------------------------------------------------------

  datatype Reason =
    | VendorInvalid | ProductNameEmpty | AmountEmpty | AmountInvalid | CurrencyEmpty | CurrencyInvalid
    | CycleEmpty | CycleInvalid | NumberEmpty

  function FirstName(items: seq<LineItem>): Option<string> {
    if items == [] then None
    else if items[0].display.Some? then items[0].display
    else if items[0].raw.Some? then items[0].raw
    else FirstName(items[1..])
  }

  function ResolvedDisplay(p: ParsedEmail): Option<string> {
    var n := NormalizeParsed(p);
    if n.display.Some? then n.display else if n.raw.Some? then n.raw else FirstName(n.lines)
  }

  method ResolvedProductNameDisplay(p: ParsedEmail) returns (r: Option<string>)
    ensures r == ResolvedDisplay(p)
  {
    var n := NormalizeParsed(p);
    if n.display.Some? {
      return n.display;
    }
    if n.raw.Some? {
      return n.raw;
    }
    for i := 0 to |n.lines|
      invariant FirstName(n.lines) == FirstName(n.lines[i..])
    {
      if n.lines[i].display.Some? {
        return n.lines[i].display;
      }
      if n.lines[i].raw.Some? {
        return n.lines[i].raw;
      }
    }
    r := None;
  }

  /** The first rule the parsed email breaks. */
  function Evaluate(p: ParsedEmail, user: nat, vendorName: string): Option<Reason> {
    if user == 0 || Trim(vendorName) == "" then Some(VendorInvalid)
    else if ResolvedDisplay(p).None? then Some(ProductNameEmpty)
    else if p.amount.None? then Some(AmountEmpty)
    else if CheckAmount(p.amount.value) != AmountOk then Some(AmountInvalid)
    else if p.currency.None? || Trim(p.currency.value) == "" then Some(CurrencyEmpty)
    else if !CheckCurrency(p.currency.value).CurrencyOk? then Some(CurrencyInvalid)
    else if p.cycle.None? || Trim(p.cycle.value) == "" then Some(CycleEmpty)
    else if !CheckCycle(p.cycle.value).CycleOk? then Some(CycleInvalid)
    else if p.billingNumber.None? || Trim(p.billingNumber.value) == "" then Some(NumberEmpty)
    else None
  }

  // ---------------------------------------------------------------------------------------
  // The stage
  // ---------------------------------------------------------------------------------------

  datatype Target = Target(parsedEmailId: nat, emailId: nat, vendor: nat, vendorName: string, data: ParsedEmail)

  function NormalizeTarget(t: Target): Target {
    t.(vendorName := Trim(t.vendorName), data := NormalizeParsed(t.data))
  }

  predicate TargetValid(t: Target) {
    t.parsedEmailId != 0 && t.emailId != 0 && t.vendor != 0 && t.vendorName != ""
  }

  datatype EligibleItem = EligibleItem(
    parsedEmailId: nat, emailId: nat, vendor: nat, vendorName: string, display: Option<string>,
    number: string, invoice: Option<string>, amount: Amount, currency: string,
    date: Option<int>, cycle: string, lines: seq<LineItem>)

  datatype IneligibleItem = IneligibleItem(parsedEmailId: nat, emailId: nat, vendor: nat, reason: Reason)

  datatype Failure = Failure(parsedEmailId: nat, emailId: nat, code: string)

  const INVALID_TARGET := "invalid_eligibility_target"
  const ELIGIBILITY_FAILED := "billing_eligibility_failed"

  /** A product row with the mail's currency where it names none. */
  function WithCurrency(item: LineItem, fallback: string): LineItem {
    var n := Normalize(item);
    if n.currency.None? && fallback != "" then n.(currency := Some(fallback)) else n
  }

  function LinesFrom(items: seq<LineItem>, fallback: string): seq<LineItem> {
    if items == [] then []
    else
      var item := WithCurrency(items[|items| - 1], fallback);
      LinesFrom(items[..|items| - 1], fallback) + if IsEmpty(item) then [] else [item]
  }

  method ToLineItems(items: seq<LineItem>, currency: string) returns (lines: seq<LineItem>)
    ensures lines == LinesFrom(items, Trim(Upper(currency)))
  {
    var fallback := Trim(Upper(currency));
    lines := [];
    for i := 0 to |items|
      invariant lines == LinesFrom(items[..i], fallback)
    {
      assert items[..i + 1][..i] == items[..i];
      var item := Normalize(items[i]);
      if item.currency.None? && fallback != "" {
        item := item.(currency := Some(fallback));
      }
      if !IsEmpty(item) {
        lines := lines + [item];
      }
    }
    assert items[..|items|] == items;
  }

  function ValueOr<T>(s: Option<T>, other: T): T {
    if s.Some? then s.value else other
  }

  /** The eligible item of a normalised target. */
  function EligibleFrom(t: Target): EligibleItem {
    var p := t.data;
    EligibleItem(t.parsedEmailId, t.emailId, t.vendor, t.vendorName, ResolvedDisplay(p),
                 ValueOr(p.billingNumber, ""), p.invoiceNumber, ValueOr(p.amount, Finite(0.0)), ValueOr(p.currency, ""),
                 p.billingDate, ValueOr(p.cycle, ""), LinesFrom(p.lines, Trim(Upper(ValueOr(p.currency, "")))))
  }

  datatype Verdict = Eligible(item: EligibleItem) | Ineligible(rejected: IneligibleItem) | Failed(failure: Failure)

  function Judge(user: nat, target: Target): Verdict {
    var t := NormalizeTarget(target);
    if !TargetValid(t) then Failed(Failure(t.parsedEmailId, t.emailId, INVALID_TARGET))
    else
      match Evaluate(t.data, user, t.vendorName)
      case None => Eligible(EligibleFrom(t))
      case Some(VendorInvalid) => Failed(Failure(t.parsedEmailId, t.emailId, ELIGIBILITY_FAILED))
      case Some(reason) => Ineligible(IneligibleItem(t.parsedEmailId, t.emailId, t.vendor, reason))
  }

  datatype Result = Result(eligible: seq<EligibleItem>, eligibleCount: nat,
                           ineligible: seq<IneligibleItem>, ineligibleCount: nat, failures: seq<Failure>)

  function Verdicts(user: nat, ts: seq<Target>): seq<Verdict> {
    seq(|ts|, i requires 0 <= i < |ts| => Judge(user, ts[i]))
  }

  /** The verdicts of one kind, in order. */
  function EligibleOf(vs: seq<Verdict>): seq<EligibleItem> {
    if vs == [] then []
    else EligibleOf(vs[..|vs| - 1]) + if vs[|vs| - 1].Eligible? then [vs[|vs| - 1].item] else []
  }

  function IneligibleOf(vs: seq<Verdict>): seq<IneligibleItem> {
    if vs == [] then []
    else IneligibleOf(vs[..|vs| - 1]) + if vs[|vs| - 1].Ineligible? then [vs[|vs| - 1].rejected] else []
  }

  function FailuresOf(vs: seq<Verdict>): seq<Failure> {
    if vs == [] then []
    else FailuresOf(vs[..|vs| - 1]) + if vs[|vs| - 1].Failed? then [vs[|vs| - 1].failure] else []
  }

  method JudgeOne(user: nat, target: Target) returns (v: Verdict)
    ensures v == Judge(user, target)
  {
    var t := NormalizeTarget(target);
    if !TargetValid(t) {
      return Failed(Failure(t.parsedEmailId, t.emailId, INVALID_TARGET));
    }
    var reason := Evaluate(t.data, user, t.vendorName);
    if reason.None? {
      var display := ResolvedProductNameDisplay(t.data);
      var p := t.data;
      var lines := ToLineItems(p.lines, ValueOr(p.currency, ""));
      return Eligible(EligibleItem(t.parsedEmailId, t.emailId, t.vendor, t.vendorName, display,
                                   ValueOr(p.billingNumber, ""), p.invoiceNumber, ValueOr(p.amount, Finite(0.0)),
                                   ValueOr(p.currency, ""), p.billingDate, ValueOr(p.cycle, ""), lines));
    }
    if reason.value.VendorInvalid? {
      return Failed(Failure(t.parsedEmailId, t.emailId, ELIGIBILITY_FAILED));
    }
    v := Ineligible(IneligibleItem(t.parsedEmailId, t.emailId, t.vendor, reason.value));
  }

  function Add(r: Result, v: Verdict): Result {
    match v
    case Eligible(item) => r.(eligible := r.eligible + [item])
    case Ineligible(item) => r.(ineligible := r.ineligible + [item])
    case Failed(failure) => r.(failures := r.failures + [failure])
  }

  predicate Sorted(r: Result, vs: seq<Verdict>) {
    && r.eligible == EligibleOf(vs) && r.ineligible == IneligibleOf(vs) && r.failures == FailuresOf(vs)
    && |r.eligible| + |r.ineligible| + |r.failures| == |vs|
  }

  lemma AddSorted(r: Result, vs: seq<Verdict>, v: Verdict)
    requires Sorted(r, vs)
    ensures Sorted(Add(r, v), vs + [v])
  {
    assert (vs + [v])[..|vs|] == vs;
  }

  lemma OneMoreVerdict(user: nat, ts: seq<Target>, i: nat)
    requires i < |ts|
    ensures Verdicts(user, ts[..i + 1]) == Verdicts(user, ts[..i]) + [Judge(user, ts[i])]
  {
  }

  /** Every target is eligible, ineligible or failed, and is reported once. */
  method Execute(user: nat, targets: seq<Target>) returns (r: Result)
    ensures r.eligible == EligibleOf(Verdicts(user, targets)) && r.eligibleCount == |r.eligible|
    ensures r.ineligible == IneligibleOf(Verdicts(user, targets)) && r.ineligibleCount == |r.ineligible|
    ensures r.failures == FailuresOf(Verdicts(user, targets))
    ensures |r.eligible| + |r.ineligible| + |r.failures| == |targets|
  {
    r := Result([], 0, [], 0, []);
    for i := 0 to |targets|
      invariant Sorted(r, Verdicts(user, targets[..i]))
    {
      var v := JudgeOne(user, targets[i]);
      AddSorted(r, Verdicts(user, targets[..i]), v);
      OneMoreVerdict(user, targets, i);
      r := Add(r, v);
    }
    assert targets[..|targets|] == targets;
    r := r.(eligibleCount := |r.eligible|, ineligibleCount := |r.ineligible|);
  }

  lemma RecurringIsWord()
    ensures IsWord("recurring", IsCycleSeparator)
  {
    assert Lower("recurring") == "recurring";
  }

  lemma JpyIsUpper()
    ensures UpperOptional(Some("JPY")) == Some("JPY")
  {
    TrimmedStays("JPY");
    assert Upper("JPY") == "JPY";
  }

  lemma TrimOptionalStays(s: string)
    requires s != "" && Trimmed(s)
    ensures TrimOptional(Some(s)) == Some(s) && Trim(s) == s
  {
    TrimmedStays(s);
  }

  lemma ExampleIsNormalised()
    ensures NormalizeTarget(EXAMPLE) == EXAMPLE
  {
    TrimOptionalStays("Example");
    TrimOptionalStays("1");
    JpyIsUpper();
    RecurringIsWord();
    CycleOfOneWord("recurring");
  }

  lemma ExampleChecks()
    ensures CheckCurrency("JPY") == CurrencyOk("JPY") && CheckCycle("recurring") == CycleOk("recurring")
    ensures CheckAmount(Finite(1.0)) == AmountOk && Trim("1") == "1" && Trim("Example") == "Example"
  {
    TrimmedStays("Example");
    TrimmedStays("1");
    TrimmedStays("JPY");
    TrimmedStays("recurring");
    assert Upper("JPY") == "JPY" && Lower("recurring") == "recurring";
    assert AtMostThreeDecimals(1.0);
  }

  /** Some targets are eligible. */
  lemma ExampleIsEligible()
    ensures Judge(1, EXAMPLE).Eligible?
  {
    ExampleIsNormalised();
    ExampleChecks();
    assert ResolvedDisplay(EXAMPLE.data) == Some("Example");
    assert Evaluate(EXAMPLE.data, 1, EXAMPLE.vendorName).None?;
  }

  const EXAMPLE := Target(1, 1, 1, "Example",
                          ParsedEmail(Some("Example"), None, None, Some("1"), None, Some(Finite(1.0)),
                                      Some("JPY"), None, Some("recurring"), [], 0))

  lemma CycleOfOneWord(s: string)
    requires IsWord(s, IsCycleSeparator)
    ensures NormalizeCycle(Some(s)) == Some(s)
  {
    assert !IsCycleSeparator(s[0]) && !IsCycleSeparator(s[|s| - 1]);
    TrimmedStays(s);
    assert s == s + "";
    FirstField(s, "", IsCycleSeparator);
  }

  /** The stage's unexpected-error branch is never taken for a real user. */
  lemma NoUnexpectedFailure(user: nat, target: Target)
    requires user != 0 && Judge(user, target).Failed?
    ensures Judge(user, target).failure.code == INVALID_TARGET
  {
    TrimTwice(target.vendorName);
  }

  // ---------------------------------------------------------------------------------------
  // What the verdicts mean
  // ---------------------------------------------------------------------------------------

  /** The names that can stand for the product, in the order of preference. */
  function NamesOf(p: ParsedEmail): seq<Option<string>> {
    [p.display, p.raw] + LineNames(p.lines)
  }

  function LineNames(lines: seq<LineItem>): seq<Option<string>> {
    if lines == [] then []
    else LineNames(lines[..|lines| - 1]) + [lines[|lines| - 1].display, lines[|lines| - 1].raw]
  }

  /** The first name that says something, trimmed. */
  ghost function FirstNonBlank(names: seq<Option<string>>): Option<string> {
    if names == [] then None
    else if SaysNothing(names[0]) then FirstNonBlank(names[1..])
    else Some(Trim(names[0].value))
  }

  lemma {:induction false} FirstNonBlankOf(a: seq<Option<string>>, b: seq<Option<string>>)
    ensures FirstNonBlank(a + b) == if FirstNonBlank(a).Some? then FirstNonBlank(a) else FirstNonBlank(b)
  {
    if a == [] {
      assert a + b == b;
    } else {
      assert (a + b)[1..] == a[1..] + b;
      FirstNonBlankOf(a[1..], b);
    }
  }

  lemma {:induction false} FirstNameOf(a: seq<LineItem>, b: seq<LineItem>)
    ensures FirstName(a + b) == if FirstName(a).Some? then FirstName(a) else FirstName(b)
  {
    if a == [] {
      assert a + b == b;
    } else {
      assert (a + b)[1..] == a[1..] + b;
      FirstNameOf(a[1..], b);
    }
  }

  lemma TwoNames(a: Option<string>, b: Option<string>)
    ensures FirstNonBlank([a, b]) ==
      if !SaysNothing(a) then Some(Trim(a.value)) else if !SaysNothing(b) then Some(Trim(b.value)) else None
  {
    assert [a, b][1..] == [b] && [b][1..] == [];
    assert FirstNonBlank([b]) == if SaysNothing(b) then None else Some(Trim(b.value));
  }

  lemma OneRowName(item: LineItem)
    ensures var kept := if IsEmpty(Normalize(item)) then [] else [Normalize(item)];
      FirstName(kept) == FirstNonBlank([item.display, item.raw])
  {
    OptionalMeans(item.display);
    OptionalMeans(item.raw);
    TwoNames(item.display, item.raw);
    assert [Normalize(item)][1..] == [];
  }

  lemma {:induction false} LineNamed(lines: seq<LineItem>)
    ensures FirstName(NormalizeItems(lines)) == FirstNonBlank(LineNames(lines))
  {
    if lines != [] {
      var last := lines[|lines| - 1];
      var kept := if IsEmpty(Normalize(last)) then [] else [Normalize(last)];
      LineNamed(lines[..|lines| - 1]);
      OneRowName(last);
      FirstNameOf(NormalizeItems(lines[..|lines| - 1]), kept);
      FirstNonBlankOf(LineNames(lines[..|lines| - 1]), [last.display, last.raw]);
    }
  }

  /** The display name is the first of the display name, the raw name and the names of the product rows
      that says something. */
  lemma DisplayExactly(p: ParsedEmail)
    ensures ResolvedDisplay(p) == FirstNonBlank(NamesOf(p))
  {
    var names := [p.display, p.raw];
    OptionalMeans(p.display);
    OptionalMeans(p.raw);
    LineNamed(p.lines);
    TwoNames(p.display, p.raw);
    FirstNonBlankOf(names, LineNames(p.lines));
  }

  /** What each reason objects to. */
  ghost predicate Breaks(r: Reason, p: ParsedEmail, user: nat, vendorName: string) {
    match r
    case VendorInvalid => user == 0 || AllSpace(vendorName)
    case ProductNameEmpty => FirstNonBlank(NamesOf(p)) == None
    case AmountEmpty => p.amount == None
    case AmountInvalid =>
      p.amount.Some?
      && (p.amount.value.NotFinite? || p.amount.value.value <= 0.0 || !AtMostThreeDecimals(p.amount.value.value))
    case CurrencyEmpty => SaysNothing(p.currency)
    case CurrencyInvalid => p.currency.Some? && Upper(Trim(p.currency.value)) !in {"JPY", "USD"}
    case CycleEmpty => SaysNothing(p.cycle)
    case CycleInvalid => p.cycle.Some? && Lower(Trim(p.cycle.value)) !in {"one_time", "recurring"}
    case NumberEmpty => SaysNothing(p.billingNumber)
  }

  /** The order in which the reasons are looked at. */
  function Order(r: Reason): nat {
    match r
    case VendorInvalid => 0
    case ProductNameEmpty => 1
    case AmountEmpty => 2
    case AmountInvalid => 3
    case CurrencyEmpty => 4
    case CurrencyInvalid => 5
    case CycleEmpty => 6
    case CycleInvalid => 7
    case NumberEmpty => 8
  }

  ghost predicate NothingBreaksBefore(n: nat, p: ParsedEmail, user: nat, vendorName: string) {
    forall r :: Order(r) < n ==> !Breaks(r, p, user, vendorName)
  }

  /** A parsed email passes exactly when no reason objects to it, and otherwise is given the first that
      does. */
  lemma EvaluateExactly(p: ParsedEmail, user: nat, vendorName: string)
    ensures match Evaluate(p, user, vendorName)
      case None => NothingBreaksBefore(9, p, user, vendorName)
      case Some(r) => Breaks(r, p, user, vendorName) && NothingBreaksBefore(Order(r), p, user, vendorName)
  {
    BlankMeans(vendorName);
    DisplayExactly(p);
    TextMeans(p.currency);
    TextMeans(p.cycle);
    TextMeans(p.billingNumber);
  }

  lemma TextMeans(s: Option<string>)
    ensures SaysNothing(s) <==> s.None? || Trim(s.value) == ""
  {
    if s.Some? {
      BlankMeans(s.value);
    }
  }

  /** The product row with its texts in normal form, and the mail's currency if it names none. */
  ghost predicate IsRowWith(n: LineItem, item: LineItem, currency: string) {
    && IsTrimmed(n.raw, item.raw) && IsTrimmed(n.display, item.display) && n.amount == item.amount
    && n.currency == Some(if SaysNothing(item.currency) then currency else Upper(Trim(item.currency.value)))
  }

  /** Exactly the product rows that say something, in order. */
  ghost predicate HasRowsWith(rows: seq<LineItem>, items: seq<LineItem>, currency: string) {
    Keeps(rows, items, SaysSomething, (n, item) => IsRowWith(n, item, currency))
  }

  /** The eligible item has the target's data... */
  ghost predicate HasTargetData(e: EligibleItem, t: Target) {
    && HasTargetFields(e, t) && e.display == FirstNonBlank(NamesOf(t.data))
    && NormalizeCycle(t.data.cycle) == Some(e.cycle) && e.cycle in {"one_time", "recurring"}
    && HasRowsWith(e.lines, t.data.lines, e.currency)
  }

  /** ... among it these fields. */
  ghost predicate HasTargetFields(e: EligibleItem, t: Target) {
    && e.parsedEmailId == t.parsedEmailId && e.emailId == t.emailId && e.vendor == t.vendor
    && e.vendorName == Trim(t.vendorName)
    && t.data.billingNumber.Some? && e.number == Trim(t.data.billingNumber.value)
    && IsTrimmed(e.invoice, t.data.invoiceNumber)
    && t.data.amount == Some(e.amount) && e.date == t.data.billingDate
    && t.data.currency.Some? && e.currency == Upper(Trim(t.data.currency.value))
  }

  lemma CurrencyFills(item: LineItem, currency: string)
    requires currency != ""
    ensures !IsEmpty(WithCurrency(item, currency))
  {
  }

  lemma {:induction false} LinesFromAll(items: seq<LineItem>, currency: string)
    requires currency != ""
    ensures LinesFrom(items, currency) == seq(|items|, i requires 0 <= i < |items| => WithCurrency(items[i], currency))
  {
    if items != [] {
      var last := |items| - 1;
      LinesFromAll(items[..last], currency);
      CurrencyFills(items[last], currency);
    }
  }

  lemma RowsWith(items: seq<LineItem>, currency: string)
    requires currency != ""
    ensures HasRowsWith(LinesFrom(NormalizeItems(items), currency), items, currency)
  {
    var kept := NormalizeItems(items);
    ItemsKept(items);
    NormalizeItemsSettles(items);
    LinesFromAll(kept, currency);
    forall k | 0 <= k < |items| && SaysSomething(items[k])
      ensures IsRowWith(LinesFrom(kept, currency)[Count(items, SaysSomething, k)], items[k], currency)
    {
      assert IsNormalOf(kept[Count(items, SaysSomething, k)], items[k]);
    }
  }

  /** What passing the policy leaves in the normalised data. */
  predicate Complete(n: ParsedEmail) {
    n.billingNumber.Some? && n.amount.Some? && n.currency.Some? && n.cycle.Some?
  }

  lemma PassedIsComplete(n: ParsedEmail, user: nat, vendorName: string)
    requires Evaluate(n, user, vendorName).None?
    ensures Complete(n) && Lower(Trim(n.cycle.value)) in {"one_time", "recurring"}
  {
  }

  lemma FieldsFrom(t: Target, n: ParsedEmail)
    requires IsNormalForm(n, t.data) && Complete(n)
    ensures HasTargetFields(EligibleFrom(t.(vendorName := Trim(t.vendorName), data := n)), t)
  {
  }

  lemma RowsFrom(items: seq<LineItem>, s: Option<string>)
    requires UpperOptional(s).Some?
    ensures var currency := UpperOptional(s).value;
      HasRowsWith(LinesFrom(NormalizeItems(items), Trim(Upper(currency))), items, currency)
  {
    var currency := UpperOptional(s).value;
    OptionalsTwice(s);
    OptionalMeans(Some(currency));
    assert UpperOptional(Some(currency)) == Some(currency);
    TrimIsTrimmed(s.value);
    UpperOfTrimmed(Trim(s.value));
    TrimmedStays(Upper(currency));
    RowsWith(items, currency);
  }

  lemma CycleFrom(s: Option<string>)
    requires NormalizeCycle(s).Some?
    ensures Lower(Trim(NormalizeCycle(s).value)) == NormalizeCycle(s).value
  {
    var cycle := NormalizeCycle(s).value;
    CanonicalTwice(s.value, IsCycleSeparator, '_');
    LowerTwice(Trim(s.value));
    FieldsAreWords(Lower(Trim(s.value)), IsCycleSeparator);
    JoinShape(CycleWords(s.value), IsCycleSeparator, '_');
    TrimmedStays(cycle);
  }

  lemma EligibleHasData(user: nat, target: Target)
    requires Judge(user, target).Eligible?
    ensures HasTargetData(Judge(user, target).item, target)
  {
    var n := NormalizeParsed(target.data);
    NormalFormOf(target.data);
    PassedIsComplete(n, user, Trim(target.vendorName));
    FieldsFrom(target, n);
    ParsedTwice(target.data);
    DisplayExactly(target.data);
    RowsFrom(target.data.lines, target.data.currency);
    CycleFrom(target.data.cycle);
  }

  /** Whom and what a verdict is about. */
  ghost predicate SameIds(v: Verdict, t: Target) {
    match v
    case Eligible(e) => e.parsedEmailId == t.parsedEmailId && e.emailId == t.emailId
    case Ineligible(r) => r.parsedEmailId == t.parsedEmailId && r.emailId == t.emailId && r.vendor == t.vendor
    case Failed(f) => f.parsedEmailId == t.parsedEmailId && f.emailId == t.emailId
  }

  /** The verdict on a target: invalid without its ids or a vendor name, rejected for the first reason that
      objects to its normalised data, and otherwise eligible with its data. */
  lemma JudgeExactly(user: nat, target: Target)
    ensures var p, v := NormalizeParsed(target.data), Judge(user, target);
      && SameIds(v, target)
      && (v == Failed(Failure(target.parsedEmailId, target.emailId, INVALID_TARGET)) <==>
            target.parsedEmailId == 0 || target.emailId == 0 || target.vendor == 0 || AllSpace(target.vendorName))
      && (v.Ineligible? ==>
            && v.rejected.reason != VendorInvalid && Breaks(v.rejected.reason, p, user, target.vendorName)
            && NothingBreaksBefore(Order(v.rejected.reason), p, user, target.vendorName))
      && (v.Eligible? ==>
            NothingBreaksBefore(9, p, user, target.vendorName) && HasTargetData(v.item, target))
      && (v.Failed? && v.failure.code == ELIGIBILITY_FAILED ==> user == 0)
  {
    var t := NormalizeTarget(target);
    BlankMeans(target.vendorName);
    TrimTwice(target.vendorName);
    assert INVALID_TARGET[0] != ELIGIBILITY_FAILED[0];
    EvaluateExactly(t.data, user, t.vendorName);
    BlankMeans(t.vendorName);
    SameVendorBreaks(t.data, user, target.vendorName);
    if Judge(user, target).Eligible? {
      EligibleHasData(user, target);
    }
  }

  /** The objections do not depend on white space around the vendor name. */
  lemma SameVendorBreaks(p: ParsedEmail, user: nat, vendorName: string)
    ensures forall r :: Breaks(r, p, user, Trim(vendorName)) <==> Breaks(r, p, user, vendorName)
  {
    BlankMeans(vendorName);
    BlankMeans(Trim(vendorName));
    TrimTwice(vendorName);
  }

  predicate IsEligible(v: Verdict) {
    v.Eligible?
  }

  predicate IsIneligible(v: Verdict) {
    v.Ineligible?
  }

  predicate IsFailed(v: Verdict) {
    v.Failed?
  }

  /** The three lists are the verdicts of their kind, in order. */
  ghost predicate AreListed(eligible: seq<EligibleItem>, ineligible: seq<IneligibleItem>, failures: seq<Failure>,
                            vs: seq<Verdict>) {
    && Keeps(eligible, vs, IsEligible, (e, v) => v == Eligible(e))
    && Keeps(ineligible, vs, IsIneligible, (r, v) => v == Ineligible(r))
    && Keeps(failures, vs, IsFailed, (f, v) => v == Failed(f))
  }

  lemma OneMoreListed(eligible: seq<EligibleItem>, ineligible: seq<IneligibleItem>, failures: seq<Failure>,
                      vs: seq<Verdict>)
    requires vs != [] && AreListed(eligible, ineligible, failures, vs[..|vs| - 1])
    ensures match vs[|vs| - 1]
      case Eligible(e) => AreListed(eligible + [e], ineligible, failures, vs)
      case Ineligible(r) => AreListed(eligible, ineligible + [r], failures, vs)
      case Failed(f) => AreListed(eligible, ineligible, failures + [f], vs)
  {
    var isItem := (e: EligibleItem, v: Verdict) => v == Eligible(e);
    var isRejected := (r: IneligibleItem, v: Verdict) => v == Ineligible(r);
    var isFailure := (f: Failure, v: Verdict) => v == Failed(f);
    match vs[|vs| - 1]
    case Eligible(e) =>
      OneMore(eligible, eligible + [e], vs, IsEligible, isItem, e);
      OneSkipped(ineligible, vs, IsIneligible, isRejected);
      OneSkipped(failures, vs, IsFailed, isFailure);
    case Ineligible(r) =>
      OneSkipped(eligible, vs, IsEligible, isItem);
      OneMore(ineligible, ineligible + [r], vs, IsIneligible, isRejected, r);
      OneSkipped(failures, vs, IsFailed, isFailure);
    case Failed(f) =>
      OneSkipped(eligible, vs, IsEligible, isItem);
      OneSkipped(ineligible, vs, IsIneligible, isRejected);
      OneMore(failures, failures + [f], vs, IsFailed, isFailure, f);
  }

  lemma {:induction false} ListsKeep(vs: seq<Verdict>)
    ensures AreListed(EligibleOf(vs), IneligibleOf(vs), FailuresOf(vs), vs)
  {
    if vs != [] {
      var before := vs[..|vs| - 1];
      ListsKeep(before);
      OneMoreListed(EligibleOf(before), IneligibleOf(before), FailuresOf(before), vs);
    }
  }
}
