/** The billing stage: eligible items become billings and are saved once per identity. */
module BillingCreation {
  import opened Options
  import opened Text
  import opened Times
  import opened LineItems
  import opened Filtering
  import opened BillingEligibility
  import Store = BillingStore

  // ---------------------------------------------------------------------------------------
  // NewBilling
  // ---------------------------------------------------------------------------------------

  function Clone(s: Option<string>): Option<string> {
    if s.None? then None else Some(Trim(s.value))
  }

  function CloneLine(l: LineItem): LineItem {
    LineItem(Clone(l.raw), Clone(l.display), l.amount, Clone(l.currency))
  }

  /** toBillingLineItemInputs */
  function Clones(lines: seq<LineItem>): seq<LineItem> {
    seq(|lines|, i requires 0 <= i < |lines| => CloneLine(lines[i]))
  }

  /** CreationTarget.Normalize, and the line items as NewBilling gets them. */
  function CreationTarget(e: EligibleItem): EligibleItem {
    e.(vendorName := Trim(e.vendorName), display := Clone(e.display), number := Trim(e.number),
       invoice := Clone(e.invoice), currency := Trim(e.currency), cycle := Trim(e.cycle),
       lines := Clones(e.lines))
  }

  predicate CreationValid(t: EligibleItem) {
    t.parsedEmailId != 0 && t.emailId != 0 && t.vendor != 0 && t.number != "" && t.currency != "" && t.cycle != ""
  }

  function InvoiceOf(s: Option<string>): string {
    if s.None? then "" else Upper(Trim(s.value))
  }

  /** T and thirteen digits. */
  predicate InvoiceWellFormed(s: string) {
    |s| == 14 && s[0] == 'T' && forall i :: 1 <= i < 14 ==> '0' <= s[i] <= '9'
  }

  /** The aggregate; `invoice` is empty when there is none. */
  datatype Billing = Billing(
    user: nat, vendor: nat, email: nat, display: Option<string>, number: string, invoice: string,
    amount: Amount, currency: string, date: Option<int>, cycle: string, lines: seq<LineItem>)

  datatype Error =
    | NoNumber | BadAmount | BadScale | NoCurrency | BadCurrency | NoCycle | BadCycle
    | NoUser | NoVendor | NoEmail | BadInvoice | BadDate | NoLines

  function AmountError(a: Amount): Option<Error> {
    match CheckAmount(a) case AmountOk => None case AmountBad => Some(BadAmount) case ScaleBad => Some(BadScale)
  }

  function CurrencyError(s: string): Option<Error> {
    match CheckCurrency(s)
    case CurrencyOk(_) => None
    case CurrencyBlank => Some(NoCurrency)
    case CurrencyBad => Some(BadCurrency)
  }

  function CycleError(s: string): Option<Error> {
    match CheckCycle(s) case CycleOk(_) => None case CycleBlank => Some(NoCycle) case CycleBad => Some(BadCycle)
  }

  /** Billing.Validate */
  function ValidateBilling(b: Billing): Option<Error> {
    if b.user == 0 then Some(NoUser)
    else if b.vendor == 0 then Some(NoVendor)
    else if b.email == 0 then Some(NoEmail)
    else if Trim(b.number) == "" then Some(NoNumber)
    else if Trim(b.invoice) != "" && !InvoiceWellFormed(Upper(Trim(b.invoice))) then Some(BadInvoice)
    else if AmountError(b.amount).Some? then AmountError(b.amount)
    else if CurrencyError(b.currency).Some? then CurrencyError(b.currency)
    else if b.date == Some(ZERO_TIME) then Some(BadDate)
    else if CycleError(b.cycle).Some? then CycleError(b.cycle)
    else if NormalizeItems(b.lines) == [] then Some(NoLines)
    else None
  }

  /** resolveBillingLineItems: the non-empty rows, or one made from the billing itself. */
  function ResolveLines(lines: seq<LineItem>, display: Option<string>, amount: Amount,
                        currency: string): seq<LineItem> {
    if NormalizeItems(lines) != [] then NormalizeItems(lines)
    else
      var fallback := Normalize(LineItem(None, TrimOptional(display), Some(amount), UpperOptional(Some(currency))));
      if IsEmpty(fallback) then [] else [fallback]
  }

  method ResolveBillingLineItems(lines: seq<LineItem>, display: Option<string>, amount: Amount, currency: string)
    returns (r: seq<LineItem>)
    ensures r == ResolveLines(lines, display, amount, currency)
  {
    r := NormalizeLineItems(lines);
    if r == [] {
      var fallback := Normalize(LineItem(None, TrimOptional(display), Some(amount), UpperOptional(Some(currency))));
      r := if IsEmpty(fallback) then [] else [fallback];
    }
  }

  datatype Construction = Built(billing: Billing) | Rejected(error: Error)

  /** The billing before its own validation. The amount is kept as given. */
  function Assemble(user: nat, t: EligibleItem): Billing
    requires CurrencyError(t.currency).None? && CycleError(t.cycle).None?
  {
    Billing(user, t.vendor, t.emailId, TrimOptional(t.display), Trim(t.number), InvoiceOf(t.invoice), t.amount,
            CheckCurrency(t.currency).code, t.date, CheckCycle(t.cycle).cycle,
            ResolveLines(t.lines, t.display, t.amount, t.currency))
  }

  function NewBilling(user: nat, t: EligibleItem): Construction {
    if Trim(t.number) == "" then Rejected(NoNumber)
    else if AmountError(t.amount).Some? then Rejected(AmountError(t.amount).value)
    else if CurrencyError(t.currency).Some? then Rejected(CurrencyError(t.currency).value)
    else if CycleError(t.cycle).Some? then Rejected(CycleError(t.cycle).value)
    else
      var b := Assemble(user, t);
      if ValidateBilling(b).Some? then Rejected(ValidateBilling(b).value) else Built(b)
  }

  /** NewBilling with its loop over the line items. */
  method ConstructBilling(user: nat, t: EligibleItem) returns (c: Construction)
    ensures c == NewBilling(user, t)
  {
    if Trim(t.number) == "" {
      return Rejected(NoNumber);
    }
    var money := CheckAmount(t.amount);
    if money != AmountOk {
      return Rejected(if money == AmountBad then BadAmount else BadScale);
    }
    var currency := CheckCurrency(t.currency);
    if !currency.CurrencyOk? {
      return Rejected(if currency == CurrencyBlank then NoCurrency else BadCurrency);
    }
    var cycle := CheckCycle(t.cycle);
    if !cycle.CycleOk? {
      return Rejected(if cycle == CycleBlank then NoCycle else BadCycle);
    }
    var lines := ResolveBillingLineItems(t.lines, t.display, t.amount, t.currency);
    var b := Billing(user, t.vendor, t.emailId, TrimOptional(t.display), Trim(t.number), InvoiceOf(t.invoice), t.amount,
                     currency.code, t.date, cycle.cycle, lines);
    var error := ValidateBilling(b);
    c := if error.Some? then Rejected(error.value) else Built(b);
  }

  // ---------------------------------------------------------------------------------------
  // What eligibility guarantees
  // ---------------------------------------------------------------------------------------

  /** An item the eligibility stage passes satisfies the creation check. */
  lemma EligibleIsCreatable(user: nat, target: Target)
    requires Judge(user, target).Eligible?
    ensures CreationValid(CreationTarget(Judge(user, target).item))
  {
  }

  lemma ResolvedLinesShape(lines: seq<LineItem>, display: Option<string>, amount: Amount, currency: string)
    ensures var r := ResolveLines(lines, display, amount, currency);
      r != [] && Settled(r)
  {
    NormalizeItemsSettles(lines);
    NormalizeTwice(LineItem(None, TrimOptional(display), Some(amount), UpperOptional(Some(currency))));
  }

  lemma UpperKeepsTrim(s: string)
    ensures Trim(Upper(Trim(s))) == Upper(Trim(s)) && Upper(Upper(Trim(s))) == Upper(Trim(s))
  {
    TrimIsTrimmed(s);
    UpperOfTrimmed(Trim(s));
    TrimmedStays(Upper(Trim(s)));
  }

  lemma CurrencyStays(s: string)
    requires CheckCurrency(s).CurrencyOk?
    ensures CheckCurrency(CheckCurrency(s).code) == CheckCurrency(s)
  {
    UpperKeepsTrim(s);
  }

  lemma CycleStays(s: string)
    requires CheckCycle(s).CycleOk?
    ensures CheckCycle(CheckCycle(s).cycle) == CheckCycle(s)
  {
    LowerTwice(Trim(s));
    TrimmedStays(CheckCycle(s).cycle);
  }

  lemma InvoiceStays(s: Option<string>)
    ensures Trim(InvoiceOf(s)) == InvoiceOf(s) && Upper(InvoiceOf(s)) == InvoiceOf(s)
  {
    if s.Some? {
      UpperKeepsTrim(s.value);
    }
  }

  predicate ChecksPass(t: EligibleItem) {
    Trim(t.number) != "" && AmountError(t.amount).None? && CurrencyError(t.currency).None? && CycleError(t.cycle).None?
  }

  /** Validation of an assembled billing can only object to its invoice number or its date. */
  lemma AssembledObjections(user: nat, t: EligibleItem)
    requires user != 0 && t.vendor != 0 && t.emailId != 0 && ChecksPass(t)
    ensures ValidateBilling(Assemble(user, t)) ==
      if InvoiceMalformed(t.invoice) then Some(BadInvoice)
      else if t.date == Some(ZERO_TIME) then Some(BadDate)
      else None
  {
    TrimTwice(t.number);
    InvoiceStays(t.invoice);
    CurrencyStays(t.currency);
    CycleStays(t.cycle);
    ResolvedLinesShape(t.lines, t.display, t.amount, t.currency);
    SettledStays(ResolveLines(t.lines, t.display, t.amount, t.currency));
    if t.invoice.Some? {
      UpperBlank(Trim(t.invoice.value));
    }
  }

  lemma UpperBlank(s: string)
    ensures Upper(s) == "" <==> s == ""
  {
    assert |Upper(s)| == |s|;
  }

  predicate InvoiceMalformed(s: Option<string>) {
    s.Some? && Trim(s.value) != "" && !InvoiceWellFormed(Upper(Trim(s.value)))
  }

  lemma ClonesPass(user: nat, target: Target)
    requires Judge(user, target).Eligible?
    ensures ChecksPass(CreationTarget(Judge(user, target).item))
  {
    var p := NormalizeTarget(target).data;
    TrimTwice(p.billingNumber.value);
    ChecksIgnoreSpace(p.currency.value);
    ChecksIgnoreSpace(p.cycle.value);
  }

  /** For an item the eligibility stage passes, construction fails exactly when its invoice number is
      not blank and malformed or its billing date is the zero time. */
  lemma EligibleConstruction(user: nat, target: Target)
    requires Judge(user, target).Eligible?
    ensures var e := Judge(user, target).item;
      NewBilling(user, CreationTarget(e)).Rejected? <==> InvoiceMalformed(e.invoice) || e.date == Some(ZERO_TIME)
  {
    var e := Judge(user, target).item;
    ClonesPass(user, target);
    if e.invoice.Some? {
      TrimTwice(e.invoice.value);
    }
    AssembledObjections(user, CreationTarget(e));
  }

  lemma NewBillingShape(user: nat, t: EligibleItem)
    requires NewBilling(user, t).Built?
    ensures var b := NewBilling(user, t).billing;
      && ValidateBilling(b).None? && b.user == user && b.vendor == t.vendor && b.email == t.emailId
      && b.number == Trim(t.number) && b.lines != [] && Settled(b.lines)
  {
    ResolvedLinesShape(t.lines, t.display, t.amount, t.currency);
  }

  lemma {:induction false} LinesHaveCurrency(items: seq<LineItem>, fallback: string)
    requires fallback != ""
    ensures |LinesFrom(items, fallback)| == |items|
    ensures forall i :: 0 <= i < |items| ==> LinesFrom(items, fallback)[i].currency.Some?
  {
    if items != [] {
      LinesHaveCurrency(items[..|items| - 1], fallback);
    }
  }

  /** Every product row of an eligible item is kept, and carries a currency. */
  lemma EligibleLinesKept(user: nat, target: Target)
    requires Judge(user, target).Eligible?
    ensures var e := Judge(user, target).item;
      |e.lines| == |NormalizeItems(target.data.lines)| && forall i :: 0 <= i < |e.lines| ==> e.lines[i].currency.Some?
  {
    var t := NormalizeTarget(target);
    var currency := t.data.currency.value;
    OptionalsTwice(target.data.currency);
    UpperKeepsTrim(target.data.currency.value);
    assert Trim(Upper(currency)) != "";
    LinesHaveCurrency(t.data.lines, Trim(Upper(currency)));
  }

  // ---------------------------------------------------------------------------------------
  // Saving
  // ---------------------------------------------------------------------------------------

  function ToStore(b: Billing): Store.Billing {
    Store.Billing((b.user, b.vendor, b.number), b.email, b.date, b.lines)
  }

  predicate AmountsFinite(lines: seq<LineItem>) {
    forall i :: 0 <= i < |lines| ==> lines[i].amount != Some(NotFinite)
  }

  /** Without a database error a built billing is created, unless its identity is taken, it has no date
      and its email is gone, or a product row's amount is not finite. All its rows are stored. */
  lemma BuiltIsStored(db: Store.Db, user: nat, t: EligibleItem)
    requires Store.Valid(db) && NewBilling(user, t).Built?
    ensures var b := ToStore(NewBilling(user, t).billing);
      var outcome := Store.SaveOutcome(db, b, false);
      && (outcome.Created? <==>
        !Store.Taken(db, b.identity) && Store.SummaryDate(db, b).Some? && AmountsFinite(b.lines))
      && (outcome.Created? ==> forall i: nat :: (db.nextId, i) in Store.Transact(db, b, false).lines <==> i < |b.lines|)
  {
    NewBillingShape(user, t);
    var b := ToStore(NewBilling(user, t).billing);
    forall i | 0 <= i < |b.lines|
      ensures Store.HasInfiniteAmount(b.lines[i]) <==> b.lines[i].amount == Some(NotFinite)
    {
      assert Normalize(b.lines[i]) == b.lines[i];
    }
    Store.TransactKeeps(db, b, false);
  }

  // ---------------------------------------------------------------------------------------
  // The stage
  // ---------------------------------------------------------------------------------------

  /** What happens around one save: what others commit before it, a database error in it, what others
      commit between a lost insert and the look-up, and an error of the look-up. */
  datatype Turn = Turn(earlier: seq<Store.Event>, fault: bool, others: seq<Store.Event>, findFails: bool)

  datatype FailureStage = NormalizeInput | BuildBilling | SaveBilling

  datatype Verdict = Created(id: nat) | Duplicate(id: nat) | NotCreated(stage: FailureStage)

  datatype Item = Item(billingId: nat, parsedEmailId: nat, emailId: nat, vendor: nat, number: string)
  datatype StageFailure = StageFailure(parsedEmailId: nat, emailId: nat, stage: FailureStage)
  datatype StageResult = StageResult(created: seq<Item>, createdCount: nat, duplicates: seq<Item>, duplicateCount: nat,
                                     failures: seq<StageFailure>)

  function IdentityOf(user: nat, e: EligibleItem): Store.Identity {
    (user, e.vendor, Trim(e.number))
  }

  /** The billing that is to be saved for an item, unless the item is invalid or rejected. */
  function BillingOf(user: nat, e: EligibleItem): Option<Store.Billing> {
    var t := CreationTarget(e);
    if !CreationValid(t) || NewBilling(user, t).Rejected? then None else Some(ToStore(NewBilling(user, t).billing))
  }

  /** The tables when the item's own save starts. */
  function AtSave(db: Store.Db, turn: Turn): Store.Db {
    Store.After(db, turn.earlier)
  }

  /** The tables after the item. */
  function DbAfter(db: Store.Db, user: nat, e: EligibleItem, turn: Turn): Store.Db {
    var b := BillingOf(user, e);
    if b.None? then AtSave(db, turn)
    else
      match Store.SaveOutcome(AtSave(db, turn), b.value, turn.fault)
      case Created(_) => Store.Transact(AtSave(db, turn), b.value, turn.fault)
      case DuplicateKey => Store.After(AtSave(db, turn), turn.others)
      case Error => AtSave(db, turn)
  }

  /** Whether `v` is what the item gets, by the outcome of its own save. */
  predicate VerdictRight(db: Store.Db, user: nat, e: EligibleItem, turn: Turn, v: Verdict) {
    var t := CreationTarget(e);
    if !CreationValid(t) then v == NotCreated(NormalizeInput)
    else if NewBilling(user, t).Rejected? then v == NotCreated(BuildBilling)
    else SavedRight(AtSave(db, turn), ToStore(NewBilling(user, t).billing), turn, v)
  }

  predicate SavedRight(db: Store.Db, b: Store.Billing, turn: Turn, v: Verdict) {
    match Store.SaveOutcome(db, b, turn.fault)
    case Created(id) => v == Created(id)
    case DuplicateKey =>
      if turn.findFails then v == NotCreated(SaveBilling)
      else v.Duplicate? && Names(Store.After(db, turn.others), v.id, b.identity)
    case Error => v == NotCreated(SaveBilling)
  }

  /** The billing under `id` has this identity. */
  predicate Names(db: Store.Db, id: nat, identity: Store.Identity) {
    id in db.billings && db.billings[id].identity == identity
  }

  /** When a valid item is created, a duplicate or a failure of the save, in terms of the tables at its
      save and the errors of its turn. */
  lemma VerdictExactly(db: Store.Db, user: nat, e: EligibleItem, turn: Turn, v: Verdict)
    requires VerdictRight(db, user, e, turn, v) && BillingOf(user, e).Some?
    ensures var b, s := BillingOf(user, e).value, AtSave(db, turn);
      var dated := (b.billingDate.Some? || (b.emailId, user) in s.emails) && !turn.fault;
      var taken := exists id :: id in s.billings && s.billings[id].identity == b.identity;
      && (v.Created? <==> dated && !taken && AmountsFinite(b.lines))
      && (v.Duplicate? <==> dated && taken && !turn.findFails)
      && (v == NotCreated(SaveBilling) <==> !dated || (taken && turn.findFails) || (!taken && !AmountsFinite(b.lines)))
  {
    NewBillingShape(user, CreationTarget(e));
    SavedExactly(AtSave(db, turn), BillingOf(user, e).value, turn, v);
  }

  lemma SavedExactly(s: Store.Db, b: Store.Billing, turn: Turn, v: Verdict)
    requires SavedRight(s, b, turn, v) && Settled(b.lines)
    ensures var dated := (b.billingDate.Some? || (b.emailId, b.identity.0) in s.emails) && !turn.fault;
      var taken := exists id :: id in s.billings && s.billings[id].identity == b.identity;
      && (v.Created? <==> dated && !taken && AmountsFinite(b.lines))
      && (v.Duplicate? <==> dated && taken && !turn.findFails)
      && (v == NotCreated(SaveBilling) <==> !dated || (taken && turn.findFails) || (!taken && !AmountsFinite(b.lines)))
  {
    FiniteLines(b);
  }

  lemma FiniteLines(b: Store.Billing)
    requires Settled(b.lines)
    ensures (exists i :: 0 <= i < |b.lines| && Store.HasInfiniteAmount(b.lines[i])) <==> !AmountsFinite(b.lines)
  {
    forall i | 0 <= i < |b.lines|
      ensures Store.HasInfiniteAmount(b.lines[i]) <==> b.lines[i].amount == Some(NotFinite)
    {
      assert Normalize(b.lines[i]) == b.lines[i];
    }
  }

  /** A created billing is a new one, and so is stored with its identity. */
  lemma CreatedIsNew(db: Store.Db, user: nat, e: EligibleItem, turn: Turn, v: Verdict)
    requires Store.Valid(db) && VerdictRight(db, user, e, turn, v) && v.Created?
    ensures v.id !in db.billings && Names(DbAfter(db, user, e, turn), v.id, IdentityOf(user, e))
  {
    Store.RunKeeps(db, turn.earlier);
    NewBillingShape(user, CreationTarget(e));
    TrimTwice(e.number);
    Store.TransactKeeps(AtSave(db, turn), BillingOf(user, e).value, turn.fault);
  }

  /** What each item makes of the tables. */
  function StepOf(user: nat, es: seq<EligibleItem>, turns: seq<Turn>): (Store.Db, int) -> Store.Db
    requires |turns| == |es|
  {
    (s: Store.Db, i: int) => if 0 <= i < |es| then DbAfter(s, user, es[i], turns[i]) else s
  }

  function Chain(db: Store.Db, step: (Store.Db, int) -> Store.Db, n: nat): Store.Db {
    if n == 0 then db else step(Chain(db, step, n - 1), n - 1)
  }

  /** The tables before item `n`. */
  function DbBefore(db: Store.Db, user: nat, es: seq<EligibleItem>, turns: seq<Turn>, n: nat): Store.Db
    requires n <= |es| && |turns| == |es|
  {
    Chain(db, StepOf(user, es, turns), n)
  }

  ghost predicate Each(vs: seq<Verdict>, right: (int, Verdict) -> bool) {
    forall i :: 0 <= i < |vs| ==> right(i, vs[i])
  }

  lemma OneMoreEach(vs: seq<Verdict>, v: Verdict, right: (int, Verdict) -> bool)
    requires Each(vs, right) && right(|vs|, v)
    ensures Each(vs + [v], right)
  {
  }

  /** Which verdicts are right for which item. */
  ghost function RightAt(db: Store.Db, user: nat, es: seq<EligibleItem>, turns: seq<Turn>): (int, Verdict) -> bool
    requires |turns| == |es|
  {
    (i: int, v: Verdict) => 0 <= i < |es| && VerdictRight(DbBefore(db, user, es, turns, i), user, es[i], turns[i], v)
  }

  /** Each of the first items has the verdict it gets. */
  ghost predicate VerdictsRight(db: Store.Db, user: nat, es: seq<EligibleItem>, turns: seq<Turn>, vs: seq<Verdict>)
    requires |vs| <= |es| && |turns| == |es|
  {
    Each(vs, RightAt(db, user, es, turns))
  }

  lemma VerdictOf(db: Store.Db, user: nat, es: seq<EligibleItem>, turns: seq<Turn>, vs: seq<Verdict>, i: nat)
    requires i < |vs| <= |es| && |turns| == |es| && VerdictsRight(db, user, es, turns, vs)
    ensures VerdictRight(DbBefore(db, user, es, turns, i), user, es[i], turns[i], vs[i])
  {
    assert RightAt(db, user, es, turns)(i, vs[i]);
  }

  ghost predicate Reported(r: StageResult, e: EligibleItem, v: Verdict) {
    match v
    case Created(id) => Item(id, e.parsedEmailId, e.emailId, e.vendor, Trim(e.number)) in r.created
    case Duplicate(id) => Item(id, e.parsedEmailId, e.emailId, e.vendor, Trim(e.number)) in r.duplicates
    case NotCreated(stage) => StageFailure(e.parsedEmailId, e.emailId, stage) in r.failures
  }

  ghost predicate AllReported(r: StageResult, es: seq<EligibleItem>, vs: seq<Verdict>) {
    && |vs| <= |es| && |r.created| + |r.duplicates| + |r.failures| == |vs|
    && forall i :: 0 <= i < |vs| ==> Reported(r, es[i], vs[i])
  }

  function Add(r: StageResult, e: EligibleItem, v: Verdict): StageResult {
    var item := (id: nat) => Item(id, e.parsedEmailId, e.emailId, e.vendor, Trim(e.number));
    match v
    case Created(id) => r.(created := r.created + [item(id)])
    case Duplicate(id) => r.(duplicates := r.duplicates + [item(id)])
    case NotCreated(stage) => r.(failures := r.failures + [StageFailure(e.parsedEmailId, e.emailId, stage)])
  }

  const NO_REPORT := StageResult([], 0, [], 0, [])

  /** The three lists, in order. */
  ghost function ReportOf(es: seq<EligibleItem>, vs: seq<Verdict>): StageResult
    requires |vs| <= |es|
  {
    if vs == [] then NO_REPORT
    else
      var n := |vs| - 1;
      Add(ReportOf(es, vs[..n]), es[n], vs[n])
  }

  lemma StaysReported(r: StageResult, e: EligibleItem, v: Verdict, other: EligibleItem, w: Verdict)
    requires Reported(r, e, v)
    ensures Reported(Add(r, other, w), e, v)
  {
  }

  lemma AddReports(r: StageResult, e: EligibleItem, v: Verdict)
    ensures var q := Add(r, e, v);
      && Reported(q, e, v)
      && |q.created| + |q.duplicates| + |q.failures| == |r.created| + |r.duplicates| + |r.failures| + 1
  {
  }

  lemma OneMoreReported(r: StageResult, es: seq<EligibleItem>, vs: seq<Verdict>, v: Verdict)
    requires AllReported(r, es, vs) && |vs| < |es|
    ensures AllReported(Add(r, es[|vs|], v), es, vs + [v])
  {
    AddReports(r, es[|vs|], v);
    forall i | 0 <= i < |vs|
      ensures Reported(Add(r, es[|vs|], v), es[i], vs[i])
    {
      StaysReported(r, es[i], vs[i], es[|vs|], v);
    }
  }

  /** Every item is in exactly one list. */
  lemma {:induction false} EveryItemReported(es: seq<EligibleItem>, vs: seq<Verdict>)
    requires |vs| <= |es|
    ensures AllReported(ReportOf(es, vs), es, vs)
  {
    if vs != [] {
      var n := |vs| - 1;
      EveryItemReported(es, vs[..n]);
      OneMoreReported(ReportOf(es, vs[..n]), es, vs[..n], vs[n]);
      assert vs[..n] + [vs[n]] == vs;
    }
  }

  lemma OneMoreRight(db: Store.Db, user: nat, es: seq<EligibleItem>, turns: seq<Turn>, vs: seq<Verdict>, v: Verdict)
    requires |vs| < |es| && |turns| == |es| && VerdictsRight(db, user, es, turns, vs)
    requires VerdictRight(DbBefore(db, user, es, turns, |vs|), user, es[|vs|], turns[|vs|], v)
    ensures VerdictsRight(db, user, es, turns, vs + [v])
  {
    OneMoreEach(vs, v, RightAt(db, user, es, turns));
  }

  lemma DbAfterKeeps(db: Store.Db, user: nat, e: EligibleItem, turn: Turn)
    requires Store.Valid(db)
    ensures Store.Valid(DbAfter(db, user, e, turn)) && Store.Grows(db, DbAfter(db, user, e, turn))
  {
    var s := AtSave(db, turn);
    Store.RunKeeps(db, turn.earlier);
    Store.RunKeeps(s, turn.others);
    if BillingOf(user, e).Some? {
      Store.TransactKeeps(s, BillingOf(user, e).value, turn.fault);
    }
    Store.GrowsOn(db, s, DbAfter(db, user, e, turn));
  }

  ghost predicate StepsKeep(step: (Store.Db, int) -> Store.Db) {
    forall s, i :: Store.Valid(s) ==> Store.Valid(step(s, i)) && Store.Grows(s, step(s, i))
  }

  lemma StepOfKeeps(user: nat, es: seq<EligibleItem>, turns: seq<Turn>)
    requires |turns| == |es|
    ensures StepsKeep(StepOf(user, es, turns))
  {
    var step := StepOf(user, es, turns);
    forall s, i | Store.Valid(s)
      ensures Store.Valid(step(s, i)) && Store.Grows(s, step(s, i))
    {
      if 0 <= i < |es| {
        DbAfterKeeps(s, user, es[i], turns[i]);
      }
    }
  }

  lemma {:induction false} ChainKeeps(db: Store.Db, step: (Store.Db, int) -> Store.Db, i: nat, n: nat)
    requires StepsKeep(step) && Store.Valid(db) && i <= n
    ensures Store.Valid(Chain(db, step, i)) && Store.Valid(Chain(db, step, n))
    ensures Store.Grows(Chain(db, step, i), Chain(db, step, n))
    decreases n
  {
    if i < n {
      ChainKeeps(db, step, i, n - 1);
      Store.GrowsOn(Chain(db, step, i), Chain(db, step, n - 1), Chain(db, step, n));
    } else if n > 0 {
      ChainKeeps(db, step, n - 1, n - 1);
    }
  }

  /** The stage keeps the tables valid, and only adds to them. */
  lemma DbBeforeKeeps(db: Store.Db, user: nat, es: seq<EligibleItem>, turns: seq<Turn>, n: nat)
    requires Store.Valid(db) && n <= |es| && |turns| == |es|
    ensures Store.Valid(DbBefore(db, user, es, turns, n)) && Store.Grows(db, DbBefore(db, user, es, turns, n))
  {
    StepOfKeeps(user, es, turns);
    ChainKeeps(db, StepOf(user, es, turns), 0, n);
  }

  lemma DbBeforeGrows(db: Store.Db, user: nat, es: seq<EligibleItem>, turns: seq<Turn>, i: nat, n: nat)
    requires Store.Valid(db) && i <= n <= |es| && |turns| == |es|
    ensures Store.Grows(DbBefore(db, user, es, turns, i), DbBefore(db, user, es, turns, n))
  {
    StepOfKeeps(user, es, turns);
    ChainKeeps(db, StepOf(user, es, turns), i, n);
  }

  lemma DbNext(db: Store.Db, user: nat, es: seq<EligibleItem>, turns: seq<Turn>, i: nat)
    requires i < |es| && |turns| == |es|
    ensures DbBefore(db, user, es, turns, i + 1) == DbAfter(DbBefore(db, user, es, turns, i), user, es[i], turns[i])
  {
  }

  /** The billing created for an item is still there, with the item's identity, before any later one
      and at the end of the stage. */
  lemma CreatedStays(db: Store.Db, user: nat, es: seq<EligibleItem>, turns: seq<Turn>, vs: seq<Verdict>, i: nat, n: nat)
    requires Store.Valid(db) && |turns| == |es| && |vs| <= |es| && VerdictsRight(db, user, es, turns, vs)
    requires i < |vs| && vs[i].Created? && i < n <= |es|
    ensures vs[i].id !in db.billings
    ensures Names(DbBefore(db, user, es, turns, n), vs[i].id, IdentityOf(user, es[i]))
  {
    VerdictOf(db, user, es, turns, vs, i);
    DbBeforeKeeps(db, user, es, turns, i);
    CreatedIsNew(DbBefore(db, user, es, turns, i), user, es[i], turns[i], vs[i]);
    DbNext(db, user, es, turns, i);
    DbBeforeGrows(db, user, es, turns, i + 1, n);
  }

  /** One stage creates at most one billing for an identity. */
  lemma CreatedOnce(db: Store.Db, user: nat, es: seq<EligibleItem>, turns: seq<Turn>, vs: seq<Verdict>, i: nat, j: nat)
    requires Store.Valid(db) && |turns| == |es| && |vs| <= |es| && VerdictsRight(db, user, es, turns, vs)
    requires i < j < |vs| && vs[i].Created? && vs[j].Created?
    ensures vs[i].id != vs[j].id && IdentityOf(user, es[i]) != IdentityOf(user, es[j])
  {
    var before := DbBefore(db, user, es, turns, j);
    CreatedStays(db, user, es, turns, vs, i, j);
    DbBeforeKeeps(db, user, es, turns, j);
    VerdictOf(db, user, es, turns, vs, j);
    CreatedIsNew(before, user, es[j], turns[j], vs[j]);
    CreatedWasFree(before, user, es[j], turns[j], vs[j], vs[i].id);
  }

  lemma CreatedWasFree(db: Store.Db, user: nat, e: EligibleItem, turn: Turn, v: Verdict, id: nat)
    requires Store.Valid(db) && VerdictRight(db, user, e, turn, v) && v.Created?
    ensures !Names(db, id, IdentityOf(user, e))
  {
    Store.RunKeeps(db, turn.earlier);
    NewBillingShape(user, CreationTarget(e));
    TrimTwice(e.number);
  }

  method CreateOne(repo: Store.BillingRepository, user: nat, e: EligibleItem, turn: Turn) returns (v: Verdict)
    requires Store.Valid(repo.db)
    modifies repo
    ensures repo.db == DbAfter(old(repo.db), user, e, turn)
    ensures VerdictRight(old(repo.db), user, e, turn, v)
  {
    repo.Interfere(turn.earlier);
    var t := CreationTarget(e);
    if !CreationValid(t) {
      return NotCreated(NormalizeInput);
    }
    var built := ConstructBilling(user, t);
    if built.Rejected? {
      return NotCreated(BuildBilling);
    }
    var reply := repo.SaveIfAbsent(ToStore(built.billing), turn.fault, turn.others, turn.findFails);
    match reply
    case Failed => v := NotCreated(SaveBilling);
    case Saved(id, duplicate) => v := if duplicate then Duplicate(id) else Created(id);
  }

  /** After the first items: the tables, the verdicts, and what is reported of them. */
  ghost predicate StageAt(db: Store.Db, after: Store.Db, user: nat, es: seq<EligibleItem>, turns: seq<Turn>,
                          vs: seq<Verdict>, r: StageResult)
    requires |turns| == |es|
  {
    && |vs| <= |es| && after == DbBefore(db, user, es, turns, |vs|)
    && VerdictsRight(db, user, es, turns, vs) && r == ReportOf(es, vs)
  }

  lemma OneMoreItem(db: Store.Db, before: Store.Db, user: nat, es: seq<EligibleItem>, turns: seq<Turn>,
                    vs: seq<Verdict>,
                    r: StageResult, v: Verdict)
    requires |turns| == |es| && StageAt(db, before, user, es, turns, vs, r) && |vs| < |es|
    requires VerdictRight(before, user, es[|vs|], turns[|vs|], v)
    ensures StageAt(db, DbAfter(before, user, es[|vs|], turns[|vs|]), user, es, turns, vs + [v], Add(r, es[|vs|], v))
  {
    OneMoreRight(db, user, es, turns, vs, v);
    DbNext(db, user, es, turns, |vs|);
    assert (vs + [v])[..|vs|] == vs;
  }

  method ReportItem(r: StageResult, e: EligibleItem, v: Verdict) returns (q: StageResult)
    ensures q == Add(r, e, v)
  {
    q := Add(r, e, v);
  }

  /** One turn of the loop. */
  method CreateNext(repo: Store.BillingRepository, user: nat, items: seq<EligibleItem>, turns: seq<Turn>, i: nat,
                    r: StageResult, ghost db: Store.Db, ghost vs: seq<Verdict>)
    returns (next: StageResult, ghost verdicts: seq<Verdict>)
    requires Store.Valid(db) && |turns| == |items| && i == |vs| < |items|
    requires StageAt(db, repo.db, user, items, turns, vs, r)
    modifies repo
    ensures |verdicts| == i + 1 && StageAt(db, repo.db, user, items, turns, verdicts, next)
  {
    DbBeforeKeeps(db, user, items, turns, i);
    ghost var before := repo.db;
    var v := CreateOne(repo, user, items[i], turns[i]);
    next := ReportItem(r, items[i], v);
    verdicts := vs + [v];
    OneMoreItem(db, before, user, items, turns, vs, r, v);
  }

  /** The loop over the items. */
  method CreateAll(repo: Store.BillingRepository, user: nat, items: seq<EligibleItem>, turns: seq<Turn>)
    returns (r: StageResult, ghost verdicts: seq<Verdict>)
    requires Store.Valid(repo.db) && |turns| == |items|
    modifies repo
    ensures |verdicts| == |items| && StageAt(old(repo.db), repo.db, user, items, turns, verdicts, r)
  {
    r, verdicts := NO_REPORT, [];
    for i := 0 to |items|
      invariant |verdicts| == i && StageAt(old(repo.db), repo.db, user, items, turns, verdicts, r)
    {
      r, verdicts := CreateNext(repo, user, items, turns, i, r, old(repo.db), verdicts);
    }
  }

  lemma CountsApart(r: StageResult, es: seq<EligibleItem>, vs: seq<Verdict>)
    requires AllReported(r, es, vs)
    ensures AllReported(r.(createdCount := |r.created|, duplicateCount := |r.duplicates|), es, vs)
  {
    var q := r.(createdCount := |r.created|, duplicateCount := |r.duplicates|);
    forall i | 0 <= i < |vs|
      ensures Reported(q, es[i], vs[i])
    {
      assert Reported(r, es[i], vs[i]);
    }
  }

  /** Every eligible item is in exactly one list, by what its own save made of it; the counts are the
      lengths of the lists. */
  method Execute(repo: Store.BillingRepository, user: nat, items: seq<EligibleItem>, turns: seq<Turn>)
    returns (r: StageResult, ghost verdicts: seq<Verdict>)
    requires Store.Valid(repo.db) && |turns| == |items|
    modifies repo
    ensures Store.Valid(repo.db) && Store.Grows(old(repo.db), repo.db)
    ensures repo.db == DbBefore(old(repo.db), user, items, turns, |items|)
    ensures |verdicts| == |items| && VerdictsRight(old(repo.db), user, items, turns, verdicts)
    ensures AllReported(r, items, verdicts)
    ensures var all := ReportOf(items, verdicts);
      r == all.(createdCount := |all.created|, duplicateCount := |all.duplicates|)
  {
    r, verdicts := CreateAll(repo, user, items, turns);
    DbBeforeKeeps(old(repo.db), user, items, turns, |items|);
    EveryItemReported(items, verdicts);
    CountsApart(r, items, verdicts);
    r := r.(createdCount := |r.created|, duplicateCount := |r.duplicates|);
  }

  // ---------------------------------------------------------------------------------------
  // What a created billing holds
  // ---------------------------------------------------------------------------------------

  /** The text without white space around it; blank text is no text. */
  ghost predicate IsTrimmedOr(t: string, s: Option<string>, upper: bool) {
    if SaysNothing(s) then t == "" else t == if upper then Upper(Trim(s.value)) else Trim(s.value)
  }

  /** The built billing has the item's data: identity, amount and date as they are, texts without white
      space around them, currency and invoice number in capitals, the cycle in small letters. */
  ghost predicate HasDataOf(b: Billing, user: nat, e: EligibleItem) {
    && b.user == user && b.vendor == e.vendor && b.email == e.emailId && b.number == Trim(e.number)
    && IsTrimmed(b.display, e.display) && IsTrimmedOr(b.invoice, e.invoice, true)
    && b.amount == e.amount && b.currency == Upper(Trim(e.currency))
    && b.date == e.date && b.cycle == Lower(Trim(e.cycle))
  }

  /** The one product row of a billing without product rows of its own. */
  ghost predicate IsFallbackRow(row: LineItem, e: EligibleItem) {
    && row.raw == None && IsTrimmed(row.display, e.display)
    && row.amount == Some(e.amount) && IsTrimmedUpper(row.currency, Some(e.currency))
  }

  /** The product rows of the item, or one made from the item itself if none says anything. */
  ghost predicate HasRowsOf(rows: seq<LineItem>, e: EligibleItem) {
    if NoRowSpeaks(e.lines) then |rows| == 1 && IsFallbackRow(rows[0], e)
    else KeepsRows(rows, e.lines)
  }

  lemma CloneMeans(s: Option<string>)
    ensures TrimOptional(Clone(s)) == TrimOptional(s) && UpperOptional(Clone(s)) == UpperOptional(s)
    ensures SaysNothing(Clone(s)) == SaysNothing(s)
  {
    if s.Some? {
      TrimTwice(s.value);
      BlankMeans(s.value);
      BlankMeans(Trim(s.value));
    }
  }

  lemma {:induction false} ClonesNormalise(lines: seq<LineItem>)
    ensures NormalizeItems(Clones(lines)) == NormalizeItems(lines)
  {
    if lines != [] {
      var last := |lines| - 1;
      CloneMeans(lines[last].raw);
      CloneMeans(lines[last].display);
      CloneMeans(lines[last].currency);
      ClonesNormalise(lines[..last]);
      assert Clones(lines)[..last] == Clones(lines[..last]);
    }
  }

  lemma FallbackMeans(e: EligibleItem)
    ensures var t := CreationTarget(e);
      var row := Normalize(LineItem(None, TrimOptional(t.display), Some(t.amount), UpperOptional(Some(t.currency))));
      IsFallbackRow(row, e) && !IsEmpty(row)
  {
    CloneMeans(e.display);
    OptionalMeans(e.display);
    OptionalsTwice(e.display);
    CloneMeans(Some(e.currency));
    OptionalMeans(Some(e.currency));
    OptionalsTwice(Some(e.currency));
    assert Clone(Some(e.currency)) == Some(Trim(e.currency));
  }

  /** No product row says anything. */
  ghost predicate NoRowSpeaks(lines: seq<LineItem>) {
    forall i :: 0 <= i < |lines| ==> !SaysSomething(lines[i])
  }

  lemma NothingKept(lines: seq<LineItem>)
    ensures NormalizeItems(lines) == [] <==> NoRowSpeaks(lines)
  {
    NormalizeItemsSettles(lines);
    forall i | 0 <= i < |lines|
      ensures IsEmpty(Normalize(lines[i])) <==> !SaysSomething(lines[i])
    {
      NormalMeans(lines[i]);
    }
  }

  lemma RowsResolved(e: EligibleItem, kept: seq<LineItem>, fallback: LineItem, rows: seq<LineItem>)
    requires KeepsRows(kept, e.lines) && (kept == [] <==> NoRowSpeaks(e.lines)) && IsFallbackRow(fallback, e)
    requires rows == if kept != [] then kept else [fallback]
    ensures HasRowsOf(rows, e)
  {
  }

  lemma ResolvedRows(e: EligibleItem, rows: seq<LineItem>)
    requires var t := CreationTarget(e); rows == ResolveLines(t.lines, t.display, t.amount, t.currency)
    ensures HasRowsOf(rows, e)
  {
    var t := CreationTarget(e);
    var row := Normalize(LineItem(None, TrimOptional(t.display), Some(t.amount), UpperOptional(Some(t.currency))));
    ClonesNormalise(e.lines);
    NothingKept(e.lines);
    ItemsKept(e.lines);
    FallbackMeans(e);
    RowsResolved(e, NormalizeItems(e.lines), row, rows);
  }

  lemma InvoiceHolds(s: Option<string>)
    ensures IsTrimmedOr(InvoiceOf(Clone(s)), s, true)
  {
    if s.Some? {
      TrimTwice(s.value);
      BlankMeans(s.value);
      UpperBlank(Trim(s.value));
    }
  }

  lemma DataHolds(user: nat, e: EligibleItem)
    requires CurrencyError(Trim(e.currency)).None? && CycleError(Trim(e.cycle)).None?
    ensures HasDataOf(Assemble(user, CreationTarget(e)), user, e)
  {
    TrimTwice(e.number);
    TrimTwice(e.currency);
    TrimTwice(e.cycle);
    CloneMeans(e.display);
    OptionalMeans(e.display);
    InvoiceHolds(e.invoice);
  }

  lemma BuiltHolds(user: nat, e: EligibleItem)
    requires NewBilling(user, CreationTarget(e)).Built?
    ensures var b := NewBilling(user, CreationTarget(e)).billing;
      HasDataOf(b, user, e) && HasRowsOf(b.lines, e) && Settled(b.lines)
  {
    var t := CreationTarget(e);
    DataHolds(user, e);
    NewBillingShape(user, t);
    ResolvedRows(e, NewBilling(user, t).billing.lines);
  }

  /** The tables hold this billing under `id`, with these product rows. */
  ghost predicate Holds(db: Store.Db, id: nat, b: Billing, rows: seq<LineItem>) {
    && id in db.billings
    && db.billings[id].identity == (b.user, b.vendor, b.number) && db.billings[id].emailId == b.email
    && db.billings[id].billingDate == b.date
    && (match b.date
        case Some(date) => db.billings[id].summaryDate == date
        case None => (b.email, b.user) in db.emails && db.billings[id].summaryDate == db.emails[(b.email, b.user)])
    && (forall i: nat :: (id, i) in db.lines <==> i < |rows|)
    && (forall i: nat :: i < |rows| ==> db.lines[(id, i)] == rows[i])
  }

  /** A billing created for an item is stored with the item's data and exactly its product rows, in
      order, each at its place. */
  lemma CreatedHolds(db: Store.Db, user: nat, e: EligibleItem, turn: Turn, v: Verdict)
    returns (b: Billing)
    requires Store.Valid(db) && VerdictRight(db, user, e, turn, v) && v.Created?
    ensures HasDataOf(b, user, e) && HasRowsOf(b.lines, e)
    ensures Holds(DbAfter(db, user, e, turn), v.id, b, b.lines)
  {
    b := NewBilling(user, CreationTarget(e)).billing;
    BuiltHolds(user, e);
    Store.RunKeeps(db, turn.earlier);
    StoredHolds(AtSave(db, turn), b, turn.fault);
  }

  /** And so it is at the end of the stage, whatever others commit meanwhile. */
  lemma StageHolds(db: Store.Db, user: nat, es: seq<EligibleItem>, turns: seq<Turn>, vs: seq<Verdict>, i: nat)
    returns (b: Billing)
    requires Store.Valid(db) && |turns| == |es| == |vs| && VerdictsRight(db, user, es, turns, vs)
    requires i < |vs| && vs[i].Created?
    ensures HasDataOf(b, user, es[i]) && HasRowsOf(b.lines, es[i])
    ensures Holds(DbBefore(db, user, es, turns, |es|), vs[i].id, b, b.lines)
  {
    VerdictOf(db, user, es, turns, vs, i);
    DbBeforeKeeps(db, user, es, turns, i);
    b := CreatedHolds(DbBefore(db, user, es, turns, i), user, es[i], turns[i], vs[i]);
    DbNext(db, user, es, turns, i);
    DbBeforeGrows(db, user, es, turns, i + 1, |es|);
    HoldsOn(DbBefore(db, user, es, turns, i + 1), DbBefore(db, user, es, turns, |es|), vs[i].id, b);
  }

  lemma HoldsOn(s: Store.Db, t: Store.Db, id: nat, b: Billing)
    requires Holds(s, id, b, b.lines) && Store.Grows(s, t)
    ensures Holds(t, id, b, b.lines)
  {
  }

  lemma StoredHolds(s: Store.Db, b: Billing, fault: bool)
    requires Store.Valid(s) && Settled(b.lines) && Store.SaveOutcome(s, ToStore(b), fault).Created?
    ensures Holds(Store.Transact(s, ToStore(b), fault), s.nextId, b, b.lines)
  {
    Store.TransactKeeps(s, ToStore(b), fault);
  }

  /** For an item of the eligibility stage: if it has product rows, the billing has exactly these. */
  lemma EligibleRowsHold(user: nat, target: Target, rows: seq<LineItem>)
    requires Judge(user, target).Eligible? && Judge(user, target).item.lines != []
    requires HasRowsOf(rows, Judge(user, target).item)
    ensures var e := Judge(user, target).item;
      |rows| == |e.lines| && forall i :: 0 <= i < |rows| ==> IsNormalOf(rows[i], e.lines[i])
  {
    var e := Judge(user, target).item;
    EligibleRowsSpeak(user, target);
    assert SaysSomething(e.lines[0]);
    CountAll(e.lines, SaysSomething, |e.lines|);
    forall i | 0 <= i < |rows|
      ensures IsNormalOf(rows[i], e.lines[i])
    {
      CountAll(e.lines, SaysSomething, i);
    }
  }

  lemma EligibleRowsSpeak(user: nat, target: Target)
    requires Judge(user, target).Eligible?
    ensures forall i :: 0 <= i < |Judge(user, target).item.lines| ==> SaysSomething(Judge(user, target).item.lines[i])
  {
    var lines := Judge(user, target).item.lines;
    var t := NormalizeTarget(target);
    TrimIsTrimmed(Upper(ValueOr(t.data.currency, "")));
    RowsAreNotEmpty(t.data.lines, Trim(Upper(ValueOr(t.data.currency, ""))));
  }

  lemma {:induction false} RowsAreNotEmpty(items: seq<LineItem>, fallback: string)
    requires Trimmed(fallback)
    ensures forall i :: 0 <= i < |LinesFrom(items, fallback)| ==> SaysSomething(LinesFrom(items, fallback)[i])
  {
    if items != [] {
      RowsAreNotEmpty(items[..|items| - 1], fallback);
      RowSpeaks(items[|items| - 1], fallback);
    }
  }

  lemma RowSpeaks(item: LineItem, fallback: string)
    requires Trimmed(fallback)
    ensures !IsEmpty(WithCurrency(item, fallback)) ==> SaysSomething(WithCurrency(item, fallback))
  {
    OptionalMeans(item.raw);
    OptionalMeans(item.display);
    OptionalMeans(item.currency);
    NormalMeans(Normalize(item));
    NormalizeTwice(item);
  }
}
