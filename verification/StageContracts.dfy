/** The five stages keep the contracts that the workflow history relies on, so saving the progress of
    what they return is never refused by the failure count check. */
module StageContracts {
  import opened Options
  import H = WorkflowHistory
  import W = WorkflowStages
  import F = MailFetch
  import A = MailAnalysis
  import R = VendorRegistry
  import V = VendorStage
  import E = BillingEligibility
  import B = BillingCreation

  // ---------------------------------------------------------------------------------------
  // Stage results as the history sees them; `message` is the message id of an email
  // ---------------------------------------------------------------------------------------

  function FetchResultOf(created: seq<F.CreatedEmail>, existing: seq<nat>, failures: seq<F.Failure>): H.FetchResult {
    H.FetchResult(seq(|created|, i requires 0 <= i < |created| => H.Item(0, created[i].messageId, "")),
                  existing,
                  seq(|failures|, i requires 0 <= i < |failures| => H.Item(0, failures[i].messageId, failures[i].code)))
  }

  function AnalyzeResultOf(r: A.Result): H.AnalyzeResult {
    H.AnalyzeResult(
      seq(|r.items|, i requires 0 <= i < |r.items| => H.Item(r.items[i].parsedEmailId, r.items[i].messageId, "")),
      r.count,
      seq(|r.failures|, i requires 0 <= i < |r.failures| => H.Item(0, r.failures[i].messageId, r.failures[i].code)))
  }

  function VendorResultOf(r: V.Result, message: nat -> string): H.VendorResult {
    H.VendorResult(
      seq(|r.resolved|, i requires 0 <= i < |r.resolved| =>
        H.Item(r.resolved[i].parsedEmailId, message(r.resolved[i].emailId), "")),
      r.resolvedCount,
      seq(|r.unresolved|, i requires 0 <= i < |r.unresolved| =>
        H.Item(r.unresolved[i].parsedEmailId, message(r.unresolved[i].emailId), H.VENDOR_UNRESOLVED)),
      r.unresolvedCount,
      seq(|r.failures|, i requires 0 <= i < |r.failures| =>
        H.Item(r.failures[i].parsedEmailId, message(r.failures[i].emailId), r.failures[i].code)))
  }

  function ReasonCode(r: E.Reason): string {
    match r
    case VendorInvalid => ""
    case ProductNameEmpty => "product_name_empty"
    case AmountEmpty => "amount_empty"
    case AmountInvalid => "amount_invalid"
    case CurrencyEmpty => "currency_empty"
    case CurrencyInvalid => "currency_invalid"
    case CycleEmpty => "payment_cycle_empty"
    case CycleInvalid => "payment_cycle_invalid"
    case NumberEmpty => "billing_number_empty"
  }

  function EligibilityResultOf(r: E.Result, message: nat -> string): H.EligibilityResult {
    H.EligibilityResult(
      seq(|r.eligible|, i requires 0 <= i < |r.eligible| =>
        H.Item(r.eligible[i].parsedEmailId, message(r.eligible[i].emailId), "")),
      r.eligibleCount,
      seq(|r.ineligible|, i requires 0 <= i < |r.ineligible| =>
        H.Item(r.ineligible[i].parsedEmailId, message(r.ineligible[i].emailId), ReasonCode(r.ineligible[i].reason))),
      r.ineligibleCount,
      seq(|r.failures|, i requires 0 <= i < |r.failures| =>
        H.Item(r.failures[i].parsedEmailId, message(r.failures[i].emailId), r.failures[i].code)))
  }

  function BillingFailureCode(s: B.FailureStage): string {
    match s
    case NormalizeInput => "invalid_creation_target"
    case BuildBilling => "billing_construct_failed"
    case SaveBilling => "billing_persist_failed"
  }

  function BillingItems(items: seq<B.Item>, message: nat -> string, code: string): seq<H.Item> {
    seq(|items|, i requires 0 <= i < |items| => H.Item(items[i].parsedEmailId, message(items[i].emailId), code))
  }

  function BillingResultOf(r: B.StageResult, message: nat -> string): H.BillingResult {
    H.BillingResult(
      BillingItems(r.created, message, ""), r.createdCount,
      BillingItems(r.duplicates, message, H.DUPLICATE_BILLING), r.duplicateCount,
      seq(|r.failures|, i requires 0 <= i < |r.failures| =>
        H.Item(r.failures[i].parsedEmailId, message(r.failures[i].emailId), BillingFailureCode(r.failures[i].stage))))
  }

  // ---------------------------------------------------------------------------------------
  // The contracts
  // ---------------------------------------------------------------------------------------

  /** Sets a code apart from `existing_emails_skipped` by its second letter. */
  predicate Other(code: string) {
    |code| < 2 || code[1] != 'x'
  }

  lemma OtherIsNoSkip(code: string)
    requires Other(code)
    ensures code != H.EXISTING_EMAILS_SKIPPED
  {
    assert H.EXISTING_EMAILS_SKIPPED[1] == 'x';
  }

  lemma OthersAreNoSkips(items: seq<H.Item>)
    requires forall i :: 0 <= i < |items| ==> Other(items[i].code)
    ensures H.NoSkips(items)
  {
    forall i | 0 <= i < |items|
      ensures items[i].code != H.EXISTING_EMAILS_SKIPPED
    {
      OtherIsNoSkip(items[i].code);
    }
  }

  lemma FetchKeepsContract(created: seq<F.CreatedEmail>, existing: seq<nat>, failures: seq<F.Failure>, r: H.Result)
    requires F.FetchCodes(failures)
    ensures H.StageContract(H.Fetch, r.(fetch := FetchResultOf(created, existing, failures)))
  {
    OthersAreNoSkips(FetchResultOf(created, existing, failures).failures);
  }

  lemma {:induction false} InputCodes(emails: seq<A.Email>)
    ensures forall i :: 0 <= i < |A.InvalidEmails(emails)| ==> Other(A.InvalidEmails(emails)[i].code)
  {
    if emails != [] {
      InputCodes(emails[..|emails| - 1]);
    }
  }

  lemma AnalysisCode(user: nat, e: A.Email, a: A.Answer, turn: A.Turn)
    ensures forall i :: 0 <= i < |A.FailureOf(user, e, a, turn)| ==> Other(A.FailureOf(user, e, a, turn)[i].code)
  {
  }

  lemma {:induction false} AnalysisCodes(user: nat, emails: seq<A.Email>, answers: seq<A.Answer>, turns: seq<A.Turn>,
                                         n: nat)
    requires n <= |emails| && n <= |answers| && n <= |turns|
    ensures forall i :: 0 <= i < |A.FailedEmails(user, emails, answers, turns, n)| ==>
      Other(A.FailedEmails(user, emails, answers, turns, n)[i].code)
  {
    if n > 0 {
      AnalysisCodes(user, emails, answers, turns, n - 1);
      A.OneMoreEmail(user, emails, answers, turns, n - 1);
      AnalysisCode(user, emails[n - 1], answers[n - 1], turns[n - 1]);
    }
  }

  /** `a` is what `MailAnalysis.Execute` returns. */
  lemma AnalysisKeepsContract(a: A.Result, user: nat, emails: seq<A.Email>, answers: seq<A.Answer>,
                              turns: seq<A.Turn>, r: H.Result)
    requires |answers| == |turns| == |A.ValidEmails(emails)|
    requires a.failures ==
      A.InvalidEmails(emails) + A.FailedEmails(user, A.ValidEmails(emails), answers, turns, |turns|)
    ensures H.StageContract(H.Analysis, r.(analysis := AnalyzeResultOf(a)))
  {
    InputCodes(emails);
    AnalysisCodes(user, A.ValidEmails(emails), answers, turns, |turns|);
    OthersAreNoSkips(AnalyzeResultOf(a).failures);
  }

  ghost predicate SameIds(parsed: seq<H.Item>, targets: seq<R.Target>) {
    |parsed| == |targets| && forall i :: 0 <= i < |parsed| ==> parsed[i].parsedEmailId == targets[i].parsedEmailId
  }

  lemma OutcomeHasId(v: V.Result, targets: seq<R.Target>, verdicts: seq<V.Verdict>, message: nat -> string, i: nat)
    requires |verdicts| == |targets| && V.ReportsAll(v, targets, verdicts, |targets|) && i < |targets|
    ensures var h := VendorResultOf(v, message);
      var id := targets[i].parsedEmailId;
      H.HasId(h.resolved, id) || H.HasId(h.unresolved, id) || H.HasId(h.failures, id)
  {
    var h := VendorResultOf(v, message);
    var t := targets[i];
    assert V.Reported(v, t, verdicts[i]);
    match verdicts[i]
    case Matched(vendor, rule) =>
      var k :|
        && 0 <= k < |v.resolved|
        && v.resolved[k] == V.ResolvedItem(t.parsedEmailId, t.emailId, vendor.id, vendor.name, rule);
      assert h.resolved[k].parsedEmailId == t.parsedEmailId;
    case Unmatched =>
      var k :| 0 <= k < |v.unresolved| && v.unresolved[k].parsedEmailId == t.parsedEmailId;
      assert h.unresolved[k].parsedEmailId == t.parsedEmailId;
    case Failed(code) =>
      var k :| 0 <= k < |v.failures| && v.failures[k] == V.Failure(t.parsedEmailId, t.emailId, code);
      assert h.failures[k].parsedEmailId == t.parsedEmailId;
  }

  /** `v` is what `VendorStage.Execute` returns for the emails that analysis parsed. */
  lemma VendorKeepsContract(v: V.Result, targets: seq<R.Target>, verdicts: seq<V.Verdict>, message: nat -> string,
                            r: H.Result)
    requires |verdicts| == |targets| && V.ReportsAll(v, targets, verdicts, |targets|)
      && SameIds(r.analysis.parsed, targets)
    ensures H.StageContract(H.VendorResolution, r.(vendor := VendorResultOf(v, message)))
  {
    forall i | 0 <= i < |targets|
      ensures var h := VendorResultOf(v, message);
        var id := r.analysis.parsed[i].parsedEmailId;
        H.HasId(h.resolved, id) || H.HasId(h.unresolved, id) || H.HasId(h.failures, id)
    {
      OutcomeHasId(v, targets, verdicts, message, i);
    }
    OthersAreNoSkips(VendorResultOf(v, message).unresolved);
    OthersAreNoSkips(VendorResultOf(v, message).failures);
  }

  lemma JudgeCode(user: nat, target: E.Target)
    ensures E.Judge(user, target).Failed? ==> Other(E.Judge(user, target).failure.code)
  {
  }

  lemma {:induction false} EligibilityCodes(vs: seq<E.Verdict>)
    requires forall i :: 0 <= i < |vs| && vs[i].Failed? ==> Other(vs[i].failure.code)
    ensures forall i :: 0 <= i < |E.FailuresOf(vs)| ==> Other(E.FailuresOf(vs)[i].code)
  {
    if vs != [] {
      EligibilityCodes(vs[..|vs| - 1]);
    }
  }

  lemma ReasonCodesOther(r: E.Reason)
    ensures Other(ReasonCode(r))
  {
  }

  /** `e` is what `BillingEligibility.Execute` returns. */
  lemma EligibilityKeepsContract(e: E.Result, user: nat, targets: seq<E.Target>, message: nat -> string, r: H.Result)
    requires e.failures == E.FailuresOf(E.Verdicts(user, targets)) && e.ineligibleCount == |e.ineligible|
    ensures H.StageContract(H.BillingEligibility, r.(eligibility := EligibilityResultOf(e, message)))
  {
    var h := EligibilityResultOf(e, message);
    var vs := E.Verdicts(user, targets);
    forall i | 0 <= i < |vs| && vs[i].Failed?
      ensures Other(vs[i].failure.code)
    {
      JudgeCode(user, targets[i]);
    }
    EligibilityCodes(vs);
    forall i | 0 <= i < |e.ineligible|
      ensures Other(h.ineligible[i].code)
    {
      ReasonCodesOther(e.ineligible[i].reason);
    }
    OthersAreNoSkips(h.ineligible);
    OthersAreNoSkips(h.failures);
  }

  lemma BillingCodesOther(s: B.FailureStage)
    ensures Other(BillingFailureCode(s))
  {
  }

  /** `b` is what `BillingCreation.Execute` returns. */
  lemma BillingKeepsContract(b: B.StageResult, message: nat -> string, r: H.Result)
    requires b.duplicateCount == |b.duplicates|
    ensures H.StageContract(H.Billing, r.(billing := BillingResultOf(b, message)))
  {
    var h := BillingResultOf(b, message);
    forall i | 0 <= i < |b.failures|
      ensures Other(h.failures[i].code)
    {
      BillingCodesOther(b.failures[i].stage);
    }
    OthersAreNoSkips(h.duplicates);
    OthersAreNoSkips(h.failures);
  }

  // ---------------------------------------------------------------------------------------
  // One outcome for each input
  // ---------------------------------------------------------------------------------------

  lemma AnalysisCountsItems(a: A.Result, r: H.Result)
    requires a.count == |a.items| && forall i :: 0 <= i < |a.items| ==> a.items[i].parsedEmailId != 0
    ensures W.OneOutcomeEach(H.Analysis, r.(analysis := AnalyzeResultOf(a)))
  {
    var h := AnalyzeResultOf(a);
    assert forall i :: 0 <= i < |h.parsed| ==> h.parsed[i].parsedEmailId == a.items[i].parsedEmailId;
  }

  lemma VendorCountsTargets(v: V.Result, targets: seq<R.Target>, verdicts: seq<V.Verdict>, message: nat -> string,
                            r: H.Result)
    requires |verdicts| == |targets| == |r.analysis.parsed| && V.ReportsAll(v, targets, verdicts, |targets|)
    ensures W.OneOutcomeEach(H.VendorResolution, r.(vendor := VendorResultOf(v, message)))
  {
  }

  lemma EligibilityCountsTargets(e: E.Result, targets: seq<E.Target>, message: nat -> string, r: H.Result)
    requires |targets| == |r.vendor.resolved| && e.eligibleCount == |e.eligible|
    requires |e.eligible| + |e.ineligible| + |e.failures| == |targets|
    ensures W.OneOutcomeEach(H.BillingEligibility, r.(eligibility := EligibilityResultOf(e, message)))
  {
  }

  lemma BillingCountsItems(b: B.StageResult, items: seq<E.EligibleItem>, verdicts: seq<B.Verdict>,
                           message: nat -> string, r: H.Result)
    requires |verdicts| == |items| == |r.eligibility.eligible| && B.AllReported(b, items, verdicts)
    requires b.createdCount == |b.created|
    ensures W.OneOutcomeEach(H.Billing, r.(billing := BillingResultOf(b, message)))
  {
  }

  // ---------------------------------------------------------------------------------------
  // Every failure leaves a row
  // ---------------------------------------------------------------------------------------

  /** The summary that the history saves of the stage has a failure row with this message id and code. */
  ghost predicate HasRow(r: H.Result, stage: H.Stage, messageId: string, code: string) {
    var named := if messageId == "" then None else Some(messageId);
    H.FailureRecord(stage, named, code) in H.StageProgress(stage, r).records
  }

  lemma RowOfItem(r: H.Result, from: nat, stage: H.Stage, items: seq<H.Item>, i: nat)
    requires W.RowsFrom(H.StageProgress(stage, r).records, from, stage, items) && i < |items|
    ensures HasRow(r, stage, items[i].messageId, items[i].code)
  {
    var rows := H.StageProgress(stage, r).records;
    assert W.RowFor(rows[from + i], stage, items[i], items[i].code);
    assert rows[from + i] in rows;
  }

  lemma FetchFailureHasRow(created: seq<F.CreatedEmail>, existing: seq<nat>, failures: seq<F.Failure>, r: H.Result,
                           i: nat)
    requires i < |failures|
    ensures HasRow(r.(fetch := FetchResultOf(created, existing, failures)), H.Fetch, failures[i].messageId,
                   failures[i].code)
  {
    var f := FetchResultOf(created, existing, failures);
    var q := r.(fetch := f);
    W.ProgressRows(H.Fetch, q);
    RowOfItem(q, if f.created == [] && f.existing != [] then 1 else 0, H.Fetch, f.failures, i);
  }

  lemma AnalysisFailureHasRow(a: A.Result, r: H.Result, i: nat)
    requires i < |a.failures|
    ensures HasRow(r.(analysis := AnalyzeResultOf(a)), H.Analysis, a.failures[i].messageId, a.failures[i].code)
  {
    var q := r.(analysis := AnalyzeResultOf(a));
    W.ProgressRows(H.Analysis, q);
    RowOfItem(q, 0, H.Analysis, q.analysis.failures, i);
  }

  lemma UnresolvedHasRow(v: V.Result, message: nat -> string, r: H.Result, i: nat)
    requires i < |v.unresolved|
    ensures HasRow(r.(vendor := VendorResultOf(v, message)), H.VendorResolution, message(v.unresolved[i].emailId),
                   "vendor_unresolved")
  {
    var q := r.(vendor := VendorResultOf(v, message));
    W.ProgressRows(H.VendorResolution, q);
    RowOfItem(q, 0, H.VendorResolution, q.vendor.unresolved, i);
  }

  lemma VendorFailureHasRow(v: V.Result, message: nat -> string, r: H.Result, i: nat)
    requires i < |v.failures|
    ensures HasRow(r.(vendor := VendorResultOf(v, message)), H.VendorResolution, message(v.failures[i].emailId),
                   v.failures[i].code)
  {
    var q := r.(vendor := VendorResultOf(v, message));
    W.ProgressRows(H.VendorResolution, q);
    var business :=
      if q.vendor.unresolved != [] then |q.vendor.unresolved| else |W.Missing(q.analysis.parsed, q.vendor, 0)|;
    RowOfItem(q, business, H.VendorResolution, q.vendor.failures, i);
  }

  lemma IneligibleHasRow(e: E.Result, message: nat -> string, r: H.Result, i: nat)
    requires i < |e.ineligible|
    ensures HasRow(r.(eligibility := EligibilityResultOf(e, message)), H.BillingEligibility,
                   message(e.ineligible[i].emailId), ReasonCode(e.ineligible[i].reason))
  {
    var q := r.(eligibility := EligibilityResultOf(e, message));
    W.ProgressRows(H.BillingEligibility, q);
    RowOfItem(q, 0, H.BillingEligibility, q.eligibility.ineligible, i);
  }

  lemma EligibilityFailureHasRow(e: E.Result, message: nat -> string, r: H.Result, i: nat)
    requires i < |e.failures|
    ensures HasRow(r.(eligibility := EligibilityResultOf(e, message)), H.BillingEligibility,
                   message(e.failures[i].emailId), e.failures[i].code)
  {
    var q := r.(eligibility := EligibilityResultOf(e, message));
    W.ProgressRows(H.BillingEligibility, q);
    RowOfItem(q, |q.eligibility.ineligible|, H.BillingEligibility, q.eligibility.failures, i);
  }

  lemma DuplicateHasRow(b: B.StageResult, message: nat -> string, r: H.Result, i: nat)
    requires i < |b.duplicates|
    ensures HasRow(r.(billing := BillingResultOf(b, message)), H.Billing, message(b.duplicates[i].emailId),
                   "duplicate_billing")
  {
    var q := r.(billing := BillingResultOf(b, message));
    W.ProgressRows(H.Billing, q);
    RowOfItem(q, 0, H.Billing, q.billing.duplicates, i);
  }

  lemma BillingFailureHasRow(b: B.StageResult, message: nat -> string, r: H.Result, i: nat)
    requires i < |b.failures|
    ensures HasRow(r.(billing := BillingResultOf(b, message)), H.Billing, message(b.failures[i].emailId),
                   BillingFailureCode(b.failures[i].stage))
  {
    var q := r.(billing := BillingResultOf(b, message));
    W.ProgressRows(H.Billing, q);
    RowOfItem(q, |q.billing.duplicates|, H.Billing, q.billing.failures, i);
  }
}
