/** internal/manualmailworkflow/application/workflow_history.go: the stage summaries and failure
    rows built from stage results, and the check the repository makes before saving them. */
module WorkflowHistory {
  import opened Options

  datatype Stage = Fetch | Analysis | VendorResolution | BillingEligibility | Billing

  /** One entry of a stage result; `code` is its failure or reason code where it has one. */
  datatype Item = Item(parsedEmailId: nat, messageId: string, code: string)

  datatype FetchResult = FetchResult(created: seq<Item>, existing: seq<nat>, failures: seq<Item>)
  datatype AnalyzeResult = AnalyzeResult(parsed: seq<Item>, parsedCount: int, failures: seq<Item>)
  datatype VendorResult = VendorResult(
    resolved: seq<Item>, resolvedCount: int, unresolved: seq<Item>, unresolvedCount: int, failures: seq<Item>)
  datatype EligibilityResult = EligibilityResult(
    eligible: seq<Item>, eligibleCount: int, ineligible: seq<Item>, ineligibleCount: int, failures: seq<Item>)
  datatype BillingResult = BillingResult(
    created: seq<Item>, createdCount: int, duplicates: seq<Item>, duplicateCount: int, failures: seq<Item>)

  datatype Result = Result(
    fetch: FetchResult, analysis: AnalyzeResult, vendor: VendorResult,
    eligibility: EligibilityResult, billing: BillingResult)

  const NO_RESULT := Result(
    FetchResult([], [], []), AnalyzeResult([], 0, []), VendorResult([], 0, [], 0, []),
    EligibilityResult([], 0, [], 0, []), BillingResult([], 0, [], 0, []))

  const EXISTING_EMAILS_SKIPPED := "existing_emails_skipped"
  const VENDOR_UNRESOLVED := "vendor_unresolved"
  const DUPLICATE_BILLING := "duplicate_billing"

  datatype FailureRecord = FailureRecord(stage: Stage, messageId: Option<string>, code: string)

  datatype Progress = Progress(
    stage: Stage, success: int, business: int, technical: int, records: seq<FailureRecord>)

  // ---------------------------------------------------------------------------------------
  // Summaries
  // ---------------------------------------------------------------------------------------

  function Record(stage: Stage, messageId: string, code: string): FailureRecord {
    FailureRecord(stage, if messageId == "" then None else Some(messageId), code)
  }

  function Records(stage: Stage, items: seq<Item>): seq<FailureRecord> {
    seq(|items|, i requires 0 <= i < |items| => Record(stage, items[i].messageId, items[i].code))
  }

  function FetchProgress(r: FetchResult): Progress {
    var skipped := if r.created == [] && r.existing != [] then [Record(Fetch, "", EXISTING_EMAILS_SKIPPED)] else [];
    Progress(Fetch, |r.created| + |r.existing|, 0, |r.failures|, skipped + Records(Fetch, r.failures))
  }

  function AnalysisProgress(r: AnalyzeResult): Progress {
    Progress(Analysis, r.parsedCount, 0, |r.failures|, Records(Analysis, r.failures))
  }

  ghost predicate HasId(items: seq<Item>, id: nat) {
    exists i :: 0 <= i < |items| && items[i].parsedEmailId == id
  }

  /** The inputs that are neither resolved nor failed under a nonzero id. */
  ghost function Unaccounted(inputs: seq<Item>, r: VendorResult): seq<Item> {
    if inputs == [] then []
    else
      var id := inputs[0].parsedEmailId;
      (if HasId(r.resolved, id) || (id != 0 && HasId(r.failures, id)) then []
       else [inputs[0].(code := VENDOR_UNRESOLVED)])
      + Unaccounted(inputs[1..], r)
  }

  ghost function VendorProgress(inputs: seq<Item>, r: VendorResult): Progress {
    var business := if r.unresolved != [] then r.unresolved else Unaccounted(inputs, r);
    Progress(VendorResolution, r.resolvedCount, |business|, |r.failures|,
             Records(VendorResolution, business) + Records(VendorResolution, r.failures))
  }

  function EligibilityProgress(r: EligibilityResult): Progress {
    Progress(BillingEligibility, r.eligibleCount, r.ineligibleCount, |r.failures|,
             Records(BillingEligibility, r.ineligible) + Records(BillingEligibility, r.failures))
  }

  /** A duplicate without a reason code gets the default one. */
  function WithDefaultCode(items: seq<Item>, code: string): seq<Item> {
    seq(|items|, i requires 0 <= i < |items| => if items[i].code == "" then items[i].(code := code) else items[i])
  }

  function BillingProgress(r: BillingResult): Progress {
    Progress(Billing, r.createdCount, |r.duplicates|, |r.failures|,
             Records(Billing, WithDefaultCode(r.duplicates, DUPLICATE_BILLING)) + Records(Billing, r.failures))
  }

  ghost function StageProgress(stage: Stage, r: Result): Progress {
    match stage
    case Fetch => FetchProgress(r.fetch)
    case Analysis => AnalysisProgress(r.analysis)
    case VendorResolution => VendorProgress(r.analysis.parsed, r.vendor)
    case BillingEligibility => EligibilityProgress(r.eligibility)
    case Billing => BillingProgress(r.billing)
  }

  predicate HasWorkflowFailures(r: Result) {
    || |r.fetch.failures| > 0
    || |r.analysis.failures| > 0
    || r.vendor.unresolvedCount + |r.vendor.failures| > 0
    || r.eligibility.ineligibleCount + |r.eligibility.failures| > 0
    || r.billing.duplicateCount + |r.billing.failures| > 0
  }

  // ---------------------------------------------------------------------------------------
  // The loops that build them
  // ---------------------------------------------------------------------------------------

  method AppendRecords(stage: Stage, items: seq<Item>, before: seq<FailureRecord>) returns (records: seq<FailureRecord>)
    ensures records == before + Records(stage, items)
  {
    records := before;
    for i := 0 to |items|
      invariant records == before + Records(stage, items)[..i]
    {
      records := records + [Record(stage, items[i].messageId, items[i].code)];
    }
  }

  method BuildFetchStageProgress(r: FetchResult) returns (p: Progress)
    ensures p == FetchProgress(r)
  {
    var records := [];
    if r.created == [] && r.existing != [] {
      records := [Record(Fetch, "", EXISTING_EMAILS_SKIPPED)];
    }
    records := AppendRecords(Fetch, r.failures, records);
    p := Progress(Fetch, |r.created| + |r.existing|, 0, |r.failures|, records);
  }

  method BuildAnalysisStageProgress(r: AnalyzeResult) returns (p: Progress)
    ensures p == AnalysisProgress(r)
  {
    var records := AppendRecords(Analysis, r.failures, []);
    p := Progress(Analysis, r.parsedCount, 0, |records|, records);
  }

  method BuildVendorResolutionStageProgress(inputs: seq<Item>, r: VendorResult) returns (p: Progress)
    ensures p == VendorProgress(inputs, r)
  {
    var records;
    if r.unresolved != [] {
      records := AppendRecords(VendorResolution, r.unresolved, []);
    } else {
      var resolved := ParsedEmailIds(r.resolved);
      var failed := ParsedEmailIds(r.failures);
      records := InferUnresolved(inputs, r, resolved, failed - {0});
    }
    records := AppendRecords(VendorResolution, r.failures, records);
    p := Progress(VendorResolution, r.resolvedCount, |records| - |r.failures|, |r.failures|, records);
  }

  method ParsedEmailIds(items: seq<Item>) returns (ids: set<nat>)
    ensures forall id :: id in ids <==> HasId(items, id)
  {
    ids := {};
    for i := 0 to |items|
      invariant forall id :: id in ids <==> HasId(items[..i], id)
    {
      ids := ids + {items[i].parsedEmailId};
      HasIdNext(items, i);
    }
    assert items[..|items|] == items;
  }

  method InferUnresolved(inputs: seq<Item>, r: VendorResult, resolved: set<nat>, failed: set<nat>)
    returns (records: seq<FailureRecord>)
    requires forall id :: id in resolved <==> HasId(r.resolved, id)
    requires forall id :: id in failed <==> id != 0 && HasId(r.failures, id)
    ensures records == Records(VendorResolution, Unaccounted(inputs, r))
  {
    records := [];
    ghost var business: seq<Item> := [];
    for i := 0 to |inputs|
      invariant records == Records(VendorResolution, business)
      invariant Unaccounted(inputs, r) == business + Unaccounted(inputs[i..], r)
    {
      var id := inputs[i].parsedEmailId;
      assert inputs[i..][1..] == inputs[i + 1..];
      if id !in resolved && id !in failed {
        ghost var item := inputs[i].(code := VENDOR_UNRESOLVED);
        records := records + [Record(VendorResolution, inputs[i].messageId, VENDOR_UNRESOLVED)];
        assert Unaccounted(inputs[i..], r) == [item] + Unaccounted(inputs[i + 1..], r);
        business := business + [item];
      } else {
        assert Unaccounted(inputs[i..], r) == Unaccounted(inputs[i + 1..], r);
      }
    }
    assert inputs[|inputs|..] == [];
  }

  lemma HasIdNext(items: seq<Item>, i: nat)
    requires i < |items|
    ensures forall id :: HasId(items[..i + 1], id) <==> HasId(items[..i], id) || id == items[i].parsedEmailId
  {
    assert items[..i + 1] == items[..i] + [items[i]];
    forall id
      ensures HasId(items[..i + 1], id) <==> HasId(items[..i], id) || id == items[i].parsedEmailId
    {
      if j :| 0 <= j < i && items[..i][j].parsedEmailId == id {
        assert items[..i + 1][j].parsedEmailId == id;
      }
      if id == items[i].parsedEmailId {
        assert items[..i + 1][i].parsedEmailId == id;
      }
    }
  }

  method BuildBillingEligibilityStageProgress(r: EligibilityResult) returns (p: Progress)
    ensures p == EligibilityProgress(r)
  {
    var records := AppendRecords(BillingEligibility, r.ineligible, []);
    records := AppendRecords(BillingEligibility, r.failures, records);
    p := Progress(BillingEligibility, r.eligibleCount, r.ineligibleCount, |r.failures|, records);
  }

  method BuildBillingStageProgress(r: BillingResult) returns (p: Progress)
    ensures p == BillingProgress(r)
  {
    var records := [];
    ghost var items := WithDefaultCode(r.duplicates, DUPLICATE_BILLING);
    for i := 0 to |r.duplicates|
      invariant records == Records(Billing, items)[..i]
    {
      var code := r.duplicates[i].code;
      if code == "" {
        code := DUPLICATE_BILLING;
      }
      records := records + [Record(Billing, r.duplicates[i].messageId, code)];
    }
    records := AppendRecords(Billing, r.failures, records);
    p := Progress(Billing, r.createdCount, |r.duplicates|, |r.failures|, records);
  }

  // ---------------------------------------------------------------------------------------
  // The repository's count check
  // ---------------------------------------------------------------------------------------

  function Counted(records: seq<FailureRecord>): (count: nat)
    ensures count <= |records|
  {
    if records == [] then 0
    else (if records[0].code == EXISTING_EMAILS_SKIPPED then 0 else 1) + Counted(records[1..])
  }

  method CountedFailureRecordCount(records: seq<FailureRecord>) returns (count: nat)
    ensures count == Counted(records)
  {
    count := 0;
    for i := 0 to |records|
      invariant Counted(records) == count + Counted(records[i..])
    {
      assert records[i..][1..] == records[i + 1..];
      if records[i].code != EXISTING_EMAILS_SKIPPED {
        count := count + 1;
      }
    }
  }

  /** SaveStageProgress refuses a summary whose failure rows do not add up. */
  predicate Accepted(p: Progress) {
    Counted(p.records) == p.business + p.technical
  }

  predicate NoSkips(items: seq<Item>) {
    forall i :: 0 <= i < |items| ==> items[i].code != EXISTING_EMAILS_SKIPPED
  }

  /** How many items carry the skip code. */
  function Skips(items: seq<Item>): nat {
    if items == [] then 0 else (if items[0].code == EXISTING_EMAILS_SKIPPED then 1 else 0) + Skips(items[1..])
  }

  lemma {:induction false} NoneSkips(items: seq<Item>)
    ensures Skips(items) == 0 <==> NoSkips(items)
  {
    if items != [] {
      NoneSkips(items[1..]);
      assert NoSkips(items) <==> items[0].code != EXISTING_EMAILS_SKIPPED && NoSkips(items[1..]) by {
        assert forall i :: 0 < i < |items| ==> items[i] == items[1..][i - 1];
      }
    }
  }

  lemma {:induction false} CountedAppend(a: seq<FailureRecord>, b: seq<FailureRecord>)
    ensures Counted(a + b) == Counted(a) + Counted(b)
  {
    if a == [] {
      assert a + b == b;
    } else {
      assert (a + b)[1..] == a[1..] + b;
      CountedAppend(a[1..], b);
    }
  }

  lemma {:induction false} CountedRecords(stage: Stage, items: seq<Item>)
    ensures Counted(Records(stage, items)) == |items| - Skips(items)
  {
    if items != [] {
      CountedRecords(stage, items[1..]);
      assert Records(stage, items)[1..] == Records(stage, items[1..]);
    }
  }

  lemma CountedPair(stage: Stage, a: seq<Item>, b: seq<Item>)
    ensures var n := Counted(Records(stage, a) + Records(stage, b));
      && n == |a| + |b| - Skips(a) - Skips(b)
      && (n == |a| + |b| <==> NoSkips(a) && NoSkips(b))
  {
    CountedAppend(Records(stage, a), Records(stage, b));
    CountedRecords(stage, a);
    CountedRecords(stage, b);
    NoneSkips(a);
    NoneSkips(b);
  }

  lemma {:induction false} UnaccountedNoSkips(inputs: seq<Item>, r: VendorResult)
    ensures NoSkips(Unaccounted(inputs, r))
  {
    if inputs != [] {
      UnaccountedNoSkips(inputs[1..], r);
    }
  }

  /** When each stage's summary is accepted. The eligibility summary takes the count its stage
      reports, which has to be the number of ineligible items less those the check does not count. */
  lemma AcceptedExactly(stage: Stage, r: Result)
    ensures stage == Fetch ==> (Accepted(FetchProgress(r.fetch)) <==> NoSkips(r.fetch.failures))
    ensures stage == Analysis ==> (Accepted(AnalysisProgress(r.analysis)) <==> NoSkips(r.analysis.failures))
    ensures stage == VendorResolution ==>
      (Accepted(VendorProgress(r.analysis.parsed, r.vendor)) <==>
        NoSkips(r.vendor.unresolved) && NoSkips(r.vendor.failures))
    ensures stage == BillingEligibility ==>
      (Accepted(EligibilityProgress(r.eligibility)) <==>
        var e := r.eligibility; e.ineligibleCount == |e.ineligible| - Skips(e.ineligible) - Skips(e.failures))
    ensures stage == Billing ==>
      (Accepted(BillingProgress(r.billing)) <==> NoSkips(r.billing.duplicates) && NoSkips(r.billing.failures))
  {
    match stage
    case Fetch =>
      var skipped := [Record(Fetch, "", EXISTING_EMAILS_SKIPPED)];
      assert Counted(skipped) == 0;
      CountedAppend(skipped, Records(Fetch, r.fetch.failures));
      CountedRecords(Fetch, r.fetch.failures);
      NoneSkips(r.fetch.failures);
      assert [] + Records(Fetch, r.fetch.failures) == Records(Fetch, r.fetch.failures);
    case Analysis =>
      CountedRecords(Analysis, r.analysis.failures);
      NoneSkips(r.analysis.failures);
    case VendorResolution =>
      UnaccountedNoSkips(r.analysis.parsed, r.vendor);
      CountedPair(VendorResolution, r.vendor.unresolved, r.vendor.failures);
      CountedPair(VendorResolution, Unaccounted(r.analysis.parsed, r.vendor), r.vendor.failures);
    case BillingEligibility =>
      CountedPair(BillingEligibility, r.eligibility.ineligible, r.eligibility.failures);
    case Billing =>
      var duplicates := WithDefaultCode(r.billing.duplicates, DUPLICATE_BILLING);
      CountedPair(Billing, duplicates, r.billing.failures);
      assert NoSkips(duplicates) <==> NoSkips(r.billing.duplicates) by {
        assert forall i :: 0 <= i < |duplicates| ==>
          (duplicates[i].code == EXISTING_EMAILS_SKIPPED <==> r.billing.duplicates[i].code == EXISTING_EMAILS_SKIPPED);
      }
  }

  /** What the stages promise about their results: their own codes, counts that match their lists,
      and an outcome for every parsed email handed to vendor resolution. */
  ghost predicate StageContract(stage: Stage, r: Result) {
    match stage
    case Fetch => NoSkips(r.fetch.failures)
    case Analysis => NoSkips(r.analysis.failures)
    case VendorResolution =>
      && r.vendor.unresolvedCount == |r.vendor.unresolved|
      && NoSkips(r.vendor.unresolved) && NoSkips(r.vendor.failures)
      && (forall i :: 0 <= i < |r.analysis.parsed| ==>
            var id := r.analysis.parsed[i].parsedEmailId;
            HasId(r.vendor.resolved, id) || HasId(r.vendor.unresolved, id) || HasId(r.vendor.failures, id))
    case BillingEligibility =>
      && r.eligibility.ineligibleCount == |r.eligibility.ineligible|
      && NoSkips(r.eligibility.ineligible) && NoSkips(r.eligibility.failures)
    case Billing =>
      && r.billing.duplicateCount == |r.billing.duplicates|
      && NoSkips(r.billing.duplicates) && NoSkips(r.billing.failures)
  }

  lemma ContractAccepted(stage: Stage, r: Result)
    requires StageContract(stage, r)
    ensures Accepted(StageProgress(stage, r))
  {
    AcceptedExactly(stage, r);
    NoneSkips(r.eligibility.ineligible);
    NoneSkips(r.eligibility.failures);
  }

  predicate OnlySkips(records: seq<FailureRecord>) {
    forall i :: 0 <= i < |records| ==> records[i].code == EXISTING_EMAILS_SKIPPED
  }

  lemma {:induction false} CountedNone(records: seq<FailureRecord>)
    ensures Counted(records) == 0 <==> OnlySkips(records)
  {
    if records != [] {
      CountedNone(records[1..]);
      assert OnlySkips(records) <==> records[0].code == EXISTING_EMAILS_SKIPPED && OnlySkips(records[1..]) by {
        assert forall i :: 0 < i < |records| ==> records[i] == records[1..][i - 1];
      }
    }
  }

  /** Whether one stage of `r` counts as failing in `HasWorkflowFailures`. */
  predicate StageFails(stage: Stage, r: Result) {
    match stage
    case Fetch => |r.fetch.failures| > 0
    case Analysis => |r.analysis.failures| > 0
    case VendorResolution => r.vendor.unresolvedCount + |r.vendor.failures| > 0
    case BillingEligibility => r.eligibility.ineligibleCount + |r.eligibility.failures| > 0
    case Billing => r.billing.duplicateCount + |r.billing.failures| > 0
  }

  lemma {:induction false} AccountedFor(inputs: seq<Item>, r: VendorResult)
    requires r.failures == []
    requires forall i :: 0 <= i < |inputs| ==> HasId(r.resolved, inputs[i].parsedEmailId)
    ensures Unaccounted(inputs, r) == []
  {
    if inputs != [] {
      AccountedFor(inputs[1..], r);
    }
  }

  /** For a stage that keeps its contract, the status computed from its result, the persisted
      counters and the failure rows agree on whether it failed. */
  lemma FailureViewsAgree(stage: Stage, r: Result)
    requires StageContract(stage, r)
    ensures var p := StageProgress(stage, r);
      && (StageFails(stage, r) <==> p.business != 0 || p.technical != 0)
      && (StageFails(stage, r) <==> !OnlySkips(p.records))
  {
    var p := StageProgress(stage, r);
    ContractAccepted(stage, r);
    CountedNone(p.records);
    if stage == VendorResolution && r.vendor.unresolved == [] && r.vendor.failures == [] {
      assert forall id :: !HasId(r.vendor.unresolved, id) && !HasId(r.vendor.failures, id);
      AccountedFor(r.analysis.parsed, r.vendor);
    }
  }

  // ---------------------------------------------------------------------------------------
  // The documented row count
  // ---------------------------------------------------------------------------------------

  /** docs/ddd/invariants.md:31 promises as many failure rows as counted failures. The code adds an
      uncounted row exactly when a fetch finds only emails it already has. */
  lemma RowsMatchCountsExactly(stage: Stage, r: Result)
    requires StageContract(stage, r)
    ensures var p := StageProgress(stage, r);
      |p.records| == p.business + p.technical <==>
        !(stage == Fetch && r.fetch.created == [] && r.fetch.existing != [])
  {
  }

  /** One known email and nothing else: a failure row, and every counter zero. */
  lemma SkippedRowIsNotCounted()
    ensures var r := NO_RESULT.(fetch := FetchResult([], [7], []));
      var p := StageProgress(Fetch, r);
      StageContract(Fetch, r) && |p.records| == 1 && p.business + p.technical == 0
  {
  }
}
