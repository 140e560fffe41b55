/** Which stages a completed workflow has run, and what its counters and failure rows say of them. */
module WorkflowStages {
  import opened WorkflowHistory
  import opened Options
  import opened Workflow

  // ---------------------------------------------------------------------------------------
  // What a completed row shows
  // ---------------------------------------------------------------------------------------

  /** Each stage is run exactly when the one before it has been and has handed something on. */
  predicate RanStages(stages: set<Stage>, r: Result) {
    && Fetch in stages
    && (Analysis in stages <==> r.fetch.created != [])
    && (VendorResolution in stages <==> Analysis in stages && r.analysis.parsed != [])
    && (BillingEligibility in stages <==> VendorResolution in stages && r.vendor.resolved != [])
    && (Billing in stages <==> BillingEligibility in stages && r.eligibility.eligible != [])
  }

  /** The input is neither resolved nor failed under a nonzero id. */
  ghost predicate IsMissing(input: Item, v: VendorResult) {
    && !HasId(v.resolved, input.parsedEmailId)
    && (input.parsedEmailId == 0 || !HasId(v.failures, input.parsedEmailId))
  }

  /** The places of such inputs, from `first` on. */
  ghost function Missing(inputs: seq<Item>, v: VendorResult, first: nat): set<nat> {
    set i: nat | first <= i < |inputs| && IsMissing(inputs[i], v)
  }

  /** What the three counters of a stage count. */
  ghost predicate CountsMean(stage: Stage, r: Result, c: Counts) {
    match stage
    case Fetch => c == Counts(|r.fetch.created| + |r.fetch.existing|, 0, |r.fetch.failures|)
    case Analysis => c == Counts(r.analysis.parsedCount, 0, |r.analysis.failures|)
    case VendorResolution =>
      && c.success == r.vendor.resolvedCount && c.technical == |r.vendor.failures|
      && c.business ==
        (if r.vendor.unresolved != [] then |r.vendor.unresolved| else |Missing(r.analysis.parsed, r.vendor, 0)|)
    case BillingEligibility =>
      c == Counts(r.eligibility.eligibleCount, r.eligibility.ineligibleCount, |r.eligibility.failures|)
    case Billing => c == Counts(r.billing.createdCount, |r.billing.duplicates|, |r.billing.failures|)
  }

  ghost predicate CountersMean(counts: map<Stage, Counts>, r: Result) {
    forall stage :: stage in counts ==> CountsMean(stage, r, counts[stage])
  }

  /** The failure row of one item. */
  predicate RowFor(f: FailureRecord, stage: Stage, item: Item, code: string) {
    && f.stage == stage && f.code == code
    && (if item.messageId == "" then f.messageId == None else f.messageId == Some(item.messageId))
  }

  /** Rows `from` on are those of the items, in order. */
  ghost predicate RowsFrom(rows: seq<FailureRecord>, from: nat, stage: Stage, items: seq<Item>) {
    from + |items| <= |rows| && forall i :: 0 <= i < |items| ==> RowFor(rows[from + i], stage, items[i], items[i].code)
  }

  /** What the failure rows of a stage are. */
  ghost predicate RowsMean(stage: Stage, r: Result, rows: seq<FailureRecord>) {
    match stage
    case Fetch =>
      var skipped := if r.fetch.created == [] && r.fetch.existing != [] then 1 else 0;
      && |rows| == skipped + |r.fetch.failures| && RowsFrom(rows, skipped, stage, r.fetch.failures)
      && (skipped == 1 ==> rows[0] == FailureRecord(Fetch, None, EXISTING_EMAILS_SKIPPED))
    case Analysis =>
      |rows| == |r.analysis.failures| && RowsFrom(rows, 0, stage, r.analysis.failures)
    case VendorResolution =>
      var missing := Missing(r.analysis.parsed, r.vendor, 0);
      var business := if r.vendor.unresolved != [] then |r.vendor.unresolved| else |missing|;
      && |rows| == business + |r.vendor.failures| && RowsFrom(rows, business, stage, r.vendor.failures)
      && (if r.vendor.unresolved != [] then RowsFrom(rows, 0, stage, r.vendor.unresolved)
          else MissingRows(rows, r.analysis.parsed, missing))
    case BillingEligibility =>
      var business := |r.eligibility.ineligible|;
      && |rows| == business + |r.eligibility.failures|
      && RowsFrom(rows, 0, stage, r.eligibility.ineligible) && RowsFrom(rows, business, stage, r.eligibility.failures)
    case Billing =>
      var business := |r.billing.duplicates|;
      && |rows| == business + |r.billing.failures| && RowsFrom(rows, business, stage, r.billing.failures)
      && forall i :: 0 <= i < business ==>
           RowFor(rows[i], stage, r.billing.duplicates[i], CodeOr(r.billing.duplicates[i], DUPLICATE_BILLING))
  }

  function CodeOr(item: Item, code: string): string {
    if item.code == "" then code else item.code
  }

  /** Each missing input has its row. */
  ghost predicate MissingRows(rows: seq<FailureRecord>, inputs: seq<Item>, missing: set<nat>) {
    forall i :: i in missing && i < |inputs| ==>
      exists k :: 0 <= k < |rows| && RowFor(rows[k], VendorResolution, inputs[i], VENDOR_UNRESOLVED)
  }

  /** The row of a workflow that completed with these stage results. */
  ghost predicate CompletedWith(row: Row, r: Result) {
    && row.status == (if HasWorkflowFailures(r) then PartialSuccess else Succeeded)
    && RanStages(row.counts.Keys, r) && CountersMean(row.counts, r)
  }

  // ---------------------------------------------------------------------------------------
  // On the way
  // ---------------------------------------------------------------------------------------

  /** Each of the first `n` stages but the last has handed something on. */
  predicate GoesOn(r: Result, n: nat) {
    && (n > 1 ==> r.fetch.created != [])
    && (n > 2 ==> r.analysis.parsed != [])
    && (n > 3 ==> r.vendor.resolved != [])
    && (n > 4 ==> r.eligibility.eligible != [])
  }

  /** The first `n` stages have been run and saved, and no other. */
  ghost predicate RunUpTo(counts: map<Stage, Counts>, r: Result, n: nat) {
    && (forall stage :: stage in counts <==> Index(stage) < n)
    && GoesOn(r, n) && CountersMean(counts, r)
  }

  lemma {:induction false} MissingCounted(inputs: seq<Item>, v: VendorResult, first: nat)
    requires first <= |inputs|
    ensures |Missing(inputs, v, first)| == |Unaccounted(inputs[first..], v)|
    decreases |inputs| - first
  {
    if first == |inputs| {
      assert Missing(inputs, v, first) == {};
    } else {
      MissingCounted(inputs, v, first + 1);
      assert inputs[first..][1..] == inputs[first + 1..];
      var later := Missing(inputs, v, first + 1);
      if IsMissing(inputs[first], v) {
        assert Missing(inputs, v, first) == {first} + later;
      } else {
        assert Missing(inputs, v, first) == later;
      }
    }
  }

  lemma ProgressMeans(stage: Stage, r: Result)
    ensures var p := StageProgress(stage, r);
      p.stage == stage && CountsMean(stage, r, Counts(p.success, p.business, p.technical))
  {
    if stage == VendorResolution {
      MissingCounted(r.analysis.parsed, r.vendor, 0);
      assert r.analysis.parsed[0..] == r.analysis.parsed;
    }
  }

  lemma {:induction false} UnaccountedHasMissing(inputs: seq<Item>, v: VendorResult, i: nat)
    requires i < |inputs| && IsMissing(inputs[i], v)
    ensures inputs[i].(code := VENDOR_UNRESOLVED) in Unaccounted(inputs, v)
  {
    if i > 0 {
      UnaccountedHasMissing(inputs[1..], v, i - 1);
    }
  }

  lemma UnaccountedRows(inputs: seq<Item>, v: VendorResult, rows: seq<FailureRecord>)
    requires Records(VendorResolution, Unaccounted(inputs, v)) <= rows
    ensures MissingRows(rows, inputs, Missing(inputs, v, 0))
  {
    forall i | i in Missing(inputs, v, 0) && i < |inputs|
      ensures exists k :: 0 <= k < |rows| && RowFor(rows[k], VendorResolution, inputs[i], VENDOR_UNRESOLVED)
    {
      var items := Unaccounted(inputs, v);
      UnaccountedHasMissing(inputs, v, i);
      var k :| 0 <= k < |items| && items[k] == inputs[i].(code := VENDOR_UNRESOLVED);
      assert Records(VendorResolution, items)[k] == rows[k];
    }
  }

  lemma RowsPair(rows: seq<FailureRecord>, stage: Stage, a: seq<Item>, b: seq<Item>)
    requires rows == Records(stage, a) + Records(stage, b)
    ensures |rows| == |a| + |b| && RowsFrom(rows, 0, stage, a) && RowsFrom(rows, |a|, stage, b)
  {
  }

  /** The rows in a stage's summary. */
  lemma ProgressRows(stage: Stage, r: Result)
    ensures RowsMean(stage, r, StageProgress(stage, r).records)
  {
    var rows := StageProgress(stage, r).records;
    match stage
    case Fetch =>
    case Analysis =>
    case VendorResolution =>
      var inputs := r.analysis.parsed;
      var business := if r.vendor.unresolved != [] then r.vendor.unresolved else Unaccounted(inputs, r.vendor);
      RowsPair(rows, stage, business, r.vendor.failures);
      MissingCounted(inputs, r.vendor, 0);
      assert inputs[0..] == inputs;
      if r.vendor.unresolved == [] {
        UnaccountedRows(inputs, r.vendor, rows);
      }
    case BillingEligibility =>
      RowsPair(rows, stage, r.eligibility.ineligible, r.eligibility.failures);
    case Billing =>
      var duplicates := WithDefaultCode(r.billing.duplicates, DUPLICATE_BILLING);
      RowsPair(rows, stage, duplicates, r.billing.failures);
  }

  /** The result of a stage has no say in what earlier stages did. */
  lemma TakeKeepsRun(counts: map<Stage, Counts>, r: Result, stage: Stage, output: Result)
    requires RunUpTo(counts, r, Index(stage)) && GoesOn(r, Index(stage) + 1)
    ensures RunUpTo(counts, Take(stage, r, output), Index(stage)) && GoesOn(Take(stage, r, output), Index(stage) + 1)
  {
    forall earlier | earlier in counts
      ensures CountsMean(earlier, Take(stage, r, output), counts[earlier])
    {
      assert CountsMean(earlier, r, counts[earlier]);
    }
  }

  lemma SaveRuns(counts: map<Stage, Counts>, r: Result, stage: Stage)
    requires RunUpTo(counts, r, Index(stage)) && GoesOn(r, Index(stage) + 1)
    ensures var p := StageProgress(stage, r);
      RunUpTo(counts[p.stage := Counts(p.success, p.business, p.technical)], r, Index(stage) + 1)
  {
    ProgressMeans(stage, r);
    assert forall other :: other != stage ==> Index(other) != Index(stage);
  }

  lemma StopsOrGoesOn(counts: map<Stage, Counts>, r: Result, stage: Stage)
    requires RunUpTo(counts, r, Index(stage) + 1)
    ensures match NextStage(stage, r)
      case None => RanStages(counts.Keys, r)
      case Some(next) => Index(next) == Index(stage) + 1 && GoesOn(r, Index(next) + 1)
  {
  }

  // ---------------------------------------------------------------------------------------
  // In any interleaving
  // ---------------------------------------------------------------------------------------

  /** What a move adds to the stage results of workflow `id`. */
  function AddOutput(s: System, m: Move, id: Id, r: Result): Result {
    if m.Act? && m.id == id && id in s.procs && s.procs[id].Working? && m.event.choice.Works?
    then WithPart(s.procs[id].stage, r, m.event.choice.result)
    else r
  }

  /** The stage results that workflow `id` collects during the run, from `r` on. */
  ghost function Outputs(s: System, moves: seq<Move>, id: Id, r: Result): Result
    decreases moves
  {
    if moves == [] then r else Outputs(Advance(s, moves[0]), moves[1..], id, AddOutput(s, moves[0], id, r))
  }

  /** `r` with the part of one stage as in `output`. */
  function WithPart(stage: Stage, r: Result, output: Result): Result {
    Result(if stage == Fetch then output.fetch else r.fetch,
           if stage == Analysis then output.analysis else r.analysis,
           if stage == VendorResolution then output.vendor else r.vendor,
           if stage == BillingEligibility then output.eligibility else r.eligibility,
           if stage == Billing then output.billing else r.billing)
  }

  lemma TakeIsWithPart(stage: Stage, r: Result, output: Result)
    ensures Take(stage, r, output) == WithPart(stage, r, output)
  {
  }

  /** The rows are those of the first `n` stages, one stage after the other. */
  ghost predicate RowsOfStages(rows: seq<FailureRecord>, r: Result, n: nat)
    decreases n
  {
    if n == 0 then rows == []
    else exists k: nat :: k <= |rows| && RowsOfStages(rows[..k], r, n - 1) && RowsMean(At(n - 1), r, rows[k..])
  }

  lemma TakeKeepsRows(rows: seq<FailureRecord>, r: Result, stage: Stage, output: Result, i: nat)
    requires i < Index(stage) && RowsMean(At(i), r, rows)
    ensures RowsMean(At(i), Take(stage, r, output), rows)
  {
  }

  lemma {:induction false} TakeKeepsStages(rows: seq<FailureRecord>, r: Result, stage: Stage, output: Result, n: nat)
    requires n <= Index(stage) && RowsOfStages(rows, r, n)
    ensures RowsOfStages(rows, Take(stage, r, output), n)
    decreases n
  {
    if n > 0 {
      var k: nat :| k <= |rows| && RowsOfStages(rows[..k], r, n - 1) && RowsMean(At(n - 1), r, rows[k..]);
      TakeKeepsStages(rows[..k], r, stage, output, n - 1);
      TakeKeepsRows(rows[k..], r, stage, output, n - 1);
    }
  }

  lemma SaveAddsRows(rows: seq<FailureRecord>, r: Result, stage: Stage)
    requires RowsOfStages(rows, r, Index(stage))
    ensures RowsOfStages(rows + StageProgress(stage, r).records, r, Index(stage) + 1)
  {
    var added := StageProgress(stage, r).records;
    ProgressRows(stage, r);
    assert (rows + added)[..|rows|] == rows && (rows + added)[|rows|..] == added;
    assert At(Index(stage)) == stage;
  }

  lemma StagesCounted(counts: map<Stage, Counts>, r: Result, n: nat)
    requires RunUpTo(counts, r, n) && 0 < n <= 5
    ensures |counts.Keys| == n
  {
    var all := [{Fetch}, {Fetch, Analysis}, {Fetch, Analysis, VendorResolution},
                {Fetch, Analysis, VendorResolution, BillingEligibility},
                {Fetch, Analysis, VendorResolution, BillingEligibility, Billing}];
    assert counts.Keys == all[n - 1];
  }

  /** The first `n` stages have been run and saved, with their failure rows. */
  ghost predicate SavedUpTo(row: Row, rows: seq<FailureRecord>, r: Result, n: nat) {
    RunUpTo(row.counts, r, n) && RowsOfStages(rows, r, n)
  }

  /** The stages before `stage` have been saved, or it has been, too, as the last. */
  ghost predicate SavedTo(row: Row, rows: seq<FailureRecord>, r: Result, stage: Stage) {
    || SavedUpTo(row, rows, r, Index(stage))
    || (SavedUpTo(row, rows, r, Index(stage) + 1) && RanStages(row.counts.Keys, r))
  }

  /** A failed row and its failure rows. */
  ghost predicate FailedWith(row: Row, rows: seq<FailureRecord>, r: Result) {
    match row.stage
    case None => row.counts == map[] && rows == []
    case Some(stage) => SavedTo(row, rows, r, stage)
  }

  /** A process with the results `r` so far, its row, and its failure rows. */
  ghost predicate OnTrack(row: Row, rows: seq<FailureRecord>, proc: Proc, r: Result) {
    match proc
    case Dispatching => row.counts == map[] && rows == [] && r == NO_RESULT
    case AbortingDispatch => row.counts == map[] && rows == []
    case Marking(stage, q) => q == r && SavedUpTo(row, rows, r, Index(stage)) && GoesOn(r, Index(stage) + 1)
    case Working(stage, q) => q == r && SavedUpTo(row, rows, r, Index(stage)) && GoesOn(r, Index(stage) + 1)
    case Saving(stage, q) => q == r && SavedUpTo(row, rows, r, Index(stage)) && GoesOn(r, Index(stage) + 1)
    case Completing(stage, q) =>
      q == r && SavedUpTo(row, rows, r, Index(stage) + 1) && RanStages(row.counts.Keys, r)
    case Failing(stage) => SavedTo(row, rows, r, stage)
    case Recovering(stage) => SavedTo(row, rows, r, stage)
    case Ended(_) =>
      && (row.status in {Succeeded, PartialSuccess} ==>
            CompletedWith(row, r) && RowsOfStages(rows, r, |row.counts.Keys|))
      && (row.status == Failed ==> FailedWith(row, rows, r))
  }

  ghost predicate IsOnTrack(s: System, id: Id, r: Result) {
    && id in s.procs && id in s.tables.rows
    && OnTrack(s.tables.rows[id], FailuresOf(id, s.tables.failures), s.procs[id], r)
  }

  lemma SaveOnTrack(row: Row, rows: seq<FailureRecord>, stage: Stage, r: Result)
    requires OnTrack(row, rows, Saving(stage, r), r)
    ensures var p := StageProgress(stage, r);
      var next := row.(counts := row.counts[p.stage := Counts(p.success, p.business, p.technical)]);
      OnTrack(next, rows + p.records, AfterStage(stage, r), r)
  {
    var p := StageProgress(stage, r);
    SaveRuns(row.counts, r, stage);
    SaveAddsRows(rows, r, stage);
    StopsOrGoesOn(row.counts[p.stage := Counts(p.success, p.business, p.technical)], r, stage);
  }

  lemma WorkOnTrack(row: Row, rows: seq<FailureRecord>, stage: Stage, r: Result, output: Result)
    requires OnTrack(row, rows, Working(stage, r), r)
    ensures OnTrack(row, rows, Saving(stage, Take(stage, r, output)), WithPart(stage, r, output))
  {
    TakeKeepsRun(row.counts, r, stage, output);
    TakeKeepsStages(rows, r, stage, output, Index(stage));
    TakeIsWithPart(stage, r, output);
  }

  lemma CompleteOnTrack(row: Row, rows: seq<FailureRecord>, stage: Stage, r: Result, at: int)
    requires OnTrack(row, rows, Completing(stage, r), r)
    ensures var next := row.(status := StatusFor(r), stage := None, finishedAt := Some(at), hasError := false);
      OnTrack(next, rows, Ended(true), r)
  {
    StagesCounted(row.counts, r, Index(stage) + 1);
  }

  lemma SavingOnTrack(t: Tables, id: Id, stage: Stage, e: Event, rows: seq<FailureRecord>, r: Result)
    requires id in t.rows && OnTrack(t.rows[id], rows, Saving(stage, r), r)
    ensures var (after, next) := Step(t, id, Saving(stage, r), e);
      id in after.rows && OnTrack(after.rows[id], rows + AddedBy(Saving(stage, r), e), next, r)
  {
    if SaveReply(t, id, StageProgress(stage, r), e) == Done {
      SaveOnTrack(t.rows[id], rows, stage, r);
    } else {
      assert rows + AddedBy(Saving(stage, r), e) == rows;
    }
  }

  lemma CompletingOnTrack(t: Tables, id: Id, stage: Stage, e: Event, rows: seq<FailureRecord>, r: Result)
    requires id in t.rows && OnTrack(t.rows[id], rows, Completing(stage, r), r)
    ensures var (after, next) := Step(t, id, Completing(stage, r), e);
      id in after.rows && OnTrack(after.rows[id], rows, next, r)
  {
    CompleteOnTrack(t.rows[id], rows, stage, r, e.at);
  }

  /** The steps that neither run nor save a stage nor complete the workflow. */
  lemma QuietOnTrack(t: Tables, id: Id, proc: Proc, e: Event, rows: seq<FailureRecord>, r: Result)
    requires id in t.rows && Agrees(t.rows[id], proc) && OnTrack(t.rows[id], rows, proc, r)
    requires !proc.Working? && !proc.Saving? && !proc.Completing?
    ensures var (after, next) := Step(t, id, proc, e);
      id in after.rows && OnTrack(after.rows[id], rows, next, r)
  {
  }

  lemma StepOnTrack(t: Tables, id: Id, proc: Proc, e: Event, rows: seq<FailureRecord>, r: Result)
    requires id in t.rows && Agrees(t.rows[id], proc) && OnTrack(t.rows[id], rows, proc, r)
    ensures var (after, next) := Step(t, id, proc, e);
      && id in after.rows
      && var filled := proc.Working? && e.choice.Works?;
        OnTrack(after.rows[id], rows + AddedBy(proc, e), next,
                if filled then WithPart(proc.stage, r, e.choice.result) else r)
  {
    assert rows + [] == rows;
    match proc
    case Working(stage, _) =>
      if e.choice.Works? {
        WorkOnTrack(t.rows[id], rows, stage, r, e.choice.result);
      }
    case Saving(stage, _) => SavingOnTrack(t, id, stage, e, rows, r);
    case Completing(stage, _) => CompletingOnTrack(t, id, stage, e, rows, r);
    case _ => QuietOnTrack(t, id, proc, e, rows, r);
  }

  /** The failure rows that a step adds for its own workflow. */
  ghost function AddedBy(proc: Proc, e: Event): seq<FailureRecord> {
    if proc.Saving? && e.choice.Works? && Accepted(StageProgress(proc.stage, proc.result))
    then StageProgress(proc.stage, proc.result).records
    else []
  }

  lemma MoveOnTrack(s: System, m: Move, id: Id, r: Result)
    requires Valid(s) && IsOnTrack(s, id, r)
    ensures IsOnTrack(Advance(s, m), id, AddOutput(s, m, id, r))
  {
    AdvanceValid(s, m);
    if m.id != id {
      MoveIsLocal(s, m, id);
    } else if m.Act? {
      StepAppends(s, m, id);
      StepOnTrack(s.tables, id, s.procs[id], m.event, FailuresOf(id, s.tables.failures), r);
    }
  }

  lemma {:induction false} RunOnTrack(s: System, moves: seq<Move>, id: Id, r: Result)
    requires Valid(s) && IsOnTrack(s, id, r)
    ensures IsOnTrack(Run(s, moves), id, Outputs(s, moves, id, r))
    decreases moves
  {
    if moves != [] {
      AdvanceValid(s, moves[0]);
      MoveOnTrack(s, moves[0], id, r);
      RunOnTrack(Advance(s, moves[0]), moves[1..], id, AddOutput(s, moves[0], id, r));
    }
  }

  /** In any interleaving a completed workflow has run exactly the stages that had something to do; its
      row counts, and its failure rows list, what they returned. */
  lemma CompletedRanItsStages(s: System, moves: seq<Move>, id: Id)
    requires Valid(s) && id !in s.procs && FailuresOf(id, s.tables.failures) == []
    ensures var created := Advance(s, Create(id));
      var last, r := Run(created, moves), Outputs(created, moves, id, NO_RESULT);
      && id in last.tables.rows
      && (last.tables.rows[id].status in {Succeeded, PartialSuccess} ==>
            && CompletedWith(last.tables.rows[id], r)
            && RowsOfStages(FailuresOf(id, last.tables.failures), r, |last.tables.rows[id].counts.Keys|))
  {
    var created := Advance(s, Create(id));
    AdvanceValid(s, Create(id));
    RunOnTrack(created, moves, id, NO_RESULT);
    RunKeeps(created, moves);
    var last := Run(created, moves);
    if last.tables.rows[id].status in {Succeeded, PartialSuccess} {
      FinalHasEnded(last.tables.rows[id], last.procs[id]);
    }
  }

  /** In any interleaving a failed workflow shows a stage up to which its counters and failure rows are
      complete. */
  lemma FailedRanItsStages(s: System, moves: seq<Move>, id: Id)
    requires Valid(s) && id !in s.procs && FailuresOf(id, s.tables.failures) == []
    ensures var created := Advance(s, Create(id));
      var last, r := Run(created, moves), Outputs(created, moves, id, NO_RESULT);
      && id in last.tables.rows
      && (last.tables.rows[id].status == Failed ==>
            FailedWith(last.tables.rows[id], FailuresOf(id, last.tables.failures), r))
  {
    var created := Advance(s, Create(id));
    AdvanceValid(s, Create(id));
    RunOnTrack(created, moves, id, NO_RESULT);
    RunKeeps(created, moves);
    var last := Run(created, moves);
    if last.tables.rows[id].status == Failed {
      FinalHasEnded(last.tables.rows[id], last.procs[id]);
    }
  }

  lemma FinalHasEnded(row: Row, proc: Proc)
    requires Agrees(row, proc) && Terminal(row)
    ensures proc.Ended?
  {
  }

  // ---------------------------------------------------------------------------------------
  // Nothing handed on is lost
  // ---------------------------------------------------------------------------------------

  /** What the stages promise on top of their contracts: one outcome for each input, and counts that are
      the lengths of their lists. */
  ghost predicate OneOutcomeEach(stage: Stage, r: Result) {
    match stage
    case Fetch => true
    case Analysis =>
      && r.analysis.parsedCount == |r.analysis.parsed|
      && forall i :: 0 <= i < |r.analysis.parsed| ==> r.analysis.parsed[i].parsedEmailId != 0
    case VendorResolution =>
      && r.vendor.resolvedCount == |r.vendor.resolved|
      && |r.vendor.resolved| + |r.vendor.unresolved| + |r.vendor.failures| == |r.analysis.parsed|
    case BillingEligibility =>
      && r.eligibility.eligibleCount == |r.eligibility.eligible|
      && |r.eligibility.eligible| + |r.eligibility.ineligible| + |r.eligibility.failures| == |r.vendor.resolved|
    case Billing =>
      && r.billing.createdCount == |r.billing.created|
      && |r.billing.created| + |r.billing.duplicates| + |r.billing.failures| == |r.eligibility.eligible|
  }

  function Sum(c: Counts): int {
    c.success + c.business + c.technical
  }

  /** The counters of `stage` add up to the successes of the stage before it. */
  predicate AddsUpTo(row: Row, stage: Stage, before: Stage) {
    stage in row.counts ==> before in row.counts && Sum(row.counts[stage]) == row.counts[before].success
  }

  /** In a completed row every parsed email is resolved, unresolved or failed, every resolved one
      eligible, ineligible or failed, every eligible one created, a duplicate or failed. */
  lemma CountersConserve(row: Row, r: Result)
    requires CompletedWith(row, r)
    requires forall stage :: stage in row.counts ==> StageContract(stage, r) && OneOutcomeEach(stage, r)
    ensures AddsUpTo(row, VendorResolution, Analysis)
    ensures AddsUpTo(row, BillingEligibility, VendorResolution)
    ensures AddsUpTo(row, Billing, BillingEligibility)
  {
    assert RanStages(row.counts.Keys, r);
    if VendorResolution in row.counts {
      assert Analysis in row.counts;
      NothingMissing(r);
      assert CountsMean(VendorResolution, r, row.counts[VendorResolution]);
      assert CountsMean(Analysis, r, row.counts[Analysis]);
    }
    if BillingEligibility in row.counts {
      assert CountsMean(BillingEligibility, r, row.counts[BillingEligibility]);
    }
    if Billing in row.counts {
      assert CountsMean(Billing, r, row.counts[Billing]);
    }
  }

  lemma NothingMissing(r: Result)
    requires StageContract(VendorResolution, r) && OneOutcomeEach(Analysis, r)
    ensures r.vendor.unresolved == [] ==> Missing(r.analysis.parsed, r.vendor, 0) == {}
  {
    if r.vendor.unresolved == [] {
      forall i: nat | i < |r.analysis.parsed|
        ensures !IsMissing(r.analysis.parsed[i], r.vendor)
      {
        assert !HasId(r.vendor.unresolved, r.analysis.parsed[i].parsedEmailId);
      }
    }
  }
}
