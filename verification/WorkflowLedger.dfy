/** What the persisted counters, the failure rows and the final status say about a workflow whose
    stages keep their contracts. */
module WorkflowLedger {
  import opened Options
  import opened WorkflowHistory
  import opened Workflow

  /** The failure rows of the first `n` stages, in order. */
  ghost function RecordsOfStages(r: Result, n: nat): seq<FailureRecord> {
    if n == 0 then [] else RecordsOfStages(r, n - 1) + StageProgress(At(n - 1), r).records
  }

  ghost function CountsIn(p: Progress): Counts {
    Counts(p.success, p.business, p.technical)
  }

  /** The first `n` stages are in the row's counters and in its failure rows; the others are not. */
  ghost predicate Booked(row: Row, records: seq<FailureRecord>, r: Result, n: nat) {
    && records == RecordsOfStages(r, n)
    && (forall i: nat :: i < n ==> StageContract(At(i), r) && CountsOf(row, At(i)) == CountsIn(StageProgress(At(i), r)))
    && (forall i: nat :: n <= i < 5 ==> CountsOf(row, At(i)) == NO_COUNTS)
  }

  ghost predicate NotRunFrom(r: Result, n: nat) {
    forall i: nat :: n <= i < 5 ==> Take(At(i), r, NO_RESULT) == r
  }

  ghost predicate CountersZero(row: Row) {
    forall stage :: CountsOf(row, stage).business == 0 && CountsOf(row, stage).technical == 0
  }

  /** The three signs of a workflow without failures agree. */
  ghost predicate StatusAgrees(row: Row, records: seq<FailureRecord>) {
    && (row.status == Succeeded <==> CountersZero(row))
    && (row.status == Succeeded <==> OnlySkips(records))
  }

  ghost predicate BookedFor(row: Row, records: seq<FailureRecord>, proc: Proc) {
    match proc
    case Dispatching => row.counts == map[] && records == []
    case AbortingDispatch => true
    case Marking(stage, r) => Booked(row, records, r, Index(stage)) && NotRunFrom(r, Index(stage))
    case Working(stage, r) => Booked(row, records, r, Index(stage)) && NotRunFrom(r, Index(stage))
    case Saving(stage, r) =>
      Booked(row, records, r, Index(stage)) && StageContract(stage, r) && NotRunFrom(r, Index(stage) + 1)
    case Completing(stage, r) => Booked(row, records, r, Index(stage) + 1) && NotRunFrom(r, Index(stage) + 1)
    case Failing(_) => true
    case Recovering(_) => true
    case Ended(_) => row.status in {Succeeded, PartialSuccess} ==> StatusAgrees(row, records)
  }

  /** A stage that returns in this move keeps its contract. */
  ghost predicate OutputKeepsContract(proc: Proc, e: Event) {
    proc.Working? && e.choice.Works? ==> StageContract(proc.stage, Take(proc.stage, proc.result, e.choice.result))
  }

  ghost predicate KeepsContracts(s: System, moves: seq<Move>)
    decreases moves
  {
    moves == [] ||
    (&& (moves[0].Act? && moves[0].id in s.procs ==> OutputKeepsContract(s.procs[moves[0].id], moves[0].event))
     && KeepsContracts(Advance(s, moves[0]), moves[1..]))
  }

  ghost predicate AllBooked(s: System) {
    && Valid(s)
    && (forall id :: id in s.procs ==> BookedFor(s.tables.rows[id], FailuresOf(id, s.tables.failures), s.procs[id]))
    && (forall id :: id !in s.tables.rows ==> FailuresOf(id, s.tables.failures) == [])
  }

  /** Filling in one stage leaves the summaries of the stages before it alone. */
  lemma TakeKeepsEarlier(stage: Stage, r: Result, output: Result, i: nat)
    requires i < Index(stage)
    ensures var next := Take(stage, r, output);
      && StageProgress(At(i), next) == StageProgress(At(i), r)
      && (StageContract(At(i), r) ==> StageContract(At(i), next))
  {
  }

  lemma {:induction false} TakeKeepsRecords(stage: Stage, r: Result, output: Result, n: nat)
    requires n <= Index(stage)
    ensures RecordsOfStages(Take(stage, r, output), n) == RecordsOfStages(r, n)
  {
    if n > 0 {
      TakeKeepsRecords(stage, r, output, n - 1);
      TakeKeepsEarlier(stage, r, output, n - 1);
    }
  }

  lemma {:induction false} OnlySkipsInStages(r: Result, n: nat)
    ensures OnlySkips(RecordsOfStages(r, n)) <==> forall i: nat :: i < n ==> OnlySkips(StageProgress(At(i), r).records)
  {
    if n > 0 {
      OnlySkipsInStages(r, n - 1);
      var before, here := RecordsOfStages(r, n - 1), StageProgress(At(n - 1), r).records;
      assert OnlySkips(before + here) <==> OnlySkips(before) && OnlySkips(here) by {
        assert forall i :: 0 <= i < |before| ==> (before + here)[i] == before[i];
        assert forall i :: 0 <= i < |here| ==> (before + here)[|before| + i] == here[i];
      }
    }
  }

  lemma FailuresInStages(r: Result, n: nat)
    requires n <= 5 && NotRunFrom(r, n)
    ensures HasWorkflowFailures(r) <==> exists i: nat :: i < n && StageFails(At(i), r)
  {
    assert forall i: nat :: n <= i < 5 ==> Take(At(i), r, NO_RESULT) == r;
    assert StageFails(At(0), r) || StageFails(At(1), r)
      || StageFails(At(2), r) || StageFails(At(3), r) || StageFails(At(4), r)
      <==> HasWorkflowFailures(r);
  }

  /** At the final write, the computed status agrees with what has been persisted. */
  lemma FinalStatusAgrees(row: Row, records: seq<FailureRecord>, r: Result, n: nat)
    requires n <= 5 && Booked(row, records, r, n) && NotRunFrom(r, n)
    ensures StatusAgrees(row.(status := StatusFor(r)), records)
  {
    var final := row.(status := StatusFor(r));
    assert forall stage :: CountsOf(final, stage) == CountsOf(row, stage);
    FailuresInStages(r, n);
    forall i: nat | i < n
      ensures StageFails(At(i), r) <==> CountsOf(row, At(i)).business != 0 || CountsOf(row, At(i)).technical != 0
      ensures StageFails(At(i), r) <==> !OnlySkips(StageProgress(At(i), r).records)
    {
      FailureViewsAgree(At(i), r);
    }
    OnlySkipsInStages(r, n);
    if forall i: nat :: i < n ==> !StageFails(At(i), r) {
      forall stage
        ensures CountsOf(row, stage).business == 0 && CountsOf(row, stage).technical == 0
      {
        assert stage == At(Index(stage));
        assert Index(stage) < n ==> !StageFails(At(Index(stage)), r);
      }
    }
  }

  lemma StageReturns(row: Row, records: seq<FailureRecord>, stage: Stage, r: Result, output: Result)
    requires BookedFor(row, records, Working(stage, r)) && StageContract(stage, Take(stage, r, output))
    ensures BookedFor(row, records, Saving(stage, Take(stage, r, output)))
  {
    TakeKeepsRecords(stage, r, output, Index(stage));
    forall i: nat | i < Index(stage)
      ensures StageProgress(At(i), Take(stage, r, output)) == StageProgress(At(i), r)
      ensures StageContract(At(i), Take(stage, r, output))
    {
      TakeKeepsEarlier(stage, r, output, i);
    }
    forall i: nat | Index(stage) < i < 5
      ensures Take(At(i), Take(stage, r, output), NO_RESULT) == Take(stage, r, output)
    {
      assert Take(At(i), r, NO_RESULT) == r;
    }
  }

  lemma StageBooked(row: Row, records: seq<FailureRecord>, stage: Stage, r: Result)
    requires Booked(row, records, r, Index(stage)) && StageContract(stage, r)
    ensures var p := StageProgress(stage, r);
      Booked(row.(counts := row.counts[stage := CountsIn(p)]), records + p.records, r, Index(stage) + 1)
  {
    var next := row.(counts := row.counts[stage := CountsIn(StageProgress(stage, r))]);
    assert At(Index(stage)) == stage;
    assert forall i: nat :: i < 5 && i != Index(stage) ==> CountsOf(next, At(i)) == CountsOf(row, At(i));
  }

  lemma NextIndex(stage: Stage, r: Result)
    ensures NextStage(stage, r).Some? ==> Index(NextStage(stage, r).value) == Index(stage) + 1
  {
  }

  lemma StageSaved(row: Row, records: seq<FailureRecord>, stage: Stage, r: Result)
    requires BookedFor(row, records, Saving(stage, r))
    ensures var p := StageProgress(stage, r);
      BookedFor(row.(counts := row.counts[stage := CountsIn(p)]), records + p.records, AfterStage(stage, r))
  {
    StageBooked(row, records, stage, r);
    NextIndex(stage, r);
  }

  lemma SameCountsBooked(row: Row, next: Row, records: seq<FailureRecord>, r: Result, n: nat)
    requires Booked(row, records, r, n) && next.counts == row.counts
    ensures Booked(next, records, r, n)
  {
    assert forall stage :: CountsOf(next, stage) == CountsOf(row, stage);
  }

  lemma WorkflowCompletes(row: Row, records: seq<FailureRecord>, stage: Stage, r: Result, at: int)
    requires BookedFor(row, records, Completing(stage, r))
    ensures var next := row.(status := StatusFor(r), stage := None, finishedAt := Some(at), hasError := false);
      BookedFor(next, records, Ended(true))
  {
    var next := row.(status := StatusFor(r), stage := None, finishedAt := Some(at), hasError := false);
    SameCountsBooked(row, next, records, r, Index(stage) + 1);
    FinalStatusAgrees(next, records, r, Index(stage) + 1);
  }

  lemma MarkingBooked(t: Tables, id: Id, stage: Stage, r: Result, e: Event, records: seq<FailureRecord>)
    requires id in t.rows && BookedFor(t.rows[id], records, Marking(stage, r))
    ensures var (t', next) := Step(t, id, Marking(stage, r), e);
      id in t'.rows && BookedFor(t'.rows[id], records, next)
  {
    SameCountsBooked(t.rows[id], Marked(t, id, stage).value.rows[id], records, r, Index(stage));
  }

  lemma WorkingBooked(t: Tables, id: Id, stage: Stage, r: Result, e: Event, records: seq<FailureRecord>)
    requires id in t.rows && BookedFor(t.rows[id], records, Working(stage, r))
    requires OutputKeepsContract(Working(stage, r), e)
    ensures var (t', next) := Step(t, id, Working(stage, r), e);
      t' == t && BookedFor(t.rows[id], records, next)
  {
    if e.choice.Works? {
      StageReturns(t.rows[id], records, stage, r, e.choice.result);
    }
  }

  lemma SavingBooked(t: Tables, id: Id, stage: Stage, r: Result, e: Event, records: seq<FailureRecord>)
    requires id in t.rows && BookedFor(t.rows[id], records, Saving(stage, r))
    ensures var (t', next) := Step(t, id, Saving(stage, r), e);
      && id in t'.rows
      && BookedFor(t'.rows[id], records + if e.choice.Works? then StageProgress(stage, r).records else [], next)
  {
    StageSaved(t.rows[id], records, stage, r);
    ContractAccepted(stage, r);
    assert StageProgress(stage, r).stage == stage;
    assert records + [] == records;
  }

  lemma CompletingBooked(t: Tables, id: Id, stage: Stage, r: Result, e: Event, records: seq<FailureRecord>)
    requires id in t.rows && BookedFor(t.rows[id], records, Completing(stage, r))
    ensures var (t', next) := Step(t, id, Completing(stage, r), e);
      id in t'.rows && BookedFor(t'.rows[id], records, next)
  {
    WorkflowCompletes(t.rows[id], records, stage, r, e.at);
  }

  /** One step on the row and the failure rows of its own workflow. */
  lemma StepBooked(t: Tables, id: Id, proc: Proc, e: Event, records: seq<FailureRecord>)
    requires id in t.rows && WellFormed(t.rows[id]) && Agrees(t.rows[id], proc)
    requires BookedFor(t.rows[id], records, proc) && OutputKeepsContract(proc, e)
    ensures var (t', next) := Step(t, id, proc, e);
      && id in t'.rows
      && var saved := proc.Saving? && e.choice.Works?;
        BookedFor(t'.rows[id], records + if saved then StageProgress(proc.stage, proc.result).records else [], next)
  {
    assert records + [] == records;
    match proc
    case Dispatching =>
      assert forall i: nat :: i < 5 ==> CountsOf(t.rows[id], At(i)) == NO_COUNTS;
      assert NotRunFrom(NO_RESULT, 0);
    case Marking(stage, r) => MarkingBooked(t, id, stage, r, e, records);
    case Working(stage, r) => WorkingBooked(t, id, stage, r, e, records);
    case Saving(stage, r) => SavingBooked(t, id, stage, r, e, records);
    case Completing(stage, r) => CompletingBooked(t, id, stage, r, e, records);
    case _ =>
  }

  lemma AdvanceBooked(s: System, m: Move)
    requires AllBooked(s)
    requires m.Act? && m.id in s.procs ==> OutputKeepsContract(s.procs[m.id], m.event)
    ensures AllBooked(Advance(s, m))
  {
    var next := Advance(s, m);
    AdvanceValid(s, m);
    forall id | id !in next.tables.rows
      ensures FailuresOf(id, next.tables.failures) == []
    {
      StepAppends(s, m, id);
    }
    forall id | id in next.procs
      ensures BookedFor(next.tables.rows[id], FailuresOf(id, next.tables.failures), next.procs[id])
    {
      StepAppends(s, m, id);
      if m.id != id {
        MoveIsLocal(s, m, id);
      } else if m.Act? {
        StepBooked(s.tables, id, s.procs[id], m.event, FailuresOf(id, s.tables.failures));
        if s.procs[id].Saving? {
          ContractAccepted(s.procs[id].stage, s.procs[id].result);
        }
      }
    }
  }

  lemma {:induction false} RunBooked(s: System, moves: seq<Move>)
    requires AllBooked(s) && KeepsContracts(s, moves)
    ensures AllBooked(Run(s, moves))
    decreases moves
  {
    if moves != [] {
      AdvanceBooked(s, moves[0]);
      RunBooked(Advance(s, moves[0]), moves[1..]);
    }
  }

  /** In any interleaving in which the stages keep their contracts: a completed workflow is
      `succeeded` exactly when its ten failure counters are zero, and exactly when it has no failure
      row besides `existing_emails_skipped`; and the count check refuses no summary. */
  lemma CompletedStatusAgrees(moves: seq<Move>, id: Id)
    requires KeepsContracts(EMPTY, moves)
    ensures var s := Run(EMPTY, moves);
      id in s.tables.rows && id in s.procs ==>
        && (s.tables.rows[id].status in {Succeeded, PartialSuccess} ==>
              StatusAgrees(s.tables.rows[id], FailuresOf(id, s.tables.failures)))
        && (s.procs[id].Saving? ==>
              Saved(s.tables, id, StageProgress(s.procs[id].stage, s.procs[id].result)).Some?)
  {
    RunBooked(EMPTY, moves);
    var s := Run(EMPTY, moves);
    if id in s.procs && s.procs[id].Saving? {
      ContractAccepted(s.procs[id].stage, s.procs[id].result);
    }
  }
}
