/** The manual mail workflow as a protocol: history rows, append-only failure rows, and one
    background process per started workflow. Every repository call and every stage call is one
    step, and the steps of different workflows interleave freely. */
module Workflow {
  import opened Options
  import opened WorkflowHistory

  type Id = nat

  datatype Status = Queued | Running | Succeeded | PartialSuccess | Failed

  datatype Counts = Counts(success: int, business: int, technical: int)

  const NO_COUNTS := Counts(0, 0, 0)

  datatype Row = Row(
    status: Status, stage: Option<Stage>, finishedAt: Option<int>, hasError: bool, counts: map<Stage, Counts>)

  const QUEUED_ROW := Row(Queued, None, None, false, map[])

  /** A counter column nobody has written is zero. */
  function CountsOf(row: Row, stage: Stage): Counts {
    if stage in row.counts then row.counts[stage] else NO_COUNTS
  }

  predicate Terminal(row: Row) {
    row.status in {Succeeded, PartialSuccess, Failed}
  }

  datatype Tables = Tables(rows: map<Id, Row>, failures: seq<(Id, FailureRecord)>)

  // ---------------------------------------------------------------------------------------
  // Repository updates (None: the row does not exist, or the summary is refused)
  // ---------------------------------------------------------------------------------------

  function SetRow(t: Tables, id: Id, row: Row): Tables {
    t.(rows := t.rows[id := row])
  }

  function Marked(t: Tables, id: Id, stage: Stage): Option<Tables> {
    if id !in t.rows then None
    else Some(SetRow(t, id, t.rows[id].(status := Running, stage := Some(stage), hasError := false)))
  }

  function Tagged(id: Id, records: seq<FailureRecord>): seq<(Id, FailureRecord)> {
    seq(|records|, i requires 0 <= i < |records| => (id, records[i]))
  }

  function Saved(t: Tables, id: Id, p: Progress): Option<Tables> {
    if !Accepted(p) || id !in t.rows then None
    else
      var row := t.rows[id];
      var updated := SetRow(t, id, row.(counts := row.counts[p.stage := Counts(p.success, p.business, p.technical)]));
      Some(updated.(failures := t.failures + Tagged(id, p.records)))
  }

  function Finished(t: Tables, id: Id, status: Status, stage: Option<Stage>, at: int, hasError: bool): Option<Tables> {
    if id !in t.rows then None
    else
      Some(SetRow(t, id, t.rows[id].(status := status, stage := stage, finishedAt := Some(at), hasError := hasError)))
  }

  // ---------------------------------------------------------------------------------------
  // One background process
  // ---------------------------------------------------------------------------------------

  /** Where a workflow is: in `Start` before the dispatch, before or in or after a stage, before
      the final write, in a `Fail` write, or ended. `Failing` is that write after an error;
      `Recovering` is the one of the deferred handler, which runs after any panic of `Execute`, one in
      `Failing` included. `persisted` is false when the workflow stops without a final row. */
  datatype Proc =
    | Dispatching
    | AbortingDispatch
    | Marking(stage: Stage, result: Result)
    | Working(stage: Stage, result: Result)
    | Saving(stage: Stage, result: Result)
    | Completing(stage: Stage, result: Result)
    | Failing(stage: Stage)
    | Recovering(stage: Stage)
    | Ended(persisted: bool)

  /** What the outside makes of one step: the call works (a stage returns the result with its own
      part filled in), returns an error, or panics. `at` is the clock reading for a final write. */
  datatype Event = Event(choice: Choice, at: int)
  datatype Choice = Works(result: Result) | Errs | Panics

  function Take(stage: Stage, result: Result, output: Result): Result {
    match stage
    case Fetch => result.(fetch := output.fetch)
    case Analysis => result.(analysis := output.analysis)
    case VendorResolution => result.(vendor := output.vendor)
    case BillingEligibility => result.(eligibility := output.eligibility)
    case Billing => result.(billing := output.billing)
  }

  /** The stage to run after `stage`; None when it left nothing to do or is the last. */
  function NextStage(stage: Stage, r: Result): Option<Stage> {
    match stage
    case Fetch => if r.fetch.created == [] then None else Some(Analysis)
    case Analysis => if r.analysis.parsed == [] then None else Some(VendorResolution)
    case VendorResolution => if r.vendor.resolved == [] then None else Some(BillingEligibility)
    case BillingEligibility => if r.eligibility.eligible == [] then None else Some(Billing)
    case Billing => None
  }

  function AfterStage(stage: Stage, r: Result): Proc {
    var next := NextStage(stage, r);
    if next.Some? then Marking(next.value, r) else Completing(stage, r)
  }

  function StatusFor(r: Result): Status {
    if HasWorkflowFailures(r) then PartialSuccess else Succeeded
  }

  /** How a call ends. */
  datatype Reply = Done | Erred | Panicked

  /** `write` is what a repository call would do; a call that errs or panics does nothing. */
  function ReplyTo(e: Event, write: Option<Tables>): Reply {
    match e.choice
    case Works(_) => if write.Some? then Done else Erred
    case Errs => Erred
    case Panics => Panicked
  }

  /** SaveStageProgress checks the counts before it calls the database. */
  function SaveReply(t: Tables, id: Id, p: Progress, e: Event): Reply {
    if !Accepted(p) then Erred else ReplyTo(e, Saved(t, id, p))
  }

  /** Inside `Execute` at `stage`: what comes after a call with this reply. */
  function After(reply: Reply, next: Proc, stage: Stage): Proc {
    match reply
    case Done => next
    case Erred => Failing(stage)
    case Panicked => Recovering(stage)
  }

  function Written(reply: Reply, t: Tables, write: Option<Tables>): Tables
    requires reply.Done? ==> write.Some?
  {
    if reply.Done? then write.value else t
  }

  /** The last write of a workflow. */
  function Last(t: Tables, e: Event, write: Option<Tables>): (Tables, Proc) {
    var reply := ReplyTo(e, write);
    (Written(reply, t, write), Ended(reply.Done?))
  }

  ghost function Step(t: Tables, id: Id, proc: Proc, e: Event): (Tables, Proc) {
    match proc
    case Dispatching =>
      (t, match e.choice
          case Works(_) => Marking(Fetch, NO_RESULT)
          case Errs => AbortingDispatch
          case Panics => Ended(false))
    case AbortingDispatch =>
      Last(t, e, Finished(t, id, Failed, None, e.at, true))
    case Marking(stage, r) =>
      var write := Marked(t, id, stage);
      var reply := ReplyTo(e, write);
      (Written(reply, t, write), After(reply, Working(stage, r), stage))
    case Working(stage, r) =>
      (t, match e.choice
          case Works(output) => Saving(stage, Take(stage, r, output))
          case Errs => Failing(stage)
          case Panics => Recovering(stage))
    case Saving(stage, r) =>
      var p := StageProgress(stage, r);
      var reply := SaveReply(t, id, p, e);
      (Written(reply, t, Saved(t, id, p)), After(reply, AfterStage(stage, r), stage))
    case Completing(stage, r) =>
      var write := Finished(t, id, StatusFor(r), None, e.at, false);
      var reply := ReplyTo(e, write);
      (Written(reply, t, write), After(reply, Ended(true), stage))
    case Failing(stage) =>
      var write := Finished(t, id, Failed, Some(stage), e.at, true);
      var reply := ReplyTo(e, write);
      (Written(reply, t, write), if reply.Panicked? then Recovering(stage) else Ended(reply.Done?))
    case Recovering(stage) =>
      Last(t, e, Finished(t, id, Failed, Some(stage), e.at, true))
    case Ended(_) => (t, proc)
  }

  // ---------------------------------------------------------------------------------------
  // Any number of workflows
  // ---------------------------------------------------------------------------------------

  datatype System = System(tables: Tables, procs: map<Id, Proc>)

  /** `Create(id)`: `Start` inserts a queued row under the new id; `Act(id, e)`: its process moves. */
  datatype Move = Create(id: Id) | Act(id: Id, event: Event)

  ghost function Advance(s: System, m: Move): System {
    match m
    case Create(id) =>
      if id in s.tables.rows then s
      else System(SetRow(s.tables, id, QUEUED_ROW), s.procs[id := Dispatching])
    case Act(id, e) =>
      if id !in s.procs then s
      else
        var (t, proc) := Step(s.tables, id, s.procs[id], e);
        System(t, s.procs[id := proc])
  }

  ghost function Run(s: System, moves: seq<Move>): System
    decreases moves
  {
    if moves == [] then s else Run(Advance(s, moves[0]), moves[1..])
  }

  const EMPTY := System(Tables(map[], []), map[])

  // ---------------------------------------------------------------------------------------
  // What every reachable state satisfies
  // ---------------------------------------------------------------------------------------

  function Index(stage: Stage): nat {
    match stage
    case Fetch => 0
    case Analysis => 1
    case VendorResolution => 2
    case BillingEligibility => 3
    case Billing => 4
  }

  function At(i: nat): Stage {
    if i == 0 then Fetch else if i == 1 then Analysis else if i == 2 then VendorResolution
    else if i == 3 then BillingEligibility else Billing
  }

  /** `stage` is what a row may show when its process has reached `reached`: the stage itself, or
      the one before it when marking the new one did not succeed. */
  predicate ShowsStage(row: Row, reached: Stage) {
    match row.status
    case Queued => row == QUEUED_ROW && reached == Fetch
    case Running => row.stage.Some? && Index(row.stage.value) <= Index(reached) <= Index(row.stage.value) + 1
    case _ => false
  }

  predicate RunningAt(row: Row, stage: Stage) {
    row.status == Running && row.stage == Some(stage)
  }

  predicate Agrees(row: Row, proc: Proc) {
    match proc
    case Dispatching => row == QUEUED_ROW
    case AbortingDispatch => row == QUEUED_ROW
    case Marking(stage, _) =>
      if stage == Fetch then row == QUEUED_ROW else RunningAt(row, At(Index(stage) - 1))
    case Working(stage, _) => RunningAt(row, stage)
    case Saving(stage, _) => RunningAt(row, stage)
    case Completing(stage, _) => RunningAt(row, stage)
    case Failing(stage) => ShowsStage(row, stage)
    case Recovering(stage) => ShowsStage(row, stage)
    case Ended(persisted) => persisted == Terminal(row)
  }

  predicate WellFormed(row: Row) {
    && (Terminal(row) <==> row.finishedAt.Some?)
    && (row.status == Queued ==> row == QUEUED_ROW)
    && (row.status == Running ==> row.stage.Some? && !row.hasError)
    && (row.status in {Succeeded, PartialSuccess} ==> row.stage == None && !row.hasError)
    && (row.status == Failed ==> row.hasError)
  }

  ghost predicate Valid(s: System) {
    && s.procs.Keys == s.tables.rows.Keys
    && forall id :: id in s.procs ==> WellFormed(s.tables.rows[id]) && Agrees(s.tables.rows[id], s.procs[id])
  }

  /** How one row may change: forward through the stages in order, then to one final status, with
      `finishedAt` set and the stage cleared by completion or kept by failure. */
  predicate RowStep(row: Row, next: Row) {
    || next == row
    || (row.status == Running && next == row.(counts := next.counts))
    || (row == QUEUED_ROW && next.status == Running && next.stage == Some(Fetch) && next.finishedAt == None)
    || (row.status == Running && next.status == Running && row.stage.Some? && next.stage.Some?
        && Index(next.stage.value) == Index(row.stage.value) + 1 && next.finishedAt == None)
    || (row.status == Running && next.status in {Succeeded, PartialSuccess}
      && next.stage == None && next.finishedAt.Some?)
    || (row.status in {Queued, Running} && next.status == Failed && next.finishedAt.Some?
        && (next.stage == None ==> row == QUEUED_ROW)
        && (next.stage.Some? ==> ShowsStage(row, next.stage.value)))
  }

  lemma AdvanceValid(s: System, m: Move)
    requires Valid(s)
    ensures Valid(Advance(s, m))
    ensures forall id :: id in s.tables.rows ==>
      id in Advance(s, m).tables.rows && RowStep(s.tables.rows[id], Advance(s, m).tables.rows[id])
    ensures forall id :: id in s.tables.rows && Terminal(s.tables.rows[id]) ==>
      Advance(s, m).tables.rows[id] == s.tables.rows[id]
  {
    if m.Act? && m.id in s.procs {
      StepValid(s.tables, m.id, s.procs[m.id], m.event);
    }
  }

  /** What one step of the process of `id` may do to the tables, leaving the process at `proc`. */
  ghost predicate Forward(t: Tables, id: Id, after: Tables, proc: Proc)
    requires id in t.rows
  {
    && after.rows.Keys == t.rows.Keys
    && (forall other :: other in t.rows && other != id ==> after.rows[other] == t.rows[other])
    && WellFormed(after.rows[id]) && Agrees(after.rows[id], proc)
    && RowStep(t.rows[id], after.rows[id])
    && (Terminal(t.rows[id]) ==> after == t)
  }

  /** A step that writes nothing. */
  lemma NothingWritten(t: Tables, id: Id, proc: Proc)
    requires id in t.rows && WellFormed(t.rows[id]) && Agrees(t.rows[id], proc)
    ensures Forward(t, id, t, proc)
  {
  }

  lemma RowWritten(t: Tables, id: Id, row: Row, failures: seq<(Id, FailureRecord)>, proc: Proc)
    requires id in t.rows && !Terminal(t.rows[id])
    requires WellFormed(row) && Agrees(row, proc) && RowStep(t.rows[id], row)
    ensures Forward(t, id, SetRow(t, id, row).(failures := failures), proc)
  {
  }

  lemma MarkingForward(t: Tables, id: Id, stage: Stage, r: Result)
    requires id in t.rows && WellFormed(t.rows[id]) && Agrees(t.rows[id], Marking(stage, r))
    ensures Forward(t, id, Marked(t, id, stage).value, Working(stage, r)) && Agrees(t.rows[id], Failing(stage))
  {
    var row := t.rows[id].(status := Running, stage := Some(stage), hasError := false);
    RowWritten(t, id, row, t.failures, Working(stage, r));
  }

  lemma SavingForward(t: Tables, id: Id, stage: Stage, r: Result, p: Progress)
    requires id in t.rows && WellFormed(t.rows[id]) && RunningAt(t.rows[id], stage)
    ensures Saved(t, id, p).Some? ==> Forward(t, id, Saved(t, id, p).value, AfterStage(stage, r))
  {
    var row := t.rows[id];
    var counted := row.(counts := row.counts[p.stage := Counts(p.success, p.business, p.technical)]);
    RowWritten(t, id, counted, t.failures + Tagged(id, p.records), AfterStage(stage, r));
  }

  lemma CompletingForward(t: Tables, id: Id, stage: Stage, r: Result, at: int)
    requires id in t.rows && WellFormed(t.rows[id]) && RunningAt(t.rows[id], stage)
    ensures Forward(t, id, Finished(t, id, StatusFor(r), None, at, false).value, Ended(true))
  {
    var row := t.rows[id].(status := StatusFor(r), stage := None, finishedAt := Some(at), hasError := false);
    RowWritten(t, id, row, t.failures, Ended(true));
  }

  /** The `Fail` write, from a dispatch that was refused or from a stage. */
  lemma FailingForward(t: Tables, id: Id, stage: Option<Stage>, at: int)
    requires id in t.rows && WellFormed(t.rows[id])
    requires if stage == None then t.rows[id] == QUEUED_ROW else ShowsStage(t.rows[id], stage.value)
    ensures Forward(t, id, Finished(t, id, Failed, stage, at, true).value, Ended(true))
    ensures Agrees(t.rows[id], Ended(false))
  {
    var row := t.rows[id].(status := Failed, stage := stage, finishedAt := Some(at), hasError := true);
    RowWritten(t, id, row, t.failures, Ended(true));
  }

  /** One step of one process, whatever the others' rows hold. */
  lemma StepValid(t: Tables, id: Id, proc: Proc, e: Event)
    requires id in t.rows && WellFormed(t.rows[id]) && Agrees(t.rows[id], proc)
    ensures var (after, next) := Step(t, id, proc, e);
      Forward(t, id, after, next)
  {
    var (after, next) := Step(t, id, proc, e);
    if after == t && Agrees(t.rows[id], next) {
      NothingWritten(t, id, next);
      return;
    }
    match proc
    case Dispatching =>
    case AbortingDispatch => FailingForward(t, id, None, e.at);
    case Marking(stage, r) => MarkingForward(t, id, stage, r);
    case Working(stage, _) =>
    case Saving(stage, r) => SavingForward(t, id, stage, r, StageProgress(stage, r));
    case Completing(stage, r) => CompletingForward(t, id, stage, r, e.at);
    case Failing(stage) => FailingForward(t, id, Some(stage), e.at);
    case Recovering(stage) => FailingForward(t, id, Some(stage), e.at);
    case Ended(_) =>
  }

  /** Progress of a row: queued, the five stages in order, final. */
  function Rank(row: Row): nat {
    if Terminal(row) then 6
    else if row.status == Running && row.stage.Some? then 1 + Index(row.stage.value)
    else 0
  }

  /** A later version of a row: not further back, and the same once it is final. */
  predicate RowLater(row: Row, later: Row) {
    Rank(row) <= Rank(later) && (Terminal(row) ==> later == row)
  }

  ghost predicate Later(s: System, later: System) {
    && s.tables.failures <= later.tables.failures
    && forall id ::
      id in s.tables.rows ==> id in later.tables.rows && RowLater(s.tables.rows[id], later.tables.rows[id])
  }

  lemma RowStepLater(row: Row, next: Row)
    requires WellFormed(row) && RowStep(row, next) && (Terminal(row) ==> next == row)
    ensures RowLater(row, next)
  {
  }

  lemma AdvanceAppendsOnly(s: System, m: Move)
    ensures s.tables.failures <= Advance(s, m).tables.failures
  {
    if m.Act? && m.id in s.procs {
      StepAppendsOnly(s.tables, m.id, s.procs[m.id], m.event);
    }
  }

  lemma AdvanceLater(s: System, m: Move)
    requires Valid(s)
    ensures Later(s, Advance(s, m))
  {
    AdvanceAppendsOnly(s, m);
    AdvanceValid(s, m);
    var next := Advance(s, m);
    forall id | id in s.tables.rows
      ensures id in next.tables.rows && RowLater(s.tables.rows[id], next.tables.rows[id])
    {
      RowStepLater(s.tables.rows[id], next.tables.rows[id]);
    }
  }

  lemma StepAppendsOnly(t: Tables, id: Id, proc: Proc, e: Event)
    ensures t.failures <= Step(t, id, proc, e).0.failures
  {
  }

  /** Over a whole run a row never goes back, a final row is never changed again, and failure rows
      are only appended. */
  lemma {:induction false} RunKeeps(s: System, moves: seq<Move>)
    requires Valid(s)
    ensures Valid(Run(s, moves)) && Later(s, Run(s, moves))
    decreases moves
  {
    if moves != [] {
      AdvanceValid(s, moves[0]);
      AdvanceLater(s, moves[0]);
      RunKeeps(Advance(s, moves[0]), moves[1..]);
    }
  }

  lemma ReachableValid(moves: seq<Move>)
    ensures Valid(Run(EMPTY, moves))
  {
    RunKeeps(EMPTY, moves);
  }

  // ---------------------------------------------------------------------------------------
  // Workflows do not disturb one another
  // ---------------------------------------------------------------------------------------

  function FailuresOf(id: Id, failures: seq<(Id, FailureRecord)>): seq<FailureRecord> {
    if failures == [] then []
    else (if failures[0].0 == id then [failures[0].1] else []) + FailuresOf(id, failures[1..])
  }

  lemma {:induction false} FailuresOfAppend(id: Id, a: seq<(Id, FailureRecord)>, b: seq<(Id, FailureRecord)>)
    ensures FailuresOf(id, a + b) == FailuresOf(id, a) + FailuresOf(id, b)
  {
    if a == [] {
      assert a + b == b;
    } else {
      assert (a + b)[0] == a[0] && (a + b)[1..] == a[1..] + b;
      FailuresOfAppend(id, a[1..], b);
      var here := if a[0].0 == id then [a[0].1] else [];
      assert here + (FailuresOf(id, a[1..]) + FailuresOf(id, b)) == (here + FailuresOf(id, a[1..])) + FailuresOf(id, b);
    }
  }

  lemma {:induction false} FailuresOfTagged(id: Id, owner: Id, records: seq<FailureRecord>)
    ensures FailuresOf(id, Tagged(owner, records)) == if id == owner then records else []
  {
    if records != [] {
      assert Tagged(owner, records)[1..] == Tagged(owner, records[1..]);
      FailuresOfTagged(id, owner, records[1..]);
    }
  }

  /** What belongs to one workflow: its row, its failure rows, and its process. */
  datatype View = View(row: Option<Row>, records: seq<FailureRecord>, proc: Option<Proc>)

  ghost function ViewOf(s: System, id: Id): View {
    View(if id in s.tables.rows then Some(s.tables.rows[id]) else None,
         FailuresOf(id, s.tables.failures),
         if id in s.procs then Some(s.procs[id]) else None)
  }

  /** A step reads and writes its own row only. */
  lemma StepIsLocal(t: Tables, u: Tables, id: Id, proc: Proc, e: Event)
    requires id in t.rows && id in u.rows && t.rows[id] == u.rows[id]
    ensures var (t', p), (u', q) := Step(t, id, proc, e), Step(u, id, proc, e);
      && p == q && t'.rows.Keys == t.rows.Keys && u'.rows.Keys == u.rows.Keys && t'.rows[id] == u'.rows[id]
      && forall other :: other in t.rows && other != id ==> t'.rows[other] == t.rows[other]
  {
  }

  lemma MoveIsLocal(s: System, m: Move, id: Id)
    requires Valid(s) && m.id != id
    ensures ViewOf(Advance(s, m), id) == ViewOf(s, id)
  {
    StepAppends(s, m, id);
    if m.Act? && m.id in s.procs {
      StepIsLocal(s.tables, s.tables, m.id, s.procs[m.id], m.event);
    }
  }

  lemma MoveDependsOnOwnView(s: System, other: System, m: Move)
    requires Valid(s) && Valid(other) && ViewOf(s, m.id) == ViewOf(other, m.id)
    ensures ViewOf(Advance(s, m), m.id) == ViewOf(Advance(other, m), m.id)
  {
    StepAppends(s, m, m.id);
    StepAppends(other, m, m.id);
    if m.Act? && m.id in s.procs {
      StepIsLocal(s.tables, other.tables, m.id, s.procs[m.id], m.event);
    }
  }

  /** The failure rows a move adds for `id`. */
  ghost function Added(s: System, m: Move, id: Id): seq<FailureRecord> {
    if m.Act? && m.id == id && id in s.procs && s.procs[id].Saving? && m.event.choice.Works?
      && id in s.tables.rows && Accepted(StageProgress(s.procs[id].stage, s.procs[id].result))
    then StageProgress(s.procs[id].stage, s.procs[id].result).records else []
  }

  lemma StepAppends(s: System, m: Move, id: Id)
    ensures FailuresOf(id, Advance(s, m).tables.failures) == FailuresOf(id, s.tables.failures) + Added(s, m, id)
  {
    if m.Act? && m.id in s.procs && s.procs[m.id].Saving? {
      var p := StageProgress(s.procs[m.id].stage, s.procs[m.id].result);
      FailuresOfAppend(id, s.tables.failures, Tagged(m.id, p.records));
      FailuresOfTagged(id, m.id, p.records);
    }
  }

  function MovesOf(id: Id, moves: seq<Move>): seq<Move> {
    if moves == [] then []
    else (if moves[0].id == id then [moves[0]] else []) + MovesOf(id, moves[1..])
  }

  /** In any interleaving each workflow fares exactly as if it ran alone. */
  lemma {:induction false} RunsAlone(s: System, alone: System, moves: seq<Move>, id: Id)
    requires Valid(s) && Valid(alone) && ViewOf(s, id) == ViewOf(alone, id)
    ensures ViewOf(Run(s, moves), id) == ViewOf(Run(alone, MovesOf(id, moves)), id)
    decreases moves
  {
    if moves != [] {
      var m := moves[0];
      AdvanceValid(s, m);
      if m.id == id {
        MoveDependsOnOwnView(s, alone, m);
        AdvanceValid(alone, m);
        RunsAlone(Advance(s, m), Advance(alone, m), moves[1..], id);
        assert MovesOf(id, moves)[0] == m && MovesOf(id, moves)[1..] == MovesOf(id, moves[1..]);
      } else {
        MoveIsLocal(s, m, id);
        RunsAlone(Advance(s, m), alone, moves[1..], id);
        assert MovesOf(id, moves) == MovesOf(id, moves[1..]);
      }
    }
  }

  // ---------------------------------------------------------------------------------------
  // Every started workflow ends, and ends final unless its last write is lost
  // ---------------------------------------------------------------------------------------

  /** The number of steps a process can still take. */
  function StepsLeft(proc: Proc): nat {
    match proc
    case Dispatching => 19
    case AbortingDispatch => 1
    case Marking(stage, _) => 18 - 3 * Index(stage)
    case Working(stage, _) => 17 - 3 * Index(stage)
    case Saving(stage, _) => 16 - 3 * Index(stage)
    case Completing(_, _) => 3
    case Failing(_) => 2
    case Recovering(_) => 1
    case Ended(_) => 0
  }

  /** The workflow stops here without a final row: a panicking dispatch, a `Fail` write that returns an
      error, or one whose panic nothing is left to handle. */
  predicate StopsAt(proc: Proc, e: Event) {
    match proc
    case Dispatching => e.choice.Panics?
    case AbortingDispatch => !e.choice.Works?
    case Failing(_) => e.choice.Errs?
    case Recovering(_) => !e.choice.Works?
    case _ => false
  }

  /** Workflow `id` never stops in that way during the run. */
  ghost predicate NeverStops(s: System, moves: seq<Move>, id: Id)
    decreases moves
  {
    moves == [] ||
    (&& (moves[0].Act? && moves[0].id == id && id in s.procs ==> !StopsAt(s.procs[id], moves[0].event))
     && NeverStops(Advance(s, moves[0]), moves[1..], id))
  }

  /** How often the process of `id` gets a turn. */
  function Turns(id: Id, moves: seq<Move>): nat {
    if moves == [] then 0
    else (if moves[0].Act? && moves[0].id == id then 1 else 0) + Turns(id, moves[1..])
  }

  lemma StageTakesTurn(stage: Stage, r: Result)
    ensures StepsLeft(AfterStage(stage, r)) < StepsLeft(Saving(stage, r))
  {
    match stage case Fetch => case Analysis => case VendorResolution => case BillingEligibility => case Billing =>
  }

  lemma ReplyTakesTurn(reply: Reply, next: Proc, stage: Stage, proc: Proc)
    requires StepsLeft(next) < StepsLeft(proc) && StepsLeft(proc) > 2
    ensures StepsLeft(After(reply, next, stage)) < StepsLeft(proc)
  {
  }

  lemma StepTakesTurn(t: Tables, id: Id, proc: Proc, e: Event)
    ensures proc.Ended? || StepsLeft(Step(t, id, proc, e).1) < StepsLeft(proc)
  {
    if proc.Saving? {
      var p := StageProgress(proc.stage, proc.result);
      StageTakesTurn(proc.stage, proc.result);
      ReplyTakesTurn(SaveReply(t, id, p, e), AfterStage(proc.stage, proc.result), proc.stage, proc);
    }
  }

  lemma TurnTaken(s: System, m: Move, id: Id)
    requires Valid(s) && id in s.procs
    ensures var next := Advance(s, m);
      && id in next.procs
      && (if m.Act? && m.id == id then next.procs[id] == Step(s.tables, id, s.procs[id], m.event).1
          else next.procs[id] == s.procs[id])
  {
  }

  lemma {:induction false} Ends(s: System, moves: seq<Move>, id: Id)
    requires Valid(s) && id in s.procs && Turns(id, moves) >= StepsLeft(s.procs[id])
    ensures var last := Run(s, moves);
      id in last.procs && last.procs[id].Ended?
    decreases moves
  {
    if moves != [] {
      AdvanceValid(s, moves[0]);
      TurnTaken(s, moves[0], id);
      if moves[0].Act? {
        StepTakesTurn(s.tables, id, s.procs[id], moves[0].event);
      }
      Ends(Advance(s, moves[0]), moves[1..], id);
    }
  }

  lemma StoppedByStep(t: Tables, id: Id, proc: Proc, e: Event)
    requires id in t.rows && WellFormed(t.rows[id]) && Agrees(t.rows[id], proc)
    ensures Step(t, id, proc, e).1 == Ended(false) <==> proc == Ended(false) || StopsAt(proc, e)
  {
  }

  lemma {:induction false} StoppedExactly(s: System, moves: seq<Move>, id: Id)
    requires Valid(s) && id in s.procs
    ensures var last := Run(s, moves);
      && id in last.procs
      && (last.procs[id] == Ended(false) <==> s.procs[id] == Ended(false) || !NeverStops(s, moves, id))
    decreases moves
  {
    if moves != [] {
      AdvanceValid(s, moves[0]);
      TurnTaken(s, moves[0], id);
      if moves[0].Act? && moves[0].id == id {
        StoppedByStep(s.tables, id, s.procs[id], moves[0].event);
      }
      StoppedExactly(Advance(s, moves[0]), moves[1..], id);
    }
  }

  /** A created workflow whose process gets 19 turns has ended, in any interleaving; its row is final
      exactly when its dispatch does not panic and its own last `Fail` write works, if it needs one,
      whatever other writes are lost and stages panic. */
  lemma StartedEndsFinal(s: System, moves: seq<Move>, id: Id)
    requires Valid(s) && id in s.procs && s.procs[id] == Dispatching && Turns(id, moves) >= StepsLeft(Dispatching)
    ensures var last := Run(s, moves);
      && id in last.tables.rows && id in last.procs && last.procs[id].Ended?
      && (Terminal(last.tables.rows[id]) <==> NeverStops(s, moves, id))
  {
    Ends(s, moves, id);
    RunKeeps(s, moves);
    StoppedExactly(s, moves, id);
  }
}
