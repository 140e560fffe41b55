/** The repository and the use cases as they run: `Start` accepts a workflow, `Execute` drives it
    through its stages. `outside(n)` is what the n-th call to the database or to a stage makes of
    it; a panic inside `Execute`, in `failWorkflow` too, ends in the deferred `failWorkflow`. */
module WorkflowExecution {
  import opened Options
  import opened WorkflowHistory
  import opened Workflow
  import opened WorkflowStages

  /** The process of `id` on its own, from `proc` to its end. */
  ghost function Play(t: Tables, id: Id, proc: Proc, outside: nat -> Event, n: nat): (Tables, Proc)
    decreases StepsLeft(proc)
  {
    if proc.Ended? then (t, proc)
    else
      StepTakesTurn(t, id, proc, outside(n));
      var (t', proc') := Step(t, id, proc, outside(n));
      Play(t', id, proc', outside, n + 1)
  }

  /** No other row, and no failure row. */
  ghost predicate OnlyRowChanged(was: Tables, now: Tables, id: Id) {
    && now.rows.Keys == was.rows.Keys && now.failures == was.failures
    && forall other :: other in was.rows && other != id ==> now.rows[other] == was.rows[other]
  }

  predicate Completed(t: Tables, id: Id) {
    id in t.rows && t.rows[id].status in {Succeeded, PartialSuccess}
  }

  class WorkflowStatusRepository {
    var tables: Tables
    var nextId: Id

    ghost predicate Valid()
      reads this
    {
      nextId > 0 && forall id :: id in tables.rows ==> id < nextId
    }

    constructor ()
      ensures Valid() && tables == Tables(map[], []) && nextId == 1
    {
      tables, nextId := Tables(map[], []), 1;
    }

    method CreateQueued(e: Event) returns (id: Option<Id>)
      requires Valid()
      modifies this
      ensures Valid()
      ensures id.Some? <==> e.choice.Works?
      ensures id.Some? ==>
        && id.value > 0 && id.value !in old(tables).rows && tables == SetRow(old(tables), id.value, QUEUED_ROW)
        && tables.rows[id.value] == Row(Queued, None, None, false, map[])
      ensures id.None? ==> tables == old(tables)
    {
      if !e.choice.Works? {
        return None;
      }
      tables := SetRow(tables, nextId, QUEUED_ROW);
      id := Some(nextId);
      nextId := nextId + 1;
    }

    /** Runs one update inside the database, unless it fails there. */
    method Commit(e: Event, write: Option<Tables>) returns (reply: Reply)
      modifies this`tables
      ensures reply == ReplyTo(e, write)
      ensures tables == if reply.Done? then write.value else old(tables)
    {
      match e.choice
      case Works(_) =>
        if write.None? {
          return Erred;
        }
        tables := write.value;
        return Done;
      case Errs =>
        return Erred;
      case Panics =>
        return Panicked;
    }

    method MarkRunning(id: Id, stage: Stage, e: Event) returns (reply: Reply)
      modifies this`tables
      ensures reply == ReplyTo(e, Marked(old(tables), id, stage))
      ensures tables == if reply.Done? then Marked(old(tables), id, stage).value else old(tables)
      ensures reply.Done? ==>
        && id in old(tables).rows && OnlyRowChanged(old(tables), tables, id)
        && tables.rows[id] == old(tables).rows[id].(status := Running, stage := Some(stage), hasError := false)
    {
      reply := Commit(e, Marked(tables, id, stage));
    }

    method SaveStageProgress(id: Id, p: Progress, e: Event) returns (reply: Reply)
      modifies this`tables
      ensures reply == SaveReply(old(tables), id, p, e)
      ensures tables == if reply.Done? then Saved(old(tables), id, p).value else old(tables)
      ensures reply.Done? ==>
        && id in old(tables).rows && tables.rows.Keys == old(tables).rows.Keys
        && (forall other :: other in old(tables).rows && other != id ==> tables.rows[other] == old(tables).rows[other])
        && tables.rows[id].counts == old(tables).rows[id].counts[p.stage := Counts(p.success, p.business, p.technical)]
        && tables.rows[id] == old(tables).rows[id].(counts := tables.rows[id].counts)
        && FailuresOf(id, tables.failures) == FailuresOf(id, old(tables).failures) + p.records
    {
      FailuresOfAppend(id, tables.failures, Tagged(id, p.records));
      FailuresOfTagged(id, id, p.records);
      var counted := CountedFailureRecordCount(p.records);
      if counted != p.business + p.technical {
        return Erred;
      }
      reply := Commit(e, Saved(tables, id, p));
    }

    method Complete(id: Id, status: Status, e: Event) returns (reply: Reply)
      modifies this`tables
      ensures reply == ReplyTo(e, Finished(old(tables), id, status, None, e.at, false))
      ensures tables == if reply.Done? then Finished(old(tables), id, status, None, e.at, false).value else old(tables)
      ensures reply.Done? ==>
        && id in old(tables).rows && OnlyRowChanged(old(tables), tables, id)
        && tables.rows[id] == Row(status, None, Some(e.at), false, old(tables).rows[id].counts)
    {
      reply := Commit(e, Finished(tables, id, status, None, e.at, false));
    }

    method Fail(id: Id, stage: Option<Stage>, e: Event) returns (reply: Reply)
      modifies this`tables
      ensures reply == ReplyTo(e, Finished(old(tables), id, Failed, stage, e.at, true))
      ensures tables == if reply.Done? then Finished(old(tables), id, Failed, stage, e.at, true).value else old(tables)
      ensures reply.Done? ==>
        && id in old(tables).rows && OnlyRowChanged(old(tables), tables, id)
        && tables.rows[id] == Row(Failed, stage, Some(e.at), true, old(tables).rows[id].counts)
    {
      reply := Commit(e, Finished(tables, id, Failed, stage, e.at, true));
    }
  }

  method BuildStageProgress(stage: Stage, r: Result) returns (p: Progress)
    ensures p == StageProgress(stage, r)
  {
    match stage
    case Fetch => p := BuildFetchStageProgress(r.fetch);
    case Analysis => p := BuildAnalysisStageProgress(r.analysis);
    case VendorResolution => p := BuildVendorResolutionStageProgress(r.analysis.parsed, r.vendor);
    case BillingEligibility => p := BuildBillingEligibilityStageProgress(r.eligibility);
    case Billing => p := BuildBillingStageProgress(r.billing);
  }

  /** The stage's part of `r` is what the call `e` returned. */
  predicate PartFrom(stage: Stage, r: Result, e: Event) {
    e.choice.Works? && SamePart(stage, r, e.choice.result)
  }

  predicate SamePart(stage: Stage, r: Result, q: Result) {
    match stage
    case Fetch => r.fetch == q.fetch
    case Analysis => r.analysis == q.analysis
    case VendorResolution => r.vendor == q.vendor
    case BillingEligibility => r.eligibility == q.eligibility
    case Billing => r.billing == q.billing
  }

  /** Each of the stages from number `lo` on returned its part of `r` in its own call: there are three
      calls for a stage, the first for fetch being number `first`, and the middle one runs it. */
  ghost predicate PartsFrom(stages: set<Stage>, r: Result, outside: nat -> Event, first: nat, lo: nat) {
    forall stage :: stage in stages && Index(stage) >= lo ==> PartFrom(stage, r, outside(first + 3 * Index(stage) + 1))
  }

  ghost predicate SameEarlier(r: Result, q: Result, n: nat) {
    forall stage :: Index(stage) < n ==> SamePart(stage, r, q)
  }

  /** The row is at the start of `stage`, with the results `r` so far. */
  ghost predicate InRun(t: Tables, id: Id, r: Result, stage: Stage) {
    id in t.rows && RunUpTo(t.rows[id].counts, r, Index(stage)) && GoesOn(r, Index(stage) + 1)
  }

  /** `stage` has been run by the call `e`, and saved. */
  ghost predicate StageRan(was: Tables, now: Tables, id: Id, stage: Stage, before: Result, result: Result, e: Event) {
    && e.choice.Works? && result == WithPart(stage, before, e.choice.result)
    && (InRun(was, id, before, stage) ==> id in now.rows && RunUpTo(now.rows[id].counts, result, Index(stage) + 1))
  }

  /** The stages from `stage` on have been run as far as there was something to do, and the workflow has
      completed with `result`. */
  ghost predicate EndsWith(was: Tables, now: Tables, id: Id, stage: Stage, before: Result, result: Result,
                           outside: nat -> Event, first: nat) {
    && SameEarlier(result, before, Index(stage))
    && (InRun(was, id, before, stage) ==>
          && id in now.rows && CompletedWith(now.rows[id], result)
          && PartsFrom(now.rows[id].counts.Keys, result, outside, first, Index(stage)))
  }

  /** The same of the stages after `stage`, once it has been saved. */
  ghost predicate EndsAfter(mid: Tables, now: Tables, id: Id, stage: Stage, between: Result, result: Result,
                            outside: nat -> Event, first: nat) {
    && SameEarlier(result, between, Index(stage) + 1)
    && (id in mid.rows && RunUpTo(mid.rows[id].counts, between, Index(stage) + 1) ==>
          && id in now.rows && CompletedWith(now.rows[id], result)
          && PartsFrom(now.rows[id].counts.Keys, result, outside, first, Index(stage) + 1))
  }

  lemma EndsHere(mid: Tables, now: Tables, id: Id, stage: Stage, result: Result, outside: nat -> Event, first: nat)
    requires NextStage(stage, result) == None
    requires id in mid.rows ==> id in now.rows && now.rows[id].counts == mid.rows[id].counts
    requires id in now.rows && now.rows[id].status == StatusFor(result)
    ensures EndsAfter(mid, now, id, stage, result, result, outside, first)
  {
    if id in mid.rows && RunUpTo(mid.rows[id].counts, result, Index(stage) + 1) {
      StopsOrGoesOn(mid.rows[id].counts, result, stage);
    }
  }

  lemma EndsLater(mid: Tables, now: Tables, id: Id, stage: Stage, between: Result, next: Stage, result: Result,
                  outside: nat -> Event, first: nat)
    requires NextStage(stage, between) == Some(next)
    requires EndsWith(mid, now, id, next, between, result, outside, first)
    ensures EndsAfter(mid, now, id, stage, between, result, outside, first)
  {
    assert Index(next) == Index(stage) + 1;
    if id in mid.rows && RunUpTo(mid.rows[id].counts, between, Index(stage) + 1) {
      StopsOrGoesOn(mid.rows[id].counts, between, stage);
    }
  }

  lemma PartsJoined(stages: set<Stage>, stage: Stage, result: Result, outside: nat -> Event, first: nat, start: nat)
    requires start == first + 3 * Index(stage) && PartFrom(stage, result, outside(start + 1))
    requires PartsFrom(stages, result, outside, first, Index(stage) + 1)
    ensures PartsFrom(stages, result, outside, first, Index(stage))
  {
    assert forall other :: Index(other) >= Index(stage) ==> other == stage || Index(other) >= Index(stage) + 1;
  }

  lemma EndsJoined(was: Tables, mid: Tables, now: Tables, id: Id, stage: Stage, before: Result, between: Result,
                   result: Result, outside: nat -> Event, first: nat, start: nat)
    requires start == first + 3 * Index(stage)
    requires StageRan(was, mid, id, stage, before, between, outside(start + 1))
    requires EndsAfter(mid, now, id, stage, between, result, outside, first)
    ensures EndsWith(was, now, id, stage, before, result, outside, first)
  {
    assert SamePart(stage, result, between);
    if InRun(was, id, before, stage) {
      PartsJoined(now.rows[id].counts.Keys, stage, result, outside, first, start);
    }
  }

  lemma EndsFromQueue(was: Tables, now: Tables, id: Id, result: Result, outside: nat -> Event, first: nat)
    requires EndsWith(was, now, id, Fetch, NO_RESULT, result, outside, first)
    ensures id in was.rows && was.rows[id] == QUEUED_ROW ==>
      && id in now.rows && CompletedWith(now.rows[id], result)
      && PartsFrom(now.rows[id].counts.Keys, result, outside, first, 0)
  {
    if id in was.rows && was.rows[id] == QUEUED_ROW {
      assert InRun(was, id, NO_RESULT, Fetch);
    }
  }

  lemma SavedRuns(t: Tables, id: Id, r: Result, stage: Stage)
    requires Saved(t, id, StageProgress(stage, r)).Some?
    ensures var now := Saved(t, id, StageProgress(stage, r)).value;
      && id in now.rows && now.rows[id].status == t.rows[id].status
      && (InRun(t, id, r, stage) ==> RunUpTo(now.rows[id].counts, r, Index(stage) + 1))
  {
    if InRun(t, id, r, stage) {
      SaveRuns(t.rows[id].counts, r, stage);
    }
  }

  class UseCase {
    const repository: WorkflowStatusRepository

    constructor (repository: WorkflowStatusRepository)
      ensures this.repository == repository
    {
      this.repository := repository;
    }

    /** Marks, runs and saves one stage; after a reply other than `Done` the caller has to fail the
        workflow. */
    method RunStage(id: Id, stage: Stage, before: Result, outside: nat -> Event, start: nat)
      returns (reply: Reply, result: Result, n: nat)
      modifies repository`tables
      ensures Play(old(repository.tables), id, Marking(stage, before), outside, start)
        == Play(repository.tables, id, After(reply, AfterStage(stage, result), stage), outside, n)
      ensures Completed(repository.tables, id) ==> Completed(old(repository.tables), id)
      ensures reply.Done? ==>
        && n == start + 3
        && StageRan(old(repository.tables), repository.tables, id, stage, before, result, outside(start + 1))
    {
      result, n := before, start;
      reply := repository.MarkRunning(id, stage, outside(n));
      n := n + 1;
      if reply != Done {
        return;
      }
      assert Play(old(repository.tables), id, Marking(stage, before), outside, start)
          == Play(repository.tables, id, Working(stage, before), outside, n);
      var e := outside(n);
      n := n + 1;
      if !e.choice.Works? {
        return if e.choice.Errs? then Erred else Panicked, result, n;
      }
      result := Take(stage, before, e.choice.result);
      TakeIsWithPart(stage, before, e.choice.result);
      if InRun(old(repository.tables), id, before, stage) {
        TakeKeepsRun(repository.tables.rows[id].counts, before, stage, e.choice.result);
      }
      assert Play(repository.tables, id, Working(stage, before), outside, n - 1)
          == Play(repository.tables, id, Saving(stage, result), outside, n);
      reply := SaveStage(id, stage, result, outside, n);
      n := n + 1;
    }

    method SaveStage(id: Id, stage: Stage, result: Result, outside: nat -> Event, n: nat) returns (reply: Reply)
      modifies repository`tables
      ensures Play(old(repository.tables), id, Saving(stage, result), outside, n)
        == Play(repository.tables, id, After(reply, AfterStage(stage, result), stage), outside, n + 1)
      ensures Completed(repository.tables, id) ==> Completed(old(repository.tables), id)
      ensures reply.Done? && InRun(old(repository.tables), id, result, stage) ==>
        id in repository.tables.rows && RunUpTo(repository.tables.rows[id].counts, result, Index(stage) + 1)
    {
      if Saved(repository.tables, id, StageProgress(stage, result)).Some? {
        SavedRuns(repository.tables, id, result, stage);
      }
      var p := BuildStageProgress(stage, result);
      reply := repository.SaveStageProgress(id, p, outside(n));
    }

    /** The `Fail` write after an error, unless the call panicked; and the deferred one after a panic in
        either. */
    method FailWorkflow(id: Id, stage: Stage, panicked: bool, outside: nat -> Event, n: nat)
      modifies repository`tables
      ensures repository.tables
        == Play(old(repository.tables), id, if panicked then Recovering(stage) else Failing(stage), outside, n).0
      ensures Completed(repository.tables, id) ==> Completed(old(repository.tables), id)
    {
      var recovering, k := panicked, n;
      if !panicked {
        var reply := repository.Fail(id, Some(stage), outside(n));
        recovering, k := reply == Panicked, n + 1;
      }
      if recovering {
        var _ := repository.Fail(id, Some(stage), outside(k));
      }
    }

    method CompleteWorkflow(id: Id, stage: Stage, result: Result, outside: nat -> Event, n: nat) returns (err: bool)
      modifies repository`tables
      ensures repository.tables == Play(old(repository.tables), id, Completing(stage, result), outside, n).0
      ensures !err ==> id in repository.tables.rows && repository.tables.rows[id].status == StatusFor(result)
      ensures Completed(repository.tables, id) ==> !err || Completed(old(repository.tables), id)
      ensures !err && id in old(repository.tables).rows ==>
        repository.tables.rows[id].counts == old(repository.tables).rows[id].counts
    {
      var reply := repository.Complete(id, StatusFor(result), outside(n));
      if reply != Done {
        FailWorkflow(id, stage, reply == Panicked, outside, n + 1);
      }
      err := reply != Done;
    }

    /** Runs the stages in order as far as there is something to do, then completes; any failing
        call on the way fails the workflow at the stage it had reached. Its first call is number `first`.
        `err` also stands for a panic that leaves the deferred write. */
    method Execute(id: Id, outside: nat -> Event, first: nat) returns (result: Result, err: bool)
      modifies repository`tables
      ensures repository.tables == Play(old(repository.tables), id, Marking(Fetch, NO_RESULT), outside, first).0
      ensures !err ==> id in repository.tables.rows && repository.tables.rows[id].status == StatusFor(result)
      ensures !Completed(old(repository.tables), id) ==> (!err <==> Completed(repository.tables, id))
      ensures !err && id in old(repository.tables).rows && old(repository.tables).rows[id] == QUEUED_ROW ==>
        && CompletedWith(repository.tables.rows[id], result)
        && PartsFrom(repository.tables.rows[id].counts.Keys, result, outside, first, 0)
    {
      result, err := ExecuteFrom(id, Fetch, NO_RESULT, outside, first, first);
      if !err {
        EndsFromQueue(old(repository.tables), repository.tables, id, result, outside, first);
      }
    }

    /** `stage` and the later ones, each one nested in the success of the one before. */
    method ExecuteFrom(id: Id, stage: Stage, before: Result, outside: nat -> Event, start: nat, ghost first: nat)
      returns (result: Result, err: bool)
      requires start == first + 3 * Index(stage)
      modifies repository`tables
      ensures repository.tables == Play(old(repository.tables), id, Marking(stage, before), outside, start).0
      ensures !err ==> id in repository.tables.rows && repository.tables.rows[id].status == StatusFor(result)
      ensures Completed(repository.tables, id) ==> !err || Completed(old(repository.tables), id)
      ensures !err ==>
        EndsWith(old(repository.tables), repository.tables, id, stage, before, result, outside, first)
      decreases 5 - Index(stage), 1
    {
      var reply, n;
      reply, result, n := RunStage(id, stage, before, outside, start);
      if reply != Done {
        FailWorkflow(id, stage, reply == Panicked, outside, n);
        return result, true;
      }
      ghost var mid, between := repository.tables, result;
      result, err := GoOn(id, stage, result, outside, n, first);
      if !err {
        EndsJoined(old(repository.tables), mid, repository.tables, id, stage, before, between, result, outside, first,
                   start);
      }
    }

    /** After a saved stage: the next one, or the end. */
    method GoOn(id: Id, stage: Stage, between: Result, outside: nat -> Event, n: nat, ghost first: nat)
      returns (result: Result, err: bool)
      requires n == first + 3 * (Index(stage) + 1)
      modifies repository`tables
      ensures repository.tables == Play(old(repository.tables), id, AfterStage(stage, between), outside, n).0
      ensures !err ==> id in repository.tables.rows && repository.tables.rows[id].status == StatusFor(result)
      ensures Completed(repository.tables, id) ==> !err || Completed(old(repository.tables), id)
      ensures !err ==>
        EndsAfter(old(repository.tables), repository.tables, id, stage, between, result, outside, first)
      decreases 5 - Index(stage), 0
    {
      var next := NextStage(stage, between);
      if next == None {
        result := between;
        err := CompleteWorkflow(id, stage, result, outside, n);
        if !err {
          EndsHere(old(repository.tables), repository.tables, id, stage, result, outside, first);
        }
      } else {
        assert Index(next.value) == Index(stage) + 1;
        result, err := ExecuteFrom(id, next.value, between, outside, n, first);
        if !err {
          EndsLater(old(repository.tables), repository.tables, id, stage, between, next.value, result, outside, first);
        }
      }
    }

    /** Start's last half, followed by the background run if the dispatch accepts it: a refused dispatch
        fails the row, a panicking one leaves it. `accepted`: the caller is given the id. */
    method StartAndRun(outside: nat -> Event) returns (id: Option<Id>, accepted: bool)
      requires repository.Valid()
      modifies repository
      ensures id.Some? <==> outside(0).choice.Works?
      ensures accepted <==> id.Some? && outside(1).choice.Works?
      ensures id.Some? ==> id.value > 0 && id.value !in old(repository.tables).rows
      ensures id.Some? ==>
        repository.tables ==
          Play(SetRow(old(repository.tables), id.value, QUEUED_ROW), id.value, Dispatching, outside, 1).0
      ensures id.None? ==> repository.tables == old(repository.tables)
    {
      id := repository.CreateQueued(outside(0));
      if id == None {
        return id, false;
      }
      match outside(1).choice
      case Works(_) =>
        var _, _ := Execute(id.value, outside, 2);
        accepted := true;
      case Errs =>
        var _ := repository.Fail(id.value, None, outside(2));
        accepted := false;
      case Panics =>
        accepted := false;
    }
  }

  /** The workflow never stops without a final row. */
  ghost predicate PlayNeverStops(t: Tables, id: Id, proc: Proc, outside: nat -> Event, n: nat)
    decreases StepsLeft(proc)
  {
    proc.Ended? ||
    (StepTakesTurn(t, id, proc, outside(n));
     var (t', next) := Step(t, id, proc, outside(n));
     !StopsAt(proc, outside(n)) && PlayNeverStops(t', id, next, outside, n + 1))
  }

  /** On its own a started workflow ends, with a final row exactly when its dispatch does not panic and
      its last `Fail` write, if it needs one, works. */
  lemma {:induction false} PlayEnds(t: Tables, id: Id, proc: Proc, outside: nat -> Event, n: nat)
    requires id in t.rows && WellFormed(t.rows[id]) && Agrees(t.rows[id], proc)
    ensures var (last, end) := Play(t, id, proc, outside, n);
      && id in last.rows && end.Ended?
      && (Terminal(last.rows[id]) <==> end == Ended(true))
      && (Terminal(last.rows[id]) <==> proc != Ended(false) && PlayNeverStops(t, id, proc, outside, n))
      && RowLater(t.rows[id], last.rows[id])
    decreases StepsLeft(proc)
  {
    if !proc.Ended? {
      var e := outside(n);
      StepTakesTurn(t, id, proc, e);
      StepValid(t, id, proc, e);
      StoppedByStep(t, id, proc, e);
      var (t', next) := Step(t, id, proc, e);
      PlayEnds(t', id, next, outside, n + 1);
    }
  }
}
