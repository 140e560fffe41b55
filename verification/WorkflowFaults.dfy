/** How a workflow ends, said of what its calls did: it completes exactly if all of them worked, and a
    failed one shows the stage in which its first failing call was made. */
module WorkflowFaults {
  import opened Options
  import opened WorkflowHistory
  import opened Workflow

  /** Where the first call of a workflow that did not work was made. */
  datatype Fault = NoFault | AtDispatch | AtStage(stage: Stage)

  /** A call made for a stage: mark it, run it, save it, or complete after it. */
  predicate InStage(proc: Proc) {
    proc.Marking? || proc.Working? || proc.Saving? || proc.Completing?
  }

  /** The call of this step works, and a summary to be saved is not refused. */
  ghost predicate CallWorks(proc: Proc, e: Event) {
    e.choice.Works? && (proc.Saving? ==> Accepted(StageProgress(proc.stage, proc.result)))
  }

  ghost function NextFault(proc: Proc, e: Event, fault: Fault): Fault {
    if fault != NoFault || CallWorks(proc, e) then fault
    else if proc.Dispatching? then AtDispatch
    else if InStage(proc) then AtStage(proc.stage)
    else fault
  }

  ghost function AddFault(s: System, m: Move, id: Id, fault: Fault): Fault {
    if m.Act? && m.id == id && id in s.procs then NextFault(s.procs[id], m.event, fault) else fault
  }

  /** The first fault of workflow `id` in the run. */
  ghost function FirstFault(s: System, moves: seq<Move>, id: Id, fault: Fault): Fault
    decreases moves
  {
    if moves == [] then fault else FirstFault(Advance(s, moves[0]), moves[1..], id, AddFault(s, moves[0], id, fault))
  }

  /** What the row of an ended workflow shows of its first fault. */
  predicate ShowsFault(row: Row, fault: Fault) {
    && (row.status in {Succeeded, PartialSuccess} <==> fault == NoFault)
    && (row.status == Failed ==> row.stage == if fault.AtStage? then Some(fault.stage) else None)
  }

  predicate Explains(row: Row, proc: Proc, fault: Fault) {
    match proc
    case Dispatching => fault == NoFault
    case AbortingDispatch => fault == AtDispatch
    case Marking(_, _) => fault == NoFault
    case Working(_, _) => fault == NoFault
    case Saving(_, _) => fault == NoFault
    case Completing(_, _) => fault == NoFault
    case Failing(stage) => fault == AtStage(stage)
    case Recovering(stage) => fault == AtStage(stage)
    case Ended(_) => ShowsFault(row, fault)
  }

  lemma StepExplains(t: Tables, id: Id, proc: Proc, e: Event, fault: Fault)
    requires id in t.rows && Agrees(t.rows[id], proc) && Explains(t.rows[id], proc, fault)
    ensures var (after, next) := Step(t, id, proc, e);
      id in after.rows && Explains(after.rows[id], next, NextFault(proc, e, fault))
  {
  }

  lemma MoveExplains(s: System, m: Move, id: Id, fault: Fault)
    requires Valid(s) && id in s.procs && Explains(s.tables.rows[id], s.procs[id], fault)
    ensures var next := Advance(s, m);
      && id in next.procs && id in next.tables.rows
      && Explains(next.tables.rows[id], next.procs[id], AddFault(s, m, id, fault))
  {
    AdvanceValid(s, m);
    if m.id != id {
      MoveIsLocal(s, m, id);
    } else if m.Act? {
      StepExplains(s.tables, id, s.procs[id], m.event, fault);
    }
  }

  lemma {:induction false} RunExplains(s: System, moves: seq<Move>, id: Id, fault: Fault)
    requires Valid(s) && id in s.procs && Explains(s.tables.rows[id], s.procs[id], fault)
    ensures var last := Run(s, moves);
      && id in last.procs && id in last.tables.rows
      && Explains(last.tables.rows[id], last.procs[id], FirstFault(s, moves, id, fault))
    decreases moves
  {
    if moves != [] {
      AdvanceValid(s, moves[0]);
      MoveExplains(s, moves[0], id, fault);
      RunExplains(Advance(s, moves[0]), moves[1..], id, AddFault(s, moves[0], id, fault));
    }
  }

  /** In any interleaving a workflow that has ended is completed exactly if each of its calls worked; a
      failed one shows the stage of its first fault, and none if its dispatch was refused. */
  lemma EndsByItsFirstFault(s: System, moves: seq<Move>, id: Id)
    requires Valid(s) && id !in s.procs
    ensures var created := Advance(s, Create(id));
      var last := Run(created, moves);
      && id in last.procs && id in last.tables.rows
      && (last.procs[id].Ended? ==> ShowsFault(last.tables.rows[id], FirstFault(created, moves, id, NoFault)))
  {
    AdvanceValid(s, Create(id));
    RunExplains(Advance(s, Create(id)), moves, id, NoFault);
  }
}
