/** Accepting a workflow: what Start checks, and why the background run never turns its job away. */
module WorkflowStart {
  import opened Options
  import opened Text
  import opened Times
  import opened Workflow
  import opened WorkflowExecution

  datatype Condition = Condition(labelName: string, since: int, until: int)
  datatype Command = Command(user: nat, connection: nat, condition: Condition)
  datatype Job = Job(history: nat, workflow: string, user: nat, connection: nat, condition: Condition)

  function NormalizeCondition(c: Condition): Condition {
    c.(labelName := Trim(c.labelName))
  }

  predicate ConditionValid(c: Condition) {
    NormalizeCondition(c).labelName != "" && c.since != ZERO_TIME && c.until != ZERO_TIME && c.since < c.until
  }

  predicate CommandValid(cmd: Command) {
    cmd.user != 0 && cmd.connection != 0 && ConditionValid(cmd.condition)
  }

  /** validateDispatchJob */
  predicate JobValid(job: Job) {
    job.history != 0 && Trim(job.workflow) != "" && CommandValid(Command(job.user, job.connection, job.condition))
  }

  const WORKFLOW_ID_LENGTH := 26

  /** A nanoid over digits and capital letters. */
  predicate IsWorkflowId(s: string) {
    |s| == WORKFLOW_ID_LENGTH && forall i :: 0 <= i < |s| ==> '0' <= s[i] <= '9' || 'A' <= s[i] <= 'Z'
  }

  function JobFor(cmd: Command, history: nat, workflow: string): Job {
    Job(history, workflow, cmd.user, cmd.connection, NormalizeCondition(cmd.condition))
  }

  /** The run rejects exactly the jobs of commands that Start rejects, so it never leaves a queued row
      behind by turning a job away. */
  lemma JobValidExactly(cmd: Command, history: nat, workflow: string)
    requires history != 0 && IsWorkflowId(workflow)
    ensures JobValid(JobFor(cmd, history, workflow)) <==> CommandValid(cmd)
  {
    TrimTwice(cmd.condition.labelName);
    TrimmedStays(workflow);
  }

  /** The job is for the command's user, connection and period; normalising its condition once more, as the
      run does, changes nothing. */
  lemma JobOfCommand(cmd: Command, history: nat, workflow: string)
    ensures var job := JobFor(cmd, history, workflow);
      && job.history == history && job.workflow == workflow
      && job.user == cmd.user && job.connection == cmd.connection
      && job.condition == Condition(Trim(cmd.condition.labelName), cmd.condition.since, cmd.condition.until)
      && NormalizeCondition(job.condition) == job.condition
  {
    TrimTwice(cmd.condition.labelName);
  }

  /** What Start and the run ask of a command. */
  lemma CommandValidExactly(cmd: Command)
    ensures CommandValid(cmd) <==>
      && cmd.user != 0 && cmd.connection != 0 && !AllSpace(cmd.condition.labelName)
      && cmd.condition.since != ZERO_TIME && cmd.condition.until != ZERO_TIME
      && cmd.condition.since < cmd.condition.until
  {
    BlankMeans(cmd.condition.labelName);
  }

  /** `outside` as for `StartAndRun`; a rejected command leaves no trace. The caller is given the id of
      an accepted workflow, whose row can only miss its end by a lost `Fail` write; the row of a created
      workflow that is not accepted never leaves the queue but by the `Fail` write of a refusal. */
  method Start(uc: UseCase, cmd: Command, workflow: string, outside: nat -> Event)
    returns (id: Option<Id>, accepted: bool)
    requires uc.repository.Valid() && IsWorkflowId(workflow)
    modifies uc.repository
    ensures id.Some? <==> CommandValid(cmd) && outside(0).choice.Works?
    ensures accepted <==> id.Some? && outside(1).choice.Works?
    ensures id.None? ==> uc.repository.tables == old(uc.repository.tables)
    ensures id.Some? ==> JobValid(JobFor(cmd, id.value, workflow))
    ensures id.Some? ==> id.value in uc.repository.tables.rows && id.value !in old(uc.repository.tables).rows
    ensures id.Some? ==>
      var created := SetRow(old(uc.repository.tables), id.value, QUEUED_ROW);
      (Terminal(uc.repository.tables.rows[id.value]) <==>
        PlayNeverStops(created, id.value, Dispatching, outside, 1))
    ensures id.Some? && !accepted ==> RefusedRow(uc.repository.tables.rows[id.value], outside)
  {
    if !CommandValid(cmd) {
      return None, false;
    }
    ghost var before := uc.repository.tables;
    id, accepted := uc.StartAndRun(outside);
    if id.Some? {
      ghost var created := SetRow(before, id.value, QUEUED_ROW);
      JobValidExactly(cmd, id.value, workflow);
      StartedAlone(created, id.value, outside);
    }
  }

  lemma StartedAlone(t: Tables, id: Id, outside: nat -> Event)
    requires id in t.rows && t.rows[id] == QUEUED_ROW
    ensures var last := Play(t, id, Dispatching, outside, 1).0;
      && id in last.rows
      && (Terminal(last.rows[id]) <==> PlayNeverStops(t, id, Dispatching, outside, 1))
      && (!outside(1).choice.Works? ==> RefusedRow(last.rows[id], outside))
  {
    PlayEnds(t, id, Dispatching, outside, 1);
    if outside(1).choice.Errs? {
      assert Play(t, id, Dispatching, outside, 1) == Play(t, id, AbortingDispatch, outside, 2);
    }
  }

  /** The row of a workflow whose dispatch, call 1, did not work. */
  predicate RefusedRow(row: Row, outside: nat -> Event) {
    if outside(1).choice.Errs? && outside(2).choice.Works? then row.status == Failed && row.stage == None
    else row == QUEUED_ROW
  }
}
