/** fetchGmailDetailsConcurrently: a feeder hands message indices over an unbuffered channel to at
    most eight workers, which write their results into a shared slice. */
module DetailPool {
  import opened Options
  import opened Text
  import M = MailFetch

  const MAX_WORKERS := 8

  datatype Worker = Idle | Busy(index: nat) | Gone

  /** `next` is the index the feeder sends next; `handled` logs the detail calls as they finish. */
  datatype Pool<R> = Pool(next: nat, closed: bool, workers: seq<Worker>, results: seq<Option<R>>, handled: seq<nat>)

  datatype Step = Hand(worker: nat) | Finish(worker: nat) | Close | Exit(worker: nat)

  function WorkerCount(n: nat): nat {
    if n > MAX_WORKERS then MAX_WORKERS else n
  }

  function Start<R>(n: nat): Pool<R> {
    Pool(0, false, seq(WorkerCount(n), _ => Idle), seq(n, _ => None), [])
  }

  /** A send on the unbuffered channel happens together with a receive by an idle worker; a worker
      leaves its range loop once the channel is closed. */
  predicate Enabled<R>(p: Pool<R>, s: Step) {
    match s
    case Hand(w) => !p.closed && p.next < |p.results| && w < |p.workers| && p.workers[w].Idle?
    case Finish(w) => w < |p.workers| && p.workers[w].Busy? && p.workers[w].index < |p.results|
    case Close => !p.closed && p.next == |p.results|
    case Exit(w) => p.closed && w < |p.workers| && p.workers[w].Idle?
  }

  /** `detail(i)` is what the mail service answers for message `i`. */
  function Take<R>(p: Pool<R>, s: Step, detail: nat -> R): Pool<R>
    requires Enabled(p, s)
  {
    match s
    case Hand(w) => p.(workers := p.workers[w := Busy(p.next)], next := p.next + 1)
    case Finish(w) =>
      var i := p.workers[w].index;
      p.(workers := p.workers[w := Idle], results := p.results[i := Some(detail(i))], handled := p.handled + [i])
    case Close => p.(closed := true)
    case Exit(w) => p.(workers := p.workers[w := Gone])
  }

  /** The wait group is done: the caller returns. */
  predicate Finished<R>(p: Pool<R>) {
    p.closed && forall w :: 0 <= w < |p.workers| ==> p.workers[w].Gone?
  }

  predicate Holds<R>(p: Pool<R>, i: nat) {
    Busy(i) in p.workers
  }

  ghost predicate Valid<R>(p: Pool<R>, n: nat, detail: nat -> R) {
    && |p.results| == n && |p.workers| == WorkerCount(n) && p.next <= n
    && (p.closed ==> p.next == n)
    && (Gone in p.workers ==> p.closed)
    && (forall v, w :: 0 <= v < w < |p.workers| && p.workers[v].Busy? ==> p.workers[v] != p.workers[w])
    && (forall w :: 0 <= w < |p.workers| && p.workers[w].Busy? ==> p.workers[w].index < p.next)
    && (forall i :: 0 <= i < n ==>
          if i in p.handled then i < p.next && p.results[i] == Some(detail(i)) && !Holds(p, i)
          else p.results[i] == None && (i < p.next ==> Holds(p, i)))
    && (forall i :: i in p.handled ==> i < n)
    && (forall i, j :: 0 <= i < j < |p.handled| ==> p.handled[i] != p.handled[j])
  }

  lemma StepValid<R>(p: Pool<R>, n: nat, s: Step, detail: nat -> R)
    requires Valid(p, n, detail) && Enabled(p, s)
    ensures Valid(Take(p, s, detail), n, detail)
  {
    var q := Take(p, s, detail);
    if s.Close? {
      return;
    }
    var w := s.worker;
    assert forall v :: 0 <= v < |p.workers| && v != w ==> q.workers[v] == p.workers[v];
    forall i | 0 <= i < n
      ensures Holds(q, i) <==> (Holds(p, i) && p.workers[w] != Busy(i)) || q.workers[w] == Busy(i)
    {
      if Holds(p, i) && p.workers[w] != Busy(i) {
        var v :| 0 <= v < |p.workers| && p.workers[v] == Busy(i);
        assert q.workers[v] == Busy(i);
      }
      assert q.workers[w] in q.workers;
    }
  }

  /** The pool cannot deadlock: until the wait group is done some step is possible. */
  lemma NeverStuck<R>(p: Pool<R>, n: nat, detail: nat -> R) returns (s: Step)
    requires Valid(p, n, detail) && n > 0 && !Finished(p)
    ensures Enabled(p, s)
  {
    if !p.closed && p.next == n {
      return Close;
    }
    if w :| 0 <= w < |p.workers| && p.workers[w].Busy? {
      return Finish(w);
    }
    if !p.closed {
      assert p.workers[0].Idle?;
      return Hand(0);
    }
    var w :| 0 <= w < |p.workers| && !p.workers[w].Gone?;
    return Exit(w);
  }

  function Weight(w: Worker): nat {
    match w case Busy(_) => 2 case Idle => 1 case Gone => 0
  }

  function Weights(workers: seq<Worker>): nat {
    if workers == [] then 0 else Weight(workers[0]) + Weights(workers[1..])
  }

  lemma {:induction false} WeightsUpdate(workers: seq<Worker>, w: nat, v: Worker)
    requires w < |workers|
    ensures Weights(workers[w := v]) + Weight(workers[w]) == Weights(workers) + Weight(v)
  {
    if w > 0 {
      assert workers[w := v][1..] == workers[1..][w - 1 := v];
      WeightsUpdate(workers[1..], w - 1, v);
    } else {
      assert workers[w := v][1..] == workers[1..];
    }
  }

  /** A bound on the steps still to come. */
  function StepsLeft<R>(p: Pool<R>): nat
    requires p.next <= |p.results|
  {
    3 * (|p.results| - p.next) + Weights(p.workers) + if p.closed then 0 else 1
  }

  ghost predicate IsRun<R>(p: Pool<R>, steps: seq<Step>, detail: nat -> R)
    decreases |steps|
  {
    steps == [] || (Enabled(p, steps[0]) && IsRun(Take(p, steps[0], detail), steps[1..], detail))
  }

  function RunAll<R>(p: Pool<R>, steps: seq<Step>, detail: nat -> R): Pool<R>
    requires IsRun(p, steps, detail)
    decreases |steps|
  {
    if steps == [] then p else RunAll(Take(p, steps[0], detail), steps[1..], detail)
  }

  lemma {:induction false} RunValid<R>(p: Pool<R>, n: nat, steps: seq<Step>, detail: nat -> R)
    requires Valid(p, n, detail) && IsRun(p, steps, detail)
    ensures Valid(RunAll(p, steps, detail), n, detail)
    ensures |steps| <= StepsLeft(p)
    decreases |steps|
  {
    if steps != [] {
      var s := steps[0];
      StepValid(p, n, s, detail);
      if !s.Close? {
        WeightsUpdate(p.workers, s.worker, Take(p, s, detail).workers[s.worker]);
      }
      RunValid(Take(p, s, detail), n, steps[1..], detail);
    }
  }

  lemma StartValid<R>(n: nat, detail: nat -> R)
    ensures Valid(Start<R>(n), n, detail)
  {
  }

  /** For every schedule: the run is bounded, and once the caller returns each message has been
      fetched exactly once and the results are those of a sequential loop, in order. */
  lemma AnySchedule<R>(n: nat, steps: seq<Step>, detail: nat -> R)
    requires IsRun(Start<R>(n), steps, detail)
    ensures |steps| <= StepsLeft(Start<R>(n))
    ensures var p := RunAll(Start<R>(n), steps, detail);
      Finished(p) ==>
        && |p.results| == n && (forall i :: 0 <= i < n ==> p.results[i] == Some(detail(i)))
        && (forall i: nat :: i in p.handled <==> i < n)
        && (forall i, j :: 0 <= i < j < |p.handled| ==> p.handled[i] != p.handled[j])
  {
    StartValid(n, detail);
    RunValid(Start<R>(n), n, steps, detail);
    var p := RunAll(Start<R>(n), steps, detail);
    if Finished(p) {
      forall i: nat | i < n
        ensures i in p.handled
      {
        assert !Holds(p, i);
      }
    }
  }

  // ---------------------------------------------------------------------------------------
  // Fetch: sorting the details
  // ---------------------------------------------------------------------------------------

  /** The answer for one message: an error, or a mail with its id and date (None: zero time). */
  datatype Detail = Failed | Mail(id: string, date: Option<int>)

  datatype Verdict = Fetched | Undelivered | Unusable | OutsidePeriod

  function Classify(d: Detail, since: int, until: int): Verdict {
    if d.Failed? then Undelivered
    else if Trim(d.id) == "" || d.date == None then Unusable
    else if since <= d.date.value < until then Fetched
    else OutsidePeriod
  }

  function Trimmed(d: Detail): Detail {
    if d.Mail? then d.(id := Trim(d.id)) else d
  }

  function FetchedOf(details: seq<Detail>, since: int, until: int): seq<Detail> {
    if details == [] then []
    else
      (if Classify(details[0], since, until) == Fetched then [Trimmed(details[0])] else [])
      + FetchedOf(details[1..], since, until)
  }

  /** fallbackExternalMessageID */
  function FallbackId(preferred: string, other: string): string {
    if Trim(preferred) != "" then Trim(preferred) else Trim(other)
  }

  /** The failure of a message that is not delivered or not usable: under the id it was asked for by,
      or under the one in the mail if there is one. */
  function FailureOf(messageId: string, d: Detail): M.Failure {
    if d.Failed? then M.Failure(messageId, M.FETCH_DETAIL_FAILED)
    else M.Failure(FallbackId(d.id, messageId), M.INVALID_FETCHED_EMAIL)
  }

  predicate Fails(v: Verdict) {
    v == Undelivered || v == Unusable
  }

  function FailuresOf(messageIds: seq<string>, details: seq<Detail>, since: int, until: int): seq<M.Failure>
    requires |messageIds| == |details|
  {
    if details == [] then []
    else
      (if Fails(Classify(details[0], since, until)) then [FailureOf(messageIds[0], details[0])] else [])
      + FailuresOf(messageIds[1..], details[1..], since, until)
  }

  function CountOf(details: seq<Detail>, since: int, until: int, v: Verdict): nat {
    if details == [] then 0
    else (if Classify(details[0], since, until) == v then 1 else 0) + CountOf(details[1..], since, until, v)
  }

  function WithCode(failures: seq<M.Failure>, code: string): nat {
    if failures == [] then 0 else (if failures[0].code == code then 1 else 0) + WithCode(failures[1..], code)
  }

  /** The mail has an id and a date, in the period from `since` to before `until`. */
  ghost predicate IsInPeriod(d: Detail, since: int, until: int) {
    match d
    case Failed => false
    case Mail(id, date) => !AllSpace(id) && date.Some? && since <= date.value && date.value < until
  }

  ghost predicate IsUsable(d: Detail) {
    d.Mail? && !AllSpace(d.id) && d.date.Some?
  }

  /** What is made of one answer: a mail in the period is fetched under its trimmed id, a usable mail
      outside is passed over, and anything else is a failure. */
  lemma AnswerMeans(messageId: string, d: Detail, since: int, until: int)
    ensures Classify(d, since, until) == Fetched <==> IsInPeriod(d, since, until)
    ensures Classify(d, since, until) == OutsidePeriod <==> IsUsable(d) && !IsInPeriod(d, since, until)
    ensures IsInPeriod(d, since, until) ==> Trimmed(d) == Mail(Trim(d.id), d.date)
    ensures d.Failed? ==> FailureOf(messageId, d) == M.Failure(messageId, "fetch_detail_failed")
    ensures d.Mail? ==>
      FailureOf(messageId, d) == M.Failure(Trim(if AllSpace(d.id) then messageId else d.id), "invalid_fetched_email")
  {
    if d.Mail? {
      BlankMeans(d.id);
    }
  }

  /** The failures are those of the messages that are neither fetched nor passed over, in order. */
  lemma {:induction false} FailureListed(messageIds: seq<string>, details: seq<Detail>, since: int, until: int, i: nat)
    requires |messageIds| == |details| && i < |details| && !IsUsable(details[i])
    ensures FailureOf(messageIds[i], details[i]) in FailuresOf(messageIds, details, since, until)
  {
    AnswerMeans(messageIds[i], details[i], since, until);
    if i > 0 {
      FailureListed(messageIds[1..], details[1..], since, until, i - 1);
    }
  }

  lemma CodesDiffer()
    ensures M.FETCH_DETAIL_FAILED != M.INVALID_FETCHED_EMAIL
  {
    assert M.FETCH_DETAIL_FAILED[0] != M.INVALID_FETCHED_EMAIL[0];
  }

  /** Every message is fetched, failed with the code of its case, or outside the period. */
  lemma {:induction false} EveryMessageClassified(messageIds: seq<string>, details: seq<Detail>, since: int, until: int)
    requires |messageIds| == |details|
    ensures var failures := FailuresOf(messageIds, details, since, until);
      && |FetchedOf(details, since, until)| == CountOf(details, since, until, Fetched)
      && WithCode(failures, M.FETCH_DETAIL_FAILED) == CountOf(details, since, until, Undelivered)
      && WithCode(failures, M.INVALID_FETCHED_EMAIL) == CountOf(details, since, until, Unusable)
      && |failures| == CountOf(details, since, until, Undelivered) + CountOf(details, since, until, Unusable)
      && |FetchedOf(details, since, until)| + |failures| + CountOf(details, since, until, OutsidePeriod) == |details|
  {
    if details != [] {
      CodesDiffer();
      EveryMessageClassified(messageIds[1..], details[1..], since, until);
      var rest := FailuresOf(messageIds[1..], details[1..], since, until);
      if Fails(Classify(details[0], since, until)) {
        assert ([FailureOf(messageIds[0], details[0])] + rest)[1..] == rest;
      } else {
        assert [] + rest == rest;
      }
    }
  }

  /** The failures carry the fetch stage's own codes. */
  lemma {:induction false} FailureCodes(messageIds: seq<string>, details: seq<Detail>, since: int, until: int)
    requires |messageIds| == |details|
    ensures M.FetchCodes(FailuresOf(messageIds, details, since, until))
  {
    if details != [] {
      FailureCodes(messageIds[1..], details[1..], since, until);
    }
  }

  /** The fetched mails keep the order of the messages. */
  lemma {:induction false} FetchedInOrder(details: seq<Detail>, since: int, until: int, i: nat)
    requires i < |details| && Classify(details[i], since, until) == Fetched
    ensures CountOf(details[..i], since, until, Fetched) < |FetchedOf(details, since, until)|
    ensures FetchedOf(details, since, until)[CountOf(details[..i], since, until, Fetched)] == Trimmed(details[i])
  {
    if i > 0 {
      FetchedInOrder(details[1..], since, until, i - 1);
      assert details[..i][1..] == details[1..][..i - 1];
    }
  }

  /** What the first `i` answers have become. */
  ghost predicate FilteredUpTo(messageIds: seq<string>, details: seq<Detail>, since: int, until: int, i: nat,
                               fetched: seq<Detail>, failures: seq<M.Failure>)
    requires |messageIds| == |details| && i <= |details|
  {
    && FetchedOf(details, since, until) == fetched + FetchedOf(details[i..], since, until)
    && FailuresOf(messageIds, details, since, until) ==
      failures + FailuresOf(messageIds[i..], details[i..], since, until)
  }

  lemma OneMoreFiltered(messageIds: seq<string>, details: seq<Detail>, since: int, until: int, i: nat,
                        fetched: seq<Detail>, failures: seq<M.Failure>)
    requires |messageIds| == |details| && i < |details|
    requires FilteredUpTo(messageIds, details, since, until, i, fetched, failures)
    ensures match Classify(details[i], since, until)
      case Fetched => FilteredUpTo(messageIds, details, since, until, i + 1, fetched + [Trimmed(details[i])], failures)
      case OutsidePeriod => FilteredUpTo(messageIds, details, since, until, i + 1, fetched, failures)
      case _ =>
        FilteredUpTo(messageIds, details, since, until, i + 1, fetched,
          failures + [FailureOf(messageIds[i], details[i])])
  {
    assert details[i..][1..] == details[i + 1..] && messageIds[i..][1..] == messageIds[i + 1..];
    var later, laterFailures :=
      FetchedOf(details[i + 1..], since, until), FailuresOf(messageIds[i + 1..], details[i + 1..], since, until);
    assert [] + later == later && [] + laterFailures == laterFailures;
    assert fetched + ([Trimmed(details[i])] + later) == (fetched + [Trimmed(details[i])]) + later;
    var f := FailureOf(messageIds[i], details[i]);
    assert failures + ([f] + laterFailures) == (failures + [f]) + laterFailures;
  }

  /** `messageIds[i]` was asked for and `details[i]` is the answer. */
  method FilterDetails(messageIds: seq<string>, details: seq<Detail>, since: int, until: int)
    returns (fetched: seq<Detail>, failures: seq<M.Failure>)
    requires |messageIds| == |details|
    ensures fetched == FetchedOf(details, since, until)
    ensures failures == FailuresOf(messageIds, details, since, until)
  {
    fetched, failures := [], [];
    for i := 0 to |details|
      invariant FilteredUpTo(messageIds, details, since, until, i, fetched, failures)
    {
      var d := details[i];
      OneMoreFiltered(messageIds, details, since, until, i, fetched, failures);
      if d.Failed? {
        failures := failures + [M.Failure(messageIds[i], M.FETCH_DETAIL_FAILED)];
      } else {
        TrimTwice(d.id);
        d := d.(id := Trim(d.id));
        if d.id == "" || d.date == None {
          failures := failures + [M.Failure(FallbackId(d.id, messageIds[i]), M.INVALID_FETCHED_EMAIL)];
        } else if d.date.value < since || d.date.value >= until {
        } else {
          fetched := fetched + [d];
        }
      }
    }
  }
}
