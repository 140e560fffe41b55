/** Resending the verification mail: at most three per fixed window of 15 minutes, the window kept on
    the user's verification token row, which an expired token's replacement resets and rewrites. */
module ResendWindow {
  import opened Options

  // Milliseconds.
  const WINDOW := 900000
  const MAX_RESENDS := 3
  const TOKEN_TTL := 10800000

  datatype Row = Row(id: nat, token: string, expires: int, created: int,
                     windowStart: Option<int>, count: int, consumed: Option<int>)

  /** email_verification_tokens under its unique index on user_id. */
  datatype Table = Table(rows: map<nat, Row>, lastId: nat)

  predicate Active(r: Row, now: int) {
    r.consumed.None? && r.expires > now
  }

  /** Where a request can fail. `Lost` is an upsert that was written but could not be read back. */
  datatype Upsert = Done | Failed | Lost
  datatype Faults = Faults(latest: bool, active: bool, upsert: Upsert, send: bool, delete: bool, update: bool)

  const FINE := Faults(false, false, Done, false, false, false)

  datatype Request = Request(user: nat, now: int, token: string, faults: Faults)

  datatype Answer = Sent(token: string) | Limited | Broken | MailFailed | NotCounted(token: string)

  /** The mail went out. `NotCounted`: it did, but the window could not be written. */
  predicate Delivered(a: Answer) {
    a.Sent? || a.NotCounted?
  }

  // ---------------------------------------------------------------------------------------
  // Windows
  // ---------------------------------------------------------------------------------------

  datatype Window = Window(start: int, count: int)

  predicate Live(w: Option<Window>, now: int) {
    w.Some? && now - w.value.start < WINDOW
  }

  function RowWindow(t: Table, user: nat): Option<Window> {
    if user in t.rows && t.rows[user].windowStart.Some?
    then Some(Window(t.rows[user].windowStart.value, t.rows[user].count))
    else None
  }

  /** The window once a mail has gone out at `now`. */
  function Counted(w: Option<Window>, now: int): Window {
    if Live(w, now) then Window(w.value.start, w.value.count + 1) else Window(now, 1)
  }

  predicate AtLimit(w: Option<Window>, now: int) {
    Live(w, now) && w.value.count >= MAX_RESENDS
  }

  // ---------------------------------------------------------------------------------------
  // One request
  // ---------------------------------------------------------------------------------------

  /** The row an upsert leaves: the user's row keeps its id and loses its window. */
  function Upserted(t: Table, r: Request): Table {
    var id := if r.user in t.rows then t.rows[r.user].id else t.lastId + 1;
    Table(t.rows[r.user := Row(id, r.token, r.now + TOKEN_TTL, r.now, None, 0, None)],
          if r.user in t.rows then t.lastId else t.lastId + 1)
  }

  predicate Reuses(t: Table, r: Request) {
    r.user in t.rows && Active(t.rows[r.user], r.now)
  }

  function WithWindow(t: Table, user: nat, w: Window): Table {
    if user !in t.rows then t
    else t.(rows := t.rows[user := t.rows[user].(windowStart := Some(w.start), count := w.count)])
  }

  function Resend(t: Table, r: Request): (Table, Answer) {
    var w := RowWindow(t, r.user);
    if r.faults.latest then (t, Broken)
    else if AtLimit(w, r.now) then (t, Limited)
    else if r.faults.active then (t, Broken)
    else if !Reuses(t, r) && r.faults.upsert.Failed? then (t, Broken)
    else
      var u := if Reuses(t, r) then t else Upserted(t, r);
      if !Reuses(t, r) && r.faults.upsert.Lost? then (u, Broken)
      else if r.faults.send then
        (if Reuses(t, r) || r.faults.delete then u else u.(rows := u.rows - {r.user}), MailFailed)
      else if r.faults.update then (u, NotCounted(u.rows[r.user].token))
      else (WithWindow(u, r.user, Counted(w, r.now)), Sent(u.rows[r.user].token))
  }

  /** The token that goes out is the user's and can be used when it goes out; a request touches no
      other user's row. */
  lemma MailedTokenIsActive(t: Table, r: Request)
    ensures var (u, a) := Resend(t, r);
      && (Delivered(a) ==> r.user in u.rows && u.rows[r.user].token == a.token && Active(u.rows[r.user], r.now))
      && forall user :: user != r.user ==>
           (user in u.rows <==> user in t.rows) && (user in t.rows ==> u.rows[user] == t.rows[user])
  {
  }

  /** The user's token is neither consumed nor expired. */
  predicate HasUsableToken(t: Table, user: nat, now: int) {
    user in t.rows && t.rows[user].consumed == None && now < t.rows[user].expires
  }

  /** The user was sent three mails in the last 15 minutes, as far as the row knows. */
  predicate IsLimited(t: Table, user: nat, now: int) {
    user in t.rows && match t.rows[user].windowStart
    case None => false
    case Some(start) => now - start < 900000 && t.rows[user].count >= 3
  }

  /** Row `b` has the token of row `a`, with whatever window. */
  predicate SameToken(a: Row, b: Row) {
    b == a.(windowStart := b.windowStart, count := b.count)
  }

  /** A token that can still be used is sent again and stays as it is, whatever fails. */
  lemma UsableTokenIsReused(t: Table, r: Request)
    requires HasUsableToken(t, r.user, r.now)
    ensures var (u, a) := Resend(t, r);
      && r.user in u.rows && SameToken(t.rows[r.user], u.rows[r.user]) && u.lastId == t.lastId
      && (Delivered(a) ==> a.token == t.rows[r.user].token)
  {
  }

  /** Otherwise a delivery carries the new token, which is usable for three hours; the row keeps its id. */
  lemma OtherTokenIsReplaced(t: Table, r: Request)
    requires !HasUsableToken(t, r.user, r.now)
    ensures var (u, a) := Resend(t, r);
      Delivered(a) ==>
        && a.token == r.token && r.user in u.rows
        && SameToken(u.rows[r.user], Row(u.rows[r.user].id, r.token, r.now + 10800000, r.now, None, 0, None))
        && u.rows[r.user].id == (if r.user in t.rows then t.rows[r.user].id else t.lastId + 1)
  {
  }

  /** Who is refused, who is sent a mail, and what the window is after one whose write works. */
  lemma AnsweredExactly(t: Table, r: Request)
    ensures var (u, a) := Resend(t, r);
      var f, usable := r.faults, HasUsableToken(t, r.user, r.now);
      && (a == Limited <==> !f.latest && IsLimited(t, r.user, r.now))
      && (Delivered(a) <==>
            !f.latest && !IsLimited(t, r.user, r.now) && !f.active && (usable || f.upsert == Done) && !f.send)
      && (a.Sent? <==> Delivered(a) && !f.update)
      && (a.Sent? ==>
            && r.user in u.rows
            && (if r.user in t.rows && t.rows[r.user].windowStart.Some?
                   && r.now - t.rows[r.user].windowStart.value < 900000
                then u.rows[r.user].windowStart == t.rows[r.user].windowStart
                     && u.rows[r.user].count == t.rows[r.user].count + 1
                else u.rows[r.user].windowStart == Some(r.now) && u.rows[r.user].count == 1))
  {
  }

  /** The user's row has the request's token, and no window. */
  predicate HasFreshRow(t: Table, r: Request) {
    && r.user in t.rows && t.rows[r.user].token == r.token
    && t.rows[r.user].windowStart == None && t.rows[r.user].count == 0 && t.rows[r.user].consumed == None
  }

  /** What a request without a delivery leaves: the table as it was, unless it had replaced the token;
      then the new row goes with the failed mail, and stays if that, too, fails or it was not read back. */
  lemma UndeliveredLeaves(t: Table, r: Request)
    ensures var (u, a) := Resend(t, r);
      var replaced := !HasUsableToken(t, r.user, r.now) && a != Limited && !r.faults.latest && !r.faults.active
                      && !r.faults.upsert.Failed?;
      !Delivered(a) ==>
        && (!replaced ==> u == t)
        && (a == MailFailed && replaced ==>
              if r.faults.delete then HasFreshRow(u, r) else u.rows == t.rows - {r.user})
        && (a == Broken && replaced ==> HasFreshRow(u, r))
  {
  }

  // ---------------------------------------------------------------------------------------
  // The fixed windows of a list of deliveries
  // ---------------------------------------------------------------------------------------

  /** The delivery that opens the window delivery `j` falls in. */
  function Opener(log: seq<int>, j: nat): (h: nat)
    requires j < |log|
    ensures h <= j
    decreases j
  {
    if j == 0 then 0
    else
      var h := Opener(log, j - 1);
      if log[j] - log[h] < WINDOW then h else j
  }

  /** The window that the deliveries so far leave open. */
  function OpenWindow(log: seq<int>): Option<Window> {
    if log == [] then None
    else
      var h := Opener(log, |log| - 1);
      Some(Window(log[h], |log| - h))
  }

  lemma {:induction false} OpenerOfPrefix(log: seq<int>, more: seq<int>, j: nat)
    requires j < |log|
    ensures Opener(log + more, j) == Opener(log, j)
    decreases j
  {
    if j > 0 {
      OpenerOfPrefix(log, more, j - 1);
    }
  }

  lemma OpenWindowAfter(log: seq<int>, now: int)
    ensures OpenWindow(log + [now]) == Some(Counted(OpenWindow(log), now))
  {
    if log != [] {
      OpenerOfPrefix(log, [now], |log| - 1);
    }
  }

  ghost predicate Sorted(log: seq<int>) {
    forall i, j :: 0 <= i <= j < |log| ==> log[i] <= log[j]
  }

  /** No window holds more than three deliveries. */
  ghost predicate WindowsBounded(log: seq<int>) {
    forall j :: 0 <= j < |log| ==> j - Opener(log, j) < MAX_RESENDS
  }

  lemma {:induction false} WindowOpens(log: seq<int>, j: nat)
    requires j < |log|
    ensures Opener(log, Opener(log, j)) == Opener(log, j)
    ensures Opener(log, j) > 0 ==> log[Opener(log, j)] - log[Opener(log, Opener(log, j) - 1)] >= WINDOW
    decreases j
  {
    if j > 0 && Opener(log, j) != j {
      WindowOpens(log, j - 1);
    }
  }

  /** Six deliveries never fit into 15 minutes. */
  lemma SixSpanAWindow(log: seq<int>, i: nat)
    requires Sorted(log) && WindowsBounded(log) && i + 5 < |log|
    ensures log[i + 5] - log[i] >= WINDOW
  {
    var h := Opener(log, i + 5);
    WindowOpens(log, i + 5);
    assert log[i] <= log[Opener(log, h - 1)];
    assert log[h] <= log[i + 5];
  }

  lemma FarApart(log: seq<int>, i: nat, j: nat)
    requires Sorted(log) && WindowsBounded(log) && i + 5 <= j < |log|
    ensures log[j] - log[i] >= WINDOW
  {
    SixSpanAWindow(log, i);
    assert log[i + 5] <= log[j];
  }

  function Within(log: seq<int>, from: int): set<nat> {
    set j: nat | j < |log| && from <= log[j] < from + WINDOW
  }

  lemma {:induction false} FewBetween(s: set<nat>, lo: nat, hi: nat)
    requires forall j :: j in s ==> lo <= j < hi
    requires lo <= hi
    ensures |s| <= hi - lo
    decreases hi - lo
  {
    if lo < hi {
      FewBetween(s - {lo}, lo + 1, hi);
    } else {
      assert s == {};
    }
  }

  lemma {:induction false} Least(s: set<nat>) returns (i: nat)
    requires s != {}
    ensures i in s && forall j :: j in s ==> i <= j
    decreases s
  {
    i :| i in s;
    if s != {i} {
      var first := i;
      var k := Least(s - {first});
      i := if k < first then k else first;
      assert forall j :: j in s ==> j == first || j in s - {first};
    }
  }

  /** Any half-open interval of 15 minutes holds at most five deliveries. */
  lemma AtMostFiveWithin(log: seq<int>, from: int)
    requires Sorted(log) && WindowsBounded(log)
    ensures |Within(log, from)| <= 5
  {
    var s := Within(log, from);
    if s != {} {
      var i := Least(s);
      forall j | j in s
        ensures i <= j < i + 5
      {
        if j >= i + 5 {
          FarApart(log, i, j);
        }
      }
      FewBetween(s, i, i + 5);
    }
  }

  // ---------------------------------------------------------------------------------------
  // When the row tells the truth
  // ---------------------------------------------------------------------------------------

  /** From `now` on both windows lead to the same decisions. */
  predicate Agree(a: Option<Window>, b: Option<Window>, now: int) {
    Live(a, now) || Live(b, now) ==> a == b
  }

  /** The requests after which the row no longer knows the open window: the mail went out and the
      window write failed, or the row was reset while its window was open and the request then failed. */
  predicate Loses(t: Table, r: Request) {
    && !r.faults.latest && !AtLimit(RowWindow(t, r.user), r.now) && !r.faults.active
    && if Reuses(t, r) then !r.faults.send && r.faults.update else LosesOnReset(r, Live(RowWindow(t, r.user), r.now))
  }

  predicate LosesOnReset(r: Request, open: bool) {
    match r.faults.upsert
    case Failed => false
    case Lost => open
    case Done => if r.faults.send then open else r.faults.update
  }

  function Logged(log: seq<int>, r: Request, a: Answer): seq<int> {
    if Delivered(a) then log + [r.now] else log
  }

  /** A row that agrees with the deliveries still does after a request exactly if the request is not
      one of those. In particular the window survives the replacement of an expired token. */
  lemma LosesExactly(t: Table, r: Request, log: seq<int>)
    requires Agree(RowWindow(t, r.user), OpenWindow(log), r.now)
    ensures var (u, a) := Resend(t, r);
      Agree(RowWindow(u, r.user), OpenWindow(Logged(log, r, a)), r.now) <==> !Loses(t, r)
  {
    OpenWindowAfter(log, r.now);
  }

  /** With a row that agrees, a user is refused exactly when the open window holds three deliveries. */
  lemma LimitedExactly(t: Table, r: Request, log: seq<int>)
    requires Agree(RowWindow(t, r.user), OpenWindow(log), r.now) && !r.faults.latest
    ensures Resend(t, r).1.Limited? <==> AtLimit(OpenWindow(log), r.now)
  {
  }

  lemma BoundKept(t: Table, r: Request, log: seq<int>)
    requires Agree(RowWindow(t, r.user), OpenWindow(log), r.now) && WindowsBounded(log)
    ensures WindowsBounded(Logged(log, r, Resend(t, r).1))
  {
    var more := Logged(log, r, Resend(t, r).1);
    if more != log {
      OpenWindowAfter(log, r.now);
      forall j | 0 <= j < |more|
        ensures j - Opener(more, j) < MAX_RESENDS
      {
        if j < |log| {
          OpenerOfPrefix(log, [r.now], j);
        }
      }
    }
  }

  // ---------------------------------------------------------------------------------------
  // Runs
  // ---------------------------------------------------------------------------------------

  /** Requests of any users, each run to its end, registrations and verifications. A `Verify` with the
      user's token consumes it and verifies the user, who is turned away from then on. */
  datatype Event =
    | Register(user: nat, now: int, token: string)
    | Ask(request: Request)
    | Verify(user: nat, token: string, now: int)

  datatype System = System(table: Table, users: map<nat, bool>)

  const START := System(Table(map[], 0), map[])

  predicate Admitted(s: System, e: Event) {
    e.Ask? && e.request.user in s.users && !s.users[e.request.user]
  }

  /** The token of the user's row, neither consumed nor expired. */
  predicate Presents(t: Table, user: nat, token: string, now: int) {
    user in t.rows && t.rows[user].token == token && t.rows[user].consumed.None? && now <= t.rows[user].expires
  }

  function Take(s: System, e: Event): System {
    match e
    case Register(user, now, token) =>
      if user in s.users then s
      else System(Upserted(s.table, Request(user, now, token, FINE)), s.users[user := false])
    case Ask(r) => if Admitted(s, e) then s.(table := Resend(s.table, r).0) else s
    case Verify(user, token, now) =>
      if !Presents(s.table, user, token, now) then s
      else
        var row := s.table.rows[user].(consumed := Some(now));
        System(s.table.(rows := s.table.rows[user := row]), s.users[user := true])
  }

  function Before(events: seq<Event>, i: nat): System
    requires i <= |events|
    decreases i
  {
    if i == 0 then START else Take(Before(events, i - 1), events[i - 1])
  }

  function LogAfter(s: System, e: Event, log: seq<int>, user: nat): seq<int> {
    if Admitted(s, e) && e.request.user == user then Logged(log, e.request, Resend(s.table, e.request).1) else log
  }

  /** The times at which a resend's mail went out to the user. */
  function Deliveries(events: seq<Event>, i: nat, user: nat): seq<int>
    requires i <= |events|
    decreases i
  {
    if i == 0 then []
    else
      LogAfter(Before(events, i - 1), events[i - 1], Deliveries(events, i - 1, user), user)
  }

  function TimeOf(e: Event): int {
    if e.Ask? then e.request.now else e.now
  }

  ghost predicate ClockMonotone(events: seq<Event>) {
    forall i, j :: 0 <= i <= j < |events| ==> TimeOf(events[i]) <= TimeOf(events[j])
  }

  /** Event `i` is a request of the user that is not turned away. */
  predicate Asks(events: seq<Event>, i: nat, user: nat)
    requires i < |events|
  {
    Admitted(Before(events, i), events[i]) && events[i].request.user == user
  }

  predicate LosesAt(events: seq<Event>, i: nat, user: nat)
    requires i < |events|
  {
    Asks(events, i, user) && Loses(Before(events, i).table, events[i].request)
  }

  /** No request of the user loses the open window. */
  ghost predicate NothingLost(events: seq<Event>, n: nat, user: nat)
    requires n <= |events|
  {
    forall i: nat :: i < n ==> !LosesAt(events, i, user)
  }

  ghost predicate UserRight(s: System, log: seq<int>, user: nat, now: int) {
    && Agree(RowWindow(s.table, user), OpenWindow(log), now)
    && (user !in s.users ==> log == [] && user !in s.table.rows)
    && WindowsBounded(log) && Sorted(log) && (log != [] ==> log[|log| - 1] <= now)
  }

  lemma TakeRight(s: System, e: Event, log: seq<int>, user: nat)
    requires UserRight(s, log, user, TimeOf(e))
    requires Admitted(s, e) && e.request.user == user ==> !Loses(s.table, e.request)
    ensures UserRight(Take(s, e), LogAfter(s, e, log, user), user, TimeOf(e))
  {
    if Admitted(s, e) {
      var r := e.request;
      MailedTokenIsActive(s.table, r);
      if r.user == user {
        LosesExactly(s.table, r, log);
        BoundKept(s.table, r, log);
      }
    }
  }

  lemma {:induction false} RunRight(events: seq<Event>, i: nat, user: nat, now: int)
    requires i <= |events| && ClockMonotone(events) && NothingLost(events, i, user)
    requires i > 0 ==> TimeOf(events[i - 1]) <= now
    ensures UserRight(Before(events, i), Deliveries(events, i, user), user, now)
    decreases i
  {
    if i > 0 {
      var e := events[i - 1];
      assert i > 1 ==> TimeOf(events[i - 2]) <= TimeOf(e);
      RunRight(events, i - 1, user, TimeOf(e));
      assert !LosesAt(events, i - 1, user);
      TakeRight(Before(events, i - 1), e, Deliveries(events, i - 1, user), user);
    }
  }

  /** In every run with a monotone clock that loses no window of the user, each fixed window holds at
      most three deliveries and any 15 minutes at most five. */
  lemma ResendsBounded(events: seq<Event>, user: nat, from: int)
    requires ClockMonotone(events) && NothingLost(events, |events|, user)
    ensures WindowsBounded(Deliveries(events, |events|, user))
    ensures |Within(Deliveries(events, |events|, user), from)| <= 5
  {
    if events != [] {
      RunRight(events, |events|, user, TimeOf(events[|events| - 1]));
      AtMostFiveWithin(Deliveries(events, |events|, user), from);
    } else {
      assert Within([], from) == {};
    }
  }

  // ---------------------------------------------------------------------------------------
  // Losing a window breaks the limit
  // ---------------------------------------------------------------------------------------

  /** The same user again, at the same time, with nothing failing. */
  function Again(r: Request): Request {
    Request(r.user, r.now, r.token, FINE)
  }

  /** The deliveries once `r` has been followed by `n` more such requests. */
  function LogAgain(t: Table, r: Request, log: seq<int>, n: nat): seq<int>
    decreases n
  {
    if n == 0 then log
    else
      var (u, a) := Resend(t, Again(r));
      LogAgain(u, r, Logged(log, r, a), n - 1)
  }

  /** The deliveries that a window still limits at `now`. */
  function Counting(w: Option<Window>, now: int): int {
    if Live(w, now) then w.value.count else 0
  }

  lemma FineRequest(t: Table, r: Request)
    ensures var (u, a) := Resend(t, Again(r));
      if AtLimit(RowWindow(t, r.user), r.now) then u == t && a.Limited?
      else a.Sent? && RowWindow(u, r.user) == Some(Counted(RowWindow(t, r.user), r.now))
  {
  }

  /** Requests go out until the row counts three. */
  lemma {:induction false} FillUp(t: Table, r: Request, log: seq<int>, n: nat)
    requires Live(OpenWindow(log), r.now) && 0 <= Counting(RowWindow(t, r.user), r.now) <= MAX_RESENDS
    requires n >= MAX_RESENDS - Counting(RowWindow(t, r.user), r.now)
    ensures OpenWindow(LogAgain(t, r, log, n)).Some?
    ensures OpenWindow(LogAgain(t, r, log, n)).value.count
         == OpenWindow(log).value.count + MAX_RESENDS - Counting(RowWindow(t, r.user), r.now)
    decreases n
  {
    if n > 0 {
      FineRequest(t, r);
      var (u, a) := Resend(t, Again(r));
      if a.Sent? {
        OpenWindowAfter(log, r.now);
      }
      FillUp(u, r, Logged(log, r, a), n - 1);
    }
  }

  lemma BoundedOpenWindow(log: seq<int>)
    requires WindowsBounded(log) && log != []
    ensures 1 <= OpenWindow(log).value.count <= MAX_RESENDS
  {
  }

  /** What a losing request leaves: an open window, of which the row counts too little. */
  lemma LossLeaves(t: Table, r: Request, log: seq<int>)
    requires Agree(RowWindow(t, r.user), OpenWindow(log), r.now) && WindowsBounded(log) && Loses(t, r)
    ensures var (u, a) := Resend(t, r);
      var o, w := OpenWindow(Logged(log, r, a)), RowWindow(u, r.user);
      Live(o, r.now) && 0 <= Counting(w, r.now) < o.value.count && Counting(w, r.now) <= MAX_RESENDS
  {
    OpenWindowAfter(log, r.now);
    if log != [] {
      BoundedOpenWindow(log);
    }
  }

  /** A request after which a row no longer knows the open window is exactly one after which the limit
      no longer holds: three further requests at the same time overfill the window. */
  lemma LimitLostExactly(t: Table, r: Request, log: seq<int>)
    requires Agree(RowWindow(t, r.user), OpenWindow(log), r.now) && WindowsBounded(log)
    ensures var (u, a) := Resend(t, r);
      WindowsBounded(LogAgain(u, r, Logged(log, r, a), MAX_RESENDS)) <==> !Loses(t, r)
  {
    var (u, a) := Resend(t, r);
    var more := Logged(log, r, a);
    if Loses(t, r) {
      LossLeaves(t, r, log);
      FillUp(u, r, more, MAX_RESENDS);
      var full := LogAgain(u, r, more, MAX_RESENDS);
      if WindowsBounded(full) {
        BoundedOpenWindow(full);
      }
    } else {
      LosesExactly(t, r, log);
      BoundKept(t, r, log);
      AgainBounded(u, r, more, MAX_RESENDS);
    }
  }

  lemma {:induction false} AgainBounded(t: Table, r: Request, log: seq<int>, n: nat)
    requires Agree(RowWindow(t, r.user), OpenWindow(log), r.now) && WindowsBounded(log)
    ensures WindowsBounded(LogAgain(t, r, log, n))
    decreases n
  {
    if n > 0 {
      LosesExactly(t, Again(r), log);
      BoundKept(t, Again(r), log);
      var (u, a) := Resend(t, Again(r));
      AgainBounded(u, r, Logged(log, r, a), n - 1);
    }
  }

  // ---------------------------------------------------------------------------------------
  // The exact condition over runs
  // ---------------------------------------------------------------------------------------

  /** The run up to event `i`, and then three requests of the user at that time with nothing failing. */
  function Extended(events: seq<Event>, i: nat, user: nat, token: string): seq<Event>
    requires i < |events|
  {
    var ask := Ask(Request(user, TimeOf(events[i]), token, FINE));
    events[..i + 1] + [ask] + [ask] + [ask]
  }

  /** Even then no window holds more than three deliveries. */
  ghost predicate LimitHoldsAfter(events: seq<Event>, i: nat, user: nat, token: string)
    requires i < |events|
  {
    var run := Extended(events, i, user, token);
    WindowsBounded(Deliveries(run, |run|, user))
  }

  lemma {:induction false} SamePrefix(events: seq<Event>, other: seq<Event>, i: nat, user: nat)
    requires i <= |events| && i <= |other| && events[..i] == other[..i]
    ensures Before(events, i) == Before(other, i) && Deliveries(events, i, user) == Deliveries(other, i, user)
    decreases i
  {
    if i > 0 {
      assert events[..i - 1] == events[..i][..i - 1] && other[..i - 1] == other[..i][..i - 1];
      assert events[i - 1] == events[..i][i - 1] && other[i - 1] == other[..i][i - 1];
      SamePrefix(events, other, i - 1, user);
    }
  }

  lemma OneMoreEvent(events: seq<Event>, e: Event, user: nat)
    ensures var run := events + [e];
      && Before(run, |run|) == Take(Before(events, |events|), e)
      && Deliveries(run, |run|, user) == LogAfter(Before(events, |events|), e, Deliveries(events, |events|, user), user)
  {
    var run := events + [e];
    assert run[..|events|] == events[..|events|];
    SamePrefix(run, events, |events|, user);
  }

  /** The system and the deliveries of the user at the end of the run. */
  predicate EndsWith(events: seq<Event>, s: System, user: nat, log: seq<int>) {
    Before(events, |events|) == s && Deliveries(events, |events|, user) == log
  }

  lemma AskOnce(events: seq<Event>, s: System, r: Request, log: seq<int>)
    requires r.user in s.users && !s.users[r.user] && EndsWith(events, s, r.user, log)
    ensures var (u, a) := Resend(s.table, Again(r));
      EndsWith(events + [Ask(Again(r))], System(u, s.users), r.user, Logged(log, r, a))
  {
    OneMoreEvent(events, Ask(Again(r)), r.user);
  }

  lemma AskThrice(events: seq<Event>, s: System, r: Request, log: seq<int>)
    requires r.user in s.users && !s.users[r.user] && EndsWith(events, s, r.user, log)
    ensures var run := events + [Ask(Again(r))] + [Ask(Again(r))] + [Ask(Again(r))];
      Deliveries(run, |run|, r.user) == LogAgain(s.table, r, log, MAX_RESENDS)
  {
    var ask := Ask(Again(r));
    AskOnce(events, s, r, log);
    var (t1, a1) := Resend(s.table, Again(r));
    var l1 := Logged(log, r, a1);
    AskOnce(events + [ask], System(t1, s.users), r, l1);
    var (t2, a2) := Resend(t1, Again(r));
    var l2 := Logged(l1, r, a2);
    AskOnce(events + [ask] + [ask], System(t2, s.users), r, l2);
    LogThrice(s.table, r, log);
  }

  /** The run up to an admitted request of the user. */
  lemma AskedEnds(events: seq<Event>, i: nat, user: nat)
    requires i < |events| && Asks(events, i, user)
    ensures var s, r := Before(events, i), events[i].request;
      var (u, a) := Resend(s.table, r);
      EndsWith(events[..i + 1], System(u, s.users), user, Logged(Deliveries(events, i, user), r, a))
  {
    assert events[..i + 1] == events[..i] + [events[i]] && events[..i][..i] == events[..i];
    SamePrefix(events[..i], events, i, user);
    OneMoreEvent(events[..i], events[i], user);
  }

  /** The three requests after an admitted one. */
  lemma ExtendedDeliveries(events: seq<Event>, i: nat, user: nat, token: string)
    requires i < |events| && Asks(events, i, user)
    ensures var s, r := Before(events, i), events[i].request;
      var (u, a) := Resend(s.table, r);
      Deliveries(Extended(events, i, user, token), i + 4, user)
        == LogAgain(u, r.(token := token), Logged(Deliveries(events, i, user), r, a), MAX_RESENDS)
  {
    var s, r := Before(events, i), events[i].request;
    var (u, a) := Resend(s.table, r);
    AskedEnds(events, i, user);
    ThriceMore(events[..i + 1], System(u, s.users), r.(token := token), Logged(Deliveries(events, i, user), r, a));
  }

  lemma ThriceMore(events: seq<Event>, s: System, r: Request, log: seq<int>)
    requires r.user in s.users && !s.users[r.user] && EndsWith(events, s, r.user, log)
    ensures var ask := Ask(Request(r.user, r.now, r.token, FINE));
      Deliveries(events + [ask] + [ask] + [ask], |events| + 3, r.user) == LogAgain(s.table, r, log, MAX_RESENDS)
  {
    AskThrice(events, s, r, log);
  }

  lemma LogThrice(t: Table, r: Request, log: seq<int>)
    ensures var (t1, a1) := Resend(t, Again(r));
      var (t2, a2) := Resend(t1, Again(r));
      var (t3, a3) := Resend(t2, Again(r));
      LogAgain(t, r, log, MAX_RESENDS) == Logged(Logged(Logged(log, r, a1), r, a2), r, a3)
  {
    var (t1, a1) := Resend(t, Again(r));
    var (t2, a2) := Resend(t1, Again(r));
    var (t3, a3) := Resend(t2, Again(r));
    var l1 := Logged(log, r, a1);
    var l2 := Logged(l1, r, a2);
    assert LogAgain(t2, r, l2, 1) == LogAgain(t3, r, Logged(l2, r, a3), 0);
    assert LogAgain(t1, r, l1, 2) == LogAgain(t2, r, l2, 1);
  }

  /** The first request of the user that loses its window. */
  lemma {:induction false} FirstLoss(events: seq<Event>, n: nat, user: nat) returns (i: nat)
    requires n <= |events| && !NothingLost(events, n, user)
    ensures i < n && NothingLost(events, i, user) && LosesAt(events, i, user)
    decreases n
  {
    if NothingLost(events, n - 1, user) {
      i := n - 1;
    } else {
      i := FirstLoss(events, n - 1, user);
    }
  }

  lemma LossBreaksLimit(events: seq<Event>, i: nat, user: nat, token: string)
    requires ClockMonotone(events) && i < |events| && NothingLost(events, i, user) && LosesAt(events, i, user)
    ensures !LimitHoldsAfter(events, i, user, token)
  {
    var r := events[i].request;
    var s, log := Before(events, i), Deliveries(events, i, user);
    assert i > 0 ==> TimeOf(events[i - 1]) <= TimeOf(events[i]);
    RunRight(events, i, user, r.now);
    LossLeaves(s.table, r, log);
    var (u, a) := Resend(s.table, r);
    var q := r.(token := token);
    FillUp(u, q, Logged(log, r, a), MAX_RESENDS);
    ExtendedDeliveries(events, i, user, token);
    var full := LogAgain(u, q, Logged(log, r, a), MAX_RESENDS);
    if WindowsBounded(full) {
      BoundedOpenWindow(full);
    }
  }

  lemma ExtendedLosesNothing(events: seq<Event>, i: nat, user: nat, token: string)
    requires ClockMonotone(events) && i < |events| && NothingLost(events, |events|, user)
    ensures ClockMonotone(Extended(events, i, user, token))
    ensures NothingLost(Extended(events, i, user, token), i + 4, user)
  {
    var run := Extended(events, i, user, token);
    assert forall k :: 0 <= k <= i ==> run[k] == events[k];
    forall k: nat | k < i + 4
      ensures !LosesAt(run, k, user)
    {
      if k <= i {
        assert run[..k] == events[..k];
        SamePrefix(run, events, k, user);
        assert !LosesAt(events, k, user);
      }
    }
  }

  /** In a run with a monotone clock no request of the user loses its window exactly when the limit of
      three per window holds at every point, even if the user then asks three times at once. */
  lemma LimitHoldsExactly(events: seq<Event>, user: nat, token: string)
    requires ClockMonotone(events)
    ensures NothingLost(events, |events|, user) <==>
      forall i: nat :: i < |events| ==> LimitHoldsAfter(events, i, user, token)
  {
    if NothingLost(events, |events|, user) {
      forall i: nat | i < |events|
        ensures LimitHoldsAfter(events, i, user, token)
      {
        ExtendedLosesNothing(events, i, user, token);
        ResendsBounded(Extended(events, i, user, token), user, 0);
      }
    } else {
      var i := FirstLoss(events, |events|, user);
      LossBreaksLimit(events, i, user, token);
    }
  }

  // ---------------------------------------------------------------------------------------
  // A lost window
  // ---------------------------------------------------------------------------------------

  const SEND_FAILS := FINE.(send := true)

  /** Two mails go out just before the token expires; the next request replaces the token, fails to
      send and deletes the row with its open window; three more mails may follow at once. */
  lemma LostWindowAllowsFive(token: string)
    ensures var t0 := Upserted(Table(map[], 0), Request(0, 0, token, FINE));
      var (t1, a1) := Resend(t0, Request(0, TOKEN_TTL - 2, token, FINE));
      var (t2, a2) := Resend(t1, Request(0, TOKEN_TTL - 1, token, FINE));
      var lost := Request(0, TOKEN_TTL, token, SEND_FAILS);
      var (t3, a3) := Resend(t2, lost);
      var (t4, a4) := Resend(t3, Request(0, TOKEN_TTL + 1, token, FINE));
      var (t5, a5) := Resend(t4, Request(0, TOKEN_TTL + 2, token, FINE));
      var (t6, a6) := Resend(t5, Request(0, TOKEN_TTL + 3, token, FINE));
      Loses(t2, lost) && a1.Sent? && a2.Sent? && a3.MailFailed? && a4.Sent? && a5.Sent? && a6.Sent?
  {
    var t0 := Upserted(Table(map[], 0), Request(0, 0, token, FINE));
    var t1 := Resend(t0, Request(0, TOKEN_TTL - 2, token, FINE)).0;
    assert RowWindow(t1, 0) == Some(Window(TOKEN_TTL - 2, 1));
    var t2 := Resend(t1, Request(0, TOKEN_TTL - 1, token, FINE)).0;
    assert RowWindow(t2, 0) == Some(Window(TOKEN_TTL - 2, 2));
    var t3 := Resend(t2, Request(0, TOKEN_TTL, token, SEND_FAILS)).0;
    assert 0 !in t3.rows;
    var t4 := Resend(t3, Request(0, TOKEN_TTL + 1, token, FINE)).0;
    assert RowWindow(t4, 0) == Some(Window(TOKEN_TTL + 1, 1));
    var t5 := Resend(t4, Request(0, TOKEN_TTL + 2, token, FINE)).0;
    assert RowWindow(t5, 0) == Some(Window(TOKEN_TTL + 1, 2));
  }

  // ---------------------------------------------------------------------------------------
  // The code
  // ---------------------------------------------------------------------------------------

  class TokenRepository {
    var rows: map<nat, Row>
    var lastId: nat

    function Contents(): Table
      reads this
    {
      Table(rows, lastId)
    }

    /** Ids are a primary key. */
    ghost predicate Valid()
      reads this
    {
      && (forall u :: u in rows ==> rows[u].id <= lastId)
      && (forall u, v :: u in rows && v in rows && rows[u].id == rows[v].id ==> u == v)
    }

    constructor ()
      ensures Valid() && Contents() == Table(map[], 0)
    {
      rows, lastId := map[], 0;
    }

    method GetLatestTokenForUser(user: nat) returns (r: Option<Row>)
      ensures r == (if user in rows then Some(rows[user]) else None)
    {
      r := if user in rows then Some(rows[user]) else None;
    }

    method GetActiveTokenForUser(user: nat, now: int) returns (r: Option<Row>)
      ensures r.Some? <==> user in rows && Active(rows[user], now)
      ensures r.Some? ==> r.value == rows[user]
    {
      r := if user in rows && Active(rows[user], now) then Some(rows[user]) else None;
    }

    /** The upsert: a conflict on the user keeps the row's id. */
    method CreateEmailVerificationToken(r: Request) returns (row: Row)
      requires Valid()
      modifies this
      ensures Valid() && Contents() == Upserted(old(Contents()), r)
      ensures r.user in rows && row == rows[r.user]
    {
      if r.user in rows {
        row := Row(rows[r.user].id, r.token, r.now + TOKEN_TTL, r.now, None, 0, None);
      } else {
        lastId := lastId + 1;
        row := Row(lastId, r.token, r.now + TOKEN_TTL, r.now, None, 0, None);
      }
      rows := rows[r.user := row];
    }

    method UpdateVerificationEmailResendWindow(id: nat, w: Window)
      requires Valid()
      modifies this
      ensures Valid() && lastId == old(lastId) && rows.Keys == old(rows).Keys
      ensures forall u :: u in old(rows) && old(rows)[u].id == id ==> Contents() == WithWindow(old(Contents()), u, w)
      ensures id !in (set u | u in old(rows) :: old(rows)[u].id) ==> rows == old(rows)
    {
      rows := map u | u in rows ::
        if rows[u].id == id then rows[u].(windowStart := Some(w.start), count := w.count) else rows[u];
    }

    method DeleteTokenByID(id: nat)
      requires Valid()
      modifies this
      ensures Valid() && lastId == old(lastId)
      ensures forall u :: u in old(rows) && old(rows)[u].id == id ==> rows == old(rows) - {u}
      ensures id !in (set u | u in old(rows) :: old(rows)[u].id) ==> rows == old(rows)
    {
      rows := map u | u in rows && rows[u].id != id :: rows[u];
    }
  }

  /** The request after authentication. */
  method ResendVerificationEmail(repo: TokenRepository, r: Request) returns (answer: Answer)
    requires repo.Valid()
    modifies repo
    ensures repo.Valid()
    ensures repo.Contents() == Resend(old(repo.Contents()), r).0
    ensures answer == Resend(old(repo.Contents()), r).1
  {
    if r.faults.latest {
      return Broken;
    }
    var latest := repo.GetLatestTokenForUser(r.user);
    var window := Window(r.now, 1);
    if latest.Some? && latest.value.windowStart.Some? {
      if r.now - latest.value.windowStart.value < WINDOW {
        if latest.value.count >= MAX_RESENDS {
          return Limited;
        }
        window := Window(latest.value.windowStart.value, latest.value.count + 1);
      }
    }
    assert window == Counted(RowWindow(repo.Contents(), r.user), r.now);
    if r.faults.active {
      return Broken;
    }
    var existing := repo.GetActiveTokenForUser(r.user, r.now);
    var row;
    var created := false;
    if existing.Some? {
      row := existing.value;
    } else {
      if r.faults.upsert.Failed? {
        return Broken;
      }
      row := repo.CreateEmailVerificationToken(r);
      if r.faults.upsert.Lost? {
        return Broken;
      }
      created := true;
    }
    if r.faults.send {
      if created && !r.faults.delete {
        repo.DeleteTokenByID(row.id);
      }
      return MailFailed;
    }
    if r.faults.update {
      return NotCounted(row.token);
    }
    repo.UpdateVerificationEmailResendWindow(row.id, window);
    answer := Sent(row.token);
  }
}
