/** Verifying an email address with the token that was mailed, over runs of registrations, resends and
    verifications. */
module EmailVerification {
  import opened Options
  import opened ResendWindow

  // ---------------------------------------------------------------------------------------
  // Who is verified
  // ---------------------------------------------------------------------------------------

  /** Only users have a row, and a user is verified exactly if the row has been consumed. */
  ghost predicate UsersAgree(s: System) {
    && (forall user :: user in s.table.rows ==> user in s.users)
    && (forall user :: user in s.users ==>
          (s.users[user] <==> user in s.table.rows && s.table.rows[user].consumed.Some?))
  }

  lemma RequestAgrees(s: System, r: Request)
    requires UsersAgree(s) && r.user in s.users && !s.users[r.user]
    ensures UsersAgree(s.(table := Resend(s.table, r).0))
  {
  }

  lemma TakeAgrees(s: System, e: Event)
    requires UsersAgree(s)
    ensures UsersAgree(Take(s, e))
  {
    if Admitted(s, e) {
      RequestAgrees(s, e.request);
    }
  }

  /** In every run a user is verified exactly if the token in the user's row has been consumed. */
  lemma {:induction false} RunAgrees(events: seq<Event>, i: nat)
    requires i <= |events|
    ensures UsersAgree(Before(events, i))
  {
    if i > 0 {
      RunAgrees(events, i - 1);
      TakeAgrees(Before(events, i - 1), events[i - 1]);
    }
  }

  predicate IsVerified(s: System, user: nat) {
    user in s.users && s.users[user]
  }

  lemma TakeKeepsVerified(s: System, e: Event, user: nat)
    requires UsersAgree(s) && IsVerified(s, user)
    ensures IsVerified(Take(s, e), user) && user in s.table.rows && user in Take(s, e).table.rows
    ensures Take(s, e).table.rows[user] == s.table.rows[user]
  {
    if Admitted(s, e) {
      MailedTokenIsActive(s.table, e.request);
    }
  }

  /** A verified user stays verified and is mailed nothing any more; the row never changes again. */
  lemma {:induction false} VerifiedForEver(events: seq<Event>, i: nat, j: nat, user: nat)
    requires i <= j <= |events| && IsVerified(Before(events, i), user)
    ensures IsVerified(Before(events, j), user)
    ensures user in Before(events, i).table.rows && user in Before(events, j).table.rows
    ensures Before(events, j).table.rows[user] == Before(events, i).table.rows[user]
    ensures j < |events| ==> !Asks(events, j, user)
    decreases j
  {
    if i < j {
      VerifiedForEver(events, i, j - 1, user);
      RunAgrees(events, j - 1);
      TakeKeepsVerified(Before(events, j - 1), events[j - 1], user);
    } else {
      RunAgrees(events, i);
    }
  }

  // ---------------------------------------------------------------------------------------
  // What a mailed token is good for
  // ---------------------------------------------------------------------------------------

  predicate IsAbout(e: Event, user: nat) {
    match e
    case Register(u, _, _) => u == user
    case Ask(r) => r.user == user
    case Verify(u, _, _) => u == user
  }

  /** Nothing is about the user from event `i` to before event `j`. */
  ghost predicate IdleFor(events: seq<Event>, i: nat, j: nat, user: nat)
    requires j <= |events|
  {
    forall k :: i <= k < j ==> !IsAbout(events[k], user)
  }

  /** The user's row, and whether the user is verified. */
  predicate SameUser(s: System, t: System, user: nat) {
    && (user in s.table.rows <==> user in t.table.rows) && (user in s.users <==> user in t.users)
    && (user in s.table.rows ==> t.table.rows[user] == s.table.rows[user])
    && (user in s.users ==> t.users[user] == s.users[user])
  }

  lemma {:induction false} IdleStays(events: seq<Event>, i: nat, j: nat, user: nat)
    requires i <= j <= |events| && IdleFor(events, i, j, user)
    ensures SameUser(Before(events, i), Before(events, j), user)
    decreases j
  {
    if i < j {
      IdleStays(events, i, j - 1, user);
      var s, e := Before(events, j - 1), events[j - 1];
      if Admitted(s, e) {
        MailedTokenIsActive(s.table, e.request);
      }
    }
  }

  /** Event `i` is a request of the user whose mail went out. */
  predicate MailsTo(events: seq<Event>, i: nat, user: nat)
    requires i < |events|
  {
    Asks(events, i, user) && Delivered(Resend(Before(events, i).table, events[i].request).1)
  }

  /** A mailed token verifies its user until it expires, and no other token does: unless something else
      of the user comes in between, a verification succeeds exactly with that token in time. */
  lemma MailedTokenVerifies(events: seq<Event>, i: nat, j: nat, user: nat)
    requires i < j < |events| && MailsTo(events, i, user) && IdleFor(events, i + 1, j, user)
    requires events[j].Verify? && events[j].user == user
    ensures var r, answer := events[i].request, Resend(Before(events, i).table, events[i].request).1;
      && user in Before(events, i + 1).table.rows
      && var expires := Before(events, i + 1).table.rows[user].expires;
        && expires > r.now
        && (IsVerified(Before(events, j + 1), user) <==> events[j].token == answer.token && events[j].now <= expires)
  {
    var r := events[i].request;
    MailedTokenIsActive(Before(events, i).table, r);
    RunAgrees(events, j);
    IdleStays(events, i + 1, j, user);
    assert !IsVerified(Before(events, i + 1), user);
  }

  /** So does the token of the registration, for three hours. */
  lemma FirstTokenVerifies(events: seq<Event>, i: nat, j: nat, user: nat)
    requires i < j < |events| && events[i].Register? && events[i].user == user && user !in Before(events, i).users
    requires IdleFor(events, i + 1, j, user) && events[j].Verify? && events[j].user == user
    ensures IsVerified(Before(events, j + 1), user) <==>
      events[j].token == events[i].token && events[j].now <= events[i].now + 10800000
  {
    IdleStays(events, i + 1, j, user);
  }

  /** A verification takes effect at its time, and only for the user of the token. */
  lemma OnlyTheTokenVerifies(events: seq<Event>, j: nat, user: nat)
    requires j < |events| && !IsVerified(Before(events, j), user)
    ensures IsVerified(Before(events, j + 1), user) ==>
      && events[j].Verify? && events[j].user == user && user in Before(events, j).table.rows
      && Before(events, j).table.rows[user].token == events[j].token
      && Before(events, j + 1).table.rows[user].consumed == Some(events[j].now)
  {
  }
}
