/** What refresh tokens are good for: a token that was issued is found until it expires or is revoked,
    and a refresh that has found one can rotate it. Everything is said of the events and their answers. */
module TokenLifetimes {
  import opened Options
  import opened Text
  import opened RefreshTokens

  /** Event `k` revokes token `id`, whose secret is `raw`: a rotation of it, or a logout with it. */
  predicate Revokes(events: seq<Event>, k: nat, id: nat, raw: string)
    requires k < |events|
  {
    || (AnswerTo(events, k).Rotated? && AnswerTo(events, k).from == id)
    || (events[k].Logout? && Trim(events[k].raw) == raw)
  }

  ghost predicate RevokedBetween(events: seq<Event>, i: nat, j: nat, id: nat, raw: string)
    requires j <= |events|
  {
    exists k :: i < k < j && Revokes(events, k, id, raw)
  }

  /** Token `id` before event `j`: of this user, with this secret and expiry, and unrevoked exactly if
      nothing since event `i` has revoked it. */
  ghost predicate Stands(events: seq<Event>, i: nat, j: nat, id: nat, user: nat, raw: string, created: int,
                         expires: int)
    requires j <= |events|
  {
    var s := Before(events, j).store;
    && id in s.tokens
    && s.tokens[id].user == user && s.tokens[id].digest == Digest(raw)
    && s.tokens[id].created == created && s.tokens[id].expires == expires
    && (s.tokens[id].revoked.None? <==> !RevokedBetween(events, i, j, id, raw))
  }

  /** The token stays, and is unrevoked exactly if it was and this is no rotation of it nor a logout with
      it. */
  ghost predicate StepRight(s: System, e: Event, id: nat)
    requires id in s.store.tokens
  {
    var (t, a) := Take(s, e);
    var token := s.store.tokens[id];
    && id in t.store.tokens && TokenLater(token, t.store.tokens[id])
    && (t.store.tokens[id].revoked.None? <==>
          && token.revoked.None? && !(a.Rotated? && a.from == id)
          && !(e.Logout? && Trim(e.raw) != "" && token.digest == Digest(Trim(e.raw))))
  }

  lemma RotateRevokes(s: System, e: Event, id: nat)
    requires SystemValid(s) && id in s.store.tokens && e.Rotate?
    ensures StepRight(s, e, id)
  {
  }

  lemma LogoutRevokes(s: System, e: Event, id: nat)
    requires SystemValid(s) && id in s.store.tokens && e.Logout?
    ensures StepRight(s, e, id)
  {
  }

  /** One event and one token. */
  lemma StepRevokes(s: System, e: Event, id: nat)
    requires SystemValid(s) && id in s.store.tokens
    ensures StepRight(s, e, id)
  {
    if e.Rotate? {
      RotateRevokes(s, e, id);
    } else if e.Logout? {
      LogoutRevokes(s, e, id);
    }
  }

  lemma {:induction false} StaysStanding(events: seq<Event>, i: nat, j: nat, id: nat, user: nat, raw: string,
                                         created: int, expires: int)
    requires i < j <= |events| && raw != ""
    requires Stands(events, i, i + 1, id, user, raw, created, expires)
    ensures Stands(events, i, j, id, user, raw, created, expires)
    decreases j
  {
    if i + 1 < j {
      StaysStanding(events, i, j - 1, id, user, raw, created, expires);
      RunValid(events, j - 1);
      StepRevokes(Before(events, j - 1), events[j - 1], id);
      assert RevokedBetween(events, i, j, id, raw) <==>
        RevokedBetween(events, i, j - 1, id, raw) || Revokes(events, j - 1, id, raw);
    }
  }

  /** A login issues an unrevoked token of the user that lives for `ttl`. */
  lemma LoginStands(events: seq<Event>, i: nat)
    requires i < |events| && events[i].Login? && AnswerTo(events, i).Issued?
    ensures var e := events[i];
      Stands(events, i, i + 1, AnswerTo(events, i).id, e.user, e.raw, e.now, e.now + e.ttl)
  {
  }

  /** What a presentation of the secret is answered: the token is found exactly until it expires or is
      revoked. */
  predicate AnsweredUntil(events: seq<Event>, j: nat, id: nat, expires: int, revoked: bool)
    requires j < |events| && events[j].Find?
  {
    AnswerTo(events, j) == if events[j].now < expires && !revoked then Found(id) else Refused
  }

  lemma StandingIsFound(events: seq<Event>, i: nat, j: nat, id: nat, user: nat, raw: string, created: int, expires: int)
    requires i < j < |events| && raw != "" && Stands(events, i, j, id, user, raw, created, expires)
    requires events[j].Find? && Trim(events[j].raw) == raw
    ensures AnsweredUntil(events, j, id, expires, RevokedBetween(events, i, j, id, raw))
  {
    RunValid(events, j);
  }

  /** A token issued by a login is found whenever its secret is presented before it expires and before
      anything revokes it, and refused otherwise. */
  lemma LoginTokenLives(events: seq<Event>, i: nat, j: nat)
    requires i < j < |events| && events[i].Login? && AnswerTo(events, i).Issued?
    requires events[i].raw != "" && events[j].Find? && Trim(events[j].raw) == events[i].raw
    ensures var e, id := events[i], AnswerTo(events, i).id;
      AnsweredUntil(events, j, id, e.now + e.ttl, RevokedBetween(events, i, j, id, e.raw))
  {
    var e, id := events[i], AnswerTo(events, i).id;
    LoginStands(events, i);
    StaysStanding(events, i, j, id, e.user, e.raw, e.now, e.now + e.ttl);
    StandingIsFound(events, i, j, id, e.user, e.raw, e.now, e.now + e.ttl);
  }

  // ---------------------------------------------------------------------------------------
  // Rotations
  // ---------------------------------------------------------------------------------------

  /** Between `f` and `j` the request neither finds a token again nor rotates. */
  ghost predicate Quiet(events: seq<Event>, f: nat, j: nat, request: nat)
    requires j <= |events|
  {
    forall k :: f < k < j ==>
      && !(events[k].Rotate? && events[k].request == request)
      && !(events[k].Find? && events[k].request == request && AnswerTo(events, k).Found?)
  }

  /** Event `f` found the token that the rotation at `j` is about. */
  ghost predicate FoundFor(events: seq<Event>, f: nat, j: nat) {
    && f < j < |events| && events[f].Find? && AnswerTo(events, f).Found?
    && events[j].Rotate? && events[j].request == events[f].request && Quiet(events, f, j, events[f].request)
  }

  /** The request holds what it has found. */
  ghost predicate Holds(s: System, f: Event, id: nat) {
    && f.Find? && f.request in s.pending && s.pending[f.request].current == id && s.pending[f.request].now == f.now
    && id in s.store.tokens && s.pending[f.request].user == s.store.tokens[id].user
  }

  lemma StepHolds(s: System, e: Event, f: Event, id: nat)
    requires SystemValid(s) && Holds(s, f, id)
    requires !(e.Rotate? && e.request == f.request) && !(e.Find? && e.request == f.request && Take(s, e).1.Found?)
    ensures Holds(Take(s, e).0, f, id)
  {
    TakeValid(s, e);
  }

  lemma {:induction false} StillHolds(events: seq<Event>, f: nat, j: nat)
    requires f < j <= |events| && events[f].Find? && AnswerTo(events, f).Found?
    requires Quiet(events, f, j, events[f].request)
    ensures Holds(Before(events, j), events[f], AnswerTo(events, f).id)
    decreases j
  {
    RunValid(events, j - 1);
    if f < j - 1 {
      StillHolds(events, f, j - 1);
      StepHolds(Before(events, j - 1), events[j - 1], events[f], AnswerTo(events, f).id);
    }
  }

  /** The successor belongs to the user of the token it replaces and lives for `ttl` from the time of
      the refresh. */
  lemma SuccessorStands(events: seq<Event>, f: nat, j: nat)
    requires FoundFor(events, f, j) && AnswerTo(events, j).Rotated?
    ensures var e, id, t := events[j], AnswerTo(events, f).id, events[f].now;
      && AnswerTo(events, j).from == id && id in Before(events, j).store.tokens
      && Stands(events, j, j + 1, AnswerTo(events, j).id, Before(events, j).store.tokens[id].user, e.raw, t, t + e.ttl)
  {
    StillHolds(events, f, j);
    RunValid(events, j);
  }

  /** So a successor is found, too, exactly until it expires or is revoked. */
  lemma SuccessorLives(events: seq<Event>, f: nat, i: nat, j: nat)
    requires FoundFor(events, f, i) && AnswerTo(events, i).Rotated? && i < j < |events|
    requires events[i].raw != "" && events[j].Find? && Trim(events[j].raw) == events[i].raw
    ensures var id, expires := AnswerTo(events, i).id, events[f].now + events[i].ttl;
      AnsweredUntil(events, j, id, expires, RevokedBetween(events, i, j, id, events[i].raw))
  {
    var id, t := AnswerTo(events, i).id, events[f].now;
    SuccessorStands(events, f, i);
    var user := Before(events, i).store.tokens[AnswerTo(events, f).id].user;
    StaysStanding(events, i, j, id, user, events[i].raw, t, t + events[i].ttl);
    StandingIsFound(events, i, j, id, user, events[i].raw, t, t + events[i].ttl);
  }

  /** The secret has been given out by event `k`. */
  predicate GivesOut(events: seq<Event>, k: nat, raw: string)
    requires k < |events|
  {
    || (events[k].Login? && events[k].raw == raw && AnswerTo(events, k).Issued?)
    || (events[k].Rotate? && events[k].raw == raw && AnswerTo(events, k).Rotated?)
  }

  ghost predicate GivenOut(events: seq<Event>, j: nat, raw: string)
    requires j <= |events|
  {
    exists k :: 0 <= k < j && GivesOut(events, k, raw)
  }

  lemma StepGivesOut(s: System, e: Event, raw: string)
    requires SystemValid(s)
    ensures var (t, a) := Take(s, e);
      Digest(raw) in t.store.byDigest <==>
        || Digest(raw) in s.store.byDigest
        || (e.Login? && e.raw == raw && a.Issued?) || (e.Rotate? && e.raw == raw && a.Rotated?)
  {
  }

  /** The unique index has exactly the secrets given out. */
  lemma {:induction false} IndexedExactly(events: seq<Event>, j: nat, raw: string)
    requires j <= |events|
    ensures Digest(raw) in Before(events, j).store.byDigest <==> GivenOut(events, j, raw)
    decreases j
  {
    if j > 0 {
      IndexedExactly(events, j - 1, raw);
      RunValid(events, j - 1);
      StepGivesOut(Before(events, j - 1), events[j - 1], raw);
      assert GivenOut(events, j, raw) <==> GivenOut(events, j - 1, raw) || GivesOut(events, j - 1, raw);
    }
  }

  /** A login is answered with a token exactly when its secret is new. */
  lemma LoginSucceedsExactly(events: seq<Event>, j: nat)
    requires j < |events| && events[j].Login?
    ensures AnswerTo(events, j).Issued? <==> !GivenOut(events, j, events[j].raw)
  {
    IndexedExactly(events, j, events[j].raw);
  }

  /** A token that is found is unrevoked, and finding it does not change it. */
  lemma FoundStands(events: seq<Event>, f: nat)
    requires f < |events| && events[f].Find? && AnswerTo(events, f).Found?
    ensures var id := AnswerTo(events, f).id;
      && id in Before(events, f).store.tokens
      && var t := Before(events, f).store.tokens[id];
        Trim(events[f].raw) != "" && t.expires > events[f].now
        && Stands(events, f, f + 1, id, t.user, Trim(events[f].raw), t.created, t.expires)
  {
    RunValid(events, f);
  }

  /** A refresh that has found a token: its rotation is refused if the token has been revoked meanwhile,
      fails if the new secret is not new, and otherwise replaces the token. */
  lemma RotationAnswered(events: seq<Event>, f: nat, j: nat)
    requires FoundFor(events, f, j)
    ensures var id, raw := AnswerTo(events, f).id, Trim(events[f].raw);
      if RevokedBetween(events, f, j, id, raw) then AnswerTo(events, j) == Refused
      else if GivenOut(events, j, events[j].raw) then AnswerTo(events, j) == Failed
      else AnswerTo(events, j).Rotated? && AnswerTo(events, j).from == id
  {
    var id, raw := AnswerTo(events, f).id, Trim(events[f].raw);
    StillHolds(events, f, j);
    var t := Before(events, f).store.tokens;
    FoundStands(events, f);
    StaysStanding(events, f, j, id, t[id].user, raw, t[id].created, t[id].expires);
    IndexedExactly(events, j, events[j].raw);
  }

  // ---------------------------------------------------------------------------------------
  // What changes in the table
  // ---------------------------------------------------------------------------------------

  /** The tokens after event `j` are those before it, except for `id`. */
  ghost predicate OthersStay(events: seq<Event>, j: nat, id: nat)
    requires j < |events|
  {
    var s, t := Before(events, j).store.tokens, Before(events, j + 1).store.tokens;
    forall other :: other in s && other != id ==> other in t && t[other] == s[other]
  }

  /** A rotation revokes the token it replaces at the time of the refresh, names the successor in it, and
      changes no other token. */
  lemma RotationLeaves(events: seq<Event>, f: nat, j: nat)
    requires FoundFor(events, f, j) && AnswerTo(events, j).Rotated?
    ensures var id, next, now := AnswerTo(events, f).id, AnswerTo(events, j).id, events[f].now;
      var s, t := Before(events, j).store.tokens, Before(events, j + 1).store.tokens;
      && t.Keys == s.Keys + {next} && id in s && next !in s && OthersStay(events, j, id)
      && t[id] == s[id].(revoked := Some(now), lastUsed := Some(now), replacedBy := Some(next))
  {
    StillHolds(events, f, j);
    RunValid(events, j);
  }

  /** The tokens that a logout with this secret revokes: the one with the secret, if unrevoked. */
  predicate IsLoggedOut(token: Token, raw: string) {
    raw != "" && token.digest == Digest(raw) && token.revoked.None?
  }

  /** A logout revokes those at its time and changes nothing else. */
  lemma LogoutLeaves(events: seq<Event>, j: nat, id: nat)
    requires j < |events| && events[j].Logout?
    ensures var s, t := Before(events, j).store.tokens, Before(events, j + 1).store.tokens;
      && (id in s <==> id in t)
      && (id in s ==>
            t[id] == if IsLoggedOut(s[id], Trim(events[j].raw))
                     then s[id].(revoked := Some(events[j].now), lastUsed := Some(events[j].now))
                     else s[id])
  {
    RunValid(events, j);
  }
}
