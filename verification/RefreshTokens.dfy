/** Refresh tokens: logins open a chain, a refresh replaces the chain's last token, a logout revokes
    one. Refreshes find and rotate in two steps, so any number of them can interleave. */
module RefreshTokens {
  import opened Options
  import opened Text

  /** SHA-256, taken to be injective. */
  datatype Digest = Digest(raw: string)

  datatype Token = Token(user: nat, digest: Digest, expires: int, created: int,
                         revoked: Option<int>, lastUsed: Option<int>, replacedBy: Option<nat>)

  /** The table, its unique index on token_digest, and the last id the auto-increment gave out. */
  datatype Store = Store(tokens: map<nat, Token>, byDigest: map<Digest, nat>, lastId: nat)

  const EMPTY := Store(map[], map[], 0)

  predicate Active(t: Token, now: int) {
    t.revoked.None? && t.expires > now
  }

  function NewToken(user: nat, raw: string, now: int, ttl: int): Token {
    Token(user, Digest(raw), now + ttl, now, None, None, None)
  }

  // ---------------------------------------------------------------------------------------
  // The repository's transactions
  // ---------------------------------------------------------------------------------------

  /** An insert takes an id even when the unique index then refuses the row. */
  function Insert(s: Store, t: Token): (Store, Option<nat>) {
    var id := s.lastId + 1;
    if t.digest in s.byDigest then (s.(lastId := id), None)
    else (Store(s.tokens[id := t], s.byDigest[t.digest := id], id), Some(id))
  }

  function FindActive(s: Store, digest: Digest, now: int): Option<nat> {
    if digest in s.byDigest && s.byDigest[digest] in s.tokens && Active(s.tokens[s.byDigest[digest]], now)
    then Some(s.byDigest[digest])
    else None
  }

  datatype Answer = Issued(id: nat) | Rotated(from: nat, id: nat) | Found(id: nat) | Refused | Failed | Done

  function RotateTo(s: Store, current: nat, next: Token, now: int): (Store, Answer) {
    if current !in s.tokens || !Active(s.tokens[current], now) then (s, Refused)
    else
      var (inserted, id) := Insert(s, next);
      if id.None? then (inserted, Failed)
      else
        var replaced := s.tokens[current].(revoked := Some(now), lastUsed := Some(now), replacedBy := id);
        (inserted.(tokens := inserted.tokens[current := replaced]), Rotated(current, id.value))
  }

  function RevokeDigest(s: Store, digest: Digest, now: int): Store {
    if digest in s.byDigest && s.byDigest[digest] in s.tokens && s.tokens[s.byDigest[digest]].revoked.None? then
      var id := s.byDigest[digest];
      s.(tokens := s.tokens[id := s.tokens[id].(revoked := Some(now), lastUsed := Some(now))])
    else s
  }

  // ---------------------------------------------------------------------------------------
  // What every store keeps
  // ---------------------------------------------------------------------------------------

  ghost predicate Indexed(s: Store) {
    && (forall id :: id in s.tokens ==> id <= s.lastId)
    && (forall id :: id in s.tokens ==> s.tokens[id].digest in s.byDigest && s.byDigest[s.tokens[id].digest] == id)
    && (forall d :: d in s.byDigest ==> s.byDigest[d] in s.tokens && s.tokens[s.byDigest[d]].digest == d)
  }

  predicate SameSuccessor(s: Store, a: nat, b: nat)
    requires a in s.tokens && b in s.tokens
  {
    s.tokens[a].replacedBy.Some? && s.tokens[a].replacedBy == s.tokens[b].replacedBy
  }

  ghost predicate Linked(s: Store) {
    && (forall id ::
      id in s.tokens && s.tokens[id].replacedBy.Some? ==> LinkRight(s, id, s.tokens[id].replacedBy.value))
    && (forall a, b :: a in s.tokens && b in s.tokens && SameSuccessor(s, a, b) ==> a == b)
  }

  /** A replaced token is revoked; its successor is younger and belongs to the same user. */
  ghost predicate LinkRight(s: Store, id: nat, next: nat)
    requires id in s.tokens
  {
    s.tokens[id].revoked.Some? && next in s.tokens && id < next && s.tokens[next].user == s.tokens[id].user
  }

  ghost predicate Valid(s: Store) {
    Indexed(s) && Linked(s)
  }

  /** A revoked token never changes again; an unrevoked one keeps its identity. */
  predicate TokenLater(a: Token, b: Token) {
    && (a.revoked.Some? ==> a == b)
    && b.user == a.user && b.digest == a.digest && b.expires == a.expires && b.created == a.created
  }

  ghost predicate Later(s: Store, t: Store) {
    && s.lastId <= t.lastId
    && (forall id :: id in s.tokens ==> id in t.tokens && TokenLater(s.tokens[id], t.tokens[id]))
    && (forall id :: id in t.tokens && id !in s.tokens ==> id > s.lastId)
  }

  lemma InsertIndexed(s: Store, t: Token)
    requires Indexed(s)
    ensures Indexed(Insert(s, t).0) && Later(s, Insert(s, t).0)
  {
  }

  lemma InsertLinked(s: Store, t: Token)
    requires Valid(s) && t.replacedBy.None?
    ensures Linked(Insert(s, t).0)
  {
    var u := Insert(s, t).0;
    assert forall a :: a in s.tokens ==> a in u.tokens && u.tokens[a] == s.tokens[a];
    forall a | a in u.tokens && u.tokens[a].replacedBy.Some?
      ensures LinkRight(u, a, u.tokens[a].replacedBy.value)
    {
      assert LinkRight(s, a, s.tokens[a].replacedBy.value);
    }
    forall a, b | a in u.tokens && b in u.tokens && SameSuccessor(u, a, b)
      ensures a == b
    {
      assert SameSuccessor(s, a, b);
    }
  }

  lemma InsertValid(s: Store, t: Token)
    requires Valid(s) && t.replacedBy.None?
    ensures Valid(Insert(s, t).0) && Later(s, Insert(s, t).0)
  {
    InsertIndexed(s, t);
    InsertLinked(s, t);
  }

  /** Revoking a row in place. */
  lemma ReplaceIndexed(s: Store, id: nat, t: Token)
    requires Indexed(s) && id in s.tokens && s.tokens[id].revoked.None? && TokenLater(s.tokens[id], t)
    ensures Indexed(s.(tokens := s.tokens[id := t])) && Later(s, s.(tokens := s.tokens[id := t]))
  {
  }

  lemma ReplaceLinked(s: Store, id: nat, t: Token)
    requires Linked(s) && id in s.tokens && TokenLater(s.tokens[id], t) && t.revoked.Some?
    requires t.replacedBy.Some? ==>
      && t.replacedBy.value in s.tokens && id < t.replacedBy.value && s.tokens[t.replacedBy.value].user == t.user
      && forall a :: a in s.tokens ==> s.tokens[a].replacedBy != t.replacedBy
    ensures Linked(s.(tokens := s.tokens[id := t]))
  {
    var u := s.(tokens := s.tokens[id := t]);
    forall a | a in u.tokens && u.tokens[a].replacedBy.Some?
      ensures LinkRight(u, a, u.tokens[a].replacedBy.value)
    {
      if a != id {
        assert LinkRight(s, a, s.tokens[a].replacedBy.value);
      }
    }
    forall a, b | a in u.tokens && b in u.tokens && SameSuccessor(u, a, b)
      ensures a == b
    {
      if a != id && b != id {
        assert SameSuccessor(s, a, b);
      }
    }
  }

  lemma LaterTransitive(a: Store, b: Store, c: Store)
    requires Later(a, b) && Later(b, c)
    ensures Later(a, c)
  {
  }

  /** No row names an id the table has not given out... */
  lemma NoSuccessorYet(s: Store, id: nat)
    requires Valid(s) && id > s.lastId
    ensures forall a :: a in s.tokens ==> s.tokens[a].replacedBy != Some(id)
  {
    forall a | a in s.tokens && s.tokens[a].replacedBy.Some?
      ensures s.tokens[a].replacedBy.value <= s.lastId
    {
      assert LinkRight(s, a, s.tokens[a].replacedBy.value);
    }
  }

  /** ... and an unrevoked row names none. */
  lemma NotReplaced(s: Store, id: nat)
    requires Valid(s) && id in s.tokens && s.tokens[id].revoked.None?
    ensures s.tokens[id].replacedBy.None?
  {
    assert s.tokens[id].replacedBy.Some? ==> LinkRight(s, id, s.tokens[id].replacedBy.value);
  }

  lemma RotateValid(s: Store, current: nat, next: Token, now: int)
    requires Valid(s) && next.replacedBy.None? && (current in s.tokens ==> s.tokens[current].user == next.user)
    ensures Valid(RotateTo(s, current, next, now).0) && Later(s, RotateTo(s, current, next, now).0)
  {
    InsertValid(s, next);
    var (inserted, id) := Insert(s, next);
    if current in s.tokens && Active(s.tokens[current], now) && id.Some? {
      var replaced := s.tokens[current].(revoked := Some(now), lastUsed := Some(now), replacedBy := id);
      NoSuccessorYet(s, id.value);
      ReplaceIndexed(inserted, current, replaced);
      ReplaceLinked(inserted, current, replaced);
      LaterTransitive(s, inserted, RotateTo(s, current, next, now).0);
    }
  }

  lemma RevokeValid(s: Store, digest: Digest, now: int)
    requires Valid(s)
    ensures Valid(RevokeDigest(s, digest, now)) && Later(s, RevokeDigest(s, digest, now))
  {
    if digest in s.byDigest && s.tokens[s.byDigest[digest]].revoked.None? {
      var id := s.byDigest[digest];
      NotReplaced(s, id);
      ReplaceIndexed(s, id, s.tokens[id].(revoked := Some(now), lastUsed := Some(now)));
      ReplaceLinked(s, id, s.tokens[id].(revoked := Some(now), lastUsed := Some(now)));
    }
  }

  // ---------------------------------------------------------------------------------------
  // The protocol
  // ---------------------------------------------------------------------------------------

  /** What a refresh holds between finding its token and rotating it. */
  datatype Pending = Pending(current: nat, user: nat, now: int)

  datatype System = System(store: Store, pending: map<nat, Pending>)

  const INITIAL := System(EMPTY, map[])

  /** One database step of a request. A failed step leaves no event, except that it may use up an id. */
  datatype Event =
    | Login(user: nat, raw: string, now: int, ttl: int)
    | Find(request: nat, raw: string, now: int)
    | Rotate(request: nat, raw: string, ttl: int)
    | Logout(raw: string, now: int)
    | UndoneInsert

  function Take(s: System, e: Event): (System, Answer) {
    match e
    case Login(user, raw, now, ttl) =>
      var (store, id) := Insert(s.store, NewToken(user, raw, now, ttl));
      (s.(store := store), if id.Some? then Issued(id.value) else Failed)
    case Find(request, raw, now) =>
      var presented := Trim(raw);
      var found := FindActive(s.store, Digest(presented), now);
      if presented == "" || found.None? || found.value !in s.store.tokens then (s, Refused)
      else
        var p := Pending(found.value, s.store.tokens[found.value].user, now);
        (s.(pending := s.pending[request := p]), Found(found.value))
    case Rotate(request, raw, ttl) =>
      if request !in s.pending then (s, Refused)
      else
        var p := s.pending[request];
        var (store, answer) := RotateTo(s.store, p.current, NewToken(p.user, raw, p.now, ttl), p.now);
        (System(store, s.pending - {request}), answer)
    case Logout(raw, now) =>
      if Trim(raw) == "" then (s, Done) else (s.(store := RevokeDigest(s.store, Digest(Trim(raw)), now)), Done)
    case UndoneInsert =>
      (s.(store := s.store.(lastId := s.store.lastId + 1)), Failed)
  }

  /** The system before event `i`. */
  function Before(events: seq<Event>, i: nat): System
    requires i <= |events|
    decreases i
  {
    if i == 0 then INITIAL else Take(Before(events, i - 1), events[i - 1]).0
  }

  function AnswerTo(events: seq<Event>, i: nat): Answer
    requires i < |events|
  {
    Take(Before(events, i), events[i]).1
  }

  ghost predicate SystemValid(s: System) {
    && Valid(s.store)
    && forall r :: r in s.pending ==>
         s.pending[r].current in s.store.tokens && s.store.tokens[s.pending[r].current].user == s.pending[r].user
  }

  lemma TakeValid(s: System, e: Event)
    requires SystemValid(s)
    ensures SystemValid(Take(s, e).0) && Later(s.store, Take(s, e).0.store)
  {
    match e
    case Login(user, raw, now, ttl) =>
      InsertValid(s.store, NewToken(user, raw, now, ttl));
    case Find(_, _, _) =>
    case Rotate(request, raw, ttl) =>
      if request in s.pending {
        var p := s.pending[request];
        RotateValid(s.store, p.current, NewToken(p.user, raw, p.now, ttl), p.now);
      }
    case Logout(raw, now) =>
      RevokeValid(s.store, Digest(Trim(raw)), now);
    case UndoneInsert =>
  }

  /** In every interleaving: replaced tokens are revoked, successors are younger, of the same user,
      and never shared. */
  lemma {:induction false} RunValid(events: seq<Event>, i: nat)
    requires i <= |events|
    ensures SystemValid(Before(events, i))
  {
    if i > 0 {
      RunValid(events, i - 1);
      TakeValid(Before(events, i - 1), events[i - 1]);
    }
  }

  /** Nothing is undone later: tokens stay, and a revoked one stays exactly as it is. */
  lemma {:induction false} RunLater(events: seq<Event>, i: nat, j: nat)
    requires i <= j <= |events|
    ensures Later(Before(events, i).store, Before(events, j).store)
    decreases j
  {
    if i < j {
      RunLater(events, i, j - 1);
      RunValid(events, j - 1);
      TakeValid(Before(events, j - 1), events[j - 1]);
    }
  }

  /** What a rotation does to the token it replaces. */
  predicate Replaces(s: Store, t: Store, from: nat, id: nat) {
    && from in s.tokens && s.tokens[from].revoked.None? && from in t.tokens && t.tokens[from].revoked.Some?
    && from <= s.lastId && id == s.lastId + 1 && t.lastId == id
  }

  lemma RotationReplaces(s: System, e: Event)
    requires SystemValid(s) && Take(s, e).1.Rotated?
    ensures Replaces(s.store, Take(s, e).0.store, Take(s, e).1.from, Take(s, e).1.id)
  {
  }

  lemma RotationAt(events: seq<Event>, i: nat)
    requires i < |events| && AnswerTo(events, i).Rotated?
    ensures
      Replaces(Before(events, i).store, Before(events, i + 1).store, AnswerTo(events, i).from, AnswerTo(events, i).id)
  {
    RunValid(events, i);
    RotationReplaces(Before(events, i), events[i]);
  }

  lemma ReplacedOnce(s: Store, t: Store, u: Store, from: nat, id: nat, v: Store, again: nat, other: nat)
    requires Replaces(s, t, from, id) && Later(t, u) && Replaces(u, v, again, other)
    ensures from != again && from < id < other
  {
  }

  /** Successor ids strictly increase over the run, and no token is replaced twice, however the
      refreshes that found it interleave. */
  lemma RotatedAtMostOnce(events: seq<Event>, i: nat, j: nat)
    requires i < j < |events| && AnswerTo(events, i).Rotated? && AnswerTo(events, j).Rotated?
    ensures AnswerTo(events, i).from != AnswerTo(events, j).from
    ensures AnswerTo(events, i).from < AnswerTo(events, i).id < AnswerTo(events, j).id
  {
    RotationAt(events, i);
    RotationAt(events, j);
    RunLater(events, i + 1, j);
    ReplacedOnce(Before(events, i).store, Before(events, i + 1).store, Before(events, j).store,
                 AnswerTo(events, i).from, AnswerTo(events, i).id,
                 Before(events, j + 1).store, AnswerTo(events, j).from, AnswerTo(events, j).id);
  }

  /** What a pending refresh knows: its token was active when `e` found it in `s`. */
  predicate Presented(s: Store, e: Event, request: nat, p: Pending) {
    && e.Find? && e.request == request && p.now == e.now && p.current in s.tokens
    && s.tokens[p.current].digest == Digest(Trim(e.raw)) && Active(s.tokens[p.current], p.now)
  }

  lemma FindPresented(s: System, e: Event, request: nat)
    requires SystemValid(s) && request in Take(s, e).0.pending
    ensures (request in s.pending && s.pending[request] == Take(s, e).0.pending[request])
         || Presented(s.store, e, request, Take(s, e).0.pending[request])
  {
  }

  /** A refresh only replaces a token that it presented, at a time when that token was active. */
  lemma {:induction false} PendingWasPresented(events: seq<Event>, j: nat, request: nat) returns (i: nat)
    requires j <= |events| && request in Before(events, j).pending
    ensures i < j && Presented(Before(events, i).store, events[i], request, Before(events, j).pending[request])
    decreases j
  {
    RunValid(events, j - 1);
    var s := Before(events, j - 1);
    assert Before(events, j) == Take(s, events[j - 1]).0;
    FindPresented(s, events[j - 1], request);
    if Presented(s.store, events[j - 1], request, Before(events, j).pending[request]) {
      i := j - 1;
    } else {
      i := PendingWasPresented(events, j - 1, request);
    }
  }

  // ---------------------------------------------------------------------------------------
  // Login chains
  // ---------------------------------------------------------------------------------------

  /** `b` is `a` or a replacement of it, in any number of rotations. */
  ghost predicate Leads(s: Store, a: nat, b: nat)
    requires Valid(s) && a in s.tokens
    decreases s.lastId - a
  {
    a == b || (s.tokens[a].replacedBy.Some? && Leads(s, s.tokens[a].replacedBy.value, b))
  }

  /** No token was replaced by this one. */
  ghost predicate IsFirst(s: Store, l: nat) {
    l in s.tokens && forall a :: a in s.tokens ==> s.tokens[a].replacedBy != Some(l)
  }

  /** A chain keeps one user and grows younger. */
  lemma {:induction false} ChainKeepsUser(s: Store, a: nat, b: nat)
    requires Valid(s) && a in s.tokens && Leads(s, a, b)
    ensures b in s.tokens && a <= b && s.tokens[b].user == s.tokens[a].user
    decreases s.lastId - a
  {
    if a != b {
      ChainKeepsUser(s, s.tokens[a].replacedBy.value, b);
    }
  }

  /** Each login chain has at most one unrevoked token. */
  lemma {:induction false} OneUnrevoked(s: Store, l: nat, a: nat, b: nat)
    requires Valid(s) && l in s.tokens && Leads(s, l, a) && Leads(s, l, b)
    requires a in s.tokens && b in s.tokens && s.tokens[a].revoked.None? && s.tokens[b].revoked.None?
    ensures a == b
    decreases s.lastId - l
  {
    if l != a && l != b {
      OneUnrevoked(s, s.tokens[l].replacedBy.value, a, b);
    }
  }

  lemma {:induction false} LeadsOn(s: Store, a: nat, b: nat, c: nat)
    requires Valid(s) && a in s.tokens && Leads(s, a, b) && b in s.tokens && s.tokens[b].replacedBy == Some(c)
    ensures Leads(s, a, c)
    decreases s.lastId - a
  {
    if a != b {
      LeadsOn(s, s.tokens[a].replacedBy.value, b, c);
    } else {
      assert Leads(s, c, c);
    }
  }

  /** Every token lies on the chain of a first one... */
  lemma {:induction false} HasFirst(s: Store, b: nat) returns (l: nat)
    requires Valid(s) && b in s.tokens
    ensures IsFirst(s, l) && Leads(s, l, b)
    decreases b
  {
    if a :| a in s.tokens && s.tokens[a].replacedBy == Some(b) {
      assert LinkRight(s, a, b);
      l := HasFirst(s, a);
      LeadsOn(s, l, a, b);
    } else {
      l := b;
    }
  }

  lemma {:induction false} StepBack(s: Store, a: nat, b: nat) returns (c: nat)
    requires Valid(s) && a in s.tokens && a != b && Leads(s, a, b)
    ensures c in s.tokens && s.tokens[c].replacedBy == Some(b) && Leads(s, a, c)
    decreases s.lastId - a
  {
    var next := s.tokens[a].replacedBy.value;
    if next == b {
      c := a;
    } else {
      c := StepBack(s, next, b);
    }
  }

  /** ... and of only one. */
  lemma {:induction false} FirstUnique(s: Store, l: nat, m: nat, b: nat)
    requires Valid(s) && IsFirst(s, l) && IsFirst(s, m) && Leads(s, l, b) && Leads(s, m, b)
    ensures l == m
    decreases b
  {
    if l != b && m != b {
      var c := StepBack(s, l, b);
      var d := StepBack(s, m, b);
      assert c == d;
      assert LinkRight(s, c, b);
      FirstUnique(s, l, m, c);
    } else if l != b {
      var c := StepBack(s, l, b);
    } else if m != b {
      var d := StepBack(s, m, b);
    }
  }

  lemma InsertFirst(s: Store, t: Token, l: nat)
    requires Valid(s) && t.replacedBy.None?
    ensures IsFirst(Insert(s, t).0, l) <==> IsFirst(s, l) || Insert(s, t).1 == Some(l)
  {
    NoSuccessorYet(s, s.lastId + 1);
    var id := s.lastId + 1;
    if t.digest !in s.byDigest {
      var u := Insert(s, t).0;
      assert u.tokens == s.tokens[id := t] && id !in s.tokens;
      assert forall a :: a in s.tokens ==> a in u.tokens && u.tokens[a] == s.tokens[a];
    }
  }

  lemma RotateFirst(s: Store, current: nat, next: Token, now: int, l: nat)
    requires Valid(s) && next.replacedBy.None?
    ensures IsFirst(RotateTo(s, current, next, now).0, l) <==> IsFirst(s, l)
  {
    InsertFirst(s, next, l);
    var inserted := Insert(s, next).0;
    var (t, answer) := RotateTo(s, current, next, now);
    if answer.Rotated? {
      assert t.tokens[current].replacedBy == Some(answer.id);
      assert forall a :: a in inserted.tokens && a != current ==> t.tokens[a] == inserted.tokens[a];
      NotReplaced(s, current);
    }
  }

  lemma RevokeFirst(s: Store, digest: Digest, now: int, l: nat)
    requires Valid(s)
    ensures IsFirst(RevokeDigest(s, digest, now), l) <==> IsFirst(s, l)
  {
    var t := RevokeDigest(s, digest, now);
    assert forall a :: a in s.tokens ==> a in t.tokens && t.tokens[a].replacedBy == s.tokens[a].replacedBy;
  }

  lemma TakeFirst(s: System, e: Event, l: nat)
    requires SystemValid(s)
    ensures IsFirst(Take(s, e).0.store, l) <==> IsFirst(s.store, l) || LoginIssued(e, Take(s, e).1, l)
  {
    match e
    case Login(user, raw, now, ttl) =>
      InsertFirst(s.store, NewToken(user, raw, now, ttl), l);
    case Find(_, _, _) =>
    case Rotate(request, raw, ttl) =>
      if request in s.pending {
        var p := s.pending[request];
        RotateFirst(s.store, p.current, NewToken(p.user, raw, p.now, ttl), p.now, l);
      }
    case Logout(raw, now) =>
      RevokeFirst(s.store, Digest(Trim(raw)), now, l);
    case UndoneInsert =>
  }

  predicate LoginIssued(e: Event, answer: Answer, l: nat) {
    e.Login? && answer == Issued(l)
  }

  /** Event `j` is a login that was given token `l`. */
  predicate LoginGot(events: seq<Event>, j: nat, l: nat)
    requires j < |events|
  {
    LoginIssued(events[j], AnswerTo(events, j), l)
  }

  lemma FirstStep(events: seq<Event>, i: nat, l: nat)
    requires i < |events|
    ensures IsFirst(Before(events, i + 1).store, l) <==> IsFirst(Before(events, i).store, l) || LoginGot(events, i, l)
  {
    RunValid(events, i);
    TakeFirst(Before(events, i), events[i], l);
  }

  /** A login before event `i` was given token `l`. */
  ghost predicate LoginGotBefore(events: seq<Event>, i: nat, l: nat)
    requires i <= |events|
  {
    exists j: nat :: j < i && LoginGot(events, j, l)
  }

  lemma GotNext(events: seq<Event>, i: nat, l: nat)
    requires i < |events|
    ensures LoginGotBefore(events, i + 1, l) <==> LoginGotBefore(events, i, l) || LoginGot(events, i, l)
  {
  }

  /** The first tokens of chains are exactly the ones logins were given. */
  lemma {:induction false} FirstAreLogins(events: seq<Event>, i: nat, l: nat)
    requires i <= |events|
    ensures IsFirst(Before(events, i).store, l) <==> LoginGotBefore(events, i, l)
  {
    if i > 0 {
      FirstAreLogins(events, i - 1, l);
      FirstStep(events, i - 1, l);
      GotNext(events, i - 1, l);
    }
  }

  // ---------------------------------------------------------------------------------------
  // Logout
  // ---------------------------------------------------------------------------------------

  /** No token of the chain from `l` is unrevoked. */
  ghost predicate Ended(s: Store, l: nat)
    requires Valid(s) && l in s.tokens
  {
    forall b :: b in s.tokens && Leads(s, l, b) ==> s.tokens[b].revoked.Some?
  }

  /** Logging out with a token that is still unrevoked ends its whole login chain. */
  lemma LogoutEndsChain(s: Store, l: nat, id: nat, now: int)
    requires Valid(s) && l in s.tokens && Leads(s, l, id) && id in s.tokens && s.tokens[id].revoked.None?
    ensures var t := RevokeDigest(s, s.tokens[id].digest, now);
      Valid(t) && l in t.tokens && Ended(t, l)
  {
    var t := RevokeDigest(s, s.tokens[id].digest, now);
    RevokeValid(s, s.tokens[id].digest, now);
    forall b | b in t.tokens && Leads(t, l, b)
      ensures t.tokens[b].revoked.Some?
    {
      SameLinks(s, t, l, b);
      if s.tokens[b].revoked.None? {
        OneUnrevoked(s, l, id, b);
      }
    }
  }

  lemma {:induction false} SameLinks(s: Store, t: Store, l: nat, b: nat)
    requires Valid(s) && Valid(t) && l in s.tokens && l in t.tokens && Leads(t, l, b)
    requires s.tokens.Keys == t.tokens.Keys && s.lastId == t.lastId
    requires forall id :: id in s.tokens ==> t.tokens[id].replacedBy == s.tokens[id].replacedBy
    ensures Leads(s, l, b)
    decreases s.lastId - l
  {
    if l != b {
      SameLinks(s, t, s.tokens[l].replacedBy.value, b);
    }
  }

  /** The chain of an ended login is frozen. */
  lemma {:induction false} EndedFrozen(s: Store, t: Store, l: nat, b: nat)
    requires Valid(s) && Valid(t) && Later(s, t) && l in s.tokens && Ended(s, l) && Leads(t, l, b)
    ensures Leads(s, l, b)
    decreases s.lastId - l
  {
    assert Leads(s, l, l);
    if l != b {
      var next := s.tokens[l].replacedBy.value;
      forall c | c in s.tokens && Leads(s, next, c)
        ensures s.tokens[c].revoked.Some?
      {
        assert Leads(s, l, c);
      }
      EndedFrozen(s, t, next, b);
    }
  }

  /** Once a login chain has no unrevoked token it never has one again: whatever refreshes were under
      way, no token of that session works any more. */
  lemma EndedForever(events: seq<Event>, i: nat, j: nat, l: nat)
    requires i <= j <= |events|
    requires Valid(Before(events, i).store) && l in Before(events, i).store.tokens && Ended(Before(events, i).store, l)
    ensures Valid(Before(events, j).store) && l in Before(events, j).store.tokens && Ended(Before(events, j).store, l)
  {
    RunValid(events, j);
    RunLater(events, i, j);
    var s, t := Before(events, i).store, Before(events, j).store;
    forall b | b in t.tokens && Leads(t, l, b)
      ensures t.tokens[b].revoked.Some?
    {
      EndedFrozen(s, t, l, b);
      ChainKeepsUser(s, l, b);
    }
  }

  /** No refresh extends an ended chain, not even one that had found its token before the logout. */
  lemma NoRotationAfterEnd(events: seq<Event>, i: nat, j: nat, l: nat)
    requires i <= j < |events| && AnswerTo(events, j).Rotated?
    requires Valid(Before(events, i).store) && l in Before(events, i).store.tokens && Ended(Before(events, i).store, l)
    ensures Valid(Before(events, j).store) && l in Before(events, j).store.tokens
    ensures !Leads(Before(events, j).store, l, AnswerTo(events, j).from)
  {
    EndedForever(events, i, j, l);
  }

  // ---------------------------------------------------------------------------------------
  // The code
  // ---------------------------------------------------------------------------------------

  class RefreshTokenRepository {
    var tokens: map<nat, Token>
    var byDigest: map<Digest, nat>
    var lastId: nat

    function Contents(): Store
      reads this
    {
      Store(tokens, byDigest, lastId)
    }

    constructor ()
      ensures Contents() == EMPTY
    {
      tokens, byDigest, lastId := map[], map[], 0;
    }

    method CreateRefreshToken(t: Token) returns (id: Option<nat>)
      modifies this
      ensures (Contents(), id) == Insert(old(Contents()), t)
      ensures id.Some? <==> t.digest !in old(byDigest)
      ensures id.Some? ==> id.value == old(lastId) + 1 && tokens == old(tokens)[id.value := t]
      ensures id.None? ==> tokens == old(tokens)
    {
      lastId := lastId + 1;
      if t.digest in byDigest {
        return None;
      }
      tokens := tokens[lastId := t];
      byDigest := byDigest[t.digest := lastId];
      id := Some(lastId);
    }

    method FindActiveRefreshTokenByDigest(digest: Digest, now: int) returns (id: Option<nat>)
      requires Valid(Contents())
      ensures id == FindActive(Contents(), digest, now)
      ensures id.Some? ==> id.value in tokens && tokens[id.value].digest == digest && Active(tokens[id.value], now)
      ensures id.None? ==> forall i :: i in tokens && Active(tokens[i], now) ==> tokens[i].digest != digest
    {
      if digest !in byDigest {
        return None;
      }
      var found := byDigest[digest];
      id := if tokens[found].revoked.None? && tokens[found].expires > now then Some(found) else None;
    }

    /** A transaction: either both rows change or none. */
    method RotateRefreshToken(current: nat, next: Token, now: int) returns (answer: Answer)
      modifies this
      ensures (Contents(), answer) == RotateTo(old(Contents()), current, next, now)
      ensures !answer.Rotated? ==> tokens == old(tokens)
    {
      if current !in tokens || !Active(tokens[current], now) {
        return Refused;
      }
      var row := tokens[current];
      var id := CreateRefreshToken(next);
      if id.None? {
        return Failed;
      }
      tokens := tokens[current := row.(revoked := Some(now), lastUsed := Some(now), replacedBy := id)];
      answer := Rotated(current, id.value);
    }

    method RevokeRefreshTokenByDigest(digest: Digest, now: int)
      requires Valid(Contents())
      modifies this
      ensures Contents() == RevokeDigest(old(Contents()), digest, now)
      ensures forall i ::
        i in old(tokens) && old(tokens)[i].digest != digest ==> i in tokens && tokens[i] == old(tokens)[i]
    {
      if digest in byDigest && tokens[byDigest[digest]].revoked.None? {
        var id := byDigest[digest];
        tokens := tokens[id := tokens[id].(revoked := Some(now), lastUsed := Some(now))];
      }
    }
  }

  /** The use case. `pending` holds the local variables of the refreshes under way. */
  class SessionTokens {
    const repo: RefreshTokenRepository
    var pending: map<nat, Pending>

    function State(): System
      reads this, repo
    {
      System(repo.Contents(), pending)
    }

    constructor (r: RefreshTokenRepository)
      requires r.Contents() == EMPTY
      ensures repo == r && State() == INITIAL
    {
      repo, pending := r, map[];
    }

    method LoginTokens(user: nat, raw: string, now: int, ttl: int) returns (answer: Answer)
      modifies repo
      ensures (State(), answer) == Take(old(State()), Login(user, raw, now, ttl))
    {
      var id := repo.CreateRefreshToken(NewToken(user, raw, now, ttl));
      answer := if id.Some? then Issued(id.value) else Failed;
    }

    /** The first half of Refresh, up to the rotation. */
    method FindCurrent(request: nat, raw: string, now: int) returns (answer: Answer)
      requires SystemValid(State())
      modifies this
      ensures (State(), answer) == Take(old(State()), Find(request, raw, now))
    {
      var presented := Trim(raw);
      if presented == "" {
        return Refused;
      }
      var found := repo.FindActiveRefreshTokenByDigest(Digest(presented), now);
      if found.None? {
        return Refused;
      }
      pending := pending[request := Pending(found.value, repo.tokens[found.value].user, now)];
      answer := Found(found.value);
    }

    /** The second half of Refresh. */
    method RotateCurrent(request: nat, raw: string, ttl: int) returns (answer: Answer)
      modifies this, repo
      ensures (State(), answer) == Take(old(State()), Rotate(request, raw, ttl))
    {
      if request !in pending {
        return Refused;
      }
      var p := pending[request];
      pending := pending - {request};
      answer := repo.RotateRefreshToken(p.current, NewToken(p.user, raw, p.now, ttl), p.now);
    }

    method EndSession(raw: string, now: int)
      requires SystemValid(State())
      modifies repo
      ensures State() == Take(old(State()), Logout(raw, now)).0
    {
      var presented := Trim(raw);
      if presented != "" {
        repo.RevokeRefreshTokenByDigest(Digest(presented), now);
      }
    }
  }
}
