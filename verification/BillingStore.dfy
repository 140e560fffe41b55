/** SaveIfAbsent of internal/billing/infrastructure/repository.go: one transaction inserts a billing
    with its line items; a caller that loses to the unique index looks the winner up afterwards. */
module BillingStore {
  import opened Options
  import opened LineItems

  /** user, vendor and billing number */
  type Identity = (nat, nat, string)

  datatype Billing = Billing(identity: Identity, emailId: nat, billingDate: Option<int>, lines: seq<LineItem>)

  datatype BillingRow = BillingRow(identity: Identity, emailId: nat, billingDate: Option<int>, summaryDate: int)

  /** `emails` holds received_at by email id and user; line items are keyed by billing and position. */
  datatype Db = Db(
    billings: map<nat, BillingRow>, lines: map<(nat, nat), LineItem>, nextId: nat, emails: map<(nat, nat), int>)

  // ---------------------------------------------------------------------------------------
  // The transaction
  // ---------------------------------------------------------------------------------------

  predicate HasInfiniteAmount(item: LineItem) {
    var n := Normalize(item);
    !IsEmpty(n) && n.amount == Some(NotFinite)
  }

  function SummaryDate(db: Db, b: Billing): Option<int> {
    if b.billingDate.Some? then b.billingDate
    else if (b.emailId, b.identity.0) in db.emails then Some(db.emails[(b.emailId, b.identity.0)])
    else None
  }

  predicate Taken(db: Db, identity: Identity) {
    exists id :: id in db.billings && db.billings[id].identity == identity
  }

  /** The rows for the line items: non-empty ones, at their position in the billing. */
  function LineRows(id: nat, items: seq<LineItem>): (rows: map<(nat, nat), LineItem>)
    ensures forall k :: k in rows <==> k.0 == id && k.1 < |items| && !IsEmpty(Normalize(items[k.1]))
    ensures forall k :: k in rows ==> rows[k] == Normalize(items[k.1])
  {
    if items == [] then map[]
    else
      var last := |items| - 1;
      var rows := LineRows(id, items[..last]);
      if IsEmpty(Normalize(items[last])) then rows else rows[(id, last) := Normalize(items[last])]
  }

  datatype Outcome = Created(id: nat) | DuplicateKey | Error

  /** `fault` is a database error anywhere in the transaction. Whatever is not created is rolled back. */
  function SaveOutcome(db: Db, b: Billing, fault: bool): Outcome {
    if fault || SummaryDate(db, b).None? then Error
    else if Taken(db, b.identity) then DuplicateKey
    else if exists i :: 0 <= i < |b.lines| && HasInfiniteAmount(b.lines[i]) then Error
    else Created(db.nextId)
  }

  function Transact(db: Db, b: Billing, fault: bool): Db {
    var outcome := SaveOutcome(db, b, fault);
    if !outcome.Created? then db
    else
      var row := BillingRow(b.identity, b.emailId, b.billingDate, SummaryDate(db, b).value);
      db.(billings := db.billings[outcome.id := row],
          lines := db.lines + LineRows(outcome.id, b.lines),
          nextId := db.nextId + 1)
  }

  ghost predicate Valid(db: Db) {
    && (forall id :: id in db.billings ==> id < db.nextId)
    && (forall k :: k in db.lines ==> k.0 in db.billings)
    && (forall id, other :: id in db.billings && other in db.billings ==>
          db.billings[id].identity == db.billings[other].identity ==> id == other)
  }

  /** Billings and line items are only added, and a billing keeps exactly the lines it has. */
  ghost predicate Grows(db: Db, later: Db) {
    && later.emails == db.emails
    && (forall id :: id in db.billings ==> id in later.billings && later.billings[id] == db.billings[id])
    && (forall k :: k in db.lines ==> k in later.lines && later.lines[k] == db.lines[k])
    && (forall k :: k in later.lines && k.0 in db.billings ==> k in db.lines)
  }

  /** The billing is stored under `id` with exactly its non-empty line items at their positions. */
  ghost predicate StoredWhole(db: Db, id: nat, b: Billing) {
    && id in db.billings && db.billings[id].identity == b.identity
    && (forall i: nat :: (id, i) in db.lines <==> i < |b.lines| && !IsEmpty(Normalize(b.lines[i])))
    && (forall i: nat :: (id, i) in db.lines ==> db.lines[(id, i)] == Normalize(b.lines[i]))
  }

  lemma TransactKeeps(db: Db, b: Billing, fault: bool)
    requires Valid(db)
    ensures var next := Transact(db, b, fault);
      && Valid(next) && Grows(db, next)
      && (SaveOutcome(db, b, fault).Created? ==> StoredWhole(next, db.nextId, b) && !Taken(db, b.identity))
      && (!SaveOutcome(db, b, fault).Created? ==> next == db)
  {
  }

  // ---------------------------------------------------------------------------------------
  // Histories of concurrent calls
  // ---------------------------------------------------------------------------------------

  /** `Save` is a caller's transaction; a caller that got a duplicate key then finds the billing. */
  datatype Event =
    | Save(caller: nat, billing: Billing, fault: bool)
    | Find(caller: nat, billing: Billing)

  function Commit(db: Db, e: Event): Db {
    if e.Save? then Transact(db, e.billing, e.fault) else db
  }

  function After(db: Db, events: seq<Event>): Db {
    if events == [] then db else Commit(After(db, events[..|events| - 1]), events[|events| - 1])
  }

  function Before(db: Db, events: seq<Event>, i: nat): Db
    requires i <= |events|
  {
    After(db, events[..i])
  }

  ghost predicate CreatedAt(db: Db, events: seq<Event>, i: nat, id: nat)
    requires i < |events|
  {
    events[i].Save? && SaveOutcome(Before(db, events, i), events[i].billing, events[i].fault) == Created(id)
  }

  ghost predicate LosesAt(db: Db, events: seq<Event>, i: nat)
    requires i < |events|
  {
    events[i].Save? && SaveOutcome(Before(db, events, i), events[i].billing, events[i].fault) == DuplicateKey
  }

  /** A caller looks a billing up only after losing the insert of it. */
  ghost predicate IsHistory(db: Db, events: seq<Event>) {
    forall j :: 0 <= j < |events| && events[j].Find? ==>
      exists i :: 0 <= i < j && events[i].Save? && LosesAt(db, events, i)
        && events[i].caller == events[j].caller && events[i].billing == events[j].billing
  }

  lemma {:induction false} HistoryValid(db: Db, events: seq<Event>, i: nat)
    requires Valid(db) && i <= |events|
    ensures Valid(Before(db, events, i))
  {
    if i > 0 {
      HistoryValid(db, events, i - 1);
      assert events[..i][..i - 1] == events[..i - 1];
      if events[i - 1].Save? {
        TransactKeeps(Before(db, events, i - 1), events[i - 1].billing, events[i - 1].fault);
      }
    }
  }

  lemma {:induction false} HistoryGrows(db: Db, events: seq<Event>, i: nat, j: nat)
    requires Valid(db) && i <= j <= |events|
    ensures Grows(Before(db, events, i), Before(db, events, j))
    decreases j
  {
    if i < j {
      HistoryGrows(db, events, i, j - 1);
      HistoryValid(db, events, j - 1);
      assert events[..j][..j - 1] == events[..j - 1];
      if events[j - 1].Save? {
        TransactKeeps(Before(db, events, j - 1), events[j - 1].billing, events[j - 1].fault);
      }
    }
  }

  /** A created billing stays, with exactly its non-empty line items, through the whole history. */
  lemma CreatedStaysWhole(db: Db, events: seq<Event>, i: nat, j: nat, id: nat)
    requires Valid(db) && i < j <= |events| && CreatedAt(db, events, i, id)
    ensures StoredWhole(Before(db, events, j), id, events[i].billing)
  {
    HistoryValid(db, events, i);
    TransactKeeps(Before(db, events, i), events[i].billing, events[i].fault);
    assert events[..i + 1][..i] == events[..i];
    HistoryGrows(db, events, i + 1, j);
  }

  /** Nothing is stored by a call that is not told it created: a billing or a line item that is
      there after the history was there before it or belongs to a created billing. */
  lemma {:induction false} StoredOnlyByCreated(db: Db, events: seq<Event>, j: nat, id: nat)
    requires Valid(db) && j <= |events|
    requires id in Before(db, events, j).billings && id !in db.billings
    ensures exists i: nat :: i < j && CreatedAt(db, events, i, id)
    decreases j
  {
    HistoryValid(db, events, j - 1);
    assert events[..j][..j - 1] == events[..j - 1];
    if id in Before(db, events, j - 1).billings {
      StoredOnlyByCreated(db, events, j - 1, id);
    } else {
      assert CreatedAt(db, events, j - 1, id);
    }
  }

  /** At most one call is told that it created the billing with a given identity. */
  lemma CreatedAtMostOnce(db: Db, events: seq<Event>, i: nat, j: nat, id: nat, other: nat)
    requires Valid(db) && i < |events| && j < |events|
    requires CreatedAt(db, events, i, id) && CreatedAt(db, events, j, other)
    requires events[i].billing.identity == events[j].billing.identity
    ensures i == j
  {
    if i < j {
      CreatedStaysWhole(db, events, i, j, id);
      assert Taken(Before(db, events, j), events[j].billing.identity);
    } else if j < i {
      CreatedStaysWhole(db, events, j, i, other);
      assert Taken(Before(db, events, i), events[i].billing.identity);
    }
  }

  /** The look-up after a lost insert always finds a row, the only one with that identity; where a
      call of the history created it, it is that call's row. */
  lemma DuplicateNamesTheRow(db: Db, events: seq<Event>, j: nat, i: nat, created: nat) returns (id: nat)
    requires Valid(db) && IsHistory(db, events) && j < |events| && events[j].Find?
    ensures var now := Before(db, events, j);
      && id in now.billings && now.billings[id].identity == events[j].billing.identity
      && (forall other ::
        other in now.billings && now.billings[other].identity == events[j].billing.identity ==> other == id)
    ensures (i < |events| && CreatedAt(db, events, i, created)
             && events[i].billing.identity == events[j].billing.identity) ==> created == id
  {
    var lost: nat :|
      lost < j && events[lost].Save? && LosesAt(db, events, lost) && events[lost].billing == events[j].billing;
    var earlier := Before(db, events, lost);
    id :| id in earlier.billings && earlier.billings[id].identity == events[j].billing.identity;
    HistoryGrows(db, events, lost, j);
    HistoryValid(db, events, j);
    if i < |events| && CreatedAt(db, events, i, created) && events[i].billing.identity == events[j].billing.identity {
      if i < j {
        CreatedStaysWhole(db, events, i, j, created);
      } else {
        HistoryGrows(db, events, j, i);
        assert Taken(Before(db, events, i), events[i].billing.identity);
      }
    }
  }

  // ---------------------------------------------------------------------------------------
  // The call
  // ---------------------------------------------------------------------------------------

  datatype Reply = Saved(billingId: nat, duplicate: bool) | Failed

  lemma CommitKeeps(db: Db, e: Event)
    requires Valid(db)
    ensures Valid(Commit(db, e)) && Grows(db, Commit(db, e))
  {
    if e.Save? {
      TransactKeeps(db, e.billing, e.fault);
    }
  }

  lemma AfterNext(db: Db, events: seq<Event>, i: nat)
    requires i < |events|
    ensures After(db, events[..i + 1]) == Commit(After(db, events[..i]), events[i])
  {
    assert events[..i + 1][..i] == events[..i];
  }

  lemma GrowsOn(a: Db, b: Db, c: Db)
    requires Grows(a, b) && Grows(b, c)
    ensures Grows(a, c)
  {
  }

  /** Whatever others commit, the tables stay valid and only grow. */
  lemma {:induction false} RunKeeps(db: Db, events: seq<Event>)
    requires Valid(db)
    ensures Valid(After(db, events)) && Grows(db, After(db, events))
    decreases |events|
  {
    if events != [] {
      var before := After(db, events[..|events| - 1]);
      RunKeeps(db, events[..|events| - 1]);
      CommitKeeps(before, events[|events| - 1]);
      GrowsOn(db, before, After(db, events));
    }
  }

  lemma LineRowsNext(id: nat, items: seq<LineItem>, i: nat)
    requires i < |items|
    ensures LineRows(id, items[..i + 1]) ==
      if IsEmpty(Normalize(items[i])) then LineRows(id, items[..i])
      else LineRows(id, items[..i])[(id, i) := Normalize(items[i])]
  {
    assert items[..i + 1][..i] == items[..i];
  }

  class BillingRepository {
    var db: Db

    constructor (db: Db)
      ensures this.db == db
    {
      this.db := db;
    }

    /** Other callers committing meanwhile. */
    method Interfere(others: seq<Event>)
      requires Valid(db)
      modifies this
      ensures Valid(db) && Grows(old(db), db) && db == After(old(db), others)
    {
      for i := 0 to |others|
        invariant Valid(db) && Grows(old(db), db) && db == After(old(db), others[..i])
      {
        ghost var before := db;
        CommitKeeps(db, others[i]);
        AfterNext(old(db), others, i);
        db := Commit(db, others[i]);
        GrowsOn(old(db), before, db);
      }
      assert others[..|others|] == others;
    }

    /** The records to insert, or nothing when an amount is not finite. */
    method SaveLineItems(id: nat, items: seq<LineItem>) returns (rows: Option<map<(nat, nat), LineItem>>)
      ensures rows.None? <==> exists i :: 0 <= i < |items| && HasInfiniteAmount(items[i])
      ensures rows.Some? ==> rows.value == LineRows(id, items)
    {
      var records := map[];
      for i := 0 to |items|
        invariant forall j :: 0 <= j < i ==> !HasInfiniteAmount(items[j])
        invariant records == LineRows(id, items[..i])
      {
        var item := Normalize(items[i]);
        LineRowsNext(id, items, i);
        if IsEmpty(item) {
          continue;
        }
        if item.amount == Some(NotFinite) {
          assert HasInfiniteAmount(items[i]);
          return None;
        }
        records := records[(id, i) := item];
      }
      assert items[..|items|] == items;
      rows := Some(records);
    }

    /** `others` commit between a lost insert and the look-up; `findFails` is an error of the latter. */
    method SaveIfAbsent(b: Billing, fault: bool, others: seq<Event>, findFails: bool) returns (r: Reply)
      requires Valid(db)
      modifies this
      ensures Valid(db) && Grows(old(db), db)
      ensures match SaveOutcome(old(db), b, fault)
        case Created(id) => r == Saved(id, false) && db == Transact(old(db), b, fault)
        case DuplicateKey =>
          db == After(old(db), others) &&
          if findFails then r == Failed
          else r.Saved? && r.duplicate && r.billingId in db.billings && db.billings[r.billingId].identity == b.identity
        case Error => r == Failed && db == old(db)
    {
      TransactKeeps(db, b, fault);
      var summaryDate := SummaryDate(db, b);
      if fault || summaryDate == None {
        return Failed;
      }
      if Taken(db, b.identity) {
        Interfere(others);
        if findFails {
          return Failed;
        }
        var id :| id in db.billings && db.billings[id].identity == b.identity;
        return Saved(id, true);
      }
      var id := db.nextId;
      var rows := SaveLineItems(id, b.lines);
      if rows == None {
        return Failed;
      }
      var row := BillingRow(b.identity, b.emailId, b.billingDate, summaryDate.value);
      db := db.(billings := db.billings[id := row], lines := db.lines + rows.value, nextId := id + 1);
      return Saved(id, false);
    }
  }
}
