/** The emails table and what concurrent saves make of it: rows are inserted once per user and
    message id, and a save learns from the run id whether the row it reads back is its own. */
module EmailStore {
  /** `run` is the created_run_id of the save that inserted the row. */
  datatype EmailRow = EmailRow(id: nat, run: nat)

  datatype Store = Store(rows: map<(nat, string), EmailRow>, nextId: nat)

  predicate Distinct<T(==)>(s: seq<T>) {
    forall i, j :: 0 <= i < j < |s| ==> s[i] != s[j]
  }

  ghost predicate Valid(s: Store) {
    && s.nextId > 0 && (forall k :: k in s.rows ==> 0 < s.rows[k].id < s.nextId)
    && (forall k, l :: k in s.rows && l in s.rows && s.rows[k].id == s.rows[l].id ==> k == l)
  }

  /** INSERT ... ON CONFLICT DO NOTHING of one batch. */
  function InsertIgnore(s: Store, user: nat, ids: seq<string>, run: nat): (r: Store)
    decreases |ids|
  {
    if ids == [] then s
    else
      var k := (user, ids[0]);
      var next := if k in s.rows then s else Store(s.rows[k := EmailRow(s.nextId, run)], s.nextId + 1);
      InsertIgnore(next, user, ids[1..], run)
  }

  ghost predicate Grows(s: Store, t: Store) {
    forall k :: k in s.rows ==> k in t.rows && t.rows[k] == s.rows[k]
  }

  /** The batch inserts exactly the absent keys, all with its own run id, and touches nothing else. */
  lemma {:induction false} InsertIgnoreExact(s: Store, user: nat, ids: seq<string>, run: nat)
    ensures var t := InsertIgnore(s, user, ids, run);
      && Grows(s, t)
      && (Valid(s) ==> Valid(t))
      && (forall k :: k in t.rows <==> k in s.rows || (k.0 == user && k.1 in ids))
      && (forall k :: k in t.rows && k !in s.rows ==> t.rows[k].run == run)
    decreases |ids|
  {
    if ids != [] {
      var k := (user, ids[0]);
      var next := if k in s.rows then s else Store(s.rows[k := EmailRow(s.nextId, run)], s.nextId + 1);
      InsertIgnoreExact(next, user, ids[1..], run);
      assert forall id :: id in ids <==> id == ids[0] || id in ids[1..];
    }
  }

  // ---------------------------------------------------------------------------------------
  // Histories of concurrent saves
  // ---------------------------------------------------------------------------------------

  /** The database steps of one chunk: its insert transaction, later its read-back. */
  datatype Event =
    | Insert(user: nat, ids: seq<string>, run: nat)
    | Read(user: nat, ids: seq<string>, run: nat)

  function Commit(s: Store, e: Event): Store {
    if e.Insert? then InsertIgnore(s, e.user, e.ids, e.run) else s
  }

  function After(s: Store, events: seq<Event>): Store {
    if events == [] then s else Commit(After(s, events[..|events| - 1]), events[|events| - 1])
  }

  /** The table just before event `i`. */
  function Before(s: Store, events: seq<Event>, i: nat): Store
    requires i <= |events|
  {
    After(s, events[..i])
  }

  ghost predicate InsertOf(events: seq<Event>, i: nat, j: nat) {
    i < j < |events| && events[j].Read? && events[i] == Insert(events[j].user, events[j].ids, events[j].run)
  }

  /** Any interleaving of chunk saves: run ids are fresh, a batch lists a message once, a save reads
      back once and after its own insert. */
  ghost predicate IsHistory(s: Store, events: seq<Event>) {
    && (forall i, k :: 0 <= i < |events| && events[i].Insert? && k in s.rows ==> s.rows[k].run != events[i].run)
    && (forall i, j ::
      0 <= i < j < |events| && events[i].Insert? && events[j].Insert? ==> events[i].run != events[j].run)
    && (forall i, j :: 0 <= i < j < |events| && events[i].Read? && events[j].Read? ==> events[i].run != events[j].run)
    && (forall i :: 0 <= i < |events| ==> Distinct(events[i].ids))
    && (forall j :: 0 <= j < |events| && events[j].Read? ==> exists i: nat :: InsertOf(events, i, j))
  }

  lemma {:induction false} HistoryGrows(s: Store, events: seq<Event>, i: nat, j: nat)
    requires i <= j <= |events|
    ensures Grows(Before(s, events, i), Before(s, events, j))
    decreases j
  {
    if i < j {
      HistoryGrows(s, events, i, j - 1);
      assert events[..j][..j - 1] == events[..j - 1];
      if events[j - 1].Insert? {
        InsertIgnoreExact(Before(s, events, j - 1), events[j - 1].user, events[j - 1].ids, events[j - 1].run);
      }
    }
  }

  /** Where a row's run id comes from. */
  lemma {:induction false} RunsComeFromInserts(s: Store, events: seq<Event>, j: nat, k: (nat, string))
    requires j <= |events| && k in Before(s, events, j).rows
    ensures (k in s.rows && Before(s, events, j).rows[k] == s.rows[k])
      || exists i :: 0 <= i < j && events[i].Insert? && events[i].run == Before(s, events, j).rows[k].run
    decreases j
  {
    if j > 0 {
      assert events[..j][..j - 1] == events[..j - 1];
      var before, e := Before(s, events, j - 1), events[j - 1];
      if e.Insert? {
        InsertIgnoreExact(before, e.user, e.ids, e.run);
      }
      if k in before.rows {
        RunsComeFromInserts(s, events, j - 1, k);
      }
    }
  }

  /** The read-back at `j` finds every message of its batch. */
  lemma ReadBackNeverMisses(s: Store, events: seq<Event>, j: nat, id: string)
    requires IsHistory(s, events) && j < |events| && events[j].Read? && id in events[j].ids
    ensures (events[j].user, id) in Before(s, events, j).rows
  {
    var i: nat :| InsertOf(events, i, j);
    InsertIgnoreExact(Before(s, events, i), events[i].user, events[i].ids, events[i].run);
    assert events[..i + 1][..i] == events[..i];
    HistoryGrows(s, events, i + 1, j);
  }

  /** What the save that reads back at `j` is told about `id`. */
  ghost predicate ReportsCreated(s: Store, events: seq<Event>, j: nat, id: string)
    requires IsHistory(s, events) && j < |events| && events[j].Read? && id in events[j].ids
  {
    ReadBackNeverMisses(s, events, j, id);
    Before(s, events, j).rows[(events[j].user, id)].run == events[j].run
  }

  /** The insert at `i` is the only one with its run id, which no earlier row carries. */
  ghost predicate FreshRun(s: Store, events: seq<Event>, i: nat) {
    && i < |events| && events[i].Insert?
    && (forall k :: k in s.rows ==> s.rows[k].run != events[i].run)
    && (forall j :: 0 <= j < |events| && j != i && events[j].Insert? ==> events[j].run != events[i].run)
  }

  /** After an insert with a fresh run id a row of its batch carries that id exactly when it was absent
      before the insert. */
  lemma OwnRowExactly(s: Store, events: seq<Event>, i: nat, j: nat, id: string)
    requires FreshRun(s, events, i) && i < j <= |events| && id in events[i].ids
    ensures var k := (events[i].user, id);
      && k in Before(s, events, j).rows
      && (Before(s, events, j).rows[k].run == events[i].run <==> k !in Before(s, events, i).rows)
  {
    var k := (events[i].user, id);
    InsertIgnoreExact(Before(s, events, i), events[i].user, events[i].ids, events[i].run);
    assert events[..i + 1][..i] == events[..i];
    HistoryGrows(s, events, i + 1, j);
    if k in Before(s, events, i).rows {
      RunsComeFromInserts(s, events, i, k);
      HistoryGrows(s, events, i, j);
    }
  }

  /** A save is told `created` exactly when its own insert put the row there. */
  lemma CreatedExactly(s: Store, events: seq<Event>, i: nat, j: nat, id: string)
    requires IsHistory(s, events) && InsertOf(events, i, j) && id in events[j].ids
    ensures ReportsCreated(s, events, j, id) <==> (events[j].user, id) !in Before(s, events, i).rows
  {
    OwnRowExactly(s, events, i, j, id);
  }

  lemma {:induction false} AfterAppend(s: Store, a: seq<Event>, b: seq<Event>)
    ensures After(s, a + b) == After(After(s, a), b)
    decreases |b|
  {
    if b == [] {
      assert a + b == a;
    } else {
      assert (a + b)[..|a + b| - 1] == a + b[..|b| - 1];
      AfterAppend(s, a, b[..|b| - 1]);
    }
  }

  /** Over any history each user's message is reported created at most once, and all saves that
      mention it are given the same email id. */
  lemma CreatedAtMostOnce(s: Store, events: seq<Event>, j: nat, l: nat, id: string)
    requires IsHistory(s, events) && j < |events| && l < |events| && events[j].Read? && events[l].Read?
    requires events[j].user == events[l].user && id in events[j].ids && id in events[l].ids
    ensures (events[j].user, id) in Before(s, events, j).rows && (events[j].user, id) in Before(s, events, l).rows
    ensures Before(s, events, j).rows[(events[j].user, id)].id == Before(s, events, l).rows[(events[j].user, id)].id
    ensures ReportsCreated(s, events, j, id) && ReportsCreated(s, events, l, id) ==> j == l
  {
    ReadBackNeverMisses(s, events, j, id);
    ReadBackNeverMisses(s, events, l, id);
    if j <= l {
      HistoryGrows(s, events, j, l);
    } else {
      HistoryGrows(s, events, l, j);
    }
  }

  /** Different messages have different email ids throughout. */
  lemma {:induction false} HistoryValid(s: Store, events: seq<Event>, i: nat)
    requires Valid(s) && i <= |events|
    ensures Valid(Before(s, events, i))
  {
    if i > 0 {
      HistoryValid(s, events, i - 1);
      assert events[..i][..i - 1] == events[..i - 1];
      var e := events[i - 1];
      if e.Insert? {
        InsertIgnoreExact(Before(s, events, i - 1), e.user, e.ids, e.run);
      }
    }
  }
}
