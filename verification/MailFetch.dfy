/** The mail fetch stage: normalising fetched mails, saving them in chunks, and sorting the results.
    Saves of other workflows may commit between a chunk's insert and its read-back. */
module MailFetch {
  import opened Text
  import opened EmailStore

  /** One fetched mail; `dated` is false for the zero time. */
  datatype Dto = Dto(id: string, dated: bool, body: string, digest: string)

  datatype Failure = Failure(messageId: string, code: string)

  const INVALID_FETCHED_EMAIL := "invalid_fetched_email"
  const DUPLICATE_EXTERNAL_MESSAGE_ID := "duplicate_external_message_id"
  const EMAIL_SAVE_FAILED := "email_save_failed"

  const FETCH_DETAIL_FAILED := "fetch_detail_failed"

  /** The stage's own failure codes. */
  predicate FetchCodes(failures: seq<Failure>) {
    forall i :: 0 <= i < |failures| ==>
      failures[i].code in {INVALID_FETCHED_EMAIL, DUPLICATE_EXTERNAL_MESSAGE_ID, EMAIL_SAVE_FAILED, FETCH_DETAIL_FAILED}
  }

  const CREATED := "created"
  const EXISTING := "existing"

  datatype SaveResult = SaveResult(emailId: nat, messageId: string, status: string)

  const SAVE_BATCH_SIZE := 20

  /** What the database makes of a chunk's transaction: it is committed, its insert statement fails, or
      the transaction itself does, at its begin or its commit. */
  datatype Insertion = Inserted | Rejected | Aborted

  /** What the outside does to one chunk: the saves that others commit before it, the run id drawn for
      it, what becomes of its insert, the saves that others commit before its read-back, and whether
      that fails. */
  datatype Outside = Outside(earlier: seq<Event>, run: nat, insert: Insertion, others: seq<Event>, readFails: bool)

  datatype ChunkOutcome =
    | Saved(results: seq<SaveResult>)
    | InsertFailed
    | TransactionFailed
    | ReadFailed
    | NotFoundAfterSave(messageId: string)

  function ResultIds(results: seq<SaveResult>): seq<string> {
    seq(|results|, i requires 0 <= i < |results| => results[i].messageId)
  }

  function FailureIds(failures: seq<Failure>): seq<string> {
    seq(|failures|, i requires 0 <= i < |failures| => failures[i].messageId)
  }

  // ---------------------------------------------------------------------------------------
  // Preparing
  // ---------------------------------------------------------------------------------------

  /** One of the first `n` mails has this trimmed id. */
  ghost predicate Seen(dtos: seq<Dto>, n: nat, id: string)
    requires n <= |dtos|
  {
    exists i :: 0 <= i < n && Trim(dtos[i].id) == id
  }

  /** The ids of the first `n` mails that survive preparation: each first, valid occurrence. */
  ghost function Prepared(user: nat, dtos: seq<Dto>, n: nat): seq<string>
    requires n <= |dtos|
  {
    if n == 0 then []
    else
      var id := Trim(dtos[n - 1].id);
      Prepared(user, dtos, n - 1)
      + if id != "" && !Seen(dtos, n - 1, id) && user != 0 && !Blank(dtos[n - 1].digest) then [id] else []
  }

  /** The failures of the others. */
  ghost function Refused(user: nat, dtos: seq<Dto>, n: nat): seq<Failure>
    requires n <= |dtos|
  {
    if n == 0 then []
    else
      var id := Trim(dtos[n - 1].id);
      Refused(user, dtos, n - 1)
      + if id == "" then [Failure("", INVALID_FETCHED_EMAIL)]
        else if Seen(dtos, n - 1, id) then [Failure(id, DUPLICATE_EXTERNAL_MESSAGE_ID)]
        else if user == 0 || Blank(dtos[n - 1].digest) then [Failure(id, INVALID_FETCHED_EMAIL)]
        else []
  }

  /** `seen` has the ids of the first `n` mails. */
  ghost predicate SeenIds(seen: set<string>, dtos: seq<Dto>, n: nat)
    requires n <= |dtos|
  {
    forall id :: id in seen <==> id != "" && Seen(dtos, n, id)
  }

  lemma SeenNext(seen: set<string>, dtos: seq<Dto>, n: nat)
    requires n < |dtos| && SeenIds(seen, dtos, n)
    ensures var id := Trim(dtos[n].id);
      SeenIds(if id == "" then seen else seen + {id}, dtos, n + 1)
  {
    forall id
      ensures Seen(dtos, n + 1, id) <==> Seen(dtos, n, id) || Trim(dtos[n].id) == id
    {
    }
  }

  method PrepareEmails(user: nat, dtos: seq<Dto>) returns (prepared: seq<string>, failures: seq<Failure>)
    ensures prepared == Prepared(user, dtos, |dtos|) && failures == Refused(user, dtos, |dtos|)
  {
    prepared, failures := [], [];
    var seen: set<string> := {};
    for n := 0 to |dtos|
      invariant SeenIds(seen, dtos, n)
      invariant prepared == Prepared(user, dtos, n) && failures == Refused(user, dtos, n)
    {
      var id := Trim(dtos[n].id);
      SeenNext(seen, dtos, n);
      if id == "" {
        failures := failures + [Failure("", INVALID_FETCHED_EMAIL)];
      } else if id in seen {
        assert seen + {id} == seen;
        failures := failures + [Failure(id, DUPLICATE_EXTERNAL_MESSAGE_ID)];
      } else {
        seen := seen + {id};
        if user == 0 || Blank(dtos[n].digest) {
          failures := failures + [Failure(id, INVALID_FETCHED_EMAIL)];
        } else {
          prepared := prepared + [id];
        }
      }
    }
  }

  /** Every mail is prepared or refused, no id is prepared twice, and only trimmed ids of mails are. */
  lemma {:induction false} PreparedOnce(user: nat, dtos: seq<Dto>, n: nat)
    requires n <= |dtos|
    ensures |Prepared(user, dtos, n)| + |Refused(user, dtos, n)| == n
    ensures Distinct(Prepared(user, dtos, n))
    ensures forall id :: id in Prepared(user, dtos, n) ==> id != "" && Seen(dtos, n, id)
  {
    if n > 0 {
      PreparedOnce(user, dtos, n - 1);
    }
  }

  /** An earlier mail has the id of mail `i`. */
  ghost predicate Repeats(dtos: seq<Dto>, i: nat)
    requires i < |dtos|
  {
    exists m :: 0 <= m < i && Trim(dtos[m].id) == Trim(dtos[i].id)
  }

  /** A mail is among the prepared or among the refused, whichever it has to be. */
  predicate IsPrepared(user: nat, d: Dto, again: bool, prepared: seq<string>, refused: seq<Failure>) {
    var id := Trim(d.id);
    if id == "" then Failure("", INVALID_FETCHED_EMAIL) in refused
    else if again then Failure(id, DUPLICATE_EXTERNAL_MESSAGE_ID) in refused
    else if user == 0 || Trim(d.digest) == "" then Failure(id, INVALID_FETCHED_EMAIL) in refused
    else id in prepared
  }

  lemma LastPrepared(user: nat, dtos: seq<Dto>, i: nat)
    requires i < |dtos|
    ensures IsPrepared(user, dtos[i], Repeats(dtos, i), Prepared(user, dtos, i + 1), Refused(user, dtos, i + 1))
  {
  }

  lemma PreparedIn(user: nat, d: Dto, again: bool, a: seq<string>, b: seq<Failure>, more: seq<string>,
                   others: seq<Failure>)
    requires IsPrepared(user, d, again, a, b) && a <= more && b <= others
    ensures IsPrepared(user, d, again, more, others)
  {
  }

  /** What becomes of mail `i` among the first `n`: of several mails with one id only the first can be
      prepared. */
  lemma {:induction false} MailPrepared(user: nat, dtos: seq<Dto>, n: nat, i: nat, prepared: seq<string>,
                                        refused: seq<Failure>)
    requires i < n <= |dtos| && prepared == Prepared(user, dtos, n) && refused == Refused(user, dtos, n)
    ensures IsPrepared(user, dtos[i], Repeats(dtos, i), prepared, refused)
    decreases n
  {
    if i == n - 1 {
      LastPrepared(user, dtos, i);
    } else {
      var before, others := Prepared(user, dtos, n - 1), Refused(user, dtos, n - 1);
      MailPrepared(user, dtos, n - 1, i, before, others);
      PreparedIn(user, dtos[i], Repeats(dtos, i), before, others, prepared, refused);
    }
  }

  lemma {:induction false} RefusedCodes(user: nat, dtos: seq<Dto>, n: nat)
    requires n <= |dtos|
    ensures FetchCodes(Refused(user, dtos, n))
  {
    if n > 0 {
      RefusedCodes(user, dtos, n - 1);
    }
  }

  // ---------------------------------------------------------------------------------------
  // Chunks
  // ---------------------------------------------------------------------------------------

  /** Where chunk `n` starts. */
  function Start(prepared: seq<string>, n: nat): (start: nat)
    ensures start <= |prepared|
  {
    if SAVE_BATCH_SIZE * n > |prepared| then |prepared| else SAVE_BATCH_SIZE * n
  }

  function Chunk(prepared: seq<string>, n: nat): seq<string> {
    prepared[Start(prepared, n)..Start(prepared, n + 1)]
  }

  function ChunkCount(prepared: seq<string>): nat {
    (|prepared| + SAVE_BATCH_SIZE - 1) / SAVE_BATCH_SIZE
  }

  /** The steps on the table that belong to one chunk. */
  function ChunkEvents(user: nat, chunk: seq<string>, o: Outside): seq<Event> {
    o.earlier + if o.insert.Inserted? then [Insert(user, chunk, o.run)] + o.others + [Read(user, chunk, o.run)] else []
  }

  /** The history of the first `n` chunks. */
  function Events(user: nat, prepared: seq<string>, outside: nat -> Outside, n: nat): seq<Event> {
    if n == 0 then []
    else Events(user, prepared, outside, n - 1) + ChunkEvents(user, Chunk(prepared, n - 1), outside(n - 1))
  }

  /** The chunk is inserted and read back, or its insert statement fails; anything else ends the save. */
  predicate Reads(o: Outside) {
    o.insert.Rejected? || (o.insert.Inserted? && !o.readFails)
  }

  predicate AreStored(store: Store, user: nat, ids: seq<string>) {
    forall i :: 0 <= i < |ids| ==> (user, ids[i]) in store.rows
  }

  /** What a save with this run id reports about a stored message. */
  function ResultFor(store: Store, user: nat, id: string, run: nat): SaveResult
    requires (user, id) in store.rows
  {
    var row := store.rows[(user, id)];
    SaveResult(row.id, id, if row.run == run then CREATED else EXISTING)
  }

  function ResultsFor(store: Store, user: nat, ids: seq<string>, run: nat): seq<SaveResult>
    requires AreStored(store, user, ids)
  {
    seq(|ids|, i requires 0 <= i < |ids| => ResultFor(store, user, ids[i], run))
  }

  /** What the answer for one message says: the id of its row, and whether the row is the save's own. */
  predicate AnswerFor(store: Store, user: nat, id: string, run: nat, r: SaveResult) {
    && (user, id) in store.rows
    && r.messageId == id && r.emailId == store.rows[(user, id)].id
    && r.status == if store.rows[(user, id)].run == run then CREATED else EXISTING
  }

  /** One answer for each message, in order. */
  ghost predicate Answers(store: Store, user: nat, ids: seq<string>, run: nat, results: seq<SaveResult>) {
    |results| == |ids| && forall i :: 0 <= i < |ids| ==> AnswerFor(store, user, ids[i], run, results[i])
  }

  function SaveFailures(ids: seq<string>): seq<Failure> {
    seq(|ids|, i requires 0 <= i < |ids| => Failure(ids[i], EMAIL_SAVE_FAILED))
  }

  ghost predicate ChunksStored(store: Store, user: nat, prepared: seq<string>, outside: nat -> Outside, n: nat) {
    forall m: nat :: m < n && outside(m).insert.Inserted? ==> AreStored(store, user, Chunk(prepared, m))
  }

  /** The results of the first `n` chunks: those whose insert worked, in order. */
  function ResultsOf(store: Store, user: nat, prepared: seq<string>, outside: nat -> Outside, n: nat): seq<SaveResult>
    requires ChunksStored(store, user, prepared, outside, n)
  {
    if n == 0 then []
    else
      var o := outside(n - 1);
      ResultsOf(store, user, prepared, outside, n - 1)
      + if o.insert.Inserted? then ResultsFor(store, user, Chunk(prepared, n - 1), o.run) else []
  }

  /** The failures of the first `n` chunks: those whose insert failed. */
  function FailuresOf(prepared: seq<string>, outside: nat -> Outside, n: nat): seq<Failure> {
    if n == 0 then []
    else
      FailuresOf(prepared, outside, n - 1)
      + if outside(n - 1).insert.Rejected? then SaveFailures(Chunk(prepared, n - 1)) else []
  }

  lemma StoredStays(s: Store, t: Store, user: nat, prepared: seq<string>, outside: nat -> Outside, n: nat)
    requires ChunksStored(s, user, prepared, outside, n) && Grows(s, t)
    ensures ChunksStored(t, user, prepared, outside, n)
  {
    forall m: nat | m < n && outside(m).insert.Inserted?
      ensures AreStored(t, user, Chunk(prepared, m))
    {
      assert AreStored(s, user, Chunk(prepared, m));
    }
  }

  /** A chunk's results do not change when the table grows. */
  lemma {:induction false} ResultsStay(s: Store, t: Store, user: nat, prepared: seq<string>,
                                       outside: nat -> Outside, n: nat)
    requires ChunksStored(s, user, prepared, outside, n) && Grows(s, t)
    ensures ChunksStored(t, user, prepared, outside, n)
    ensures ResultsOf(t, user, prepared, outside, n) == ResultsOf(s, user, prepared, outside, n)
  {
    StoredStays(s, t, user, prepared, outside, n);
    if n > 0 {
      ResultsStay(s, t, user, prepared, outside, n - 1);
      if outside(n - 1).insert.Inserted? {
        var chunk := Chunk(prepared, n - 1);
        assert AreStored(s, user, chunk) && AreStored(t, user, chunk);
        assert ResultsFor(s, user, chunk, outside(n - 1).run) == ResultsFor(t, user, chunk, outside(n - 1).run);
      }
    }
  }

  // ---------------------------------------------------------------------------------------
  // What the reports mean
  // ---------------------------------------------------------------------------------------

  /** The place of chunk `n`'s insert in the history. */
  function InsertAt(user: nat, prepared: seq<string>, outside: nat -> Outside, n: nat): nat {
    |Events(user, prepared, outside, n)| + |outside(n).earlier|
  }

  lemma {:induction false} EventsPrefix(user: nat, prepared: seq<string>, outside: nat -> Outside, n: nat, m: nat)
    requires n <= m
    ensures Events(user, prepared, outside, n) <= Events(user, prepared, outside, m)
    decreases m
  {
    if n < m {
      EventsPrefix(user, prepared, outside, n, m - 1);
    }
  }

  lemma InsertIsThere(user: nat, prepared: seq<string>, outside: nat -> Outside, n: nat, m: nat)
    requires n < m && outside(n).insert.Inserted?
    ensures var events, i := Events(user, prepared, outside, m), InsertAt(user, prepared, outside, n);
      i < |events| && events[i] == Insert(user, Chunk(prepared, n), outside(n).run)
  {
    EventsPrefix(user, prepared, outside, n + 1, m);
    var here := Events(user, prepared, outside, n + 1);
    assert here[InsertAt(user, prepared, outside, n)] == Insert(user, Chunk(prepared, n), outside(n).run);
  }

  /** A mail is reported created exactly when it was absent before its own chunk's insert, if that
      insert's run id is fresh. */
  lemma CreatedExactly(s: Store, user: nat, prepared: seq<string>, outside: nat -> Outside, n: nat, m: nat, id: string)
    requires n < m && outside(n).insert.Inserted? && id in Chunk(prepared, n)
    requires FreshRun(s, Events(user, prepared, outside, m), InsertAt(user, prepared, outside, n))
    ensures var events := Events(user, prepared, outside, m);
      && (user, id) in After(s, events).rows
      && (ResultFor(After(s, events), user, id, outside(n).run).status == CREATED <==>
            (user, id) !in After(s, events[..InsertAt(user, prepared, outside, n)]).rows)
  {
    var events := Events(user, prepared, outside, m);
    var i := InsertAt(user, prepared, outside, n);
    InsertIsThere(user, prepared, outside, n, m);
    OwnRowExactly(s, events, i, |events|, id);
    assert events[..|events|] == events;
  }

  /** Whenever two saves are answered, for whatever user and run, the answers carry the same email id
      exactly when they are about the same message of the same user. */
  lemma AnswersAgree(s: Store, events: seq<Event>, i: nat, j: nat, user: nat, id: string, run: nat, r: SaveResult,
                     other: nat, m: string, otherRun: nat, q: SaveResult)
    requires Valid(s) && i <= j <= |events|
    requires AnswerFor(Before(s, events, i), user, id, run, r)
    requires AnswerFor(Before(s, events, j), other, m, otherRun, q)
    ensures r.emailId != 0 && (r.emailId == q.emailId <==> user == other && id == m)
  {
    HistoryGrows(s, events, i, j);
    HistoryValid(s, events, i);
    HistoryValid(s, events, j);
  }

  lemma {:induction false} FailuresName(prepared: seq<string>, outside: nat -> Outside, n: nat, id: string)
    ensures Failure(id, EMAIL_SAVE_FAILED) in FailuresOf(prepared, outside, n) <==>
      exists m: nat :: m < n && outside(m).insert.Rejected? && id in Chunk(prepared, m)
  {
    if n > 0 {
      FailuresName(prepared, outside, n - 1, id);
      var before, chunk := FailuresOf(prepared, outside, n - 1), Chunk(prepared, n - 1);
      if outside(n - 1).insert.Rejected? {
        ChunkFailures(chunk, id);
      } else {
        assert before + [] == before;
      }
    }
  }

  lemma ChunkFailures(ids: seq<string>, id: string)
    ensures Failure(id, EMAIL_SAVE_FAILED) in SaveFailures(ids) <==> id in ids
  {
    if i :| 0 <= i < |ids| && ids[i] == id {
      assert SaveFailures(ids)[i] == Failure(id, EMAIL_SAVE_FAILED);
    }
  }

  lemma InOneChunk(prepared: seq<string>, n: nat, m: nat, id: string)
    requires Distinct(prepared) && id in Chunk(prepared, n) && id in Chunk(prepared, m)
    ensures n == m
  {
    var i :| 0 <= i < |Chunk(prepared, n)| && Chunk(prepared, n)[i] == id;
    var j :| 0 <= j < |Chunk(prepared, m)| && Chunk(prepared, m)[j] == id;
    assert prepared[Start(prepared, n) + i] == prepared[Start(prepared, m) + j];
  }

  /** A prepared mail is a save failure exactly when its chunk's insert failed. */
  lemma FailedExactly(prepared: seq<string>, outside: nat -> Outside, n: nat, id: string)
    requires Distinct(prepared) && n < ChunkCount(prepared) && id in Chunk(prepared, n)
    ensures Failure(id, EMAIL_SAVE_FAILED) in FailuresOf(prepared, outside, ChunkCount(prepared)) <==>
      outside(n).insert.Rejected?
  {
    FailuresName(prepared, outside, ChunkCount(prepared), id);
    if m: nat :| m < ChunkCount(prepared) && outside(m).insert.Rejected? && id in Chunk(prepared, m) {
      InOneChunk(prepared, n, m, id);
    }
  }

  /** `a` and `b` together hold exactly the ids of `all`. */
  ghost predicate Partition(all: seq<string>, a: seq<string>, b: seq<string>) {
    multiset(all) == multiset(a) + multiset(b)
  }

  lemma PartitionAppend(all: seq<string>, a: seq<string>, b: seq<string>, c: seq<string>)
    requires Partition(all, a, b)
    ensures Partition(all + c, a + c, b) && Partition(all + c, a, b + c)
  {
  }

  lemma IdsAppend(results: seq<SaveResult>, more: seq<SaveResult>, failures: seq<Failure>, others: seq<Failure>)
    ensures ResultIds(results + more) == ResultIds(results) + ResultIds(more)
    ensures FailureIds(failures + others) == FailureIds(failures) + FailureIds(others)
  {
  }

  /** The ids of the results and failures are those of the mails of the first `n` chunks. */
  ghost predicate Reported(prepared: seq<string>, n: nat, results: seq<SaveResult>, failures: seq<Failure>) {
    Partition(prepared[..Start(prepared, n)], ResultIds(results), FailureIds(failures))
  }

  lemma ChunkReported(prepared: seq<string>, n: nat, results: seq<SaveResult>, failures: seq<Failure>,
                      more: seq<SaveResult>)
    requires Reported(prepared, n, results, failures)
    ensures Reported(prepared, n + 1, results, failures + SaveFailures(Chunk(prepared, n)))
    ensures ResultIds(more) == Chunk(prepared, n) ==> Reported(prepared, n + 1, results + more, failures)
  {
    var chunk := Chunk(prepared, n);
    assert prepared[..Start(prepared, n + 1)] == prepared[..Start(prepared, n)] + chunk;
    assert FailureIds(SaveFailures(chunk)) == chunk;
    IdsAppend(results, more, failures, SaveFailures(chunk));
    PartitionAppend(prepared[..Start(prepared, n)], ResultIds(results), FailureIds(failures), chunk);
  }

  lemma OneMoreReported(store: Store, user: nat, prepared: seq<string>, o: Outside, n: nat,
                        before: seq<SaveResult>, beforeFailures: seq<Failure>,
                        results: seq<SaveResult>, failures: seq<Failure>)
    requires Reported(prepared, n, before, beforeFailures) && !o.insert.Aborted?
    requires o.insert.Inserted? ==> AreStored(store, user, Chunk(prepared, n))
    requires results == before + if o.insert.Inserted? then ResultsFor(store, user, Chunk(prepared, n), o.run) else []
    requires failures == beforeFailures + if o.insert.Rejected? then SaveFailures(Chunk(prepared, n)) else []
    ensures Reported(prepared, n + 1, results, failures)
  {
    if o.insert.Rejected? {
      ChunkReported(prepared, n, before, beforeFailures, []);
      assert results == before;
    } else {
      var more := ResultsFor(store, user, Chunk(prepared, n), o.run);
      assert ResultIds(more) == Chunk(prepared, n);
      ChunkReported(prepared, n, before, beforeFailures, more);
      assert failures == beforeFailures;
    }
  }

  /** Chunking loses and repeats no mail, unless a transaction fails, which ends the save. */
  lemma {:induction false} EveryMailReported(store: Store, user: nat, prepared: seq<string>, outside: nat -> Outside,
                                             n: nat,
                                             results: seq<SaveResult>, failures: seq<Failure>)
    requires ChunksStored(store, user, prepared, outside, n) && forall m: nat :: m < n ==> !outside(m).insert.Aborted?
    requires results == ResultsOf(store, user, prepared, outside, n) && failures == FailuresOf(prepared, outside, n)
    ensures Reported(prepared, n, results, failures)
    decreases n
  {
    if n > 0 {
      var before, beforeFailures :=
        ResultsOf(store, user, prepared, outside, n - 1), FailuresOf(prepared, outside, n - 1);
      EveryMailReported(store, user, prepared, outside, n - 1, before, beforeFailures);
      OneMoreReported(store, user, prepared, outside(n - 1), n - 1, before, beforeFailures, results, failures);
    }
  }

  lemma PartitionCounts(all: seq<string>, a: seq<string>, b: seq<string>)
    requires Partition(all, a, b)
    ensures |a| + |b| == |all|
  {
    assert |multiset(all)| == |multiset(a) + multiset(b)|;
  }

  lemma AllChunks(prepared: seq<string>)
    ensures Start(prepared, ChunkCount(prepared)) == |prepared|
  {
  }

  // ---------------------------------------------------------------------------------------
  // The repository
  // ---------------------------------------------------------------------------------------

  lemma ChunkRuns(s: Store, user: nat, chunk: seq<string>, o: Outside)
    ensures After(s, ChunkEvents(user, chunk, o)) ==
      var before := After(s, o.earlier);
      if o.insert.Inserted? then After(InsertIgnore(before, user, chunk, o.run), o.others) else before
  {
    if !o.insert.Inserted? {
      assert o.earlier + [] == o.earlier;
    } else {
      var insert, read := Insert(user, chunk, o.run), Read(user, chunk, o.run);
      var before := After(s, o.earlier);
      AfterAppend(s, o.earlier, [insert] + o.others + [read]);
      AfterAppend(before, [insert] + o.others, [read]);
      AfterAppend(before, [insert], o.others);
      OneEvent(before, insert);
      OneEvent(After(before, [insert] + o.others), read);
    }
  }

  lemma OneEvent(s: Store, e: Event)
    ensures After(s, [e]) == Commit(s, e)
  {
    assert [e][..0] == [];
    assert After(s, [e][..0]) == s;
  }

  /** Every chunk that is inserted is read back. */
  ghost predicate AllRead(prepared: seq<string>, outside: nat -> Outside) {
    ReadUpTo(outside, ChunkCount(prepared))
  }

  ghost predicate ReadUpTo(outside: nat -> Outside, n: nat) {
    forall m: nat :: m < n ==> Reads(outside(m))
  }

  lemma OneMoreRead(prepared: seq<string>, outside: nat -> Outside, n: nat)
    requires ReadUpTo(outside, n) && n < ChunkCount(prepared)
    ensures if Reads(outside(n)) then ReadUpTo(outside, n + 1) else !AllRead(prepared, outside)
  {
  }

  /** The save has ended at chunk `k`, the first that is not read back. */
  ghost predicate StoppedAt(s: Store, t: Store, user: nat, prepared: seq<string>, outside: nat -> Outside, k: nat) {
    && k < ChunkCount(prepared) && ReadUpTo(outside, k) && !Reads(outside(k))
    && t == After(s, Events(user, prepared, outside, k + 1))
  }

  lemma StopsHere(s: Store, before: Store, user: nat, prepared: seq<string>, outside: nat -> Outside, n: nat)
    requires before == After(s, Events(user, prepared, outside, n)) && n < ChunkCount(prepared)
    requires ReadUpTo(outside, n) && !Reads(outside(n))
    ensures StoppedAt(s, After(before, ChunkEvents(user, Chunk(prepared, n), outside(n))), user, prepared, outside, n)
  {
    OneMoreHistory(s, before, user, prepared, outside, n);
  }

  /** Table, results and failures once the first `n` chunks have been saved. */
  ghost predicate SavedUpTo(s: Store, t: Store, user: nat, prepared: seq<string>, outside: nat -> Outside, n: nat,
                            results: seq<SaveResult>, failures: seq<Failure>) {
    && t == After(s, Events(user, prepared, outside, n)) && ReadUpTo(outside, n)
    && ChunksStored(t, user, prepared, outside, n)
    && results == ResultsOf(t, user, prepared, outside, n)
    && failures == FailuresOf(prepared, outside, n)
  }

  lemma OneMoreHistory(s: Store, before: Store, user: nat, prepared: seq<string>, outside: nat -> Outside, n: nat)
    requires before == After(s, Events(user, prepared, outside, n))
    ensures After(s, Events(user, prepared, outside, n + 1)) ==
      After(before, ChunkEvents(user, Chunk(prepared, n), outside(n)))
  {
    AfterAppend(s, Events(user, prepared, outside, n), ChunkEvents(user, Chunk(prepared, n), outside(n)));
  }

  /** Once chunk `n` is stored, or rejected. */
  lemma OneMoreStored(store: Store, user: nat, prepared: seq<string>, outside: nat -> Outside, n: nat)
    requires ChunksStored(store, user, prepared, outside, n)
    requires outside(n).insert.Inserted? ==> AreStored(store, user, Chunk(prepared, n))
    ensures ChunksStored(store, user, prepared, outside, n + 1)
    ensures ResultsOf(store, user, prepared, outside, n + 1) == ResultsOf(store, user, prepared, outside, n)
      + if outside(n).insert.Inserted? then ResultsFor(store, user, Chunk(prepared, n), outside(n).run) else []
  {
  }

  lemma OneMoreFailure(prepared: seq<string>, outside: nat -> Outside, n: nat)
    ensures FailuresOf(prepared, outside, n + 1) == FailuresOf(prepared, outside, n)
      + if outside(n).insert.Rejected? then SaveFailures(Chunk(prepared, n)) else []
  {
  }

  lemma OneMoreChunk(s: Store, before: Store, after: Store, user: nat, prepared: seq<string>, outside: nat -> Outside,
                     n: nat, results: seq<SaveResult>, failures: seq<Failure>)
    requires SavedUpTo(s, before, user, prepared, outside, n, results, failures) && Grows(before, after)
    requires after == After(before, ChunkEvents(user, Chunk(prepared, n), outside(n)))
    requires Reads(outside(n)) && (outside(n).insert.Inserted? ==> AreStored(after, user, Chunk(prepared, n)))
    ensures var o, chunk := outside(n), Chunk(prepared, n);
      SavedUpTo(s, after, user, prepared, outside, n + 1,
                results + (if o.insert.Inserted? then ResultsFor(after, user, chunk, o.run) else []),
                failures + (if o.insert.Rejected? then SaveFailures(chunk) else []))
  {
    OneMoreHistory(s, before, user, prepared, outside, n);
    ResultsStay(before, after, user, prepared, outside, n);
    OneMoreStored(after, user, prepared, outside, n);
    OneMoreFailure(prepared, outside, n);
  }

  /** Chunk `n` starts at `start`; there is no chunk after the last mail. */
  predicate AtChunk(prepared: seq<string>, n: nat, start: nat) {
    start == Start(prepared, n) && n <= ChunkCount(prepared) && (start == |prepared| ==> n == ChunkCount(prepared))
  }

  lemma NextChunk(prepared: seq<string>, n: nat, start: nat)
    requires AtChunk(prepared, n, start) && start < |prepared|
    ensures n < ChunkCount(prepared)
    ensures
      AtChunk(prepared, n + 1, if start + SAVE_BATCH_SIZE > |prepared| then |prepared| else start + SAVE_BATCH_SIZE)
  {
  }

  lemma GrowsOn(a: Store, b: Store, c: Store)
    requires Grows(a, b) && Grows(b, c)
    ensures Grows(a, c)
  {
  }

  /** The chunk loop is at the start of chunk `n`. */
  ghost predicate InLoop(s: Store, t: Store, user: nat, prepared: seq<string>, outside: nat -> Outside,
                         n: nat, start: nat,
                         results: seq<SaveResult>, failures: seq<Failure>) {
    && AtChunk(prepared, n, start) && Grows(s, t)
    && SavedUpTo(s, t, user, prepared, outside, n, results, failures)
  }

  lemma LoopStarts(s: Store, user: nat, prepared: seq<string>, outside: nat -> Outside)
    ensures InLoop(s, s, user, prepared, outside, 0, 0, [], [])
  {
  }

  lemma LoopEnds(s: Store, t: Store, user: nat, prepared: seq<string>, outside: nat -> Outside, n: nat,
                 results: seq<SaveResult>, failures: seq<Failure>)
    requires InLoop(s, t, user, prepared, outside, n, |prepared|, results, failures)
    ensures Grows(s, t) && AllRead(prepared, outside)
    ensures SavedUpTo(s, t, user, prepared, outside, ChunkCount(prepared), results, failures)
  {
  }

  class EmailRepository {
    var store: Store

    constructor (store: Store)
      ensures this.store == store
    {
      this.store := store;
    }

    /** Other saves committing meanwhile. */
    method Interfere(others: seq<Event>)
      modifies this
      ensures store == After(old(store), others)
      ensures Grows(old(store), store)
    {
      for i := 0 to |others|
        invariant store == After(old(store), others[..i])
        invariant Grows(old(store), store)
      {
        var e := others[i];
        assert others[..i + 1][..i] == others[..i];
        InsertIgnoreExact(store, e.user, e.ids, e.run);
        store := Commit(store, e);
      }
      assert others[..|others|] == others;
    }

    method SavePreparedEmails(user: nat, chunk: seq<string>, outside: Outside) returns (r: ChunkOutcome)
      modifies this
      ensures Grows(old(store), store) && store == After(old(store), ChunkEvents(user, chunk, outside))
      ensures r.InsertFailed? <==> outside.insert.Rejected?
      ensures r.TransactionFailed? <==> outside.insert.Aborted?
      ensures r.ReadFailed? <==> outside.insert.Inserted? && outside.readFails
      ensures !r.NotFoundAfterSave?
      ensures r.Saved? ==> AreStored(store, user, chunk) && r.results == ResultsFor(store, user, chunk, outside.run)
      ensures r.Saved? ==> Answers(store, user, chunk, outside.run, r.results)
    {
      ChunkRuns(store, user, chunk, outside);
      Interfere(outside.earlier);
      if outside.insert.Rejected? {
        return InsertFailed;
      }
      if outside.insert.Aborted? {
        return TransactionFailed;
      }
      InsertIgnoreExact(store, user, chunk, outside.run);
      store := InsertIgnore(store, user, chunk, outside.run);
      Interfere(outside.others);
      if outside.readFails {
        return ReadFailed;
      }
      r := ReadBack(user, chunk, outside.run);
    }

    /** The results of a chunk whose mails are all stored. */
    method ReadBack(user: nat, chunk: seq<string>, run: nat) returns (r: ChunkOutcome)
      requires AreStored(store, user, chunk)
      ensures r == Saved(ResultsFor(store, user, chunk, run))
    {
      var results: seq<SaveResult> := [];
      for i := 0 to |chunk|
        invariant results == ResultsFor(store, user, chunk, run)[..i]
      {
        var id := chunk[i];
        if (user, id) !in store.rows {
          return NotFoundAfterSave(id);
        }
        var row := store.rows[(user, id)];
        results := results + [SaveResult(row.id, id, if row.run == run then CREATED else EXISTING)];
      }
      return Saved(results);
    }

    /** One turn of the chunk loop. */
    method SaveChunk(user: nat, prepared: seq<string>, outside: nat -> Outside, n: nat, chunk: seq<string>,
                     before: seq<SaveResult>, beforeFailures: seq<Failure>, ghost s: Store)
      returns (ok: bool, results: seq<SaveResult>, failures: seq<Failure>)
      requires chunk == Chunk(prepared, n) && n < ChunkCount(prepared)
      requires SavedUpTo(s, store, user, prepared, outside, n, before, beforeFailures)
      modifies this
      ensures Grows(old(store), store) && (ok <==> Reads(outside(n)))
      ensures ok ==> SavedUpTo(s, store, user, prepared, outside, n + 1, results, failures)
      ensures !ok ==> StoppedAt(s, store, user, prepared, outside, n)
    {
      results, failures := before, beforeFailures;
      var outcome := SavePreparedEmails(user, chunk, outside(n));
      ok := outcome.Saved? || outcome.InsertFailed?;
      if !ok {
        StopsHere(s, old(store), user, prepared, outside, n);
        results := [];
        return;
      }
      OneMoreChunk(s, old(store), store, user, prepared, outside, n, before, beforeFailures);
      assert results + [] == results && failures + [] == failures;
      if outcome.Saved? {
        results := results + outcome.results;
      } else {
        var more := BuildChunkSaveFailures(chunk);
        failures := failures + more;
      }
    }

    /** The next chunk from `start`, up to `end`. */
    method SaveNextChunk(user: nat, prepared: seq<string>, outside: nat -> Outside, n: nat, start: nat,
                         before: seq<SaveResult>, beforeFailures: seq<Failure>, ghost s: Store)
      returns (ok: bool, end: nat, results: seq<SaveResult>, failures: seq<Failure>)
      requires InLoop(s, store, user, prepared, outside, n, start, before, beforeFailures) && start < |prepared|
      modifies this
      ensures Grows(s, store) && (!ok ==> !AllRead(prepared, outside))
      ensures start < end <= |prepared|
      ensures ok ==> InLoop(s, store, user, prepared, outside, n + 1, end, results, failures)
      ensures !ok ==> StoppedAt(s, store, user, prepared, outside, n)
    {
      end := if start + SAVE_BATCH_SIZE > |prepared| then |prepared| else start + SAVE_BATCH_SIZE;
      ghost var was := store;
      NextChunk(prepared, n, start);
      ok, results, failures := SaveChunk(user, prepared, outside, n, prepared[start..end], before, beforeFailures, s);
      GrowsOn(s, was, store);
      OneMoreRead(prepared, outside, n);
    }

    /** Chunk by chunk: a chunk whose insert statement fails becomes failures, one whose transaction
        fails or that cannot be read back ends the save, the others become results. */
    method SavePreparedEmailChunks(user: nat, prepared: seq<string>, outside: nat -> Outside)
      returns (ok: bool, results: seq<SaveResult>, failures: seq<Failure>)
      modifies this
      ensures Grows(old(store), store)
      ensures ok <==> AllRead(prepared, outside)
      ensures ok ==> SavedUpTo(old(store), store, user, prepared, outside, ChunkCount(prepared), results, failures)
      ensures !ok ==> exists k: nat :: StoppedAt(old(store), store, user, prepared, outside, k)
    {
      results, failures, ok := [], [], true;
      var start, n := 0, 0;
      LoopStarts(store, user, prepared, outside);
      while start < |prepared|
        invariant start <= |prepared|
        invariant InLoop(old(store), store, user, prepared, outside, n, start, results, failures)
        decreases |prepared| - start
      {
        ok, start, results, failures := SaveNextChunk(user, prepared, outside, n, start, results, failures, old(store));
        if !ok {
          return;
        }
        n := n + 1;
      }
      LoopEnds(old(store), store, user, prepared, outside, n, results, failures);
    }

    method SaveAllIfAbsent(user: nat, dtos: seq<Dto>, outside: nat -> Outside)
      returns (ok: bool, results: seq<SaveResult>, failures: seq<Failure>)
      modifies this
      ensures Grows(old(store), store)
      ensures ok <==> AllRead(Prepared(user, dtos, |dtos|), outside)
      ensures ok ==> SavedAll(old(store), store, user, dtos, outside, results, failures)
      ensures !ok ==>
        exists k: nat :: StoppedAt(old(store), store, user, Prepared(user, dtos, |dtos|), outside, k)
    {
      if dtos == [] {
        return true, [], [];
      }
      var prepared, refused := PrepareEmails(user, dtos);
      if prepared == [] {
        assert refused + [] == refused;
        return true, [], refused;
      }
      var more;
      ok, results, more := SavePreparedEmailChunks(user, prepared, outside);
      failures := refused + more;
    }
  }

  /** Table, results and failures of a whole save. */
  ghost predicate SavedAll(s: Store, t: Store, user: nat, dtos: seq<Dto>, outside: nat -> Outside,
                           results: seq<SaveResult>, failures: seq<Failure>) {
    var prepared := Prepared(user, dtos, |dtos|);
    var saveFailures := FailuresOf(prepared, outside, ChunkCount(prepared));
    && failures == Refused(user, dtos, |dtos|) + saveFailures
    && SavedUpTo(s, t, user, prepared, outside, ChunkCount(prepared), results, saveFailures)
  }

  method BuildChunkSaveFailures(chunk: seq<string>) returns (failures: seq<Failure>)
    ensures failures == SaveFailures(chunk)
  {
    failures := [];
    for i := 0 to |chunk|
      invariant failures == SaveFailures(chunk)[..i]
    {
      failures := failures + [Failure(chunk[i], EMAIL_SAVE_FAILED)];
    }
  }

  // ---------------------------------------------------------------------------------------
  // The stage
  // ---------------------------------------------------------------------------------------

  datatype CreatedEmail = CreatedEmail(emailId: nat, messageId: string, body: string)

  /** One of the first `n` mails is dated and has this trimmed id. */
  ghost predicate SeenDated(dtos: seq<Dto>, n: nat, id: string)
    requires n <= |dtos|
  {
    exists i :: 0 <= i < n && dtos[i].dated && Trim(dtos[i].id) == id
  }

  /** The mails worth saving among the first `n`, with trimmed id and body digest. */
  ghost function Targets(dtos: seq<Dto>, digestOf: string -> string, n: nat): seq<Dto>
    requires n <= |dtos|
  {
    if n == 0 then []
    else
      var dto := dtos[n - 1];
      var id := Trim(dto.id);
      Targets(dtos, digestOf, n - 1)
      + if id == "" || !dto.dated || SeenDated(dtos, n - 1, id) then []
        else [dto.(id := id, digest := digestOf(dto.body))]
  }

  /** The failures of the others. */
  ghost function Unselected(dtos: seq<Dto>, n: nat): seq<Failure>
    requires n <= |dtos|
  {
    if n == 0 then []
    else
      var dto := dtos[n - 1];
      var id := Trim(dto.id);
      Unselected(dtos, n - 1)
      + if id == "" || !dto.dated then [Failure(id, INVALID_FETCHED_EMAIL)]
        else if SeenDated(dtos, n - 1, id) then [Failure(id, DUPLICATE_EXTERNAL_MESSAGE_ID)]
        else []
  }

  lemma {:induction false} EveryMailSelected(dtos: seq<Dto>, digestOf: string -> string, n: nat)
    requires n <= |dtos|
    ensures |Targets(dtos, digestOf, n)| + |Unselected(dtos, n)| == n && FetchCodes(Unselected(dtos, n))
  {
    if n > 0 {
      EveryMailSelected(dtos, digestOf, n - 1);
    }
  }

  /** An earlier dated mail has the id of mail `i`. */
  ghost predicate RepeatsDated(dtos: seq<Dto>, i: nat)
    requires i < |dtos|
  {
    exists m :: 0 <= m < i && dtos[m].dated && Trim(dtos[m].id) == Trim(dtos[i].id)
  }

  /** A mail is among the targets or among the failures, whichever it has to be. */
  predicate IsSelected(d: Dto, again: bool, digest: string, targets: seq<Dto>, failures: seq<Failure>) {
    var id := Trim(d.id);
    if id == "" || !d.dated then Failure(id, INVALID_FETCHED_EMAIL) in failures
    else if again then Failure(id, DUPLICATE_EXTERNAL_MESSAGE_ID) in failures
    else Dto(id, true, d.body, digest) in targets
  }

  lemma LastSelected(dtos: seq<Dto>, digestOf: string -> string, i: nat)
    requires i < |dtos|
    ensures IsSelected(dtos[i], RepeatsDated(dtos, i), digestOf(dtos[i].body), Targets(dtos, digestOf, i + 1),
                       Unselected(dtos, i + 1))
  {
  }

  lemma SelectedIn(d: Dto, again: bool, digest: string, a: seq<Dto>, b: seq<Failure>, more: seq<Dto>,
                   others: seq<Failure>)
    requires IsSelected(d, again, digest, a, b) && a <= more && b <= others
    ensures IsSelected(d, again, digest, more, others)
  {
  }

  /** What becomes of mail `i` among the first `n`: of several dated mails with one id only the first is a
      target. */
  lemma {:induction false} MailSelected(dtos: seq<Dto>, digestOf: string -> string, n: nat, i: nat, targets: seq<Dto>,
                                        failures: seq<Failure>)
    requires i < n <= |dtos| && targets == Targets(dtos, digestOf, n) && failures == Unselected(dtos, n)
    ensures IsSelected(dtos[i], RepeatsDated(dtos, i), digestOf(dtos[i].body), targets, failures)
    decreases n
  {
    if i == n - 1 {
      LastSelected(dtos, digestOf, i);
    } else {
      var before, others := Targets(dtos, digestOf, n - 1), Unselected(dtos, n - 1);
      assert before <= targets && others <= failures;
      MailSelected(dtos, digestOf, n - 1, i, before, others);
      SelectedIn(dtos[i], RepeatsDated(dtos, i), digestOf(dtos[i].body), before, others, targets, failures);
    }
  }

  predicate IsMail(dto: Dto, id: string, body: string) {
    dto.dated && Trim(dto.id) == id && dto.body == body
  }

  /** `byId` holds the save target of each id, made from a fetched mail. */
  ghost predicate Selected(dtos: seq<Dto>, targets: seq<Dto>, byId: map<string, Dto>) {
    && (forall j :: 0 <= j < |targets| ==> Trimmed(targets[j].id) && targets[j].id in byId)
    && (forall id :: id in byId ==> exists n :: 0 <= n < |dtos| && IsMail(dtos[n], id, byId[id].body))
  }

  lemma SelectedNext(dtos: seq<Dto>, targets: seq<Dto>, byId: map<string, Dto>, target: Dto, n: nat)
    requires Selected(dtos, targets, byId) && n < |dtos|
      && IsMail(dtos[n], target.id, target.body) && Trimmed(target.id)
    ensures Selected(dtos, targets + [target], byId[target.id := target])
  {
    var more := byId[target.id := target];
    forall id | id in more
      ensures exists k :: 0 <= k < |dtos| && IsMail(dtos[k], id, more[id].body)
    {
      if id != target.id {
        var k :| 0 <= k < |dtos| && IsMail(dtos[k], id, byId[id].body);
      }
    }
  }

  /** `byId` has exactly the ids of the dated mails among the first `n`. */
  ghost predicate Indexes(byId: map<string, Dto>, dtos: seq<Dto>, n: nat)
    requires n <= |dtos|
  {
    forall id :: id in byId <==> id != "" && SeenDated(dtos, n, id)
  }

  lemma IndexesNext(byId: map<string, Dto>, dtos: seq<Dto>, n: nat, target: Dto)
    requires n < |dtos| && Indexes(byId, dtos, n)
    ensures var id := Trim(dtos[n].id);
      if id == "" || !dtos[n].dated || id in byId then Indexes(byId, dtos, n + 1)
      else Indexes(byId[id := target], dtos, n + 1)
  {
    forall id
      ensures SeenDated(dtos, n + 1, id) <==> SeenDated(dtos, n, id) || (dtos[n].dated && Trim(dtos[n].id) == id)
    {
    }
  }

  /** What the first `n` mails have become. */
  ghost predicate SelectedUpTo(dtos: seq<Dto>, digestOf: string -> string, n: nat, targets: seq<Dto>,
                               byId: map<string, Dto>, failures: seq<Failure>)
    requires n <= |dtos|
  {
    && targets == Targets(dtos, digestOf, n) && failures == Unselected(dtos, n)
    && Indexes(byId, dtos, n) && Selected(dtos, targets, byId)
  }

  lemma UnselectedNext(dtos: seq<Dto>, digestOf: string -> string, n: nat, targets: seq<Dto>, byId: map<string, Dto>,
                       failures: seq<Failure>)
    requires n < |dtos| && SelectedUpTo(dtos, digestOf, n, targets, byId, failures)
    ensures var id := Trim(dtos[n].id);
      && (id == "" || !dtos[n].dated ==>
            SelectedUpTo(dtos, digestOf, n + 1, targets, byId, failures + [Failure(id, INVALID_FETCHED_EMAIL)]))
      && (id != "" && dtos[n].dated && id in byId ==>
            SelectedUpTo(dtos, digestOf, n + 1, targets, byId, failures + [Failure(id, DUPLICATE_EXTERNAL_MESSAGE_ID)]))
  {
    IndexesNext(byId, dtos, n, dtos[n]);
    assert targets + [] == targets;
  }

  lemma TargetNext(dtos: seq<Dto>, digestOf: string -> string, n: nat, targets: seq<Dto>, byId: map<string, Dto>,
                   failures: seq<Failure>, target: Dto)
    requires n < |dtos| && SelectedUpTo(dtos, digestOf, n, targets, byId, failures)
    requires target == dtos[n].(id := Trim(dtos[n].id), digest := digestOf(dtos[n].body))
    requires target.id != "" && dtos[n].dated && target.id !in byId
    ensures SelectedUpTo(dtos, digestOf, n + 1, targets + [target], byId[target.id := target], failures)
  {
    TrimIsTrimmed(dtos[n].id);
    IndexesNext(byId, dtos, n, target);
    SelectedNext(dtos, targets, byId, target, n);
    assert failures + [] == failures;
  }

  method SelectSaveTargets(dtos: seq<Dto>, digestOf: string -> string)
    returns (targets: seq<Dto>, byId: map<string, Dto>, failures: seq<Failure>)
    ensures targets == Targets(dtos, digestOf, |dtos|) && failures == Unselected(dtos, |dtos|)
    ensures Selected(dtos, targets, byId)
  {
    targets, byId, failures := [], map[], [];
    for n := 0 to |dtos|
      invariant SelectedUpTo(dtos, digestOf, n, targets, byId, failures)
    {
      var id := Trim(dtos[n].id);
      UnselectedNext(dtos, digestOf, n, targets, byId, failures);
      if id == "" || !dtos[n].dated {
        failures := failures + [Failure(id, INVALID_FETCHED_EMAIL)];
      } else if id in byId {
        failures := failures + [Failure(id, DUPLICATE_EXTERNAL_MESSAGE_ID)];
      } else {
        var target := dtos[n].(id := id, digest := digestOf(dtos[n].body));
        TargetNext(dtos, digestOf, n, targets, byId, failures, target);
        targets := targets + [target];
        byId := byId[id := target];
      }
    }
  }

  /** The created email carries the body of a fetched mail with its message id. */
  ghost predicate CarriesBody(dtos: seq<Dto>, c: CreatedEmail) {
    exists n :: 0 <= n < |dtos| && IsMail(dtos[n], c.messageId, c.body)
  }

  /** The results with this status, in order. */
  function WithStatus(results: seq<SaveResult>, status: string): seq<SaveResult> {
    if results == [] then []
    else
      WithStatus(results[..|results| - 1], status)
      + if results[|results| - 1].status == status then [results[|results| - 1]] else []
  }

  /** `created` are the emails of these results. */
  ghost predicate AreEmailsOf(dtos: seq<Dto>, created: seq<CreatedEmail>, results: seq<SaveResult>) {
    && |created| == |results|
    && forall i :: 0 <= i < |created| ==> IsEmailOf(dtos, created[i], results[i])
  }

  ghost predicate IsEmailOf(dtos: seq<Dto>, c: CreatedEmail, r: SaveResult) {
    c.emailId == r.emailId && c.messageId == r.messageId && CarriesBody(dtos, c)
  }

  function EmailIds(results: seq<SaveResult>): seq<nat> {
    seq(|results|, i requires 0 <= i < |results| => results[i].emailId)
  }

  /** A result for the id of a save target, created or existing. */
  ghost predicate ForTarget(targets: seq<Dto>, r: SaveResult) {
    r.status in {CREATED, EXISTING} && Seen(targets, |targets|, r.messageId)
  }

  ghost predicate ForTargets(targets: seq<Dto>, results: seq<SaveResult>) {
    forall i :: 0 <= i < |results| ==> ForTarget(targets, results[i])
  }

  lemma TargetIsIndexed(dtos: seq<Dto>, targets: seq<Dto>, byId: map<string, Dto>, r: SaveResult)
    requires Selected(dtos, targets, byId) && ForTarget(targets, r)
    ensures r.messageId in byId
    ensures IsEmailOf(dtos, CreatedEmail(r.emailId, r.messageId, byId[r.messageId].body), r)
  {
    var j :| 0 <= j < |targets| && Trim(targets[j].id) == r.messageId;
    TrimmedStays(targets[j].id);
    assert r.messageId in byId;
  }

  /** What the first `i` results have become. */
  ghost predicate SortedUpTo(dtos: seq<Dto>, results: seq<SaveResult>, i: nat,
                             created: seq<CreatedEmail>, existing: seq<nat>)
    requires i <= |results|
  {
    && AreEmailsOf(dtos, created, WithStatus(results[..i], CREATED))
    && existing == EmailIds(WithStatus(results[..i], EXISTING))
  }

  lemma CreatedNext(dtos: seq<Dto>, results: seq<SaveResult>, i: nat, created: seq<CreatedEmail>, existing: seq<nat>,
                    c: CreatedEmail)
    requires i < |results| && SortedUpTo(dtos, results, i, created, existing)
    requires results[i].status == CREATED && IsEmailOf(dtos, c, results[i])
    ensures SortedUpTo(dtos, results, i + 1, created + [c], existing)
  {
    assert CREATED[0] != EXISTING[0];
    OneMoreStatus(results, i, CREATED);
    OneMoreStatus(results, i, EXISTING);
    assert WithStatus(results[..i], EXISTING) + [] == WithStatus(results[..i], EXISTING);
  }

  lemma ExistingNext(dtos: seq<Dto>, results: seq<SaveResult>, i: nat, created: seq<CreatedEmail>, existing: seq<nat>)
    requires i < |results| && SortedUpTo(dtos, results, i, created, existing) && results[i].status == EXISTING
    ensures SortedUpTo(dtos, results, i + 1, created, existing + [results[i].emailId])
  {
    assert CREATED[0] != EXISTING[0];
    OneMoreStatus(results, i, CREATED);
    OneMoreStatus(results, i, EXISTING);
    assert WithStatus(results[..i], CREATED) + [] == WithStatus(results[..i], CREATED);
  }

  lemma OneMoreStatus(results: seq<SaveResult>, i: nat, status: string)
    requires i < |results|
    ensures WithStatus(results[..i + 1], status) ==
      WithStatus(results[..i], status) + if results[i].status == status then [results[i]] else []
  {
    assert results[..i + 1][..i] == results[..i];
  }

  /** The loop over the save results. `missing` and `invalid` count the visits to the two branches for
      results that should not occur. */
  method SortResults(dtos: seq<Dto>, targets: seq<Dto>, byId: map<string, Dto>, results: seq<SaveResult>)
    returns (created: seq<CreatedEmail>, existing: seq<nat>, failures: seq<Failure>, missing: int, invalid: int)
    requires Selected(dtos, targets, byId) && ForTargets(targets, results)
    ensures missing == 0 && invalid == 0 && failures == []
    ensures AreEmailsOf(dtos, created, WithStatus(results, CREATED))
    ensures existing == EmailIds(WithStatus(results, EXISTING))
  {
    created, existing, failures, missing, invalid := [], [], [], 0, 0;
    for i := 0 to |results|
      invariant missing == 0 && invalid == 0 && failures == []
      invariant SortedUpTo(dtos, results, i, created, existing)
    {
      var r := results[i];
      TargetIsIndexed(dtos, targets, byId, r);
      if r.status == CREATED {
        if r.messageId in byId {
          var target := byId[r.messageId];
          CreatedNext(dtos, results, i, created, existing, CreatedEmail(r.emailId, r.messageId, target.body));
          created := created + [CreatedEmail(r.emailId, r.messageId, target.body)];
        } else {
          missing := missing + 1;
        }
      } else if r.status == EXISTING {
        ExistingNext(dtos, results, i, created, existing);
        existing := existing + [r.emailId];
      } else {
        invalid := invalid + 1;
        failures := failures + [Failure(r.messageId, EMAIL_SAVE_FAILED)];
      }
    }
    assert results[..|results|] == results;
  }

  ghost predicate AllSeen(targets: seq<Dto>, ids: seq<string>) {
    forall i :: 0 <= i < |ids| ==> Seen(targets, |targets|, ids[i])
  }

  lemma ChunkForTargets(store: Store, user: nat, targets: seq<Dto>, chunk: seq<string>, run: nat)
    requires AllSeen(targets, chunk) && AreStored(store, user, chunk)
    ensures ForTargets(targets, ResultsFor(store, user, chunk, run))
  {
  }

  lemma {:induction false} ResultsForTargets(store: Store, user: nat, targets: seq<Dto>, prepared: seq<string>,
                                             outside: nat -> Outside, n: nat)
    requires AllSeen(targets, prepared) && ChunksStored(store, user, prepared, outside, n)
    ensures ForTargets(targets, ResultsOf(store, user, prepared, outside, n))
  {
    if n > 0 {
      ResultsForTargets(store, user, targets, prepared, outside, n - 1);
      if outside(n - 1).insert.Inserted? {
        ChunkForTargets(store, user, targets, Chunk(prepared, n - 1), outside(n - 1).run);
      }
    }
  }

  lemma {:induction false} StatusesCount(targets: seq<Dto>, results: seq<SaveResult>)
    requires ForTargets(targets, results)
    ensures |WithStatus(results, CREATED)| + |WithStatus(results, EXISTING)| == |results|
  {
    assert CREATED[0] != EXISTING[0];
    if results != [] {
      StatusesCount(targets, results[..|results| - 1]);
    }
  }

  lemma {:induction false} FailureCodes(prepared: seq<string>, outside: nat -> Outside, n: nat)
    ensures FetchCodes(FailuresOf(prepared, outside, n))
  {
    if n > 0 {
      FailureCodes(prepared, outside, n - 1);
    }
  }

  /** A whole fetch that worked: which mails are created, existing or failed is fixed by the table and
      by what the outside does. */
  ghost predicate Fetched(s: Store, t: Store, user: nat, dtos: seq<Dto>, targets: seq<Dto>, outside: nat -> Outside,
                          created: seq<CreatedEmail>, existing: seq<nat>, failures: seq<Failure>) {
    exists results, saveFailures ::
      && SavedAll(s, t, user, targets, outside, results, saveFailures)
      && AreEmailsOf(dtos, created, WithStatus(results, CREATED))
      && existing == EmailIds(WithStatus(results, EXISTING))
      && failures == Unselected(dtos, |dtos|) + saveFailures
  }

  lemma SavedForTargets(s: Store, t: Store, user: nat, targets: seq<Dto>, outside: nat -> Outside,
                        results: seq<SaveResult>, failures: seq<Failure>)
    requires SavedAll(s, t, user, targets, outside, results, failures)
    ensures ForTargets(targets, results)
  {
    var prepared := Prepared(user, targets, |targets|);
    PreparedOnce(user, targets, |targets|);
    ResultsForTargets(t, user, targets, prepared, outside, ChunkCount(prepared));
  }

  lemma SavedCodes(user: nat, targets: seq<Dto>, outside: nat -> Outside, prepared: seq<string>, n: nat)
    ensures FetchCodes(Refused(user, targets, |targets|) + FailuresOf(prepared, outside, n))
  {
    RefusedCodes(user, targets, |targets|);
    FailureCodes(prepared, outside, n);
    CodesTogether(Refused(user, targets, |targets|), FailuresOf(prepared, outside, n));
  }

  lemma SavedCounts(s: Store, t: Store, user: nat, targets: seq<Dto>, outside: nat -> Outside,
                    results: seq<SaveResult>, failures: seq<Failure>)
    requires SavedAll(s, t, user, targets, outside, results, failures)
    ensures |results| + |failures| == |targets|
  {
    var prepared := Prepared(user, targets, |targets|);
    var saveFailures := FailuresOf(prepared, outside, ChunkCount(prepared));
    PreparedOnce(user, targets, |targets|);
    EveryMailReported(t, user, prepared, outside, ChunkCount(prepared), results, saveFailures);
    AllChunks(prepared);
    assert prepared[..|prepared|] == prepared;
    PartitionCounts(prepared, ResultIds(results), FailureIds(saveFailures));
  }

  /** Created, existing and failed mails count all mails. */
  lemma FetchedCounts(s: Store, t: Store, user: nat, targets: seq<Dto>, outside: nat -> Outside,
                      results: seq<SaveResult>, failures: seq<Failure>)
    requires SavedAll(s, t, user, targets, outside, results, failures)
    ensures ForTargets(targets, results) && FetchCodes(failures)
    ensures |WithStatus(results, CREATED)| + |WithStatus(results, EXISTING)| + |failures| == |targets|
  {
    SavedForTargets(s, t, user, targets, outside, results, failures);
    var prepared := Prepared(user, targets, |targets|);
    SavedCodes(user, targets, outside, prepared, ChunkCount(prepared));
    SavedCounts(s, t, user, targets, outside, results, failures);
    StatusesCount(targets, results);
  }

  lemma CodesTogether(a: seq<Failure>, b: seq<Failure>)
    requires FetchCodes(a) && FetchCodes(b)
    ensures FetchCodes(a + b)
  {
  }

  // ---------------------------------------------------------------------------------------
  // Who is created and who existed
  // ---------------------------------------------------------------------------------------

  /** The message was saved with a chunk of this run id: it is a created email under its row's id if its
      row carries that id, and otherwise its row's id is an existing one. */
  ghost predicate IsDelivered(store: Store, user: nat, id: string, run: nat, created: seq<CreatedEmail>,
                              existing: seq<nat>) {
    && (user, id) in store.rows
    && var row := store.rows[(user, id)];
      if row.run != run then row.id in existing
      else exists k :: 0 <= k < |created| && created[k].messageId == id && created[k].emailId == row.id
  }

  /** Every message of an inserted chunk is delivered. */
  ghost predicate AllDelivered(store: Store, user: nat, prepared: seq<string>, outside: nat -> Outside,
                               created: seq<CreatedEmail>, existing: seq<nat>) {
    forall n: nat, i: nat :: n < ChunkCount(prepared) && outside(n).insert.Inserted? && i < |Chunk(prepared, n)| ==>
      IsDelivered(store, user, Chunk(prepared, n)[i], outside(n).run, created, existing)
  }

  /** The id of a stored message of the save. */
  ghost predicate IsIdOf(store: Store, user: nat, prepared: seq<string>, emailId: nat, messageId: string) {
    messageId in prepared && (user, messageId) in store.rows && emailId == store.rows[(user, messageId)].id
  }

  ghost predicate IsIdOfSome(store: Store, user: nat, prepared: seq<string>, emailId: nat) {
    exists id :: IsIdOf(store, user, prepared, emailId, id)
  }

  /** Nothing else is. */
  ghost predicate OnlyDelivered(store: Store, user: nat, prepared: seq<string>, created: seq<CreatedEmail>,
                                existing: seq<nat>) {
    && (forall k :: 0 <= k < |created| ==> IsIdOf(store, user, prepared, created[k].emailId, created[k].messageId))
    && (forall k :: 0 <= k < |existing| ==> IsIdOfSome(store, user, prepared, existing[k]))
  }

  lemma ResultsAnswer(store: Store, user: nat, ids: seq<string>, run: nat)
    requires AreStored(store, user, ids)
    ensures Answers(store, user, ids, run, ResultsFor(store, user, ids, run))
  {
  }

  /** The answer is for a message of one of the first `n` chunks. */
  ghost predicate AnswersSome(store: Store, user: nat, prepared: seq<string>, outside: nat -> Outside, n: nat,
                              r: SaveResult) {
    exists m: nat, i: nat :: m < n && i < |Chunk(prepared, m)| &&
      AnswerFor(store, user, Chunk(prepared, m)[i], outside(m).run, r)
  }

  lemma {:induction false} EachAnswersSome(store: Store, user: nat, prepared: seq<string>, outside: nat -> Outside,
                                           n: nat, k: nat)
    requires ChunksStored(store, user, prepared, outside, n)
    requires k < |ResultsOf(store, user, prepared, outside, n)|
    ensures AnswersSome(store, user, prepared, outside, n, ResultsOf(store, user, prepared, outside, n)[k])
    decreases n
  {
    var before, o := ResultsOf(store, user, prepared, outside, n - 1), outside(n - 1);
    if k < |before| {
      EachAnswersSome(store, user, prepared, outside, n - 1, k);
    } else {
      var chunk := Chunk(prepared, n - 1);
      ResultsAnswer(store, user, chunk, o.run);
      assert AnswerFor(store, user, chunk[k - |before|], o.run, ResultsFor(store, user, chunk, o.run)[k - |before|]);
    }
  }

  lemma {:induction false} SomeAnswersEach(store: Store, user: nat, prepared: seq<string>, outside: nat -> Outside,
                                           n: nat, m: nat, i: nat)
    returns (k: nat)
    requires ChunksStored(store, user, prepared, outside, n) && m < n && outside(m).insert.Inserted?
    requires i < |Chunk(prepared, m)|
    ensures k < |ResultsOf(store, user, prepared, outside, n)|
    ensures AnswerFor(store, user, Chunk(prepared, m)[i], outside(m).run,
                      ResultsOf(store, user, prepared, outside, n)[k])
    decreases n
  {
    if m < n - 1 {
      k := SomeAnswersEach(store, user, prepared, outside, n - 1, m, i);
    } else {
      ResultsAnswer(store, user, Chunk(prepared, m), outside(m).run);
      k := |ResultsOf(store, user, prepared, outside, n - 1)| + i;
    }
  }

  lemma {:induction false} WithStatusHas(results: seq<SaveResult>, status: string, r: SaveResult)
    ensures r in WithStatus(results, status) <==> r in results && r.status == status
  {
    if results != [] {
      var last := |results| - 1;
      WithStatusHas(results[..last], status, r);
      assert r in results <==> r in results[..last] || r == results[last];
    }
  }

  lemma ChunkIsPrepared(prepared: seq<string>, n: nat, i: nat)
    requires i < |Chunk(prepared, n)|
    ensures Chunk(prepared, n)[i] in prepared
  {
  }

  lemma CreatedDelivered(dtos: seq<Dto>, created: seq<CreatedEmail>, results: seq<SaveResult>, r: SaveResult)
    requires AreEmailsOf(dtos, created, WithStatus(results, CREATED)) && r in results && r.status == CREATED
    ensures exists k :: 0 <= k < |created| && created[k].messageId == r.messageId && created[k].emailId == r.emailId
  {
    WithStatusHas(results, CREATED, r);
    var k :| 0 <= k < |WithStatus(results, CREATED)| && WithStatus(results, CREATED)[k] == r;
    assert IsEmailOf(dtos, created[k], r);
  }

  lemma ExistingDelivered(results: seq<SaveResult>, existing: seq<nat>, r: SaveResult)
    requires existing == EmailIds(WithStatus(results, EXISTING)) && r in results && r.status == EXISTING
    ensures r.emailId in existing
  {
    WithStatusHas(results, EXISTING, r);
    var k :| 0 <= k < |WithStatus(results, EXISTING)| && WithStatus(results, EXISTING)[k] == r;
    assert existing[k] == r.emailId;
  }

  lemma EachDelivered(t: Store, user: nat, dtos: seq<Dto>, prepared: seq<string>, outside: nat -> Outside,
                      results: seq<SaveResult>, created: seq<CreatedEmail>, existing: seq<nat>, n: nat, i: nat)
    requires ChunksStored(t, user, prepared, outside, ChunkCount(prepared))
    requires results == ResultsOf(t, user, prepared, outside, ChunkCount(prepared))
    requires AreEmailsOf(dtos, created, WithStatus(results, CREATED))
    requires existing == EmailIds(WithStatus(results, EXISTING))
    requires n < ChunkCount(prepared) && outside(n).insert.Inserted? && i < |Chunk(prepared, n)|
    ensures IsDelivered(t, user, Chunk(prepared, n)[i], outside(n).run, created, existing)
  {
    var k := SomeAnswersEach(t, user, prepared, outside, ChunkCount(prepared), n, i);
    assert CREATED[0] != EXISTING[0];
    if results[k].status == CREATED {
      CreatedDelivered(dtos, created, results, results[k]);
    } else {
      ExistingDelivered(results, existing, results[k]);
    }
  }

  lemma NothingElseDelivered(t: Store, user: nat, dtos: seq<Dto>, prepared: seq<string>, outside: nat -> Outside,
                             results: seq<SaveResult>, created: seq<CreatedEmail>, existing: seq<nat>)
    requires ChunksStored(t, user, prepared, outside, ChunkCount(prepared))
    requires results == ResultsOf(t, user, prepared, outside, ChunkCount(prepared))
    requires AreEmailsOf(dtos, created, WithStatus(results, CREATED))
    requires existing == EmailIds(WithStatus(results, EXISTING))
    ensures OnlyDelivered(t, user, prepared, created, existing)
  {
    forall k | 0 <= k < |created|
      ensures IsIdOf(t, user, prepared, created[k].emailId, created[k].messageId)
    {
      var r := WithStatus(results, CREATED)[k];
      assert IsEmailOf(dtos, created[k], r);
      StatusHasId(t, user, prepared, outside, results, CREATED, r);
    }
    forall k | 0 <= k < |existing|
      ensures IsIdOfSome(t, user, prepared, existing[k])
    {
      var r := WithStatus(results, EXISTING)[k];
      StatusHasId(t, user, prepared, outside, results, EXISTING, r);
      assert existing[k] == r.emailId;
      assert IsIdOf(t, user, prepared, existing[k], r.messageId);
    }
  }

  lemma FetchedDelivers(s: Store, t: Store, user: nat, dtos: seq<Dto>, targets: seq<Dto>, outside: nat -> Outside,
                        created: seq<CreatedEmail>, existing: seq<nat>, failures: seq<Failure>)
    requires Fetched(s, t, user, dtos, targets, outside, created, existing, failures)
    ensures AllDelivered(t, user, Prepared(user, targets, |targets|), outside, created, existing)
    ensures OnlyDelivered(t, user, Prepared(user, targets, |targets|), created, existing)
  {
    var results: seq<SaveResult>, saveFailures: seq<Failure> :|
      && SavedAll(s, t, user, targets, outside, results, saveFailures)
      && AreEmailsOf(dtos, created, WithStatus(results, CREATED))
      && existing == EmailIds(WithStatus(results, EXISTING))
      && failures == Unselected(dtos, |dtos|) + saveFailures;
    var prepared := Prepared(user, targets, |targets|);
    forall n: nat, i: nat | n < ChunkCount(prepared) && outside(n).insert.Inserted? && i < |Chunk(prepared, n)|
      ensures IsDelivered(t, user, Chunk(prepared, n)[i], outside(n).run, created, existing)
    {
      EachDelivered(t, user, dtos, prepared, outside, results, created, existing, n, i);
    }
    NothingElseDelivered(t, user, dtos, prepared, outside, results, created, existing);
  }

  lemma StatusHasId(t: Store, user: nat, prepared: seq<string>, outside: nat -> Outside, results: seq<SaveResult>,
                    status: string, r: SaveResult)
    requires ChunksStored(t, user, prepared, outside, ChunkCount(prepared))
    requires results == ResultsOf(t, user, prepared, outside, ChunkCount(prepared)) && r in WithStatus(results, status)
    ensures IsIdOf(t, user, prepared, r.emailId, r.messageId)
  {
    WithStatusHas(results, status, r);
    var k :| 0 <= k < |results| && results[k] == r;
    EachAnswersSome(t, user, prepared, outside, ChunkCount(prepared), k);
    var m: nat, i: nat :| m < ChunkCount(prepared) && i < |Chunk(prepared, m)| &&
      AnswerFor(t, user, Chunk(prepared, m)[i], outside(m).run, r);
    ChunkIsPrepared(prepared, m, i);
  }

  /** Saves what the fetcher returned and sorts the outcomes; `own` are the failures added. */
  method SaveFetched(repository: EmailRepository, user: nat, dtos: seq<Dto>,
                     digestOf: string -> string, outside: nat -> Outside)
    returns (ok: bool, created: seq<CreatedEmail>, existing: seq<nat>, own: seq<Failure>, missing: int, invalid: int)
    modifies repository
    ensures Grows(old(repository.store), repository.store)
    ensures missing == 0 && invalid == 0
    ensures var targets := Targets(dtos, digestOf, |dtos|);
      && (ok <==> AllRead(Prepared(user, targets, |targets|), outside))
      && (ok ==> Fetched(old(repository.store), repository.store, user, dtos, targets, outside, created, existing, own))
      && (!ok ==> exists k: nat ::
            StoppedAt(old(repository.store), repository.store, user, Prepared(user, targets, |targets|), outside, k))
    ensures ok ==> FetchCodes(own) && |created| + |existing| + |own| == |dtos|
  {
    created, existing, missing, invalid := [], [], 0, 0;
    var targets, byId;
    targets, byId, own := SelectSaveTargets(dtos, digestOf);
    var results, saveFailures;
    ok, results, saveFailures := repository.SaveAllIfAbsent(user, targets, outside);
    if !ok {
      return;
    }
    FetchedCounts(old(repository.store), repository.store, user, targets, outside, results, saveFailures);
    EveryMailSelected(dtos, digestOf, |dtos|);
    CodesTogether(own, saveFailures);
    var invalidFailures;
    created, existing, invalidFailures, missing, invalid := SortResults(dtos, targets, byId, results);
    own := own + saveFailures;
    assert own + [] == own;
    own := own + invalidFailures;
  }

  /** The stage: its failures come after those of the fetch. */
  method Execute(repository: EmailRepository, user: nat, dtos: seq<Dto>, fetchFailures: seq<Failure>,
                 digestOf: string -> string, outside: nat -> Outside)
    returns (ok: bool, created: seq<CreatedEmail>, existing: seq<nat>, failures: seq<Failure>,
             missing: int, invalid: int)
    modifies repository
    ensures Grows(old(repository.store), repository.store)
    ensures missing == 0 && invalid == 0
    ensures var targets := Targets(dtos, digestOf, |dtos|);
      var prepared := Prepared(user, targets, |targets|);
      && (ok <==> AllRead(prepared, outside))
      && (!ok ==> exists k: nat ::
            StoppedAt(old(repository.store), repository.store, user, prepared, outside, k))
    ensures fetchFailures <= failures
    ensures ok ==> Fetched(old(repository.store), repository.store, user, dtos,
      Targets(dtos, digestOf, |dtos|), outside,
                           created, existing, failures[|fetchFailures|..])
    ensures ok ==>
      var targets := Targets(dtos, digestOf, |dtos|);
      var prepared := Prepared(user, targets, |targets|);
      && AllDelivered(repository.store, user, prepared, outside, created, existing)
      && OnlyDelivered(repository.store, user, prepared, created, existing)
    ensures ok && FetchCodes(fetchFailures) ==> FetchCodes(failures)
    ensures ok ==> |created| + |existing| + (|failures| - |fetchFailures|) == |dtos|
  {
    var own;
    ok, created, existing, own, missing, invalid := SaveFetched(repository, user, dtos, digestOf, outside);
    failures := fetchFailures + own;
    assert failures[|fetchFailures|..] == own;
    if ok {
      FetchedDelivers(old(repository.store), repository.store, user, dtos, Targets(dtos, digestOf, |dtos|), outside,
                      created, existing, own);
    }
    if ok && FetchCodes(fetchFailures) {
      CodesTogether(fetchFailures, own);
    }
  }
}
