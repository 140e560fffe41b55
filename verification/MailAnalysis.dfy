/** The mail analysis stage: every valid email is analysed concurrently, then its parsed emails are
    numbered, saved, and returned with the ids of their rows. */
module MailAnalysis {
  import opened Text
  import opened Filtering
  import opened Times
  import opened ParsedEmails

  datatype Email = Email(id: nat, messageId: string, body: string, digest: string)

  /** What the analyser says about one email. */
  datatype Answer = Broken(malformed: bool) | Drafts(parsed: seq<ParsedEmail>, prompt: string)

  /** What surrounds the save of one email's parsed emails. */
  datatype Turn = Turn(run: string, now: int, fails: bool)

  datatype Item = Item(parsedEmailId: nat, emailId: nat, messageId: string, digest: string, parsed: ParsedEmail)
  datatype Failure = Failure(emailId: nat, messageId: string, code: string)
  datatype Result = Result(items: seq<Item>, count: nat, failures: seq<Failure>)

  const INVALID_EMAIL_INPUT := "invalid_email_input"
  const ANALYSIS_FAILED := "analysis_failed"
  const RESPONSE_INVALID := "analysis_response_invalid"
  const RESPONSE_EMPTY := "analysis_response_empty"
  const SAVE_FAILED := "parsed_email_save_failed"

  // ---------------------------------------------------------------------------------------
  // Input
  // ---------------------------------------------------------------------------------------

  function NormalizeEmail(e: Email): Email {
    Email(e.id, Trim(e.messageId), Trim(e.body), Trim(e.digest))
  }

  predicate EmailValid(e: Email) {
    e.id != 0 && e.messageId != "" && e.body != ""
  }

  function ValidEmails(emails: seq<Email>): seq<Email> {
    if emails == [] then []
    else
      var e := NormalizeEmail(emails[|emails| - 1]);
      ValidEmails(emails[..|emails| - 1]) + if EmailValid(e) then [e] else []
  }

  function InvalidEmails(emails: seq<Email>): seq<Failure> {
    if emails == [] then []
    else
      var e := NormalizeEmail(emails[|emails| - 1]);
      InvalidEmails(emails[..|emails| - 1])
      + if EmailValid(e) then [] else [Failure(e.id, e.messageId, INVALID_EMAIL_INPUT)]
  }

  method NormalizeAndValidateEmails(emails: seq<Email>) returns (valid: seq<Email>, failures: seq<Failure>)
    ensures valid == ValidEmails(emails) && failures == InvalidEmails(emails)
    ensures |valid| + |failures| == |emails|
  {
    valid, failures := [], [];
    for i := 0 to |emails|
      invariant valid == ValidEmails(emails[..i]) && failures == InvalidEmails(emails[..i])
      invariant |valid| + |failures| == i
    {
      assert emails[..i + 1][..i] == emails[..i];
      var e := NormalizeEmail(emails[i]);
      if e.id == 0 || e.messageId == "" || e.body == "" {
        failures := failures + [Failure(e.id, e.messageId, INVALID_EMAIL_INPUT)];
      } else {
        valid := valid + [e];
      }
    }
    assert emails[..|emails|] == emails;
  }

  // ---------------------------------------------------------------------------------------
  // Concurrent analysis
  // ---------------------------------------------------------------------------------------

  predicate Distinct(order: seq<nat>) {
    forall i, j :: 0 <= i < j < |order| ==> order[i] != order[j]
  }

  function Below(n: nat): (r: set<nat>)
    ensures |r| == n && forall i: nat :: i in r <==> i < n
  {
    if n == 0 then {} else Below(n - 1) + {n - 1}
  }

  function Elements(order: seq<nat>): set<nat> {
    set x | x in order
  }

  lemma {:induction false} ElementCount(order: seq<nat>)
    requires Distinct(order)
    ensures |Elements(order)| == |order|
  {
    if order != [] {
      var last := |order| - 1;
      ElementCount(order[..last]);
      assert Elements(order) == Elements(order[..last]) + {order[last]};
      assert order[last] !in order[..last];
    }
  }

  lemma {:induction false} SameSize(a: set<nat>, b: set<nat>)
    requires a <= b && |a| == |b|
    ensures a == b
  {
    if a != {} {
      var x :| x in a;
      SameSize(a - {x}, b - {x});
    }
  }

  /** Every order in which all goroutines finish writes every entry. */
  ghost predicate CompleteOrder(order: seq<nat>, n: nat) {
    Distinct(order) && |order| == n && forall k :: 0 <= k < n ==> order[k] < n
  }

  lemma EveryIndexOccurs(order: seq<nat>, n: nat, i: nat) returns (k: nat)
    requires CompleteOrder(order, n) && i < n
    ensures k < n && order[k] == i
  {
    ElementCount(order);
    assert forall x :: x in order ==> x in Below(n);
    SameSize(Elements(order), Below(n));
    assert i in Elements(order);
    k :| k < |order| && order[k] == i;
  }

  function AnswersOf(n: nat, analyze: nat -> Answer): seq<Answer> {
    seq(n, i requires 0 <= i < n => analyze(i))
  }

  /** One goroutine per email writes its own entry; `order` is the order in which they finish. */
  method AnalyzeEmailsConcurrently(emails: seq<Email>, analyze: nat -> Answer, order: seq<nat>)
    returns (answers: seq<Answer>)
    requires CompleteOrder(order, |emails|)
    ensures answers == AnswersOf(|emails|, analyze)
  {
    var results := new Answer[|emails|](_ => Broken(false));
    for k := 0 to |order|
      invariant forall j :: 0 <= j < k ==> results[order[j]] == analyze(order[j])
    {
      results[order[k]] := analyze(order[k]);
    }
    forall i: nat | i < |emails|
      ensures results[i] == analyze(i)
    {
      var k := EveryIndexOccurs(order, |emails|, i);
    }
    answers := results[..];
  }

  // ---------------------------------------------------------------------------------------
  // One email
  // ---------------------------------------------------------------------------------------

  function Numbered(ps: seq<ParsedEmail>, digest: string): seq<ParsedEmail> {
    seq(|ps|, i requires 0 <= i < |ps| => WithFallback(ps[i], digest))
  }

  /** What is handed to the repository. */
  function Prepared(ps: seq<ParsedEmail>, digest: string): seq<ParsedEmail> {
    Numbered(NormalizeAll(ps), digest)
  }

  /** The repository's own normalisation changes and drops nothing. */
  lemma PreparedStays(ps: seq<ParsedEmail>, digest: string)
    ensures AllClean(Prepared(ps, digest)) && NormalizeAll(Prepared(ps, digest)) == Prepared(ps, digest)
  {
    var kept := NormalizeAll(ps);
    NormalizeAllCleans(ps);
    forall i | 0 <= i < |kept|
      ensures Clean(WithFallback(kept[i], digest))
    {
      FallbackClean(kept[i], digest);
    }
    CleanStays(Prepared(ps, digest));
  }

  function InputFor(user: nat, e: Email, a: Answer, turn: Turn): SaveInput
    requires a.Drafts?
  {
    SaveInput(user, e.id, turn.run, 0, turn.now, Trim(a.prompt), Prepared(a.parsed, e.digest))
  }

  datatype Outcome = Saved(parsed: seq<ParsedEmail>) | Failed(code: string)

  function OutcomeOf(user: nat, e: Email, a: Answer, turn: Turn): Outcome {
    if a.Broken? then Failed(if a.malformed then RESPONSE_INVALID else ANALYSIS_FAILED)
    else if Prepared(a.parsed, e.digest) == [] then Failed(RESPONSE_EMPTY)
    else if !InputValid(InputFor(user, e, a, turn)) || turn.fails then Failed(SAVE_FAILED)
    else Saved(Prepared(a.parsed, e.digest))
  }

  method NumberParsed(ps: seq<ParsedEmail>, digest: string) returns (r: seq<ParsedEmail>)
    ensures r == Numbered(ps, digest)
  {
    var a := new ParsedEmail[|ps|](i requires 0 <= i < |ps| => ps[i]);
    ApplyFallbackBillingNumbers(a, digest);
    r := a[..];
  }

  method SaveOne(repo: ParsedEmailRepository, user: nat, e: Email, a: Answer, turn: Turn)
    returns (o: Outcome, records: seq<Record>)
    requires repo.Valid()
    modifies repo
    ensures repo.Valid() && o == OutcomeOf(user, e, a, turn)
    ensures o.Failed? ==> repo.rows == old(repo.rows) && records == []
    ensures o.Saved? ==>
      && repo.rows == old(repo.rows) + RowsOf(InputFor(user, e, a, turn), o.parsed, old(repo.nextId))
      && records == RecordsOf(RowsOf(InputFor(user, e, a, turn), o.parsed, old(repo.nextId)))
  {
    records := [];
    if a.Broken? {
      return Failed(if a.malformed then RESPONSE_INVALID else ANALYSIS_FAILED), [];
    }
    var drafts := NormalizeDrafts(a.parsed);
    var ps := NumberParsed(drafts, e.digest);
    if ps == [] {
      return Failed(RESPONSE_EMPTY), [];
    }
    PreparedStays(a.parsed, e.digest);
    var input := SaveInput(user, e.id, turn.run, 0, turn.now, Trim(a.prompt), ps);
    assert input.(parsed := ps) == input;
    var saved := repo.SaveAll(input, turn.fails);
    if saved.None? {
      return Failed(SAVE_FAILED), [];
    }
    return Saved(ps), saved.value;
  }

  // ---------------------------------------------------------------------------------------
  // The stage
  // ---------------------------------------------------------------------------------------

  datatype Analysed = Analysed(email: Email, parsed: ParsedEmail)

  function Pairs(e: Email, ps: seq<ParsedEmail>): seq<Analysed> {
    seq(|ps|, i requires 0 <= i < |ps| => Analysed(e, ps[i]))
  }

  function PairsOf(user: nat, e: Email, a: Answer, turn: Turn): seq<Analysed> {
    var o := OutcomeOf(user, e, a, turn);
    if o.Saved? then Pairs(e, o.parsed) else []
  }

  function FailureOf(user: nat, e: Email, a: Answer, turn: Turn): seq<Failure> {
    var o := OutcomeOf(user, e, a, turn);
    if o.Failed? then [Failure(e.id, e.messageId, o.code)] else []
  }

  /** The first `n` parts, one after the other. */
  function Flat<T>(part: int -> seq<T>, n: nat): seq<T> {
    if n == 0 then [] else Flat(part, n - 1) + part(n - 1)
  }

  lemma {:induction false} FlatHas<T>(part: int -> seq<T>, n: nat, i: nat, x: T)
    requires i < n && x in part(i)
    ensures x in Flat(part, n)
    decreases n
  {
    if i < n - 1 {
      FlatHas(part, n - 1, i, x);
    }
  }

  function PairsAt(user: nat, emails: seq<Email>, answers: seq<Answer>, turns: seq<Turn>): int -> seq<Analysed> {
    i =>
      if 0 <= i < |emails| && i < |answers| && i < |turns| then PairsOf(user, emails[i], answers[i], turns[i]) else []
  }

  function FailureAt(user: nat, emails: seq<Email>, answers: seq<Answer>, turns: seq<Turn>): int -> seq<Failure> {
    i =>
      if 0 <= i < |emails| && i < |answers| && i < |turns| then FailureOf(user, emails[i], answers[i], turns[i]) else []
  }

  /** All parsed emails the stage has to save, in order. */
  function ToSave(user: nat, emails: seq<Email>, answers: seq<Answer>, turns: seq<Turn>, n: nat): seq<Analysed>
    requires n <= |emails| && n <= |answers| && n <= |turns|
  {
    Flat(PairsAt(user, emails, answers, turns), n)
  }

  function FailedEmails(user: nat, emails: seq<Email>, answers: seq<Answer>, turns: seq<Turn>, n: nat): seq<Failure>
    requires n <= |emails| && n <= |answers| && n <= |turns|
  {
    Flat(FailureAt(user, emails, answers, turns), n)
  }

  lemma OneMoreEmail(user: nat, emails: seq<Email>, answers: seq<Answer>, turns: seq<Turn>, i: nat)
    requires i < |emails| && i < |answers| && i < |turns|
    ensures ToSave(user, emails, answers, turns, i + 1) ==
      ToSave(user, emails, answers, turns, i) + PairsOf(user, emails[i], answers[i], turns[i])
    ensures FailedEmails(user, emails, answers, turns, i + 1) ==
      FailedEmails(user, emails, answers, turns, i) + FailureOf(user, emails[i], answers[i], turns[i])
  {
  }

  /** `item` returns `x` under the id of the row that stores it. */
  predicate Matches(item: Item, x: Analysed, r: Row, user: nat) {
    && item == Item(r.id, x.email.id, x.email.messageId, x.email.digest, x.parsed)
    && r.email == x.email.id && r.user == user
    && r.parsed == x.parsed.(extractedAt := r.parsed.extractedAt, lines := [])
  }

  ghost predicate AllMatch(items: seq<Item>, xs: seq<Analysed>, rows: seq<Row>, user: nat) {
    && |items| == |xs| == |rows|
    && forall k :: 0 <= k < |items| ==> Matches(items[k], xs[k], rows[k], user)
  }

  lemma MatchTogether(items: seq<Item>, xs: seq<Analysed>, rows: seq<Row>, moreItems: seq<Item>,
                      moreXs: seq<Analysed>, moreRows: seq<Row>, user: nat)
    requires AllMatch(items, xs, rows, user) && AllMatch(moreItems, moreXs, moreRows, user)
    ensures AllMatch(items + moreItems, xs + moreXs, rows + moreRows, user)
  {
  }

  lemma Associative<T>(a: seq<T>, b: seq<T>, c: seq<T>)
    ensures a + (b + c) == (a + b) + c
  {
  }

  lemma OneMoreMatch(items: seq<Item>, user: nat, e: Email, ps: seq<ParsedEmail>, input: SaveInput, firstId: nat,
                     i: nat)
    requires AllClean(ps) && input.user == user && input.email == e.id && i < |ps|
    requires AllMatch(items, Pairs(e, ps)[..i], RowsOf(input, ps, firstId)[..i], user)
    ensures var item := Item(firstId + i, e.id, e.messageId, e.digest, ps[i]);
      AllMatch(items + [item], Pairs(e, ps)[..i + 1], RowsOf(input, ps, firstId)[..i + 1], user)
  {
    var item := Item(firstId + i, e.id, e.messageId, e.digest, ps[i]);
    RowHoldsParsed(input, ps[i], i, firstId + i);
    assert Pairs(e, ps)[..i + 1] == Pairs(e, ps)[..i] + [Analysed(e, ps[i])];
    assert RowsOf(input, ps, firstId)[..i + 1] ==
      RowsOf(input, ps, firstId)[..i] + [RowOf(input, ps[i], i, firstId + i)];
    MatchTogether(items, Pairs(e, ps)[..i], RowsOf(input, ps, firstId)[..i],
                  [item], [Analysed(e, ps[i])], [RowOf(input, ps[i], i, firstId + i)], user);
  }

  method BuildItems(user: nat, e: Email, ps: seq<ParsedEmail>, records: seq<Record>, ghost input: SaveInput,
                    ghost firstId: nat)
    returns (items: seq<Item>)
    requires AllClean(ps) && input.user == user && input.email == e.id
    requires records == RecordsOf(RowsOf(input, ps, firstId))
    ensures AllMatch(items, Pairs(e, ps), RowsOf(input, ps, firstId), user)
  {
    items := [];
    for i := 0 to |records|
      invariant AllMatch(items, Pairs(e, ps)[..i], RowsOf(input, ps, firstId)[..i], user)
    {
      OneMoreMatch(items, user, e, ps, input, firstId, i);
      items := items + [Item(records[i].id, records[i].email, e.messageId, e.digest, ps[i])];
    }
    assert Pairs(e, ps)[..|records|] == Pairs(e, ps);
    assert RowsOf(input, ps, firstId)[..|records|] == RowsOf(input, ps, firstId);
  }

  method AnalyseOne(repo: ParsedEmailRepository, user: nat, e: Email, a: Answer, turn: Turn)
    returns (items: seq<Item>, failures: seq<Failure>, ghost added: seq<Row>)
    requires repo.Valid()
    modifies repo
    ensures repo.Valid() && repo.rows == old(repo.rows) + added
    ensures AllMatch(items, PairsOf(user, e, a, turn), added, user)
    ensures failures == FailureOf(user, e, a, turn)
  {
    var firstId := repo.nextId;
    var o, records := SaveOne(repo, user, e, a, turn);
    if o.Failed? {
      return [], [Failure(e.id, e.messageId, o.code)], [];
    }
    PreparedStays(a.parsed, e.digest);
    ghost var input := InputFor(user, e, a, turn);
    items := BuildItems(user, e, o.parsed, records, input, firstId);
    added := RowsOf(input, o.parsed, firstId);
    failures := [];
  }

  method AnalyseAll(repo: ParsedEmailRepository, user: nat, valid: seq<Email>, answers: seq<Answer>, turns: seq<Turn>)
    returns (items: seq<Item>, count: nat, failures: seq<Failure>, ghost saved: seq<Row>)
    requires repo.Valid() && |answers| == |valid| && |turns| == |valid|
    modifies repo
    ensures repo.Valid() && repo.rows == old(repo.rows) + saved
    ensures AllMatch(items, ToSave(user, valid, answers, turns, |valid|), saved, user)
    ensures failures == FailedEmails(user, valid, answers, turns, |valid|)
    ensures count == |items|
  {
    items, count, failures, saved := [], 0, [], [];
    for i := 0 to |valid|
      invariant repo.Valid() && repo.rows == old(repo.rows) + saved
      invariant AllMatch(items, ToSave(user, valid, answers, turns, i), saved, user)
      invariant failures == FailedEmails(user, valid, answers, turns, i)
      invariant count == |items|
    {
      var more, failure, added := AnalyseOne(repo, user, valid[i], answers[i], turns[i]);
      MatchTogether(items, ToSave(user, valid, answers, turns, i), saved,
                    more, PairsOf(user, valid[i], answers[i], turns[i]), added, user);
      Associative(old(repo.rows), saved, added);
      OneMoreEmail(user, valid, answers, turns, i);
      items, count, failures, saved := items + more, count + |more|, failures + failure, saved + added;
    }
  }

  /** Every returned item carries the id of its own row, the rows are exactly the items in order, the
      count is their number, and every other email is a failure. `order` is the goroutines' order. */
  method Execute(repo: ParsedEmailRepository, user: nat, emails: seq<Email>, analyze: nat -> Answer, order: seq<nat>,
                 turns: seq<Turn>)
    returns (r: Result)
    requires repo.Valid()
    requires CompleteOrder(order, |ValidEmails(emails)|) && |turns| == |ValidEmails(emails)|
    modifies repo
    ensures repo.Valid() && old(repo.rows) <= repo.rows
    ensures var valid := ValidEmails(emails);
      var answers := AnswersOf(|valid|, analyze);
      && AllMatch(r.items, ToSave(user, valid, answers, turns, |valid|), repo.rows[|old(repo.rows)|..], user)
      && r.failures == InvalidEmails(emails) + FailedEmails(user, valid, answers, turns, |valid|)
    ensures r.count == |r.items| && forall i :: 0 <= i < |r.items| ==> r.items[i].parsedEmailId != 0
  {
    var valid, failures := NormalizeAndValidateEmails(emails);
    var answers := AnalyzeEmailsConcurrently(valid, analyze, order);
    ghost var before := repo.rows;
    var items, count, failed, saved := AnalyseAll(repo, user, valid, answers, turns);
    assert repo.rows[|before|..] == saved;
    assert forall i :: 0 <= i < |saved| ==> repo.rows[|before| + i] == saved[i];
    r := Result(items, count, failures + failed);
  }

  // ---------------------------------------------------------------------------------------
  // What becomes of each email
  // ---------------------------------------------------------------------------------------

  /** The email has an id, a message id and a body. */
  ghost predicate IsUsable(e: Email) {
    e.id != 0 && !AllSpace(e.messageId) && !AllSpace(e.body)
  }

  ghost predicate IsTrimmedEmail(n: Email, e: Email) {
    n == Email(e.id, Trim(e.messageId), Trim(e.body), Trim(e.digest))
  }

  ghost predicate IsInvalidInput(f: Failure, e: Email) {
    f == Failure(e.id, Trim(e.messageId), "invalid_email_input")
  }

  lemma UsableMeans(e: Email)
    ensures EmailValid(NormalizeEmail(e)) <==> IsUsable(e)
  {
    BlankMeans(e.messageId);
    BlankMeans(e.body);
  }

  /** The usable emails are analysed, trimmed and in order; the others are failures, in order. */
  lemma {:induction false} EmailsSorted(emails: seq<Email>)
    ensures Keeps(ValidEmails(emails), emails, IsUsable, IsTrimmedEmail)
    ensures Keeps(InvalidEmails(emails), emails, e => !IsUsable(e), IsInvalidInput)
  {
    if emails != [] {
      var before, e := emails[..|emails| - 1], emails[|emails| - 1];
      EmailsSorted(before);
      UsableMeans(e);
      OneMore(ValidEmails(before), ValidEmails(emails), emails, IsUsable, IsTrimmedEmail, NormalizeEmail(e));
      OneMore(InvalidEmails(before), InvalidEmails(emails), emails, e => !IsUsable(e), IsInvalidInput,
              Failure(e.id, Trim(e.messageId), INVALID_EMAIL_INPUT));
    }
  }

  /** `n` is the draft in normal form, numbered from the digest if it has no number. */
  ghost predicate IsPrepared(n: ParsedEmail, draft: ParsedEmail, digest: string) {
    exists m :: IsNormalForm(m, draft) && IsNumbered(n, m, digest)
  }

  /** Exactly the drafts that have something to say. */
  ghost predicate PreparesDrafts(prepared: seq<ParsedEmail>, drafts: seq<ParsedEmail>, digest: string) {
    Keeps(prepared, drafts, Speaks, (n, draft) => IsPrepared(n, draft, digest))
  }

  lemma PreparedKeeps(drafts: seq<ParsedEmail>, digest: string)
    ensures PreparesDrafts(Prepared(drafts, digest), drafts, digest)
  {
    var kept := NormalizeAll(drafts);
    ParsedKept(drafts);
    forall k | 0 <= k < |drafts| && Speaks(drafts[k])
      ensures IsPrepared(Prepared(drafts, digest)[Count(drafts, Speaks, k)], drafts[k], digest)
    {
      var m := kept[Count(drafts, Speaks, k)];
      FallbackMeans(m, digest);
      assert IsNormalForm(m, drafts[k]);
    }
  }

  lemma {:induction false} NoneKept<T>(xs: seq<T>, keep: T -> bool, k: nat)
    requires k <= |xs|
    ensures Count(xs, keep, k) == 0 <==> forall i :: 0 <= i < k ==> !keep(xs[i])
    decreases k
  {
    if k > 0 {
      NoneKept(xs, keep, k - 1);
    }
  }

  /** What the repository asks of a save. */
  ghost predicate CanSave(user: nat, e: Email, prompt: string, turn: Turn, ps: seq<ParsedEmail>) {
    && user != 0 && e.id != 0 && !AllSpace(turn.run) && !AllSpace(prompt) && turn.now != ZERO_TIME
    && forall i :: 0 <= i < |ps| ==> InBounds(ps[i])
  }

  lemma RowIs(input: SaveInput, ps: seq<ParsedEmail>, firstId: nat, i: nat)
    requires i < |ps| && Clean(ps[i])
    ensures RowsOf(input, ps, firstId)[i] ==
      Row(firstId + i, input.user, input.email, Trim(input.run), input.base + i,
          ps[i].(extractedAt := input.extractedAt, lines := []), Trim(input.prompt))
  {
    RowHoldsParsed(input, ps[i], i, firstId + i);
  }

  /** The rows of an email: its parsed emails from position 0 on, with the run, time and prompt of their
      analysis. */
  lemma SavedRowsMean(user: nat, e: Email, a: Answer, turn: Turn, firstId: nat, i: nat)
    requires OutcomeOf(user, e, a, turn).Saved? && i < |OutcomeOf(user, e, a, turn).parsed|
    ensures var ps := OutcomeOf(user, e, a, turn).parsed;
      RowsOf(InputFor(user, e, a, turn), ps, firstId)[i] ==
        Row(firstId + i, user, e.id, Trim(turn.run), i, ps[i].(extractedAt := turn.now, lines := []), Trim(a.prompt))
  {
    PreparedStays(a.parsed, e.digest);
    TrimTwice(a.prompt);
    RowIs(InputFor(user, e, a, turn), OutcomeOf(user, e, a, turn).parsed, firstId, i);
  }

  /** What one email comes to: no answer, no draft that says anything, a save that is refused or fails, or
      its prepared drafts. */
  lemma OutcomeExactly(user: nat, e: Email, a: Answer, turn: Turn)
    ensures match a
      case Broken(malformed) =>
        OutcomeOf(user, e, a, turn) == Failed(if malformed then "analysis_response_invalid" else "analysis_failed")
      case Drafts(drafts, _) =>
        var o := OutcomeOf(user, e, a, turn);
        if forall i :: 0 <= i < |drafts| ==> !Speaks(drafts[i]) then o == Failed("analysis_response_empty")
        else
          var ps := InputFor(user, e, a, turn).parsed;
          && PreparesDrafts(ps, drafts, e.digest)
          && o == if turn.fails || !CanSave(user, e, a.prompt, turn, ps) then Failed("parsed_email_save_failed")
                  else Saved(ps)
  {
    if a.Drafts? {
      BlankMeans(turn.run);
      BlankMeans(a.prompt);
      TrimTwice(a.prompt);
      PreparedKeeps(a.parsed, e.digest);
      NoneKept(a.parsed, Speaks, |a.parsed|);
    }
  }

  /** The email is in the lists as its outcome says. */
  ghost predicate IsListed(e: Email, o: Outcome, xs: seq<Analysed>, failures: seq<Failure>) {
    match o
    case Failed(code) => Failure(e.id, e.messageId, code) in failures
    case Saved(parsed) => forall k :: 0 <= k < |parsed| ==> Analysed(e, parsed[k]) in xs
  }

  lemma OwnLists(user: nat, e: Email, a: Answer, turn: Turn, o: Outcome)
    requires o == OutcomeOf(user, e, a, turn)
    ensures IsListed(e, o, PairsOf(user, e, a, turn), FailureOf(user, e, a, turn))
  {
    if o.Saved? {
      assert forall k :: 0 <= k < |o.parsed| ==> Pairs(e, o.parsed)[k] == Analysed(e, o.parsed[k]);
    }
  }

  lemma ListedOn(e: Email, o: Outcome, xs: seq<Analysed>, failures: seq<Failure>, ys: seq<Analysed>,
                 others: seq<Failure>)
    requires IsListed(e, o, xs, failures)
    requires (forall x :: x in xs ==> x in ys) && (forall f :: f in failures ==> f in others)
    ensures IsListed(e, o, ys, others)
  {
  }

  /** Each analysed email is in the lists of the stage as its outcome says. */
  lemma EveryEmailListed(user: nat, emails: seq<Email>, answers: seq<Answer>, turns: seq<Turn>, n: nat, i: nat)
    requires i < n <= |emails| && n <= |answers| && n <= |turns|
    ensures IsListed(emails[i], OutcomeOf(user, emails[i], answers[i], turns[i]),
                     ToSave(user, emails, answers, turns, n), FailedEmails(user, emails, answers, turns, n))
  {
    var e, o := emails[i], OutcomeOf(user, emails[i], answers[i], turns[i]);
    var pairs, failures := PairsAt(user, emails, answers, turns), FailureAt(user, emails, answers, turns);
    OwnLists(user, e, answers[i], turns[i], o);
    forall x | x in pairs(i)
      ensures x in Flat(pairs, n)
    {
      FlatHas(pairs, n, i, x);
    }
    forall f | f in failures(i)
      ensures f in Flat(failures, n)
    {
      FlatHas(failures, n, i, f);
    }
    ListedOn(e, o, pairs(i), failures(i), Flat(pairs, n), Flat(failures, n));
  }
}
