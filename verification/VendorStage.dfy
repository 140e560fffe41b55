/** The vendor resolution stage: one target at a time is read, decided and, if need be, registered,
    while other writers may commit between any two of its lookups and transactions. */
module VendorStage {
  import opened Text
  import opened VendorPolicy
  import opened VendorRegistry

  const RESOLVE_FAILED := "vendor_resolution_failed"
  const REGISTER_FAILED := "vendor_registration_failed"
  const INVALID_TARGET := "invalid_resolution_target"

  datatype Verdict = Matched(vendor: Vendor, rule: Rule) | Unmatched | Failed(code: string)

  /** What happens around one target: what others commit before each of its four lookups and before its
      registration, whether a lookup fails with a database error, and whether the registration does. */
  datatype Turn = Turn(beforeNames: seq<Event>, beforeDomains: seq<Event>, beforeSenders: seq<Event>,
                       beforeSubjects: seq<Event>, readFails: bool, between: seq<Event>, registerFails: bool, now: int)

  // ---------------------------------------------------------------------------------------
  // One target
  // ---------------------------------------------------------------------------------------

  function VerdictOf(o: Outcome): Verdict {
    match o
    case Ensured(vendor) => Matched(vendor, NameExact)
    case Declined => Unmatched
    case Conflict => Failed(REGISTER_FAILED)
  }

  function RegisterTarget(s: Store, user: nat, t: Target, now: int): (Store, Verdict) {
    var plan := RegistrationPlan(user, t);
    if plan.None? then (s, Unmatched)
    else
      var (u, o) := Ensure(s, plan.value, now);
      (u, VerdictOf(o))
  }

  function ViewsOf(s: Store, turn: Turn): Views {
    var names := Run(s, turn.beforeNames);
    var domains := Run(names, turn.beforeDomains);
    var senders := Run(domains, turn.beforeSenders);
    Views(names, domains, senders, Run(senders, turn.beforeSubjects))
  }

  function ResolveTarget(s: Store, user: nat, t: Target, turn: Turn): (Store, Verdict) {
    var v := ViewsOf(s, turn);
    var d := Decide(FactsOf(v, user, t));
    if turn.readFails then (v.subjects, Failed(RESOLVE_FAILED))
    else if d.Resolved? then (v.subjects, Matched(d.vendor, d.rule))
    else if RegistrationPlan(user, t).None? then (v.subjects, Unmatched)
    else if turn.registerFails then (Run(v.subjects, turn.between), Failed(REGISTER_FAILED))
    else RegisterTarget(Run(v.subjects, turn.between), user, t, turn.now)
  }

  // ---------------------------------------------------------------------------------------
  // What the four lookups see
  // ---------------------------------------------------------------------------------------

  ghost predicate ValidViews(v: Views) {
    Valid(v.names) && Valid(v.domains) && Valid(v.senders) && Valid(v.subjects)
  }

  lemma ViewsValid(s: Store, turn: Turn)
    requires Valid(s)
    ensures ValidViews(ViewsOf(s, turn))
  {
    var v := ViewsOf(s, turn);
    RunKeeps(s, turn.beforeNames);
    RunKeeps(v.names, turn.beforeDomains);
    RunKeeps(v.domains, turn.beforeSenders);
    RunKeeps(v.senders, turn.beforeSubjects);
  }

  /** No alias of the user under this rule has the value; a blank one is not looked up. */
  ghost predicate NoAlias(s: Store, user: nat, rule: Rule, value: string) {
    value == "" || !HasAlias(s, user, rule, value)
  }

  /** No keyword occurs in the subject, or the longest that do belong to several vendors. */
  ghost predicate NoKeywordDecides(s: Store, user: nat, subject: string) {
    || (forall a :: !IsKeyword(s, user, subject, a))
    || exists a, b ::
         IsLongestKeyword(s, user, subject, a) && IsLongestKeyword(s, user, subject, b) && a.vendor != b.vendor
  }

  /** At its own lookup each exact rule finds no alias, and the subject rule no unambiguous vendor. */
  ghost predicate NoRuleSelects(v: Views, user: nat, t: Target) {
    && NoAlias(v.names, user, NameExact, Loose(Name(t)))
    && NoAlias(v.domains, user, SenderDomain, t.domain)
    && NoAlias(v.senders, user, SenderName, Loose(t.sender))
    && NoKeywordDecides(v.subjects, user, Loose(t.subject))
  }

  /** `vendor` is the vendor of the alias that has the value. */
  ghost predicate AliasNames(s: Store, user: nat, rule: Rule, value: string, vendor: Vendor) {
    value != "" && exists i ::
      0 <= i < |s.aliases| && IsAlias(s.aliases[i], user, rule, value) && IsVendor(s, user, s.aliases[i].vendor, vendor)
  }

  /** `a` was created later than `b`, or at the same time with a larger id. */
  predicate YoungerAlias(a: AliasRow, b: AliasRow) {
    a.created > b.created || (a.created == b.created && a.id > b.id)
  }

  /** `vendor` is the one vendor of the longest keywords that occur in the subject, as its youngest names
      it. */
  ghost predicate KeywordNames(s: Store, user: nat, subject: string, vendor: Vendor) {
    && (forall a :: IsLongestKeyword(s, user, subject, a) ==> a.vendor == vendor.id)
    && exists a :: IsLongestKeyword(s, user, subject, a) && IsVendor(s, user, a.vendor, vendor)
         && forall b :: IsLongestKeyword(s, user, subject, b) ==> !YoungerAlias(b, a)
  }

  /** What the four lookups make of a target, said of the rows they see: the rules in their order. */
  ghost predicate IsDecision(v: Views, user: nat, t: Target, d: Decision) {
    var noName := NoAlias(v.names, user, NameExact, Loose(Name(t)));
    var noDomain := NoAlias(v.domains, user, SenderDomain, t.domain);
    var noSender := NoAlias(v.senders, user, SenderName, Loose(t.sender));
    match d
    case Unresolved => NoRuleSelects(v, user, t)
    case Resolved(vendor, NameExact) => AliasNames(v.names, user, NameExact, Loose(Name(t)), vendor)
    case Resolved(vendor, SenderDomain) => noName && AliasNames(v.domains, user, SenderDomain, t.domain, vendor)
    case Resolved(vendor, SenderName) =>
      noName && noDomain && AliasNames(v.senders, user, SenderName, Loose(t.sender), vendor)
    case Resolved(vendor, SubjectKeyword) =>
      noName && noDomain && noSender && KeywordNames(v.subjects, user, Loose(t.subject), vendor)
  }

  lemma ExactDecides(s: Store, user: nat, rule: Rule, value: string)
    requires Valid(s)
    ensures Exact(s, user, rule, value) == [] <==> NoAlias(s, user, rule, value)
    ensures Exact(s, user, rule, value) != [] ==>
      var l := Latest(Exact(s, user, rule, value)); l.Some? && AliasNames(s, user, rule, value, l.value.vendor)
  {
    if value != "" {
      ExactCandidate(s, user, rule, value);
      NoAliasFound(s, user, rule, value);
      var found := Find(s.aliases, HasKey(user, rule, value));
      if found.Some? {
        var a := found.value;
        var v := Find(s.vendors, HasId(a.vendor, a.user)).value;
        var i :| 0 <= i < |s.aliases| && s.aliases[i] == a;
        var k :| 0 <= k < |s.vendors| && s.vendors[k] == v;
        var c := CandidateOf(a, v);
        assert Exact(s, user, rule, value) == [c] && [c][..0] == [];
        assert Latest([c]).Some? && Latest([c]).value == c;
        assert ShowsVendor(s.vendors[k], user, a.vendor, c.vendor);
        assert IsAlias(s.aliases[i], user, rule, value);
      }
    }
  }

  /** The candidate of a keyword. */
  lemma KeywordYields(s: Store, user: nat, subject: string, a: AliasRow) returns (c: Candidate)
    requires Valid(s) && IsKeyword(s, user, subject, a)
    ensures Yields(s, a, c) && c in Subjects(s, user, subject)
  {
    c := CandidateOf(a, Find(s.vendors, HasId(a.vendor, a.user)).value);
    SubjectCandidates(s, user, subject, c);
  }

  lemma YieldsFrom(s: Store, user: nat, subject: string, c: Candidate) returns (a: AliasRow)
    requires Valid(s) && c in Subjects(s, user, subject)
    ensures IsKeyword(s, user, subject, a) && Yields(s, a, c)
    ensures c.vendor.id == a.vendor && c.normalized == a.normalized && c.created == a.created && c.aliasId == a.id
    ensures IsVendor(s, user, a.vendor, c.vendor)
  {
    SubjectCandidates(s, user, subject, c);
    a :| IsKeyword(s, user, subject, a) && Yields(s, a, c);
    var v := Find(s.vendors, HasId(a.vendor, a.user)).value;
    var k :| 0 <= k < |s.vendors| && s.vendors[k] == v;
    assert ShowsVendor(s.vendors[k], user, a.vendor, c.vendor);
  }

  /** The longest candidates are those of the longest keywords. */
  lemma LongestYields(s: Store, user: nat, subject: string, a: AliasRow, c: Candidate)
    requires Valid(s) && IsKeyword(s, user, subject, a) && Yields(s, a, c) && c in Subjects(s, user, subject)
    ensures IsLongest(Subjects(s, user, subject), c) <==> IsLongestKeyword(s, user, subject, a)
  {
    var cs := Subjects(s, user, subject);
    if IsLongest(cs, c) {
      forall b | IsKeyword(s, user, subject, b)
        ensures |b.normalized| <= |a.normalized|
      {
        var d := KeywordYields(s, user, subject, b);
      }
    }
    if IsLongestKeyword(s, user, subject, a) {
      forall d | d in cs
        ensures |d.normalized| <= |c.normalized|
      {
        var b := YieldsFrom(s, user, subject, d);
      }
    }
  }

  predicate SameAlias(c: Candidate, a: AliasRow) {
    c.vendor.id == a.vendor && c.created == a.created && c.aliasId == a.id
  }

  lemma LongestFrom(s: Store, user: nat, subject: string, cs: seq<Candidate>, c: Candidate) returns (a: AliasRow)
    requires Valid(s) && cs == Subjects(s, user, subject) && IsLongest(cs, c)
    ensures IsLongestKeyword(s, user, subject, a) && SameAlias(c, a) && IsVendor(s, user, a.vendor, c.vendor)
  {
    a := YieldsFrom(s, user, subject, c);
    LongestYields(s, user, subject, a, c);
  }

  lemma LongestTo(s: Store, user: nat, subject: string, cs: seq<Candidate>, a: AliasRow) returns (c: Candidate)
    requires Valid(s) && cs == Subjects(s, user, subject) && IsLongestKeyword(s, user, subject, a)
    ensures IsLongest(cs, c) && SameAlias(c, a)
  {
    c := KeywordYields(s, user, subject, a);
    LongestYields(s, user, subject, a, c);
  }

  lemma NoneFound(s: Store, user: nat, subject: string, cs: seq<Candidate>)
    requires Valid(s) && cs == Subjects(s, user, subject)
    ensures cs == [] <==> forall a :: !IsKeyword(s, user, subject, a)
  {
    if cs == [] {
      forall a
        ensures !IsKeyword(s, user, subject, a)
      {
        if IsKeyword(s, user, subject, a) {
          var c := KeywordYields(s, user, subject, a);
        }
      }
    } else {
      var first := YieldsFrom(s, user, subject, cs[0]);
    }
  }

  /** Each longest candidate is that of a longest keyword... */
  ghost predicate AllKeywords(top: iset<Candidate>, longest: iset<AliasRow>) {
    forall c :: c in top ==> exists a :: a in longest && SameAlias(c, a)
  }

  /** ... and each longest keyword has its candidate. */
  ghost predicate AllCandidates(top: iset<Candidate>, longest: iset<AliasRow>) {
    forall a :: a in longest ==> exists c :: c in top && SameAlias(c, a)
  }

  ghost function Top(cs: seq<Candidate>): iset<Candidate> {
    iset c | IsLongest(cs, c)
  }

  ghost function LongestKeywords(s: Store, user: nat, subject: string): iset<AliasRow> {
    iset a | IsLongestKeyword(s, user, subject, a)
  }

  lemma CandidatesAreKeywords(s: Store, user: nat, subject: string, cs: seq<Candidate>)
    requires Valid(s) && cs == Subjects(s, user, subject)
    ensures AllKeywords(Top(cs), LongestKeywords(s, user, subject))
  {
    forall c | c in Top(cs)
      ensures exists a :: a in LongestKeywords(s, user, subject) && SameAlias(c, a)
    {
      var a := LongestFrom(s, user, subject, cs, c);
      assert a in LongestKeywords(s, user, subject);
    }
  }

  lemma KeywordsAreCandidates(s: Store, user: nat, subject: string, cs: seq<Candidate>)
    requires Valid(s) && cs == Subjects(s, user, subject)
    ensures AllCandidates(Top(cs), LongestKeywords(s, user, subject))
  {
    forall a | a in LongestKeywords(s, user, subject)
      ensures exists c :: c in Top(cs) && SameAlias(c, a)
    {
      var c := LongestTo(s, user, subject, cs, a);
      assert c in Top(cs);
    }
  }

  ghost predicate SeveralVendors(top: iset<Candidate>) {
    exists c, d :: c in top && d in top && c.vendor.id != d.vendor.id
  }

  ghost predicate SeveralOwners(longest: iset<AliasRow>) {
    exists a, b :: a in longest && b in longest && a.vendor != b.vendor
  }

  lemma SeveralAmongKeywords(top: iset<Candidate>, longest: iset<AliasRow>)
    requires AllKeywords(top, longest) && SeveralVendors(top)
    ensures SeveralOwners(longest)
  {
    var c, d :| c in top && d in top && c.vendor.id != d.vendor.id;
    var a :| a in longest && SameAlias(c, a);
    var b :| b in longest && SameAlias(d, b);
  }

  lemma SeveralAmongCandidates(top: iset<Candidate>, longest: iset<AliasRow>)
    requires AllCandidates(top, longest) && SeveralOwners(longest)
    ensures SeveralVendors(top)
  {
    var a, b :| a in longest && b in longest && a.vendor != b.vendor;
    var c :| c in top && SameAlias(c, a);
    var d :| d in top && SameAlias(d, b);
  }

  lemma SeveralTransfer(s: Store, user: nat, subject: string, cs: seq<Candidate>)
    requires Valid(s) && cs == Subjects(s, user, subject)
    ensures SeveralVendors(Top(cs)) <==> SeveralOwners(LongestKeywords(s, user, subject))
  {
    if SeveralVendors(Top(cs)) {
      CandidatesAreKeywords(s, user, subject, cs);
      SeveralAmongKeywords(Top(cs), LongestKeywords(s, user, subject));
    }
    if SeveralOwners(LongestKeywords(s, user, subject)) {
      KeywordsAreCandidates(s, user, subject, cs);
      SeveralAmongCandidates(Top(cs), LongestKeywords(s, user, subject));
    }
  }

  lemma YoungestTransfers(top: iset<Candidate>, longest: iset<AliasRow>, c: Candidate, a: AliasRow)
    requires AllCandidates(top, longest) && SameAlias(c, a)
    requires forall d :: d in top ==> !Newer(d, c) && d.vendor.id == c.vendor.id
    ensures forall b :: b in longest ==> !YoungerAlias(b, a) && b.vendor == c.vendor.id
  {
    forall b | b in longest
      ensures !YoungerAlias(b, a) && b.vendor == c.vendor.id
    {
      var d :| d in top && SameAlias(d, b);
    }
  }

  lemma SubjectsUndecided(s: Store, user: nat, subject: string, cs: seq<Candidate>)
    requires Valid(s) && cs == Subjects(s, user, subject)
    ensures SubjectVendor(cs).None? <==> NoKeywordDecides(s, user, subject)
  {
    NoneFound(s, user, subject, cs);
    SeveralTransfer(s, user, subject, cs);
    SeveralCandidates(cs);
    SeveralKeywords(s, user, subject);
  }

  lemma SeveralCandidates(cs: seq<Candidate>)
    ensures SubjectVendor(cs).None? <==> cs == [] || SeveralVendors(Top(cs))
  {
    SubjectVendorExactly(cs);
    if c, d :| IsLongest(cs, c) && IsLongest(cs, d) && c.vendor.id != d.vendor.id {
      assert c in Top(cs) && d in Top(cs);
    }
  }

  lemma SeveralKeywords(s: Store, user: nat, subject: string)
    ensures NoKeywordDecides(s, user, subject) <==>
      (forall a :: !IsKeyword(s, user, subject, a)) || SeveralOwners(LongestKeywords(s, user, subject))
  {
    var longest := LongestKeywords(s, user, subject);
    if a, b :| IsLongestKeyword(s, user, subject, a) && IsLongestKeyword(s, user, subject, b) && a.vendor != b.vendor {
      assert a in longest && b in longest;
    }
    if a, b :| a in longest && b in longest && a.vendor != b.vendor {
      assert IsLongestKeyword(s, user, subject, a) && IsLongestKeyword(s, user, subject, b);
    }
  }

  lemma YoungestCandidate(cs: seq<Candidate>) returns (c: Candidate)
    requires SubjectVendor(cs).Some?
    ensures IsLongest(cs, c) && c.vendor == SubjectVendor(cs).value
    ensures forall d :: d in Top(cs) ==> !Newer(d, c) && d.vendor.id == c.vendor.id
  {
    SubjectVendorExactly(cs);
    c :| IsLongest(cs, c) && c.vendor == SubjectVendor(cs).value && forall d :: IsLongest(cs, d) ==> !Newer(d, c);
  }

  lemma SubjectsDecide(s: Store, user: nat, subject: string, cs: seq<Candidate>)
    requires Valid(s) && cs == Subjects(s, user, subject) && SubjectVendor(cs).Some?
    ensures KeywordNames(s, user, subject, SubjectVendor(cs).value)
  {
    var c := YoungestCandidate(cs);
    var a := LongestFrom(s, user, subject, cs, c);
    KeywordsAreCandidates(s, user, subject, cs);
    YoungestTransfers(Top(cs), LongestKeywords(s, user, subject), c, a);
    KeywordNamed(s, user, subject, a, c.vendor);
  }

  lemma KeywordNamed(s: Store, user: nat, subject: string, a: AliasRow, vendor: Vendor)
    requires IsLongestKeyword(s, user, subject, a) && IsVendor(s, user, a.vendor, vendor)
    requires forall b :: b in LongestKeywords(s, user, subject) ==> !YoungerAlias(b, a) && b.vendor == vendor.id
    ensures KeywordNames(s, user, subject, vendor)
  {
    forall b | IsLongestKeyword(s, user, subject, b)
      ensures !YoungerAlias(b, a) && b.vendor == vendor.id
    {
      assert b in LongestKeywords(s, user, subject);
    }
  }

  /** The decision is what the rows say. */
  lemma DecidedByRows(v: Views, user: nat, t: Target)
    requires ValidViews(v)
    ensures IsDecision(v, user, t, Decide(FactsOf(v, user, t)))
    ensures Decide(FactsOf(v, user, t)).Unresolved? <==> NoRuleSelects(v, user, t)
  {
    var subject := Loose(t.subject);
    var cs := Subjects(v.subjects, user, subject);
    ExactDecides(v.names, user, NameExact, Loose(Name(t)));
    ExactDecides(v.domains, user, SenderDomain, t.domain);
    ExactDecides(v.senders, user, SenderName, Loose(t.sender));
    SubjectsUndecided(v.subjects, user, subject, cs);
    if SubjectVendor(cs).Some? {
      SubjectsDecide(v.subjects, user, subject, cs);
    }
    DecideExactly(FactsOf(v, user, t));
  }

  /** Without database errors a target that some rule selects a vendor for is matched with that vendor, and
      nothing is written. */
  lemma MatchedByRows(s: Store, user: nat, t: Target, turn: Turn)
    requires Valid(s) && !turn.readFails && !NoRuleSelects(ViewsOf(s, turn), user, t)
    ensures var (u, m) := ResolveTarget(s, user, t, turn);
      m.Matched? && u == ViewsOf(s, turn).subjects && IsDecision(ViewsOf(s, turn), user, t, Resolved(m.vendor, m.rule))
  {
    ViewsValid(s, turn);
    DecidedByRows(ViewsOf(s, turn), user, t);
  }

  lemma UnmatchedExactly(s: Store, user: nat, t: Target, now: int)
    ensures RegisterTarget(s, user, t, now).1.Unmatched? <==> !Fits(t)
  {
    PlanOfTarget(user, t);
    if RegistrationPlan(user, t).Some? {
      DeclinedExactly(s, user, t, now);
    }
  }

  lemma RegisterFailsExactly(s: Store, user: nat, t: Target, now: int)
    requires Valid(s)
    ensures RegisterTarget(s, user, t, now).1.Failed? <==> Fits(t) && ConflictFor(s, user, Name(t))
  {
    PlanOfTarget(user, t);
    if RegistrationPlan(user, t).Some? {
      ConflictExactly(s, user, t, now);
    }
  }

  /** Without database errors a target stays unresolved exactly when no rule selects a vendor for it,
      each at its own lookup, and its name is blank or does not fit the column. */
  lemma UnresolvedExactly(s: Store, user: nat, t: Target, turn: Turn)
    requires Valid(s) && !turn.readFails && !turn.registerFails
    ensures ResolveTarget(s, user, t, turn).1.Unmatched? <==> NoRuleSelects(ViewsOf(s, turn), user, t) && !Fits(t)
  {
    var v := ViewsOf(s, turn);
    ViewsValid(s, turn);
    DecidedByRows(v, user, t);
    PlanOfTarget(user, t);
    UnmatchedExactly(Run(v.subjects, turn.between), user, t, turn.now);
  }

  /** ... and fails exactly when it is to be registered and its name's alias has meanwhile been bound to
      a vendor other than the one of that name. */
  lemma FailedExactly(s: Store, user: nat, t: Target, turn: Turn)
    requires Valid(s) && !turn.readFails && !turn.registerFails
    ensures ResolveTarget(s, user, t, turn).1.Failed? <==>
      && NoRuleSelects(ViewsOf(s, turn), user, t) && Fits(t)
      && ConflictFor(Run(ViewsOf(s, turn).subjects, turn.between), user, Name(t))
  {
    var v := ViewsOf(s, turn);
    ViewsValid(s, turn);
    DecidedByRows(v, user, t);
    PlanOfTarget(user, t);
    RunKeeps(v.subjects, turn.between);
    RegisterFailsExactly(Run(v.subjects, turn.between), user, t, turn.now);
  }

  /** With nothing committed between the name lookup and the registration there is no conflict. */
  lemma NoConflictAlone(s: Store, user: nat, t: Target, turn: Turn)
    requires Valid(s) && !turn.readFails && !turn.registerFails
    requires turn.beforeDomains == [] && turn.beforeSenders == [] && turn.beforeSubjects == [] && turn.between == []
    ensures !ResolveTarget(s, user, t, turn).1.Failed?
  {
    var v := ViewsOf(s, turn);
    FailedExactly(s, user, t, turn);
    assert v.subjects == v.names;
    if Fits(t) {
      LooseShape(Name(t));
      NameTrimmed(t);
    }
  }

  lemma {:induction false} RunAppend(s: Store, a: seq<Event>, b: seq<Event>)
    ensures Run(s, a + b) == Run(Run(s, a), b)
    decreases |b|
  {
    if b == [] {
      assert a + b == a;
    } else {
      assert (a + b)[..|a + b| - 1] == a + b[..|b| - 1];
      RunAppend(s, a, b[..|b| - 1]);
    }
  }

  /** What others commit after the name lookup. */
  function AfterNames(turn: Turn): seq<Event> {
    turn.beforeDomains + turn.beforeSenders + turn.beforeSubjects
  }

  lemma ViewsFollow(s: Store, turn: Turn)
    ensures ViewsOf(s, turn).subjects == Run(ViewsOf(s, turn).names, AfterNames(turn))
  {
    var names := ViewsOf(s, turn).names;
    RunAppend(names, turn.beforeDomains + turn.beforeSenders, turn.beforeSubjects);
    RunAppend(names, turn.beforeDomains, turn.beforeSenders);
  }

  /** What name_exact decides is decided by the name lookup alone. */
  lemma NameDecides(v: Views, user: nat, t: Target)
    requires Decide(FactsOf(v, user, t)).Resolved? && Decide(FactsOf(v, user, t)).rule == NameExact
    ensures Decide(FetchFacts(v.names, user, t)) == Decide(FactsOf(v, user, t))
  {
  }

  /** A match is there to stay: later, a loosely equal name of the user resolves to the vendor that
      this one was registered with, or was resolved to by name_exact. */
  lemma MatchStays(s: Store, user: nat, t: Target, turn: Turn, events: seq<Event>, later: Target)
    requires Valid(s) && Loose(Name(later)) == Loose(Name(t))
    requires ResolveTarget(s, user, t, turn).1.Matched? && ResolveTarget(s, user, t, turn).1.rule == NameExact
    ensures var (u, m) := ResolveTarget(s, user, t, turn);
      Decide(FetchFacts(Run(u, events), user, later)) == Resolved(m.vendor, NameExact)
  {
    var v := ViewsOf(s, turn);
    ViewsValid(s, turn);
    if Decide(FactsOf(v, user, t)).Resolved? {
      NameDecides(v, user, t);
      ViewsFollow(s, turn);
      RunAppend(v.names, AfterNames(turn), events);
      NameExactStable(v.names, AfterNames(turn) + events, user, t, later);
    } else {
      RunKeeps(v.subjects, turn.between);
      RegisteredStable(Run(v.subjects, turn.between), user, t, turn.now, events, later);
    }
  }

  lemma RegisterKeeps(s: Store, user: nat, t: Target, now: int)
    requires Valid(s)
    ensures Valid(RegisterTarget(s, user, t, now).0) && Later(s, RegisterTarget(s, user, t, now).0)
  {
    if RegistrationPlan(user, t).Some? {
      EnsureKeeps(s, RegistrationPlan(user, t).value, now);
    }
  }

  lemma ResolveKeeps(s: Store, user: nat, t: Target, turn: Turn)
    requires Valid(s)
    ensures Kept(s, ResolveTarget(s, user, t, turn).0)
  {
    var v := ViewsOf(s, turn);
    var after := Run(v.subjects, turn.between);
    ViewsKept(s, turn);
    RunIsKept(v.subjects, turn.between);
    KeptOn(s, v.subjects, after);
    RegisterIsKept(after, user, t, turn.now);
    KeptOn(s, after, RegisterTarget(after, user, t, turn.now).0);
  }

  lemma ViewsKept(s: Store, turn: Turn)
    requires Valid(s)
    ensures Kept(s, ViewsOf(s, turn).subjects)
  {
    var v := ViewsOf(s, turn);
    ViewsFollow(s, turn);
    RunIsKept(s, turn.beforeNames);
    RunIsKept(v.names, AfterNames(turn));
    KeptOn(s, v.names, v.subjects);
  }

  /** What every step makes of the tables: valid, and only rows added. */
  ghost predicate Kept(s: Store, t: Store) {
    Valid(t) && Later(s, t)
  }

  lemma KeptOn(s: Store, t: Store, u: Store)
    requires Kept(s, t) && Kept(t, u)
    ensures Kept(s, u)
  {
  }

  lemma RunIsKept(s: Store, events: seq<Event>)
    requires Valid(s)
    ensures Kept(s, Run(s, events))
  {
    RunKeeps(s, events);
  }

  lemma RegisterIsKept(s: Store, user: nat, t: Target, now: int)
    requires Valid(s)
    ensures Kept(s, RegisterTarget(s, user, t, now).0)
  {
    RegisterKeeps(s, user, t, now);
  }

  // ---------------------------------------------------------------------------------------
  // The whole stage
  // ---------------------------------------------------------------------------------------

  predicate WellFormed(t: Target) {
    t.parsedEmailId != 0 && t.emailId != 0
  }

  predicate VendorValid(v: Vendor) {
    v.user != 0 && Trim(v.name) != ""
  }

  function Checked(v: Verdict): Verdict {
    if v.Matched? && !VendorValid(v.vendor) then Failed(RESOLVE_FAILED) else v
  }

  function Handle(s: Store, user: nat, t: Target, turn: Turn): (Store, Verdict) {
    if !WellFormed(t) then (s, Failed(INVALID_TARGET))
    else
      var (u, v) := ResolveTarget(s, user, t, turn);
      (u, Checked(v))
  }

  /** A target without its ids fails and is not looked at; otherwise it is resolved, but a vendor without
      a user or a name is a failure. */
  lemma HandleMeans(s: Store, user: nat, t: Target, turn: Turn)
    ensures var (u, v) := Handle(s, user, t, turn);
      var (w, m) := ResolveTarget(s, user, t, turn);
      var unusable := m.Matched? && (m.vendor.user == 0 || AllSpace(m.vendor.name));
      if t.parsedEmailId == 0 || t.emailId == 0 then u == s && v == Failed("invalid_resolution_target")
      else u == w && v == if unusable then Failed("vendor_resolution_failed") else m
  {
    var m := ResolveTarget(s, user, t, turn).1;
    if m.Matched? {
      BlankMeans(m.vendor.name);
    }
  }

  /** The tables after the first `n` targets, and the verdicts on them. */
  function HandleAll(s: Store, user: nat, targets: seq<Target>, turns: seq<Turn>, n: nat): (r: (Store, seq<Verdict>))
    requires n <= |targets| && |turns| == |targets|
    ensures |r.1| == n
    decreases n
  {
    if n == 0 then (s, [])
    else
      var (t, verdicts) := HandleAll(s, user, targets, turns, n - 1);
      var (u, v) := Handle(t, user, targets[n - 1], turns[n - 1]);
      (u, verdicts + [v])
  }

  datatype ResolvedItem = ResolvedItem(parsedEmailId: nat, emailId: nat, vendor: nat, vendorName: string, rule: Rule)
  datatype UnresolvedItem = UnresolvedItem(parsedEmailId: nat, emailId: nat, candidate: string)
  datatype Failure = Failure(parsedEmailId: nat, emailId: nat, code: string)

  datatype Result = Result(resolved: seq<ResolvedItem>, resolvedCount: nat,
                           unresolved: seq<UnresolvedItem>, unresolvedCount: nat, failures: seq<Failure>)

  /** The verdict on `t` is in the list it belongs to, under its ids. */
  ghost predicate Reported(r: Result, t: Target, v: Verdict) {
    match v
    case Matched(vendor, rule) => ResolvedItem(t.parsedEmailId, t.emailId, vendor.id, vendor.name, rule) in r.resolved
    case Unmatched => UnresolvedItem(t.parsedEmailId, t.emailId, Name(t)) in r.unresolved
    case Failed(code) => Failure(t.parsedEmailId, t.emailId, code) in r.failures
  }

  predicate OwnCode(code: string) {
    code in {RESOLVE_FAILED, REGISTER_FAILED, INVALID_TARGET}
  }

  lemma OnlyOwnCodes(s: Store, user: nat, t: Target, turn: Turn)
    ensures Handle(s, user, t, turn).1.Failed? ==> OwnCode(Handle(s, user, t, turn).1.code)
  {
  }

  ghost predicate ReportsAll(r: Result, targets: seq<Target>, verdicts: seq<Verdict>, n: nat)
    requires n <= |targets| && n <= |verdicts|
  {
    && |r.resolved| + |r.unresolved| + |r.failures| == n
    && r.resolvedCount == |r.resolved| && r.unresolvedCount == |r.unresolved|
    && (forall i :: 0 <= i < |r.failures| ==> OwnCode(r.failures[i].code))
    && forall i :: 0 <= i < n ==> Reported(r, targets[i], verdicts[i])
  }

  function Add(r: Result, t: Target, v: Verdict): Result {
    match v
    case Matched(vendor, rule) =>
      r.(resolved := r.resolved + [ResolvedItem(t.parsedEmailId, t.emailId, vendor.id, vendor.name, rule)],
         resolvedCount := r.resolvedCount + 1)
    case Unmatched =>
      r.(unresolved := r.unresolved + [UnresolvedItem(t.parsedEmailId, t.emailId, Name(t))],
         unresolvedCount := |r.unresolved| + 1)
    case Failed(code) =>
      r.(failures := r.failures + [Failure(t.parsedEmailId, t.emailId, code)])
  }

  lemma StaysReported(r: Result, t: Target, v: Verdict, other: Target, w: Verdict)
    requires Reported(r, t, v)
    ensures Reported(Add(r, other, w), t, v)
  {
  }

  lemma AddReports(r: Result, targets: seq<Target>, verdicts: seq<Verdict>, n: nat, v: Verdict)
    requires n < |targets| && |verdicts| == n && ReportsAll(r, targets, verdicts, n)
    requires v.Failed? ==> OwnCode(v.code)
    ensures ReportsAll(Add(r, targets[n], v), targets, verdicts + [v], n + 1)
  {
    forall i | 0 <= i < n
      ensures Reported(Add(r, targets[n], v), targets[i], verdicts[i])
    {
      StaysReported(r, targets[i], verdicts[i], targets[n], v);
    }
  }

  // ---------------------------------------------------------------------------------------
  // The code
  // ---------------------------------------------------------------------------------------

  class VendorTables {
    var vendors: seq<VendorRow>
    var aliases: seq<AliasRow>
    var nextVendor: nat
    var nextAlias: nat

    function Contents(): Store
      reads this
    {
      Store(vendors, aliases, nextVendor, nextAlias)
    }

    constructor ()
      ensures Contents() == EMPTY && Valid(Contents())
    {
      vendors, aliases, nextVendor, nextAlias := [], [], 1, 1;
    }

    /** Transactions of other writers. */
    method Interfere(events: seq<Event>)
      modifies this
      ensures Contents() == Run(old(Contents()), events)
    {
      var s := Run(Contents(), events);
      vendors, aliases, nextVendor, nextAlias := s.vendors, s.aliases, s.nextVendor, s.nextAlias;
    }

    method CreateVendor(user: nat, name: string, normalized: string) returns (v: VendorRow)
      modifies this
      ensures (Contents(), v) == FindOrCreate(old(Contents()), user, name, normalized)
    {
      var found := Find(vendors, HasName(user, normalized));
      if found.Some? {
        return found.value;
      }
      v := VendorRow(nextVendor, user, name, normalized);
      vendors := vendors + [v];
      nextVendor := nextVendor + 1;
    }

    method CreateAliases(user: nat, vendor: nat, records: seq<PlanAlias>, now: int)
      modifies this
      ensures Contents() == InsertAliases(old(Contents()), user, vendor, records, now)
    {
      for i := 0 to |records|
        invariant Contents() == InsertAliases(old(Contents()), user, vendor, records[..i], now)
      {
        assert records[..i + 1][..i] == records[..i];
        var a := records[i];
        if Find(aliases, HasKey(user, a.rule, a.normalized)).None? {
          aliases := aliases + [AliasRow(nextAlias, user, a.rule, a.value, a.normalized, vendor, now)];
          nextAlias := nextAlias + 1;
        }
      }
      assert records[..|records|] == records;
    }

    /** The alias rows are read back; each must belong to the vendor. */
    method OwnsAliases(user: nat, vendor: nat, records: seq<PlanAlias>) returns (ok: bool)
      ensures ok <==> forall i :: 0 <= i < |records| ==> BelongsTo(Contents(), user, vendor, records[i])
    {
      for i := 0 to |records|
        invariant forall k :: 0 <= k < i ==> BelongsTo(Contents(), user, vendor, records[k])
      {
        var existing := Find(aliases, HasKey(user, records[i].rule, records[i].normalized));
        if existing.None? || existing.value.vendor != vendor {
          assert !BelongsTo(Contents(), user, vendor, records[i]);
          return false;
        }
      }
      ok := true;
    }

    method EnsureByPlan(plan: Plan, now: int) returns (o: Outcome)
      modifies this
      ensures (Contents(), o) == Ensure(old(Contents()), plan, now)
    {
      var p := NormalizePlan(plan);
      if !FitsColumns(p) {
        return Declined;
      }
      var savedVendors, savedAliases := vendors, aliases;
      var v := CreateVendor(p.user, p.name, p.normalized);
      var records := BuildVendorAliasRecords(p.aliases);
      CreateAliases(p.user, v.id, records, now);
      var ok := OwnsAliases(p.user, v.id, records);
      if ok {
        return Ensured(ToVendor(v));
      }
      vendors, aliases := savedVendors, savedAliases;
      o := Conflict;
    }
  }

  /** The keys of the records kept so far. */
  function Keys(records: seq<PlanAlias>): set<(Rule, string)> {
    set i | 0 <= i < |records| :: (records[i].rule, records[i].normalized)
  }

  lemma SeenIsListed(records: seq<PlanAlias>, a: PlanAlias)
    ensures (a.rule, a.normalized) in Keys(records) <==> Listed(records, a.rule, a.normalized)
    ensures Keys(records + [a]) == Keys(records) + {(a.rule, a.normalized)}
  {
    var more := records + [a];
    assert forall i :: 0 <= i < |records| ==> more[i] == records[i];
    assert more[|records|] == a;
    forall k | k in Keys(records) + {(a.rule, a.normalized)}
      ensures k in Keys(more)
    {
      if k in Keys(records) {
        var i :| 0 <= i < |records| && k == (records[i].rule, records[i].normalized);
        assert k == (more[i].rule, more[i].normalized);
      } else {
        assert k == (more[|records|].rule, more[|records|].normalized);
      }
    }
  }

  method BuildVendorAliasRecords(aliases: seq<PlanAlias>) returns (records: seq<PlanAlias>)
    ensures records == AliasRecords(aliases)
  {
    records := [];
    var seen: set<(Rule, string)> := {};
    for i := 0 to |aliases|
      invariant records == AliasRecords(aliases[..i]) && seen == Keys(records)
    {
      assert aliases[..i + 1][..i] == aliases[..i];
      var a := aliases[i];
      SeenIsListed(records, a);
      if a.value != "" && a.normalized != "" && |a.normalized| <= NAME_LIMIT && (a.rule, a.normalized) !in seen {
        seen := seen + {(a.rule, a.normalized)};
        records := records + [a];
      }
    }
    assert aliases[..|aliases|] == aliases;
  }

  /** The four lookups, one after the other. */
  method LookUp(db: VendorTables, user: nat, t: Target, turn: Turn) returns (facts: Facts)
    requires Valid(db.Contents())
    modifies db
    ensures db.Contents() == ViewsOf(old(db.Contents()), turn).subjects
    ensures facts == FactsOf(ViewsOf(old(db.Contents()), turn), user, t)
    ensures Keyed(facts.subjects)
  {
    ViewsValid(db.Contents(), turn);
    db.Interfere(turn.beforeNames);
    var names := Exact(db.Contents(), user, NameExact, Loose(Name(t)));
    db.Interfere(turn.beforeDomains);
    var domains := Exact(db.Contents(), user, SenderDomain, t.domain);
    db.Interfere(turn.beforeSenders);
    var senders := Exact(db.Contents(), user, SenderName, Loose(t.sender));
    db.Interfere(turn.beforeSubjects);
    SubjectsKeyed(db.Contents(), user, Loose(t.subject));
    facts := Facts(names, domains, senders, Subjects(db.Contents(), user, Loose(t.subject)));
  }

  method ResolveOne(db: VendorTables, user: nat, t: Target, turn: Turn) returns (v: Verdict)
    requires Valid(db.Contents())
    modifies db
    ensures (db.Contents(), v) == ResolveTarget(old(db.Contents()), user, t, turn)
  {
    var facts := LookUp(db, user, t, turn);
    if turn.readFails {
      return Failed(RESOLVE_FAILED);
    }
    var d := Resolve(facts);
    if d.Resolved? {
      return Matched(d.vendor, d.rule);
    }
    var plan := RegistrationPlan(user, t);
    if plan.None? {
      return Unmatched;
    }
    db.Interfere(turn.between);
    if turn.registerFails {
      return Failed(REGISTER_FAILED);
    }
    var o := db.EnsureByPlan(plan.value, turn.now);
    v := VerdictOf(o);
  }

  method HandleOne(db: VendorTables, user: nat, t: Target, turn: Turn) returns (v: Verdict)
    requires Valid(db.Contents())
    modifies db
    ensures (db.Contents(), v) == Handle(old(db.Contents()), user, t, turn)
    ensures Kept(old(db.Contents()), db.Contents())
    ensures v.Failed? ==> OwnCode(v.code)
  {
    OnlyOwnCodes(db.Contents(), user, t, turn);
    if t.parsedEmailId == 0 || t.emailId == 0 {
      return Failed(INVALID_TARGET);
    }
    ResolveKeeps(db.Contents(), user, t, turn);
    v := ResolveOne(db, user, t, turn);
    if v.Matched? && (v.vendor.user == 0 || Trim(v.vendor.name) == "") {
      v := Failed(RESOLVE_FAILED);
    }
  }

  lemma OneMoreHandled(s: Store, user: nat, targets: seq<Target>, turns: seq<Turn>, i: nat)
    requires i < |targets| && |turns| == |targets|
    ensures var (t, verdicts) := HandleAll(s, user, targets, turns, i);
      var (u, v) := Handle(t, user, targets[i], turns[i]);
      HandleAll(s, user, targets, turns, i + 1) == (u, verdicts + [v])
  {
  }

  /** Every target ends up in exactly one of the three lists, and the counts are their lengths. */
  method Execute(db: VendorTables, user: nat, targets: seq<Target>, turns: seq<Turn>) returns (r: Result)
    requires Valid(db.Contents()) && |turns| == |targets|
    modifies db
    ensures db.Contents() == HandleAll(old(db.Contents()), user, targets, turns, |targets|).0
    ensures Kept(old(db.Contents()), db.Contents())
    ensures ReportsAll(r, targets, HandleAll(old(db.Contents()), user, targets, turns, |targets|).1, |targets|)
  {
    r := Result([], 0, [], 0, []);
    ghost var s := db.Contents();
    ghost var verdicts: seq<Verdict> := [];
    for i := 0 to |targets|
      invariant (db.Contents(), verdicts) == HandleAll(s, user, targets, turns, i)
      invariant |verdicts| == i && Kept(s, db.Contents())
      invariant ReportsAll(r, targets, verdicts, i)
    {
      ghost var before := db.Contents();
      var v := HandleOne(db, user, targets[i], turns[i]);
      OneMoreHandled(s, user, targets, turns, i);
      KeptOn(s, before, db.Contents());
      AddReports(r, targets, verdicts, i, v);
      r := Add(r, targets[i], v);
      verdicts := verdicts + [v];
    }
  }
}
