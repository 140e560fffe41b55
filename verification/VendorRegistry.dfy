/** The vendors and vendor_aliases tables, the lookups the policy needs, and the transaction that
    registers an unresolved name; then whole runs of resolutions that interleave with other writers. */
module VendorRegistry {
  import opened Options
  import opened Text
  import opened VendorPolicy

  datatype VendorRow = VendorRow(id: nat, user: nat, name: string, normalized: string)
  datatype AliasRow = AliasRow(id: nat, user: nat, rule: Rule, value: string, normalized: string, vendor: nat,
                               created: int)

  /** Rows in insertion order; the counters are the auto-increments, which a rollback does not reset. */
  datatype Store = Store(vendors: seq<VendorRow>, aliases: seq<AliasRow>, nextVendor: nat, nextAlias: nat)

  const EMPTY := Store([], [], 1, 1)

  function Find<T>(rows: seq<T>, p: T -> bool): (r: Option<T>)
    ensures r.Some? ==> r.value in rows && p(r.value)
    ensures r.None? ==> forall x :: x in rows ==> !p(x)
  {
    if rows == [] then None
    else if p(rows[|rows| - 1]) then Some(rows[|rows| - 1])
    else Find(rows[..|rows| - 1], p)
  }

  function HasName(user: nat, normalized: string): VendorRow -> bool {
    (v: VendorRow) => v.user == user && v.normalized == normalized
  }

  function HasId(id: nat, user: nat): VendorRow -> bool {
    (v: VendorRow) => v.id == id && v.user == user
  }

  function HasKey(user: nat, rule: Rule, normalized: string): AliasRow -> bool {
    (a: AliasRow) => a.user == user && a.rule == rule && a.normalized == normalized
  }

  // ---------------------------------------------------------------------------------------
  // What the tables keep
  // ---------------------------------------------------------------------------------------

  /** At most one row satisfies `p`: a unique index. */
  ghost predicate AtMostOne<T>(rows: seq<T>, p: T -> bool) {
    forall i, j :: 0 <= i < j < |rows| ==> !(p(rows[i]) && p(rows[j]))
  }

  ghost predicate VendorsUnique(s: Store) {
    && (forall i :: 0 <= i < |s.vendors| ==> s.vendors[i].id < s.nextVendor)
    && (forall i, j :: 0 <= i < j < |s.vendors| ==> s.vendors[i].id != s.vendors[j].id)
    && (forall i, j :: 0 <= i < j < |s.vendors| ==>
          !(s.vendors[i].user == s.vendors[j].user && s.vendors[i].normalized == s.vendors[j].normalized))
  }

  predicate SameKey(a: AliasRow, b: AliasRow) {
    a.user == b.user && a.rule == b.rule && a.normalized == b.normalized
  }

  ghost predicate AliasesUnique(s: Store) {
    && (forall i :: 0 <= i < |s.aliases| ==> s.aliases[i].id < s.nextAlias)
    && (forall i, j :: 0 <= i < j < |s.aliases| ==> s.aliases[i].id != s.aliases[j].id)
    && (forall i, j :: 0 <= i < j < |s.aliases| ==> !SameKey(s.aliases[i], s.aliases[j]))
  }

  /** Every alias belongs to a vendor of its user. */
  ghost predicate AliasesOwned(s: Store) {
    forall a :: a in s.aliases ==> Find(s.vendors, HasId(a.vendor, a.user)).Some?
  }

  ghost predicate Valid(s: Store) {
    VendorsUnique(s) && AliasesUnique(s) && AliasesOwned(s)
  }

  /** Rows are only ever added: no vendor is renamed and no alias reassigned. */
  predicate Later(s: Store, t: Store) {
    s.vendors <= t.vendors && s.aliases <= t.aliases
  }

  lemma FindStays<T>(rows: seq<T>, more: seq<T>, p: T -> bool)
    requires rows <= more && Find(rows, p).Some? && AtMostOne(more, p)
    ensures Find(more, p) == Find(rows, p)
  {
    var x := Find(rows, p).value;
    assert x in more;
  }

  lemma VendorsFound(s: Store, t: Store, id: nat, user: nat)
    requires Later(s, t) && VendorsUnique(t) && Find(s.vendors, HasId(id, user)).Some?
    ensures Find(t.vendors, HasId(id, user)) == Find(s.vendors, HasId(id, user))
  {
    FindStays(s.vendors, t.vendors, HasId(id, user));
  }

  // ---------------------------------------------------------------------------------------
  // Reading: FetchFacts
  // ---------------------------------------------------------------------------------------

  function ToVendor(v: VendorRow): Vendor {
    Vendor(v.id, v.user, v.name)
  }

  function CandidateOf(a: AliasRow, v: VendorRow): Candidate {
    Candidate(a.id, a.normalized, a.created, ToVendor(v))
  }

  ghost predicate Yields(s: Store, a: AliasRow, c: Candidate) {
    var v := Find(s.vendors, HasId(a.vendor, a.user));
    v.Some? && c == CandidateOf(a, v.value)
  }

  /** The rows of the alias query, joined with their vendors. */
  function AliasQuery(s: Store, rows: seq<AliasRow>, p: AliasRow -> bool): (r: seq<Candidate>)
    ensures forall c :: c in r ==> exists a :: a in rows && p(a) && Yields(s, a, c)
  {
    if rows == [] then []
    else
      var a := rows[|rows| - 1];
      var v := Find(s.vendors, HasId(a.vendor, a.user));
      AliasQuery(s, rows[..|rows| - 1], p) + if p(a) && v.Some? then [CandidateOf(a, v.value)] else []
  }

  predicate Contains(s: string, part: string) {
    part <= s || (s != [] && Contains(s[1..], part))
  }

  function KeywordIn(user: nat, subject: string): AliasRow -> bool {
    (a: AliasRow) => a.user == user && a.rule == SubjectKeyword && a.normalized != "" && Contains(subject, a.normalized)
  }

  function Exact(s: Store, user: nat, rule: Rule, value: string): seq<Candidate> {
    if value == "" then [] else AliasQuery(s, s.aliases, HasKey(user, rule, value))
  }

  function Subjects(s: Store, user: nat, subject: string): seq<Candidate> {
    if subject == "" then [] else AliasQuery(s, s.aliases, KeywordIn(user, subject))
  }

  /** `domain` and `sender` are what the From header parses to. */
  datatype Target = Target(parsedEmailId: nat, emailId: nat, name: Option<string>, subject: string, domain: string,
                           sender: string)

  function Name(t: Target): string {
    if t.name.Some? then Trim(t.name.value) else ""
  }

  /** The tables as each of the lookups finds them. */
  datatype Views = Views(names: Store, domains: Store, senders: Store, subjects: Store)

  /** The facts put together from the four lookups. */
  function FactsOf(v: Views, user: nat, t: Target): Facts {
    Facts(Exact(v.names, user, NameExact, Loose(Name(t))), Exact(v.domains, user, SenderDomain, t.domain),
          Exact(v.senders, user, SenderName, Loose(t.sender)), Subjects(v.subjects, user, Loose(t.subject)))
  }

  /** The facts when nothing is committed between the lookups. */
  function FetchFacts(s: Store, user: nat, t: Target): Facts {
    FactsOf(Views(s, s, s, s), user, t)
  }

  // ---------------------------------------------------------------------------------------
  // What the lookups find, said of the rows
  // ---------------------------------------------------------------------------------------

  predicate IsAlias(a: AliasRow, user: nat, rule: Rule, value: string) {
    a.user == user && a.rule == rule && a.normalized == value
  }

  /** Some alias of the user under this rule has the value. */
  ghost predicate HasAlias(s: Store, user: nat, rule: Rule, value: string) {
    exists i :: 0 <= i < |s.aliases| && IsAlias(s.aliases[i], user, rule, value)
  }

  /** `part` is a contiguous part of `s`. */
  ghost predicate Occurs(part: string, s: string) {
    exists i: nat, j: nat :: i <= j <= |s| && s[i..j] == part
  }

  /** A keyword of the user that occurs in the subject. */
  ghost predicate IsKeyword(s: Store, user: nat, subject: string, a: AliasRow) {
    && a in s.aliases && a.user == user && a.rule == SubjectKeyword && a.normalized != ""
    && Occurs(a.normalized, subject)
  }

  ghost predicate IsLongestKeyword(s: Store, user: nat, subject: string, a: AliasRow) {
    && IsKeyword(s, user, subject, a)
    && forall b :: IsKeyword(s, user, subject, b) ==> |b.normalized| <= |a.normalized|
  }

  predicate ShowsVendor(v: VendorRow, user: nat, id: nat, vendor: Vendor) {
    v.id == id && v.user == user && vendor == Vendor(id, user, v.name)
  }

  /** `vendor` is the vendor row of the user with this id. */
  ghost predicate IsVendor(s: Store, user: nat, id: nat, vendor: Vendor) {
    exists k :: 0 <= k < |s.vendors| && ShowsVendor(s.vendors[k], user, id, vendor)
  }

  lemma {:induction false} ContainsExactly(s: string, part: string)
    ensures Contains(s, part) <==> Occurs(part, s)
    decreases |s|
  {
    if part <= s {
      assert s[0..|part|] == part;
    } else if s != [] {
      ContainsExactly(s[1..], part);
      OccursInTail(s, part);
    }
  }

  lemma OccursInTail(s: string, part: string)
    requires s != [] && !(part <= s)
    ensures Occurs(part, s) <==> Occurs(part, s[1..])
  {
    if Occurs(part, s) {
      var i: nat, j: nat :| i <= j <= |s| && s[i..j] == part;
      OccursLater(s, part, i, j);
    }
    if Occurs(part, s[1..]) {
      var i: nat, j: nat :| i <= j <= |s[1..]| && s[1..][i..j] == part;
      OccursEarlier(s, part, i, j);
    }
  }

  lemma OccursLater(s: string, part: string, i: nat, j: nat)
    requires i <= j <= |s| && s[i..j] == part && !(part <= s) && s != []
    ensures Occurs(part, s[1..])
  {
    if i > 0 {
      assert s[1..][i - 1..j - 1] == part;
    }
  }

  lemma OccursEarlier(s: string, part: string, i: nat, j: nat)
    requires s != [] && i <= j <= |s[1..]| && s[1..][i..j] == part
    ensures Occurs(part, s)
  {
    assert s[i + 1..j + 1] == part;
  }

  lemma {:induction false} QueryHas(s: Store, rows: seq<AliasRow>, p: AliasRow -> bool, c: Candidate)
    ensures c in AliasQuery(s, rows, p) <==> exists a :: a in rows && p(a) && Yields(s, a, c)
  {
    if rows != [] {
      var before, last := rows[..|rows| - 1], rows[|rows| - 1];
      QueryHas(s, before, p, c);
      assert forall a :: a in rows <==> a in before || a == last;
    }
  }

  /** The subject lookup finds exactly the keywords of the user that occur in the subject. */
  lemma SubjectCandidates(s: Store, user: nat, subject: string, c: Candidate)
    ensures c in Subjects(s, user, subject) <==> exists a :: IsKeyword(s, user, subject, a) && Yields(s, a, c)
  {
    QueryHas(s, s.aliases, KeywordIn(user, subject), c);
    forall a
      ensures a in s.aliases && KeywordIn(user, subject)(a) <==> IsKeyword(s, user, subject, a)
    {
      ContainsExactly(subject, a.normalized);
    }
    if subject == "" {
      forall a
        ensures !IsKeyword(s, user, subject, a)
      {
        if i: nat, j: nat :| i <= j <= |subject| && subject[i..j] == a.normalized {
        }
      }
    }
  }

  lemma {:induction false} NoCandidate(s: Store, rows: seq<AliasRow>, p: AliasRow -> bool)
    requires forall a :: a in rows ==> !p(a)
    ensures AliasQuery(s, rows, p) == []
  {
    if rows != [] {
      NoCandidate(s, rows[..|rows| - 1], p);
    }
  }

  /** Under a unique key the query returns the one row found, with its vendor. */
  lemma {:induction false} OneCandidate(s: Store, rows: seq<AliasRow>, p: AliasRow -> bool)
    requires AtMostOne(rows, p) && forall a :: a in rows ==> Find(s.vendors, HasId(a.vendor, a.user)).Some?
    ensures var a := Find(rows, p);
      AliasQuery(s, rows, p) ==
        if a.None? then [] else [CandidateOf(a.value, Find(s.vendors, HasId(a.value.vendor, a.value.user)).value)]
  {
    if rows != [] {
      var before, a := rows[..|rows| - 1], rows[|rows| - 1];
      OneCandidate(s, before, p);
      if p(a) {
        NoCandidate(s, before, p);
      }
    }
  }

  lemma ExactCandidate(s: Store, user: nat, rule: Rule, value: string)
    requires Valid(s) && value != ""
    ensures var a := Find(s.aliases, HasKey(user, rule, value));
      Exact(s, user, rule, value) ==
        if a.None? then [] else [CandidateOf(a.value, Find(s.vendors, HasId(a.value.vendor, a.value.user)).value)]
  {
    KeyUnique(s, user, rule, value);
    OneCandidate(s, s.aliases, HasKey(user, rule, value));
  }

  lemma KeyUnique(s: Store, user: nat, rule: Rule, value: string)
    requires AliasesUnique(s)
    ensures AtMostOne(s.aliases, HasKey(user, rule, value))
  {
    forall i, j | 0 <= i < j < |s.aliases|
      ensures !(HasKey(user, rule, value)(s.aliases[i]) && HasKey(user, rule, value)(s.aliases[j]))
    {
      assert !SameKey(s.aliases[i], s.aliases[j]);
    }
  }

  lemma SubjectsKeyed(s: Store, user: nat, subject: string)
    requires AliasesUnique(s)
    ensures Keyed(Subjects(s, user, subject))
  {
    forall c, d | c in Subjects(s, user, subject) && d in Subjects(s, user, subject) && c.aliasId == d.aliasId
      ensures c == d
    {
      SameCandidate(s, KeywordIn(user, subject), c, d);
    }
  }

  lemma SameCandidate(s: Store, p: AliasRow -> bool, c: Candidate, d: Candidate)
    requires AliasesUnique(s)
      && c in AliasQuery(s, s.aliases, p) && d in AliasQuery(s, s.aliases, p) && c.aliasId == d.aliasId
    ensures c == d
  {
    var a :| a in s.aliases && p(a) && Yields(s, a, c);
    var b :| b in s.aliases && p(b) && Yields(s, b, d);
    SameAliasId(s, a, b);
  }

  lemma SameAliasId(s: Store, a: AliasRow, b: AliasRow)
    requires AliasesUnique(s) && a in s.aliases && b in s.aliases && a.id == b.id
    ensures a == b
  {
  }

  // ---------------------------------------------------------------------------------------
  // Writing: EnsureByPlan
  // ---------------------------------------------------------------------------------------

  const NAME_LIMIT := 255

  datatype PlanAlias = PlanAlias(rule: Rule, value: string, normalized: string)
  datatype Plan = Plan(user: nat, name: string, normalized: string, aliases: seq<PlanAlias>)

  /** `Conflict`: an alias already belongs to another vendor. */
  datatype Outcome = Ensured(vendor: Vendor) | Declined | Conflict

  /** BuildRegistrationPlan for an unresolved target; none for a blank name. */
  function RegistrationPlan(user: nat, t: Target): Option<Plan> {
    if Loose(Name(t)) == "" then None
    else Some(Plan(user, Name(t), Loose(Name(t)), [PlanAlias(NameExact, Name(t), Loose(Name(t)))]))
  }

  function TrimAliases(aliases: seq<PlanAlias>): seq<PlanAlias> {
    if aliases == [] then []
    else
      var a := PlanAlias(aliases[0].rule, Trim(aliases[0].value), Trim(aliases[0].normalized));
      (if a.value == "" || a.normalized == "" then [] else [a]) + TrimAliases(aliases[1..])
  }

  function NormalizePlan(p: Plan): Plan {
    Plan(p.user, Trim(p.name), Trim(p.normalized), TrimAliases(p.aliases))
  }

  predicate FitsColumns(p: Plan) {
    p.name != "" && p.normalized != "" && |p.name| <= NAME_LIMIT && |p.normalized| <= NAME_LIMIT
  }

  function FindOrCreate(s: Store, user: nat, name: string, normalized: string): (Store, VendorRow) {
    var found := Find(s.vendors, HasName(user, normalized));
    if found.Some? then (s, found.value)
    else
      var v := VendorRow(s.nextVendor, user, name, normalized);
      (s.(vendors := s.vendors + [v], nextVendor := s.nextVendor + 1), v)
  }

  predicate Listed(records: seq<PlanAlias>, rule: Rule, normalized: string) {
    exists i :: 0 <= i < |records| && records[i].rule == rule && records[i].normalized == normalized
  }

  /** buildVendorAliasRecords: complete aliases that fit, each key once. */
  function AliasRecords(aliases: seq<PlanAlias>): seq<PlanAlias> {
    if aliases == [] then []
    else
      var before, a := AliasRecords(aliases[..|aliases| - 1]), aliases[|aliases| - 1];
      if a.value == "" || a.normalized == "" || |a.normalized| > NAME_LIMIT || Listed(before, a.rule, a.normalized)
      then before else before + [a]
  }

  /** INSERT ... ON CONFLICT DO NOTHING of the alias rows. */
  function InsertAliases(s: Store, user: nat, vendor: nat, records: seq<PlanAlias>, now: int): Store {
    if records == [] then s
    else
      var t := InsertAliases(s, user, vendor, records[..|records| - 1], now);
      var a := records[|records| - 1];
      if Find(t.aliases, HasKey(user, a.rule, a.normalized)).Some? then t
      else t.(aliases := t.aliases + [AliasRow(t.nextAlias, user, a.rule, a.value, a.normalized, vendor, now)],
              nextAlias := t.nextAlias + 1)
  }

  predicate BelongsTo(s: Store, user: nat, vendor: nat, a: PlanAlias) {
    var found := Find(s.aliases, HasKey(user, a.rule, a.normalized));
    found.Some? && found.value.vendor == vendor
  }

  function Ensure(s: Store, plan: Plan, now: int): (Store, Outcome) {
    var p := NormalizePlan(plan);
    if !FitsColumns(p) then (s, Declined)
    else
      var (t, v) := FindOrCreate(s, p.user, p.name, p.normalized);
      var records := AliasRecords(p.aliases);
      var u := InsertAliases(t, p.user, v.id, records, now);
      if forall i :: 0 <= i < |records| ==> BelongsTo(u, p.user, v.id, records[i]) then (u, Ensured(ToVendor(v)))
      else (s.(nextVendor := u.nextVendor, nextAlias := u.nextAlias), Conflict)
  }

  lemma NewVendorUnique(s: Store, v: VendorRow)
    requires VendorsUnique(s) && v.id == s.nextVendor && Find(s.vendors, HasName(v.user, v.normalized)).None?
    ensures VendorsUnique(s.(vendors := s.vendors + [v], nextVendor := s.nextVendor + 1))
  {
    forall i | 0 <= i < |s.vendors|
      ensures !(s.vendors[i].user == v.user && s.vendors[i].normalized == v.normalized)
    {
      assert !HasName(v.user, v.normalized)(s.vendors[i]);
    }
  }

  lemma OwnedStays(s: Store, t: Store)
    requires AliasesOwned(s) && Later(s, t) && VendorsUnique(t) && t.aliases == s.aliases
    ensures AliasesOwned(t)
  {
    forall a | a in t.aliases
      ensures Find(t.vendors, HasId(a.vendor, a.user)).Some?
    {
      VendorsFound(s, t, a.vendor, a.user);
    }
  }

  lemma CreateKeeps(s: Store, user: nat, name: string, normalized: string)
    requires Valid(s)
    ensures var (t, v) := FindOrCreate(s, user, name, normalized);
      && Valid(t) && Later(s, t) && t.aliases == s.aliases && t.nextAlias == s.nextAlias && t.nextVendor >= s.nextVendor
      && v in t.vendors && v.user == user && v.normalized == normalized && Find(t.vendors, HasId(v.id, user)).Some?
  {
    var (t, v) := FindOrCreate(s, user, name, normalized);
    if t != s {
      NewVendorUnique(s, v);
      OwnedStays(s, t);
    }
    assert HasId(v.id, user)(v);
  }

  lemma AddAliasKeeps(t: Store, a: AliasRow)
    requires Valid(t) && a.id == t.nextAlias && Find(t.aliases, HasKey(a.user, a.rule, a.normalized)).None?
    requires Find(t.vendors, HasId(a.vendor, a.user)).Some?
    ensures Valid(t.(aliases := t.aliases + [a], nextAlias := t.nextAlias + 1))
  {
    forall i | 0 <= i < |t.aliases|
      ensures !SameKey(t.aliases[i], a)
    {
      assert !HasKey(a.user, a.rule, a.normalized)(t.aliases[i]);
    }
  }

  /** Whatever an alias key named before, it still names. */
  ghost predicate KeepsAliases(s: Store, t: Store) {
    forall user, rule, normalized ::
      Find(s.aliases, HasKey(user, rule, normalized)).Some? ==>
        Find(t.aliases, HasKey(user, rule, normalized)) == Find(s.aliases, HasKey(user, rule, normalized))
  }

  lemma LaterKeepsAliases(s: Store, t: Store)
    requires Later(s, t) && AliasesUnique(t)
    ensures KeepsAliases(s, t)
  {
    forall user, rule, normalized | Find(s.aliases, HasKey(user, rule, normalized)).Some?
      ensures Find(t.aliases, HasKey(user, rule, normalized)) == Find(s.aliases, HasKey(user, rule, normalized))
    {
      KeyUnique(t, user, rule, normalized);
      FindStays(s.aliases, t.aliases, HasKey(user, rule, normalized));
    }
  }

  lemma {:induction false} InsertKeeps(s: Store, user: nat, vendor: nat, records: seq<PlanAlias>, now: int)
    requires Valid(s) && Find(s.vendors, HasId(vendor, user)).Some?
    ensures var u := InsertAliases(s, user, vendor, records, now);
      Valid(u) && Later(s, u) && u.vendors == s.vendors && u.nextVendor == s.nextVendor && u.nextAlias >= s.nextAlias
  {
    if records != [] {
      InsertKeeps(s, user, vendor, records[..|records| - 1], now);
      var t := InsertAliases(s, user, vendor, records[..|records| - 1], now);
      var a := records[|records| - 1];
      if Find(t.aliases, HasKey(user, a.rule, a.normalized)).None? {
        AddAliasKeeps(t, AliasRow(t.nextAlias, user, a.rule, a.value, a.normalized, vendor, now));
      }
    }
  }

  /** Every transaction keeps the tables valid and only adds rows; a conflict adds none. */
  lemma EnsureKeeps(s: Store, plan: Plan, now: int)
    requires Valid(s)
    ensures var (t, o) := Ensure(s, plan, now);
      && Valid(t) && Later(s, t)
      && (!o.Ensured? ==> t.vendors == s.vendors && t.aliases == s.aliases)
  {
    var p := NormalizePlan(plan);
    if FitsColumns(p) {
      CreateKeeps(s, p.user, p.name, p.normalized);
      var (t, v) := FindOrCreate(s, p.user, p.name, p.normalized);
      InsertKeeps(t, p.user, v.id, AliasRecords(p.aliases), now);
    }
  }

  // ---------------------------------------------------------------------------------------
  // Registering a name
  // ---------------------------------------------------------------------------------------

  predicate Fits(t: Target) {
    Name(t) != "" && |Name(t)| <= 255
  }

  /** The plan of a target is already normalised, and fits exactly when its name does. */
  lemma PlanOfTarget(user: nat, t: Target)
    ensures RegistrationPlan(user, t).None? <==> Name(t) == ""
    ensures RegistrationPlan(user, t).Some? ==>
      var p := RegistrationPlan(user, t).value;
      && NormalizePlan(p) == p && (FitsColumns(p) <==> Fits(t))
      && (FitsColumns(p) ==> AliasRecords(p.aliases) == p.aliases)
  {
    var n := Name(t);
    if t.name.Some? {
      TrimTwice(t.name.value);
    }
    LooseShape(n);
    LooseTwice(n);
    if RegistrationPlan(user, t).Some? {
      var p := RegistrationPlan(user, t).value;
      assert p.aliases[..0] == [] && p.aliases[1..] == [];
      assert AliasRecords(p.aliases[..0]) == [];
      assert TrimAliases(p.aliases) == p.aliases;
    }
  }

  /** The vendor the name's alias is bound to, if any. */
  function BoundTo(s: Store, user: nat, name: string): Option<nat> {
    var found := Find(s.aliases, HasKey(user, NameExact, Loose(name)));
    if found.Some? then Some(found.value.vendor) else None
  }

  predicate ConflictFor(s: Store, user: nat, name: string) {
    var vendor := Find(s.vendors, HasName(user, Loose(name)));
    BoundTo(s, user, name).Some?
      && BoundTo(s, user, name).value != if vendor.Some? then vendor.value.id else s.nextVendor
  }

  lemma InsertOne(s: Store, user: nat, vendor: nat, a: PlanAlias, now: int)
    ensures var found := Find(s.aliases, HasKey(user, a.rule, a.normalized));
      BelongsTo(InsertAliases(s, user, vendor, [a], now), user, vendor, a) <==>
        found.None? || found.value.vendor == vendor
  {
    assert [a][..0] == [];
  }

  /** What the transaction does with the plan of a target whose name fits. */
  lemma EnsureFitting(s: Store, user: nat, t: Target, now: int)
    requires Fits(t)
    ensures RegistrationPlan(user, t).Some?
    ensures var p := RegistrationPlan(user, t).value;
      var (c, v) := FindOrCreate(s, user, p.name, p.normalized);
      var u := InsertAliases(c, user, v.id, p.aliases, now);
      && p.normalized == Loose(Name(t)) && p.aliases == [PlanAlias(NameExact, Name(t), Loose(Name(t)))]
      && (BelongsTo(u, user, v.id, p.aliases[0]) ==> Ensure(s, p, now) == (u, Ensured(ToVendor(v))))
      && (!BelongsTo(u, user, v.id, p.aliases[0]) ==> Ensure(s, p, now).1 == Conflict)
  {
    PlanOfTarget(user, t);
  }

  /** A registration is declined exactly when the name does not fit... */
  lemma DeclinedExactly(s: Store, user: nat, t: Target, now: int)
    requires RegistrationPlan(user, t).Some?
    ensures Ensure(s, RegistrationPlan(user, t).value, now).1.Declined? <==> !Fits(t)
  {
    PlanOfTarget(user, t);
  }

  /** ... is a conflict exactly when the alias of the name is bound to another vendor... */
  lemma ConflictExactly(s: Store, user: nat, t: Target, now: int)
    requires Valid(s) && RegistrationPlan(user, t).Some?
    ensures Ensure(s, RegistrationPlan(user, t).value, now).1.Conflict? <==> Fits(t) && ConflictFor(s, user, Name(t))
  {
    DeclinedExactly(s, user, t, now);
    if Fits(t) {
      EnsureFitting(s, user, t, now);
      var (c, v) := FindOrCreate(s, user, Name(t), Loose(Name(t)));
      InsertOne(c, user, v.id, PlanAlias(NameExact, Name(t), Loose(Name(t))), now);
    }
  }

  /** ... and otherwise leaves the alias bound to the vendor it returns. */
  lemma EnsuredIsBound(s: Store, user: nat, t: Target, now: int)
    requires Valid(s) && RegistrationPlan(user, t).Some? && Ensure(s, RegistrationPlan(user, t).value, now).1.Ensured?
    ensures var (u, o) := Ensure(s, RegistrationPlan(user, t).value, now);
      var v := Find(u.vendors, HasId(o.vendor.id, user));
      BoundTo(u, user, Name(t)) == Some(o.vendor.id) && v.Some? && ToVendor(v.value) == o.vendor
  {
    DeclinedExactly(s, user, t, now);
    EnsureFitting(s, user, t, now);
    var p := RegistrationPlan(user, t).value;
    CreateKeeps(s, user, p.name, p.normalized);
    var (c, v) := FindOrCreate(s, user, p.name, p.normalized);
    assert HasId(v.id, user)(v);
    InsertKeeps(c, user, v.id, p.aliases, now);
    VendorIsItself(c, v);
  }

  lemma VendorIsItself(s: Store, v: VendorRow)
    requires VendorsUnique(s) && v in s.vendors
    ensures Find(s.vendors, HasId(v.id, v.user)) == Some(v)
  {
    assert HasId(v.id, v.user)(v);
  }

  // ---------------------------------------------------------------------------------------
  // Runs
  // ---------------------------------------------------------------------------------------

  /** One transaction on the tables: a registration, or another writer adding a vendor or alias. The
      reads of a resolution change nothing and can happen anywhere in between. */
  datatype Event =
    | Register(user: nat, target: Target, now: int)
    | AddVendor(user: nat, name: string, normalized: string)
    | AddAlias(user: nat, vendor: nat, alias: PlanAlias, now: int)

  function Take(s: Store, e: Event): Store {
    match e
    case Register(user, target, now) =>
      if RegistrationPlan(user, target).None? then s else Ensure(s, RegistrationPlan(user, target).value, now).0
    case AddVendor(user, name, normalized) => FindOrCreate(s, user, name, normalized).0
    case AddAlias(user, vendor, alias, now) =>
      if Find(s.vendors, HasId(vendor, user)).None? then s else InsertAliases(s, user, vendor, [alias], now)
  }

  function Run(s: Store, events: seq<Event>): Store {
    if events == [] then s else Take(Run(s, events[..|events| - 1]), events[|events| - 1])
  }

  lemma TakeKeeps(s: Store, e: Event)
    requires Valid(s)
    ensures Valid(Take(s, e)) && Later(s, Take(s, e))
  {
    match e
    case Register(user, target, now) =>
      if RegistrationPlan(user, target).Some? {
        EnsureKeeps(s, RegistrationPlan(user, target).value, now);
      }
    case AddVendor(user, name, normalized) =>
      CreateKeeps(s, user, name, normalized);
    case AddAlias(user, vendor, alias, now) =>
      if Find(s.vendors, HasId(vendor, user)).Some? {
        InsertKeeps(s, user, vendor, [alias], now);
      }
  }

  /** Over any run vendors stay unique per user and normalised name, aliases per user, rule and value,
      and neither ever changes. */
  lemma {:induction false} RunKeeps(s: Store, events: seq<Event>)
    requires Valid(s)
    ensures Valid(Run(s, events)) && Later(s, Run(s, events)) && KeepsAliases(s, Run(s, events))
    decreases |events|
  {
    if events != [] {
      RunKeeps(s, events[..|events| - 1]);
      TakeKeeps(Run(s, events[..|events| - 1]), events[|events| - 1]);
    }
    LaterKeepsAliases(s, Run(s, events));
  }

  /** A bound name is resolved by its alias, whatever the sender and subject say. */
  lemma BoundDecides(s: Store, user: nat, t: Target)
    requires Valid(s) && BoundTo(s, user, Name(t)).Some? && Name(t) != ""
    ensures var v := Find(s.vendors, HasId(BoundTo(s, user, Name(t)).value, user));
      v.Some? && Decide(FetchFacts(s, user, t)) == Resolved(ToVendor(v.value), NameExact)
  {
    LooseShape(Name(t));
    NameTrimmed(t);
    ExactCandidate(s, user, NameExact, Loose(Name(t)));
    var names := FetchFacts(s, user, t).names;
    assert |names| == 1 && names[..0] == [];
    assert Latest(names[..0]).None?;
  }

  lemma NameTrimmed(t: Target)
    ensures Trim(Name(t)) == Name(t)
  {
    if t.name.Some? {
      TrimTwice(t.name.value);
    }
  }

  lemma NameExactMeansBound(s: Store, user: nat, t: Target)
    requires Valid(s) && Decide(FetchFacts(s, user, t)).Resolved? && Decide(FetchFacts(s, user, t)).rule == NameExact
    ensures Name(t) != "" && BoundTo(s, user, Name(t)).Some?
  {
    LooseShape(Name(t));
    NameTrimmed(t);
    if Loose(Name(t)) != "" {
      ExactCandidate(s, user, NameExact, Loose(Name(t)));
    }
  }

  lemma BoundStays(s: Store, events: seq<Event>, user: nat, t: Target, later: Target)
    requires Valid(s) && Name(t) != "" && BoundTo(s, user, Name(t)).Some? && Loose(Name(later)) == Loose(Name(t))
    ensures Decide(FetchFacts(s, user, t)).Resolved?
    ensures Decide(FetchFacts(Run(s, events), user, later)) == Decide(FetchFacts(s, user, t))
  {
    RunKeeps(s, events);
    LooseShape(Name(t));
    LooseShape(Name(later));
    NameTrimmed(t);
    NameTrimmed(later);
    BoundDecides(s, user, t);
    BoundDecides(Run(s, events), user, later);
    VendorsFound(s, Run(s, events), BoundTo(s, user, Name(t)).value, user);
  }

  /** Once a name is resolved by name_exact, every loosely equal name of the user resolves to the same
      vendor by name_exact ever after. */
  lemma NameExactStable(s: Store, events: seq<Event>, user: nat, t: Target, later: Target)
    requires Valid(s) && Loose(Name(later)) == Loose(Name(t))
    requires Decide(FetchFacts(s, user, t)).Resolved? && Decide(FetchFacts(s, user, t)).rule == NameExact
    ensures Decide(FetchFacts(Run(s, events), user, later)) == Decide(FetchFacts(s, user, t))
  {
    NameExactMeansBound(s, user, t);
    BoundStays(s, events, user, t, later);
  }

  /** A name that was registered resolves to that vendor by name_exact ever after. */
  lemma RegisteredStable(s: Store, user: nat, t: Target, now: int, events: seq<Event>, later: Target)
    requires Valid(s) && RegistrationPlan(user, t).Some? && Loose(Name(later)) == Loose(Name(t))
    requires Ensure(s, RegistrationPlan(user, t).value, now).1.Ensured?
    ensures var (u, o) := Ensure(s, RegistrationPlan(user, t).value, now);
      Decide(FetchFacts(Run(u, events), user, later)) == Resolved(o.vendor, NameExact)
  {
    PlanOfTarget(user, t);
    EnsuredIsBound(s, user, t, now);
    EnsureKeeps(s, RegistrationPlan(user, t).value, now);
    var u := Ensure(s, RegistrationPlan(user, t).value, now).0;
    BoundDecides(u, user, t);
    BoundStays(u, events, user, t, later);
  }

  /** The registration of a target that has a plan. */
  function Registration(s: Store, user: nat, t: Target, now: int): (Store, Outcome)
    requires RegistrationPlan(user, t).Some?
  {
    Ensure(s, RegistrationPlan(user, t).value, now)
  }

  lemma FindIsName(s: Store, user: nat, normalized: string, v: VendorRow)
    requires VendorsUnique(s) && v in s.vendors && v.user == user && v.normalized == normalized
    ensures Find(s.vendors, HasName(user, normalized)) == Some(v)
  {
    var found := Find(s.vendors, HasName(user, normalized));
    assert HasName(user, normalized)(v);
    var i :| 0 <= i < |s.vendors| && s.vendors[i] == v;
    var j :| 0 <= j < |s.vendors| && s.vendors[j] == found.value;
  }

  lemma NoAliasFound(s: Store, user: nat, rule: Rule, value: string)
    ensures Find(s.aliases, HasKey(user, rule, value)).Some? <==> HasAlias(s, user, rule, value)
  {
    var found := Find(s.aliases, HasKey(user, rule, value));
    if found.Some? {
      var i :| 0 <= i < |s.aliases| && s.aliases[i] == found.value;
    }
    if i :| 0 <= i < |s.aliases| && IsAlias(s.aliases[i], user, rule, value) {
      assert HasKey(user, rule, value)(s.aliases[i]);
    }
  }

  /** The vendor rows of the user with this normalised name. */
  ghost predicate IsNamed(s: Store, user: nat, normalized: string, v: VendorRow) {
    v in s.vendors && v.user == user && v.normalized == normalized
  }

  /** What a successful registration adds: a vendor with the trimmed name unless the user has one of the
      same loose name, and an alias for that name unless there is one. */
  lemma RegisteredRows(s: Store, user: nat, t: Target, now: int)
    requires Valid(s) && RegistrationPlan(user, t).Some? && Ensure(s, RegistrationPlan(user, t).value, now).1.Ensured?
    ensures var (u, o) := Ensure(s, RegistrationPlan(user, t).value, now);
      var n, l := Name(t), Loose(Name(t));
      && (forall v :: IsNamed(s, user, l, v) ==> u.vendors == s.vendors && o.vendor == Vendor(v.id, user, v.name))
      && ((forall v :: !IsNamed(s, user, l, v)) ==>
            && u.vendors == s.vendors + [VendorRow(s.nextVendor, user, n, l)]
            && o.vendor == Vendor(s.nextVendor, user, n))
      && (if HasAlias(s, user, NameExact, l) then u.aliases == s.aliases
          else u.aliases == s.aliases + [AliasRow(s.nextAlias, user, NameExact, n, l, o.vendor.id, now)])
  {
    var p := RegistrationPlan(user, t).value;
    var n, l := Name(t), Loose(Name(t));
    DeclinedExactly(s, user, t, now);
    EnsureFitting(s, user, t, now);
    var (c, v) := FindOrCreate(s, user, n, l);
    NoAliasFound(c, user, NameExact, l);
    assert HasAlias(c, user, NameExact, l) == HasAlias(s, user, NameExact, l);
    assert p.aliases[..0] == [];
    forall w | IsNamed(s, user, l, w)
      ensures v == w && c == s
    {
      FindIsName(s, user, l, w);
    }
    if forall w :: !IsNamed(s, user, l, w) {
      if Find(s.vendors, HasName(user, l)).Some? {
        assert IsNamed(s, user, l, Find(s.vendors, HasName(user, l)).value);
      }
    }
  }

  /** Two registrations of loosely equal names, however far apart, are given the same vendor. */
  lemma RegistrationsAgree(s: Store, user: nat, t: Target, now: int, events: seq<Event>, later: Target, laterNow: int)
    requires Valid(s) && RegistrationPlan(user, t).Some? && RegistrationPlan(user, later).Some?
    requires Loose(Name(later)) == Loose(Name(t)) && Registration(s, user, t, now).1.Ensured?
    requires Registration(Run(Registration(s, user, t, now).0, events), user, later, laterNow).1.Ensured?
    ensures Registration(Run(Registration(s, user, t, now).0, events), user, later, laterNow).1
         == Registration(s, user, t, now).1
  {
    var u := Registration(s, user, t, now).0;
    var w := Run(u, events);
    EnsureKeeps(s, RegistrationPlan(user, t).value, now);
    RunKeeps(u, events);
    RegisteredStable(w, user, later, laterNow, [], later);
    var again := events + [Register(user, later, laterNow)];
    assert again[..|again| - 1] == events;
    RegisteredStable(s, user, t, now, again, later);
  }

  /** Registrations do happen: the first one into empty tables. */
  lemma FirstRegistration()
    ensures var t := Target(1, 1, Some("a"), "", "", "");
      RegistrationPlan(1, t).Some? && Registration(EMPTY, 1, t, 0).1 == Ensured(Vendor(1, 1, "a"))
  {
    var t := Target(1, 1, Some("a"), "", "", "");
    TrimmedStays("a");
    PlanOfTarget(1, t);
    LooseShape("a");
    DeclinedExactly(EMPTY, 1, t, 0);
    ConflictExactly(EMPTY, 1, t, 0);
    EnsureFitting(EMPTY, 1, t, 0);
  }
}
