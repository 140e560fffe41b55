/** The vendor resolution policy: which alias candidate decides, and which names can be registered. */
module VendorPolicy {
  import opened Options
  import opened Text

  datatype Vendor = Vendor(id: nat, user: nat, name: string)

  datatype Rule = NameExact | SenderDomain | SenderName | SubjectKeyword

  datatype Candidate = Candidate(aliasId: nat, normalized: string, created: int, vendor: Vendor)

  datatype Facts = Facts(names: seq<Candidate>, domains: seq<Candidate>, senders: seq<Candidate>,
                         subjects: seq<Candidate>)

  datatype Decision = Resolved(vendor: Vendor, rule: Rule) | Unresolved

  // ---------------------------------------------------------------------------------------
  // Loose text
  // ---------------------------------------------------------------------------------------

  /** NormalizeLooseText */
  function Loose(s: string): string {
    Canonical(s, IsSpace, ' ')
  }

  lemma LooseTwice(s: string)
    ensures Loose(Loose(s)) == Loose(s) && Trim(Loose(s)) == Loose(s)
  {
    CanonicalTwice(s, IsSpace, ' ');
    TrimmedStays(Loose(s));
  }

  /** The words of a text, letter case aside. */
  function Words(s: string): seq<string> {
    Fields(Lower(s), IsSpace)
  }

  /** Two texts are loosely equal exactly when they have the same words. */
  lemma LooseExactly(a: string, b: string)
    ensures Loose(a) == Loose(b) <==> Words(a) == Words(b)
  {
    FieldsOfTrim(a);
    FieldsOfTrim(b);
    CanonicalTwice(a, IsSpace, ' ');
    CanonicalTwice(b, IsSpace, ' ');
  }

  lemma {:induction false} JoinNotLonger(s: string)
    ensures |Join(Fields(s, IsSpace), [' '])| <= |s|
    ensures s != [] && !IsSpace(s[0]) ==> Join(Fields(s, IsSpace), [' ']) != []
    decreases |s|
  {
    if s != [] {
      if IsSpace(s[0]) {
        JoinNotLonger(s[1..]);
      } else {
        var n := WordLength(s, IsSpace);
        var tail := s[n..];
        if tail != [] {
          JoinNotLonger(tail[1..]);
        }
      }
    }
  }

  /** Loosening never makes a name longer, and only blank names become empty. */
  lemma LooseShape(s: string)
    ensures |Loose(s)| <= |Trim(s)|
    ensures Loose(s) == "" <==> Blank(s)
  {
    var t := Lower(Trim(s));
    TrimIsTrimmed(s);
    JoinNotLonger(t);
    if t != [] {
      assert LowerChar(Trim(s)[0]) == t[0];
      assert !IsSpace(t[0]);
    }
  }

  // ---------------------------------------------------------------------------------------
  // The latest candidate
  // ---------------------------------------------------------------------------------------

  predicate Newer(a: Candidate, b: Candidate) {
    if a.created != b.created then a.created > b.created else a.aliasId > b.aliasId
  }

  function Latest(cs: seq<Candidate>): Option<Candidate> {
    if cs == [] then None
    else
      var last := cs[|cs| - 1];
      var before := Latest(cs[..|cs| - 1]);
      if before.None? || Newer(last, before.value) then Some(last) else before
  }

  method SelectLatestAliasCandidate(cs: seq<Candidate>) returns (r: Option<Candidate>)
    ensures r == Latest(cs)
  {
    if cs == [] {
      return None;
    }
    var best := cs[0];
    assert cs[..1] == [cs[0]];
    for i := 1 to |cs|
      invariant Latest(cs[..i]) == Some(best)
    {
      assert cs[..i + 1][..i] == cs[..i];
      if Newer(cs[i], best) {
        best := cs[i];
      }
    }
    assert cs[..|cs|] == cs;
    r := Some(best);
  }

  ghost predicate NoneNewer(cs: seq<Candidate>, c: Candidate) {
    c in cs && forall d :: d in cs ==> !Newer(d, c)
  }

  lemma {:induction false} LatestMeans(cs: seq<Candidate>)
    ensures Latest(cs).None? <==> cs == []
    ensures cs != [] ==> NoneNewer(cs, Latest(cs).value)
  {
    if cs != [] {
      var last := |cs| - 1;
      LatestMeans(cs[..last]);
      assert forall d :: d in cs <==> d == cs[last] || d in cs[..last];
    }
  }

  /** Alias ids tell candidates apart. */
  ghost predicate Keyed(cs: seq<Candidate>) {
    forall c, d :: c in cs && d in cs && c.aliasId == d.aliasId ==> c == d
  }

  /** The order of the candidates does not matter. */
  lemma LatestUnique(cs: seq<Candidate>, c: Candidate)
    requires Keyed(cs) && NoneNewer(cs, c)
    ensures Latest(cs) == Some(c)
  {
    LatestMeans(cs);
  }

  // ---------------------------------------------------------------------------------------
  // Subject keywords
  // ---------------------------------------------------------------------------------------

  ghost predicate IsLongest(cs: seq<Candidate>, c: Candidate) {
    c in cs && forall d :: d in cs ==> |d.normalized| <= |c.normalized|
  }

  function MaxLength(cs: seq<Candidate>): (n: nat)
    ensures forall c :: c in cs ==> |c.normalized| <= n
    ensures cs != [] ==> exists c :: c in cs && |c.normalized| == n
  {
    if cs == [] then 0
    else
      var n := MaxLength(cs[1..]);
      if |cs[0].normalized| > n || |cs| == 1 then |cs[0].normalized| else n
  }

  function OfLength(cs: seq<Candidate>, n: nat): (r: seq<Candidate>)
    ensures forall c :: c in r <==> c in cs && |c.normalized| == n
  {
    if cs == [] then [] else (if |cs[0].normalized| == n then [cs[0]] else []) + OfLength(cs[1..], n)
  }

  function VendorIds(cs: seq<Candidate>): set<nat> {
    set c | c in cs :: c.vendor.id
  }

  /** The vendor of the longest keywords, unless they name several. */
  function SubjectVendor(cs: seq<Candidate>): Option<Vendor> {
    var longest := OfLength(cs, MaxLength(cs));
    if longest == [] || |VendorIds(longest)| > 1 then None
    else if Latest(longest).None? then None
    else Some(Latest(longest).value.vendor)
  }

  lemma OneOrSeveral(cs: seq<Candidate>)
    requires cs != []
    ensures |VendorIds(cs)| > 1 <==> exists c, d :: c in cs && d in cs && c.vendor.id != d.vendor.id
  {
    var ids := VendorIds(cs);
    assert cs[0].vendor.id in ids;
    if c, d :| c in cs && d in cs && c.vendor.id != d.vendor.id {
      assert {c.vendor.id, d.vendor.id} <= ids;
      SubsetSize({c.vendor.id, d.vendor.id}, ids);
    } else {
      assert ids == {cs[0].vendor.id};
    }
  }

  lemma {:induction false} SubsetSize(a: set<nat>, b: set<nat>)
    requires a <= b
    ensures |a| <= |b|
  {
    if a != {} {
      var x :| x in a;
      SubsetSize(a - {x}, b - {x});
    }
  }

  /** No answer exactly when there is no keyword or the longest ones name different vendors; otherwise
      the vendor of the newest of the longest. */
  lemma SubjectVendorExactly(cs: seq<Candidate>)
    ensures SubjectVendor(cs).None? <==>
      cs == [] || exists c, d :: IsLongest(cs, c) && IsLongest(cs, d) && c.vendor.id != d.vendor.id
    ensures SubjectVendor(cs).Some? ==>
      exists c :: IsLongest(cs, c) && c.vendor == SubjectVendor(cs).value
        && forall d :: IsLongest(cs, d) ==> !Newer(d, c)
  {
    var longest := OfLength(cs, MaxLength(cs));
    assert forall c :: c in longest <==> IsLongest(cs, c);
    LatestMeans(longest);
    if cs != [] {
      var c :| c in cs && |c.normalized| == MaxLength(cs);
      assert c in longest;
      OneOrSeveral(longest);
    }
  }

  /** Longer keyword first, then the newer alias. */
  predicate RanksBefore(a: Candidate, b: Candidate) {
    if |a.normalized| != |b.normalized| then |a.normalized| > |b.normalized| else Newer(a, b)
  }

  function Insert(c: Candidate, s: seq<Candidate>): (r: seq<Candidate>)
    ensures forall d :: d in r <==> d == c || d in s
  {
    if s == [] || !RanksBefore(s[0], c) then [c] + s else [s[0]] + Insert(c, s[1..])
  }

  /** sort.SliceStable by the ranking */
  function Sort(s: seq<Candidate>): (r: seq<Candidate>)
    ensures forall d :: d in r <==> d in s
  {
    if s == [] then [] else Insert(s[0], Sort(s[1..]))
  }

  ghost predicate Ranked(s: seq<Candidate>) {
    forall i, j :: 0 <= i < j < |s| ==> !RanksBefore(s[j], s[i])
  }

  lemma {:induction false} InsertRanked(c: Candidate, s: seq<Candidate>)
    requires Ranked(s)
    ensures Ranked(Insert(c, s))
  {
    if s != [] && RanksBefore(s[0], c) {
      InsertRanked(c, s[1..]);
      var rest := Insert(c, s[1..]);
      forall j | 0 <= j < |rest|
        ensures !RanksBefore(rest[j], s[0])
      {
        assert rest[j] in rest;
      }
    }
  }

  lemma {:induction false} SortRanks(s: seq<Candidate>)
    ensures Ranked(Sort(s))
  {
    if s != [] {
      SortRanks(s[1..]);
      InsertRanked(s[0], Sort(s[1..]));
    }
  }

  ghost predicate SameLength(cs: seq<Candidate>, n: nat, length: nat)
    requires n <= |cs|
  {
    forall k :: 0 <= k < n ==> |cs[k].normalized| == length
  }

  lemma SameMembers(a: seq<Candidate>, b: seq<Candidate>)
    requires Keyed(a) && b != [] && forall c :: c in a <==> c in b
    ensures a != [] && VendorIds(a) == VendorIds(b) && Latest(a) == Latest(b)
  {
    assert b[0] in a;
    LatestMeans(b);
    LatestUnique(a, Latest(b).value);
  }

  lemma LeadingLengths(sorted: seq<Candidate>, n: nat, i: nat)
    requires Ranked(sorted) && 0 < n <= |sorted| && SameLength(sorted, n, |sorted[0].normalized|) && i < |sorted|
    requires n < |sorted| ==> |sorted[n].normalized| != |sorted[0].normalized|
    ensures |sorted[i].normalized| <= |sorted[0].normalized|
    ensures |sorted[i].normalized| == |sorted[0].normalized| <==> i < n
  {
    if i >= n {
      assert !RanksBefore(sorted[n], sorted[0]);
      assert i > n ==> !RanksBefore(sorted[i], sorted[n]);
    }
  }

  /** The leading run of a ranked list that has the longest keywords. */
  lemma LeadingRun(cs: seq<Candidate>, sorted: seq<Candidate>, n: nat)
    requires cs != [] && Ranked(sorted) && 0 < n <= |sorted| && SameLength(sorted, n, |sorted[0].normalized|)
    requires n < |sorted| ==> |sorted[n].normalized| != |sorted[0].normalized|
    requires forall d :: d in sorted <==> d in cs
    ensures forall c :: c in OfLength(cs, MaxLength(cs)) <==> c in sorted[..n]
  {
    forall i: nat | i < |sorted|
      ensures |sorted[i].normalized| <= |sorted[0].normalized|
      ensures |sorted[i].normalized| == |sorted[0].normalized| <==> i < n
    {
      LeadingLengths(sorted, n, i);
    }
    assert sorted[0] in cs;
    assert MaxLength(cs) == |sorted[0].normalized|;
  }

  lemma OneMore(cs: seq<Candidate>, i: nat)
    requires i < |cs|
    ensures VendorIds(cs[..i + 1]) == VendorIds(cs[..i]) + {cs[i].vendor.id}
    ensures Latest(cs[..i + 1]) ==
      if Latest(cs[..i]).None? || Newer(cs[i], Latest(cs[..i]).value) then Some(cs[i]) else Latest(cs[..i])
  {
    assert cs[..i + 1] == cs[..i] + [cs[i]];
    assert cs[..i + 1][..i] == cs[..i];
  }

  method ResolveSubjectKeyword(cs: seq<Candidate>) returns (r: Option<Vendor>)
    requires Keyed(cs)
    ensures r == SubjectVendor(cs)
  {
    if cs == [] {
      return None;
    }
    var sorted := Sort(cs);
    SortRanks(cs);
    assert cs[0] in sorted;
    var longest := |sorted[0].normalized|;
    var vendorIds: set<nat> := {};
    var selected := sorted[0];
    var i := 0;
    while i < |sorted| && |sorted[i].normalized| == longest
      invariant 0 <= i <= |sorted|
      invariant SameLength(sorted, i, longest)
      invariant vendorIds == VendorIds(sorted[..i])
      invariant i == 0 ==> selected == sorted[0]
      invariant i > 0 ==> Latest(sorted[..i]) == Some(selected)
    {
      OneMore(sorted, i);
      vendorIds := vendorIds + {sorted[i].vendor.id};
      if Newer(sorted[i], selected) {
        selected := sorted[i];
      }
      i := i + 1;
    }
    LeadingRun(cs, sorted, i);
    SameMembers(OfLength(cs, MaxLength(cs)), sorted[..i]);
    r := if |vendorIds| > 1 then None else Some(selected.vendor);
  }

  // ---------------------------------------------------------------------------------------
  // The decision
  // ---------------------------------------------------------------------------------------

  function Decide(f: Facts): Decision {
    if Latest(f.names).Some? then Resolved(Latest(f.names).value.vendor, NameExact)
    else if Latest(f.domains).Some? then Resolved(Latest(f.domains).value.vendor, SenderDomain)
    else if Latest(f.senders).Some? then Resolved(Latest(f.senders).value.vendor, SenderName)
    else if SubjectVendor(f.subjects).Some? then Resolved(SubjectVendor(f.subjects).value, SubjectKeyword)
    else Unresolved
  }

  method Resolve(f: Facts) returns (d: Decision)
    requires Keyed(f.subjects)
    ensures d == Decide(f)
  {
    var name := SelectLatestAliasCandidate(f.names);
    if name.Some? {
      return Resolved(name.value.vendor, NameExact);
    }
    var domain := SelectLatestAliasCandidate(f.domains);
    if domain.Some? {
      return Resolved(domain.value.vendor, SenderDomain);
    }
    var sender := SelectLatestAliasCandidate(f.senders);
    if sender.Some? {
      return Resolved(sender.value.vendor, SenderName);
    }
    var subject := ResolveSubjectKeyword(f.subjects);
    d := if subject.Some? then Resolved(subject.value, SubjectKeyword) else Unresolved;
  }

  /** A rule decides exactly when it has candidates (for subjects: unambiguous ones) and no rule of
      higher priority has; the winner is the newest candidate of that rule. */
  lemma DecideExactly(f: Facts)
    ensures Decide(f).Unresolved? <==>
      f.names == [] && f.domains == [] && f.senders == [] && SubjectVendor(f.subjects).None?
    ensures f.names != [] ==> exists c :: NoneNewer(f.names, c) && Decide(f) == Resolved(c.vendor, NameExact)
    ensures f.names == [] && f.domains != [] ==>
      exists c :: NoneNewer(f.domains, c) && Decide(f) == Resolved(c.vendor, SenderDomain)
    ensures f.names == [] && f.domains == [] && f.senders != [] ==>
      exists c :: NoneNewer(f.senders, c) && Decide(f) == Resolved(c.vendor, SenderName)
    ensures f.names == [] && f.domains == [] && f.senders == [] && SubjectVendor(f.subjects).Some? ==>
      Decide(f) == Resolved(SubjectVendor(f.subjects).value, SubjectKeyword)
  {
    LatestMeans(f.names);
    LatestMeans(f.domains);
    LatestMeans(f.senders);
  }
}
