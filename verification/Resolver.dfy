/** Which declaration an interface call means: the concrete type every earlier assignment agrees on,
    or else every implementation, each listed once. Types are told apart by their names. */
module Resolver {
  import opened Options
  import opened CallGraph

  type Type = string

  /** The syntax of a file as far as the resolver looks at it. Objects are numbered; an expression is
      its concrete type, `None` for an interface or unknown type or a missing expression. */
  datatype Tree =
    | ValueSpec(pos: nat, names: seq<nat>, values: seq<Option<Type>>, children: seq<Tree>)
    | Assign(pos: nat, lhs: seq<Option<nat>>, rhs: seq<Option<Type>>, children: seq<Tree>)
    | Plain(pos: nat, children: seq<Tree>)

  // ---------------------------------------------------------------------------------------
  // The values an object is given
  // ---------------------------------------------------------------------------------------

  function IndexedExpr(exprs: seq<Option<Type>>, i: nat): Option<Type> {
    if i < |exprs| then exprs[i] else None
  }

  /** A single right-hand side, a call with several results, stands for every variable. */
  function AssignedExpr(exprs: seq<Option<Type>>, i: nat): Option<Type> {
    if |exprs| == 1 then exprs[0] else IndexedExpr(exprs, i)
  }

  function SpecValues(names: seq<nat>, values: seq<Option<Type>>, obj: nat, n: nat): seq<Option<Type>>
    requires n <= |names|
  {
    if n == 0 then []
    else SpecValues(names, values, obj, n - 1) + if names[n - 1] == obj then [IndexedExpr(values, n - 1)] else []
  }

  function AssignValues(lhs: seq<Option<nat>>, rhs: seq<Option<Type>>, obj: nat, n: nat): seq<Option<Type>>
    requires n <= |lhs|
  {
    if n == 0 then []
    else AssignValues(lhs, rhs, obj, n - 1) + if lhs[n - 1] == Some(obj) then [AssignedExpr(rhs, n - 1)] else []
  }

  function ValuesAt(t: Tree, obj: nat): seq<Option<Type>> {
    match t
    case ValueSpec(_, names, values, _) => SpecValues(names, values, obj, |names|)
    case Assign(_, lhs, rhs, _) => AssignValues(lhs, rhs, obj, |lhs|)
    case Plain(_, _) => []
  }

  /** What the walk meets: it leaves out every subtree that starts at or after the call. */
  function Met(t: Tree, obj: nat, call: nat): seq<Option<Type>> {
    if t.pos >= call then [] else ValuesAt(t, obj) + MetIn(t.children, obj, call)
  }

  function MetIn(ts: seq<Tree>, obj: nat, call: nat): seq<Option<Type>> {
    if ts == [] then [] else Met(ts[0], obj, call) + MetIn(ts[1..], obj, call)
  }

  /** All values the object is given before the call. */
  function Given(t: Tree, obj: nat, call: nat): seq<Option<Type>> {
    (if t.pos < call then ValuesAt(t, obj) else []) + GivenIn(t.children, obj, call)
  }

  function GivenIn(ts: seq<Tree>, obj: nat, call: nat): seq<Option<Type>> {
    if ts == [] then [] else Given(ts[0], obj, call) + GivenIn(ts[1..], obj, call)
  }

  /** No node starts before its parent. */
  ghost predicate Positioned(t: Tree) {
    forall i :: 0 <= i < |t.children| ==> t.pos <= t.children[i].pos && Positioned(t.children[i])
  }

  lemma {:induction false} NothingLater(ts: seq<Tree>, obj: nat, call: nat)
    requires forall i :: 0 <= i < |ts| ==> ts[i].pos >= call && Positioned(ts[i])
    ensures GivenIn(ts, obj, call) == []
  {
    if ts != [] {
      NothingLater(ts[0].children, obj, call);
      NothingLater(ts[1..], obj, call);
    }
  }

  /** Skipping subtrees misses nothing. */
  lemma {:induction false} MetIsGiven(ts: seq<Tree>, obj: nat, call: nat)
    requires forall i :: 0 <= i < |ts| ==> Positioned(ts[i])
    ensures MetIn(ts, obj, call) == GivenIn(ts, obj, call)
  {
    if ts != [] {
      if ts[0].pos >= call {
        NothingLater(ts[0].children, obj, call);
      } else {
        MetIsGiven(ts[0].children, obj, call);
      }
      MetIsGiven(ts[1..], obj, call);
    }
  }

  /** `t` is one of the trees or below one. */
  ghost predicate IsNodeOf(ts: seq<Tree>, t: Tree)
    decreases ts
  {
    exists i :: 0 <= i < |ts| && (ts[i] == t || IsNodeOf(ts[i].children, t))
  }

  /** The node gives the object this value: the one at the object's place, if any, or the only one of an
      assignment. */
  ghost predicate Gives(t: Tree, obj: nat, value: Option<Type>) {
    match t
    case ValueSpec(_, names, values, _) =>
      exists i :: 0 <= i < |names| && names[i] == obj && value == if i < |values| then values[i] else None
    case Assign(_, lhs, rhs, _) =>
      exists i :: 0 <= i < |lhs| && lhs[i] == Some(obj) &&
        value == if |rhs| == 1 then rhs[0] else if i < |rhs| then rhs[i] else None
    case Plain(_, _) => false
  }

  ghost predicate IsGiven(ts: seq<Tree>, obj: nat, call: nat, value: Option<Type>) {
    exists t :: IsNodeOf(ts, t) && t.pos < call && Gives(t, obj, value)
  }

  lemma {:induction false} SpecGives(names: seq<nat>, values: seq<Option<Type>>, obj: nat, n: nat, value: Option<Type>)
    requires n <= |names|
    ensures value in SpecValues(names, values, obj, n) <==>
      exists i :: 0 <= i < n && names[i] == obj && value == if i < |values| then values[i] else None
  {
    if n > 0 {
      SpecGives(names, values, obj, n - 1, value);
    }
  }

  lemma {:induction false} AssignGives(lhs: seq<Option<nat>>, rhs: seq<Option<Type>>, obj: nat, n: nat,
                                       value: Option<Type>)
    requires n <= |lhs|
    ensures value in AssignValues(lhs, rhs, obj, n) <==>
      exists i :: 0 <= i < n && lhs[i] == Some(obj) &&
        value == if |rhs| == 1 then rhs[0] else if i < |rhs| then rhs[i] else None
  {
    if n > 0 {
      AssignGives(lhs, rhs, obj, n - 1, value);
    }
  }

  lemma NodeGives(t: Tree, obj: nat, value: Option<Type>)
    ensures value in ValuesAt(t, obj) <==> Gives(t, obj, value)
  {
    match t
    case ValueSpec(_, names, values, _) => SpecGives(names, values, obj, |names|, value);
    case Assign(_, lhs, rhs, _) => AssignGives(lhs, rhs, obj, |lhs|, value);
    case Plain(_, _) =>
  }

  lemma NodeSplit(ts: seq<Tree>, t: Tree)
    requires ts != []
    ensures IsNodeOf(ts, t) <==> ts[0] == t || IsNodeOf(ts[0].children, t) || IsNodeOf(ts[1..], t)
  {
    if i :| 0 <= i < |ts| && (ts[i] == t || IsNodeOf(ts[i].children, t)) {
      assert i > 0 ==> ts[1..][i - 1] == ts[i];
    }
    if i :| 0 <= i < |ts[1..]| && (ts[1..][i] == t || IsNodeOf(ts[1..][i].children, t)) {
      assert ts[i + 1] == ts[1..][i];
    }
  }

  lemma GivenSplit(ts: seq<Tree>, obj: nat, call: nat, value: Option<Type>)
    requires ts != []
    ensures IsGiven(ts, obj, call, value) <==>
      || (ts[0].pos < call && Gives(ts[0], obj, value))
      || IsGiven(ts[0].children, obj, call, value) || IsGiven(ts[1..], obj, call, value)
  {
    forall t
      ensures IsNodeOf(ts, t) <==> ts[0] == t || IsNodeOf(ts[0].children, t) || IsNodeOf(ts[1..], t)
    {
      NodeSplit(ts, t);
    }
  }

  /** The values given before the call are those that some node before it gives. */
  lemma {:induction false} GivenExactly(ts: seq<Tree>, obj: nat, call: nat, value: Option<Type>)
    ensures value in GivenIn(ts, obj, call) <==> IsGiven(ts, obj, call, value)
  {
    if ts != [] {
      GivenSplit(ts, obj, call, value);
      NodeGives(ts[0], obj, value);
      GivenExactly(ts[0].children, obj, call, value);
      GivenExactly(ts[1..], obj, call, value);
    }
  }

  // ---------------------------------------------------------------------------------------
  // Agreeing on one type
  // ---------------------------------------------------------------------------------------

  datatype Resolution = Resolution(resolved: Option<Type>, ambiguous: bool)

  const UNRESOLVED := Resolution(None, false)

  function Record(r: Resolution, value: Option<Type>): Resolution {
    if r.ambiguous then r
    else if value.None? then r.(ambiguous := true)
    else if r.resolved.None? then r.(resolved := value)
    else if r.resolved != value then r.(ambiguous := true)
    else r
  }

  function RecordAll(r: Resolution, values: seq<Option<Type>>): Resolution
    decreases |values|
  {
    if values == [] then r else RecordAll(Record(r, values[0]), values[1..])
  }

  function Answer(r: Resolution): Option<Type> {
    if r.ambiguous then None else r.resolved
  }

  lemma {:induction false} RecordAllAppend(r: Resolution, a: seq<Option<Type>>, b: seq<Option<Type>>)
    ensures RecordAll(r, a + b) == RecordAll(RecordAll(r, a), b)
    decreases |a|
  {
    if a == [] {
      assert a + b == b;
    } else {
      assert (a + b)[1..] == a[1..] + b;
      RecordAllAppend(Record(r, a[0]), a[1..], b);
    }
  }

  lemma {:induction false} AmbiguousStays(r: Resolution, values: seq<Option<Type>>)
    requires r.ambiguous
    ensures RecordAll(r, values) == r
  {
    if values != [] {
      AmbiguousStays(r, values[1..]);
    }
  }

  lemma {:induction false} ResolvedStays(t: Type, values: seq<Option<Type>>)
    ensures Answer(RecordAll(Resolution(Some(t), false), values)) ==
      if forall i :: 0 <= i < |values| ==> values[i] == Some(t) then Some(t) else None
  {
    if values != [] {
      if values[0] == Some(t) {
        ResolvedStays(t, values[1..]);
        assert forall i :: 0 < i < |values| ==> values[i] == values[1..][i - 1];
      } else {
        AmbiguousStays(Record(Resolution(Some(t), false), values[0]), values[1..]);
      }
    }
  }

  /** A type is found exactly when there is a value and every value has that concrete type. */
  lemma AgreedExactly(values: seq<Option<Type>>, t: Type)
    ensures Answer(RecordAll(UNRESOLVED, values)) == Some(t) <==>
      values != [] && forall i :: 0 <= i < |values| ==> values[i] == Some(t)
  {
    if values != [] {
      if values[0].None? {
        AmbiguousStays(Record(UNRESOLVED, values[0]), values[1..]);
      } else {
        ResolvedStays(values[0].value, values[1..]);
        assert forall i :: 0 < i < |values| ==> values[i] == values[1..][i - 1];
      }
    }
  }

  class TypeSearch {
    var resolved: Option<Type>
    var ambiguous: bool

    function State(): Resolution
      reads this
    {
      Resolution(resolved, ambiguous)
    }

    constructor ()
      ensures State() == UNRESOLVED
    {
      resolved, ambiguous := None, false;
    }

    method RecordResolvedType(value: Option<Type>)
      modifies this
      ensures State() == Record(old(State()), value)
    {
      if ambiguous {
        return;
      }
      if value.None? {
        ambiguous := true;
      } else if resolved.None? {
        resolved := value;
      } else if resolved != value {
        ambiguous := true;
      }
    }

    method RecordNode(t: Tree, obj: nat)
      modifies this
      ensures State() == RecordAll(old(State()), ValuesAt(t, obj))
    {
      match t
      case ValueSpec(_, names, values, _) =>
        for i := 0 to |names|
          invariant State() == RecordAll(old(State()), SpecValues(names, values, obj, i))
        {
          if names[i] == obj {
            RecordAllAppend(old(State()), SpecValues(names, values, obj, i), [IndexedExpr(values, i)]);
            RecordResolvedType(IndexedExpr(values, i));
          } else {
            assert SpecValues(names, values, obj, i + 1) == SpecValues(names, values, obj, i);
          }
        }
      case Assign(_, lhs, rhs, _) =>
        for i := 0 to |lhs|
          invariant State() == RecordAll(old(State()), AssignValues(lhs, rhs, obj, i))
        {
          if lhs[i] == Some(obj) {
            RecordAllAppend(old(State()), AssignValues(lhs, rhs, obj, i), [AssignedExpr(rhs, i)]);
            RecordResolvedType(AssignedExpr(rhs, i));
          } else {
            assert AssignValues(lhs, rhs, obj, i + 1) == AssignValues(lhs, rhs, obj, i);
          }
        }
      case Plain(_, _) =>
    }

    /** The walk stops as soon as the object is ambiguous. */
    method Inspect(t: Tree, obj: nat, call: nat)
      modifies this
      ensures State() == RecordAll(old(State()), Met(t, obj, call))
      decreases t
    {
      if ambiguous {
        AmbiguousStays(State(), Met(t, obj, call));
        return;
      }
      if t.pos >= call {
        return;
      }
      RecordNode(t, obj);
      RecordAllAppend(old(State()), ValuesAt(t, obj), MetIn(t.children, obj, call));
      InspectAll(t.children, obj, call);
    }

    method InspectAll(ts: seq<Tree>, obj: nat, call: nat)
      modifies this
      ensures State() == RecordAll(old(State()), MetIn(ts, obj, call))
      decreases ts
    {
      if ts == [] {
        return;
      }
      if ambiguous {
        AmbiguousStays(State(), MetIn(ts, obj, call));
        return;
      }
      Inspect(ts[0], obj, call);
      RecordAllAppend(old(State()), Met(ts[0], obj, call), MetIn(ts[1..], obj, call));
      InspectAll(ts[1..], obj, call);
    }
  }

  /** The variable's concrete type is known exactly when every value it is given before the call, in
      any file, is of that type; one value of unknown type is enough to give up. */
  method ResolveAssignedConcreteType(files: seq<Tree>, obj: nat, call: nat) returns (r: Option<Type>)
    requires forall i :: 0 <= i < |files| ==> Positioned(files[i])
    ensures forall t :: r == Some(t) <==>
      IsGiven(files, obj, call, Some(t)) && forall v :: IsGiven(files, obj, call, v) ==> v == Some(t)
  {
    var search := new TypeSearch();
    search.InspectAll(files, obj, call);
    MetIsGiven(files, obj, call);
    r := if search.ambiguous then None else search.resolved;
    forall t
      ensures r == Some(t) <==>
        IsGiven(files, obj, call, Some(t)) && forall v :: IsGiven(files, obj, call, v) ==> v == Some(t)
    {
      GivenType(files, obj, call, t);
    }
  }

  lemma GivenType(files: seq<Tree>, obj: nat, call: nat, t: Type)
    ensures Answer(RecordAll(UNRESOLVED, GivenIn(files, obj, call))) == Some(t) <==>
      IsGiven(files, obj, call, Some(t)) && forall v :: IsGiven(files, obj, call, v) ==> v == Some(t)
  {
    var values := GivenIn(files, obj, call);
    AgreedExactly(values, t);
    forall v
      ensures v in values <==> IsGiven(files, obj, call, v)
    {
      GivenExactly(files, obj, call, v);
    }
    assert values != [] ==> values[0] in values;
    if forall v :: v in values ==> v == Some(t) {
      forall i | 0 <= i < |values|
        ensures values[i] == Some(t)
      {
        assert values[i] in values;
      }
    }
  }

  // ---------------------------------------------------------------------------------------
  // Candidates of an interface method
  // ---------------------------------------------------------------------------------------

  /** The first occurrence of each key. */
  function FirstOccurrences(keys: seq<Key>): (r: seq<Key>)
    ensures forall k :: k in r <==> k in keys
  {
    if keys == [] then []
    else
      var before := FirstOccurrences(keys[..|keys| - 1]);
      if keys[|keys| - 1] in before then before else before + [keys[|keys| - 1]]
  }

  /** `found` are the keys of the implementations met in the packages searched, in order; a method
      without a declaration is none. */
  method ResolveInterfaceMethodCandidates(found: seq<Option<Key>>) returns (candidates: seq<Key>)
    ensures forall k :: k in candidates <==> Some(k) in found
    ensures forall i, j :: 0 <= i < j < |candidates| ==> candidates[i] != candidates[j]
    ensures candidates == FirstOccurrences(Declared(found))
  {
    candidates := [];
    var seen: set<Key> := {};
    for i := 0 to |found|
      invariant candidates == FirstOccurrences(Declared(found[..i]))
      invariant forall k :: k in seen <==> k in candidates
      invariant forall a, b :: 0 <= a < b < |candidates| ==> candidates[a] != candidates[b]
    {
      assert found[..i + 1][..i] == found[..i];
      OneMoreDeclared(Declared(found[..i]), found[i]);
      if found[i].None? || found[i].value in seen {
        continue;
      }
      seen := seen + {found[i].value};
      candidates := candidates + [found[i].value];
    }
    assert found[..|found|] == found;
  }

  lemma OneMoreDeclared(keys: seq<Key>, next: Option<Key>)
    ensures next.Some? ==>
      FirstOccurrences(keys + [next.value]) ==
        if next.value in FirstOccurrences(keys) then FirstOccurrences(keys) else FirstOccurrences(keys) + [next.value]
    ensures keys + [] == keys
  {
    if next.Some? {
      assert (keys + [next.value])[..|keys|] == keys;
    }
  }

  function Declared(found: seq<Option<Key>>): (r: seq<Key>)
    ensures forall k :: k in r <==> Some(k) in found
  {
    if found == [] then []
    else Declared(found[..|found| - 1]) + if found[|found| - 1].Some? then [found[|found| - 1].value] else []
  }

  /** A declaration searched in vain is not searched again. */
  lemma {:induction false} SearchedInVain(p: Program, m: Memo, v: set<Key>, targets: seq<Key>, k: Key)
    requires !Search(p, m, v, TargetSteps(targets)).found && k in targets
    ensures var memo := Search(p, m, v, TargetSteps(targets)).memo;
      SearchDecl(p, memo, v, k) == Outcome(false, memo, [])
    decreases |targets|
  {
    var first := SearchDecl(p, m, v, targets[0]);
    assert TargetSteps(targets)[1..] == TargetSteps(targets[1..]);
    SearchDeclExtends(p, m, v, targets[0]);
    SearchExtends(p, first.memo, v, TargetSteps(targets[1..]));
    if k in targets[1..] {
      SearchedInVain(p, first.memo, v, targets[1..], k);
    }
  }

  /** Listing a candidate once changes neither what the search finds nor what it remembers. */
  lemma {:induction false} DuplicatesDoNotMatter(p: Program, m: Memo, v: set<Key>, targets: seq<Key>)
    ensures Search(p, m, v, TargetSteps(FirstOccurrences(targets))) == Search(p, m, v, TargetSteps(targets))
    decreases |targets|
  {
    if targets != [] {
      var before, k := targets[..|targets| - 1], targets[|targets| - 1];
      DuplicatesDoNotMatter(p, m, v, before);
      assert TargetSteps(targets) == TargetSteps(before) + [Enter(k)];
      SearchAppend(p, m, v, TargetSteps(before), [Enter(k)]);
      var once := FirstOccurrences(before);
      if k in once {
        if !Search(p, m, v, TargetSteps(before)).found {
          SearchedInVain(p, m, v, before, k);
        }
      } else {
        assert TargetSteps(once + [k]) == TargetSteps(once) + [Enter(k)];
        SearchAppend(p, m, v, TargetSteps(once), [Enter(k)]);
      }
    }
  }
}
