/** The memoised search of tools/nplusonecheck/local_call_graph.go: does executing this
    piece of code eventually run a database query?

    A `Call` node carries what the type checker and the package loader say about it: whether
    the callee is a known query method (`isQueryCall`) and the keys of the candidate
    declarations that `findDecl` returns for it. */
module CallGraph {
  type Key = string

  datatype Node =
    | FuncLit(body: seq<Node>)
    | Call(pos: nat, query: bool, targets: seq<Key>, fun: Node, args: seq<Node>)
    | Loop(header: seq<Node>, body: seq<Node>)
    | Other(children: seq<Node>)

  /** The declarations that have a body; a key outside the map is a declaration without one. */
  type Program = map<Key, seq<Node>>

  type Memo = map<Key, bool>

  // ---------------------------------------------------------------------------------------
  // Meaning: which calls run, and which code reaches a query
  // ---------------------------------------------------------------------------------------

  /** `c` is a call that runs when `n` runs. The body of a function literal runs only where the
      literal itself is the callee. */
  ghost predicate Executed(n: Node, c: Node) {
    match n
    case FuncLit(_) => false
    case Call(_, query, _, fun, args) =>
      || c == n
      || (!query && fun.FuncLit? && ExecutedIn(fun.body, c))
      || Executed(fun, c)
      || ExecutedIn(args, c)
    case Loop(header, body) => ExecutedIn(header, c) || ExecutedIn(body, c)
    case Other(children) => ExecutedIn(children, c)
  }

  ghost predicate ExecutedIn(code: seq<Node>, c: Node) {
    exists i :: 0 <= i < |code| && Executed(code[i], c)
  }

  /** Running `c` may enter the declaration `k`. */
  predicate Enters(c: Node, k: Key) {
    c.Call? && !c.query && !c.fun.FuncLit? && k in c.targets
  }

  ghost predicate RunsQuery(code: seq<Node>) {
    exists c :: ExecutedIn(code, c) && c.Call? && c.query
  }

  ghost predicate RunsInto(code: seq<Node>, k: Key) {
    exists c :: ExecutedIn(code, c) && Enters(c, k)
  }

  /** Entering the declarations of `path` one from the other ends in code that runs a query. */
  ghost predicate QueryPath(p: Program, code: seq<Node>, path: seq<Key>)
    decreases path
  {
    if path == [] then RunsQuery(code)
    else path[0] in p && RunsInto(code, path[0]) && QueryPath(p, p[path[0]], path[1..])
  }

  ghost predicate ReachesQuery(p: Program, code: seq<Node>) {
    exists path :: QueryPath(p, code, path)
  }

  ghost predicate DeclReaches(p: Program, k: Key) {
    k in p && ReachesQuery(p, p[k])
  }

  /** What one call does by itself, its arguments aside. */
  ghost predicate CallReaches(p: Program, c: Node) {
    c.Call? &&
    if c.query then true
    else if c.fun.FuncLit? then ReachesQuery(p, c.fun.body)
    else exists k :: k in c.targets && DeclReaches(p, k)
  }

  ghost predicate CallChain(p: Program, a: Key, chain: seq<Key>, b: Key)
    decreases chain
  {
    a in p &&
    if chain == [] then RunsInto(p[a], b)
    else RunsInto(p[a], chain[0]) && CallChain(p, chain[0], chain[1..], b)
  }

  /** `a` calls `b`, directly or through others. */
  ghost predicate Calls(p: Program, a: Key, b: Key) {
    exists chain :: CallChain(p, a, chain, b)
  }

  ghost predicate ReachesCycle(p: Program, k: Key) {
    exists c :: (c == k || Calls(p, k, c)) && Calls(p, c, c)
  }

  // ---------------------------------------------------------------------------------------
  // The search
  // ---------------------------------------------------------------------------------------

  /** Walking code is a list of steps in source order: meet a query, or look into a declaration. */
  datatype Step = Query | Enter(key: Key)

  function NodeSteps(n: Node): seq<Step> {
    match n
    case FuncLit(_) => []
    case Call(_, query, targets, fun, args) =>
      CallSteps(n) + (NodeSteps(fun) + Steps(args))
    case Loop(header, body) => Steps(header) + Steps(body)
    case Other(children) => Steps(children)
  }

  function CallSteps(c: Node): seq<Step>
    requires c.Call?
    decreases c, 0
  {
    if c.query then [Query]
    else if c.fun.FuncLit? then Steps(c.fun.body)
    else TargetSteps(c.targets)
  }

  function TargetSteps(targets: seq<Key>): seq<Step> {
    seq(|targets|, i requires 0 <= i < |targets| => Enter(targets[i]))
  }

  function Steps(code: seq<Node>): seq<Step> {
    if code == [] then [] else NodeSteps(code[0]) + Steps(code[1..])
  }

  /** `walks` lists the declarations whose body was walked, in order. */
  datatype Outcome = Outcome(found: bool, memo: Memo, walks: seq<Key>)

  ghost function Unseen(p: Program, m: Memo, v: set<Key>): set<Key> {
    p.Keys - m.Keys - v
  }

  /** Walks on after `first` unless it has found a query already. */
  function Search(p: Program, m: Memo, v: set<Key>, steps: seq<Step>): (r: Outcome)
    ensures m.Keys <= r.memo.Keys
    decreases Unseen(p, m, v), |steps|
  {
    if steps == [] then Outcome(false, m, [])
    else if steps[0].Query? then Outcome(true, m, [])
    else
      var first := SearchDecl(p, m, v, steps[0].key);
      if first.found then first
      else
        var rest := Search(p, first.memo, v, steps[1..]);
        Outcome(rest.found, rest.memo, first.walks + rest.walks)
  }

  function SearchDecl(p: Program, m: Memo, v: set<Key>, k: Key): (r: Outcome)
    ensures m.Keys <= r.memo.Keys
    decreases Unseen(p, m, v), 0
  {
    if k !in p then Outcome(false, m, [])
    else if k in m then Outcome(m[k], m, [])
    else if k in v then Outcome(false, m, [])
    else
      var inner := Search(p, m, v + {k}, Steps(p[k]));
      Outcome(inner.found, inner.memo[k := inner.found], [k] + inner.walks)
  }

  // ---------------------------------------------------------------------------------------
  // The steps are the executed calls
  // ---------------------------------------------------------------------------------------

  ghost predicate Takes(c: Node, s: Step) {
    c.Call? && if s.Query? then c.query else Enters(c, s.key)
  }

  lemma {:induction false} NodeStepsExact(n: Node, s: Step)
    ensures s in NodeSteps(n) <==> exists c :: Executed(n, c) && Takes(c, s)
  {
    match n
    case FuncLit(_) =>
    case Call(_, query, targets, fun, args) =>
      NodeStepsExact(fun, s);
      StepsExact(args, s);
      if !query && fun.FuncLit? {
        StepsExact(fun.body, s);
        if s in CallSteps(n) {
          var c :| ExecutedIn(fun.body, c) && Takes(c, s);
          assert Executed(n, c);
        }
        if c :| ExecutedIn(args, c) && Takes(c, s) {
          assert Executed(n, c);
        }
      } else {
        assert s in CallSteps(n) <==> Takes(n, s) by {
          if s.Enter? && s.key in targets {
            var i :| 0 <= i < |targets| && targets[i] == s.key;
            assert !query ==> CallSteps(n)[i] == s;
          }
        }
        assert Executed(n, n);
        if c :| Executed(fun, c) && Takes(c, s) {
          assert Executed(n, c);
        }
        if c :| ExecutedIn(args, c) && Takes(c, s) {
          assert Executed(n, c);
        }
      }
    case Loop(header, body) =>
      StepsExact(header, s);
      StepsExact(body, s);
      if c :| ExecutedIn(header, c) && Takes(c, s) {
        assert Executed(n, c);
      }
      if c :| ExecutedIn(body, c) && Takes(c, s) {
        assert Executed(n, c);
      }
    case Other(children) =>
      StepsExact(children, s);
      if c :| ExecutedIn(children, c) && Takes(c, s) {
        assert Executed(n, c);
      }
  }

  lemma {:induction false} StepsExact(code: seq<Node>, s: Step)
    ensures s in Steps(code) <==> exists c :: ExecutedIn(code, c) && Takes(c, s)
  {
    if code != [] {
      NodeStepsExact(code[0], s);
      StepsExact(code[1..], s);
      if c :| Executed(code[0], c) && Takes(c, s) {
        assert ExecutedIn(code, c);
      }
      if c :| ExecutedIn(code[1..], c) && Takes(c, s) {
        var i :| 0 <= i < |code[1..]| && Executed(code[1..][i], c);
        assert Executed(code[i + 1], c);
        assert ExecutedIn(code, c);
      }
    }
  }

  /** The two readings of `StepsExact` the proofs use. */
  lemma StepsMeaning(code: seq<Node>)
    ensures Query in Steps(code) <==> RunsQuery(code)
    ensures forall k :: Enter(k) in Steps(code) <==> RunsInto(code, k)
  {
    StepsExact(code, Query);
    assert forall c :: Takes(c, Query) <==> c.Call? && c.query;
    forall k
      ensures Enter(k) in Steps(code) <==> RunsInto(code, k)
    {
      StepsExact(code, Enter(k));
      assert forall c :: Takes(c, Enter(k)) <==> Enters(c, k);
    }
  }

  // ---------------------------------------------------------------------------------------
  // Every search: what it adds to the memo, and a `true` is always right
  // ---------------------------------------------------------------------------------------

  /** Entries are never dropped or changed, and the bodies walked are exactly the entries added,
      each walked once, none of them on the stack already. */
  ghost predicate Extends(m: Memo, v: set<Key>, r: Outcome) {
    && (forall k :: k in m ==> k in r.memo && r.memo[k] == m[k])
    && (forall k :: k in r.memo <==> k in m || k in r.walks)
    && (forall k :: k in r.walks ==> k !in m && k !in v)
    && (forall i, j :: 0 <= i < j < |r.walks| ==> r.walks[i] != r.walks[j])
  }

  lemma {:induction false} SearchExtends(p: Program, m: Memo, v: set<Key>, steps: seq<Step>)
    ensures Extends(m, v, Search(p, m, v, steps))
    decreases Unseen(p, m, v), |steps|
  {
    if steps != [] && steps[0].Enter? {
      var first := SearchDecl(p, m, v, steps[0].key);
      SearchDeclExtends(p, m, v, steps[0].key);
      if !first.found {
        SearchExtends(p, first.memo, v, steps[1..]);
        ExtendsJoin(m, v, first, Search(p, first.memo, v, steps[1..]));
      }
    }
  }

  lemma ExtendsJoin(m: Memo, v: set<Key>, first: Outcome, rest: Outcome)
    requires Extends(m, v, first) && Extends(first.memo, v, rest)
    ensures Extends(m, v, Outcome(rest.found, rest.memo, first.walks + rest.walks))
  {
    var walks := first.walks + rest.walks;
    forall i, j | 0 <= i < j < |walks|
      ensures walks[i] != walks[j]
    {
      if i < |first.walks| <= j {
        assert walks[i] in first.walks && walks[j] in rest.walks;
      }
    }
    assert forall k :: k in walks <==> k in first.walks || k in rest.walks;
  }

  lemma {:induction false} SearchDeclExtends(p: Program, m: Memo, v: set<Key>, k: Key)
    ensures Extends(m, v, SearchDecl(p, m, v, k))
    decreases Unseen(p, m, v), 0
  {
    if k in p && k !in m && k !in v {
      SearchExtends(p, m, v + {k}, Steps(p[k]));
    }
  }

  ghost predicate Sound(p: Program, m: Memo) {
    forall k :: k in m && m[k] ==> DeclReaches(p, k)
  }

  ghost predicate StepsReach(p: Program, steps: seq<Step>) {
    Query in steps || exists k :: Enter(k) in steps && DeclReaches(p, k)
  }

  /** Walking a body finds what running it reaches. */
  lemma BodyReaches(p: Program, code: seq<Node>)
    ensures StepsReach(p, Steps(code)) <==> ReachesQuery(p, code)
  {
    StepsMeaning(code);
    if Query in Steps(code) {
      assert QueryPath(p, code, []);
    }
    if k :| Enter(k) in Steps(code) && DeclReaches(p, k) {
      var path :| QueryPath(p, p[k], path);
      assert ([k] + path)[1..] == path;
      assert QueryPath(p, code, [k] + path);
    }
    if path :| QueryPath(p, code, path) {
      if path != [] {
        assert QueryPath(p, p[path[0]], path[1..]);
        assert Enter(path[0]) in Steps(code) && DeclReaches(p, path[0]);
      }
    }
  }

  lemma {:induction false} SearchSound(p: Program, m: Memo, v: set<Key>, steps: seq<Step>)
    requires Sound(p, m)
    ensures var r := Search(p, m, v, steps);
      Sound(p, r.memo) && (r.found ==> StepsReach(p, steps))
    decreases Unseen(p, m, v), |steps|
  {
    if steps != [] && steps[0].Enter? {
      var k := steps[0].key;
      var first := SearchDecl(p, m, v, k);
      SearchDeclSound(p, m, v, k);
      if !first.found {
        SearchSound(p, first.memo, v, steps[1..]);
      } else {
        assert Enter(k) in steps;
      }
    }
  }

  lemma {:induction false} SearchDeclSound(p: Program, m: Memo, v: set<Key>, k: Key)
    requires Sound(p, m)
    ensures var r := SearchDecl(p, m, v, k);
      Sound(p, r.memo) && (r.found ==> DeclReaches(p, k))
    decreases Unseen(p, m, v), 0
  {
    if k in p && k !in m && k !in v {
      SearchSound(p, m, v + {k}, Steps(p[k]));
      BodyReaches(p, p[k]);
    }
  }

  // ---------------------------------------------------------------------------------------
  // A `false` answer to a check from an exact memo is right, and leaves the memo exact
  // ---------------------------------------------------------------------------------------

  ghost predicate Exact(p: Program, m: Memo) {
    forall k :: k in m ==> (m[k] <==> DeclReaches(p, k))
  }

  ghost predicate Settled(p: Program, m: Memo, v: set<Key>, k: Key) {
    k !in p || (k in m && !m[k]) || k in v
  }

  ghost predicate AllSettled(p: Program, m: Memo, v: set<Key>, steps: seq<Step>) {
    Query !in steps && forall k :: Enter(k) in steps ==> Settled(p, m, v, k)
  }

  /** A `false` entry is right, or its body leads only to `false` entries and the stack. */
  ghost predicate FalseHolds(p: Program, m: Memo, v: set<Key>) {
    forall k :: k in m && !m[k] ==> !DeclReaches(p, k) || AllSettled(p, m, v, Steps(p[k]))
  }

  lemma {:induction false} SearchSettles(p: Program, m: Memo, v: set<Key>, steps: seq<Step>)
    requires FalseHolds(p, m, v)
    ensures var r := Search(p, m, v, steps);
      !r.found ==> FalseHolds(p, r.memo, v) && AllSettled(p, r.memo, v, steps)
    decreases Unseen(p, m, v), |steps|
  {
    if steps != [] && steps[0].Enter? {
      var k := steps[0].key;
      var first := SearchDecl(p, m, v, k);
      SearchDeclSettles(p, m, v, k);
      if !first.found {
        SearchSettles(p, first.memo, v, steps[1..]);
        SearchExtends(p, first.memo, v, steps[1..]);
        assert forall s :: s in steps ==> s == steps[0] || s in steps[1..];
      }
    }
  }

  lemma {:induction false} SearchDeclSettles(p: Program, m: Memo, v: set<Key>, k: Key)
    requires FalseHolds(p, m, v)
    ensures var r := SearchDecl(p, m, v, k);
      !r.found ==> FalseHolds(p, r.memo, v) && Settled(p, r.memo, v, k)
    decreases Unseen(p, m, v), 0
  {
    if k in p && k !in m && k !in v {
      SearchSettles(p, m, v + {k}, Steps(p[k]));
      SearchExtends(p, m, v + {k}, Steps(p[k]));
    }
  }

  lemma {:induction false} SettledNeverReaches(p: Program, m: Memo, k: Key, path: seq<Key>)
    requires FalseHolds(p, m, {}) && k in p && k in m && !m[k]
    ensures !QueryPath(p, p[k], path)
    decreases |path|
  {
    if QueryPath(p, p[k], path) {
      assert DeclReaches(p, k);
      StepsMeaning(p[k]);
      SettledNeverReaches(p, m, path[0], path[1..]);
    }
  }

  /** One check from an exact memo with an empty stack, on any call graph. */
  lemma CheckExact(p: Program, m: Memo, steps: seq<Step>)
    requires Exact(p, m)
    ensures var r := Search(p, m, {}, steps);
      && (r.found <==> StepsReach(p, steps))
      && (!r.found ==> Exact(p, r.memo))
  {
    var r := Search(p, m, {}, steps);
    SearchSound(p, m, {}, steps);
    SearchSettles(p, m, {}, steps);
    if !r.found {
      forall k | k in r.memo && !r.memo[k]
        ensures !DeclReaches(p, k)
      {
        forall path | k in p
          ensures !QueryPath(p, p[k], path)
        {
          SettledNeverReaches(p, r.memo, k, path);
        }
      }
    }
  }

  // ---------------------------------------------------------------------------------------
  // Entries of declarations that reach no call cycle are exact after any checks at all
  // ---------------------------------------------------------------------------------------

  ghost predicate AcyclicExact(p: Program, m: Memo) {
    forall k :: k in m && !m[k] && !ReachesCycle(p, k) ==> !DeclReaches(p, k)
  }

  /** Everything on the stack calls whatever the steps enter. */
  ghost predicate OnStack(p: Program, v: set<Key>, steps: seq<Step>) {
    forall u, k :: u in v && Enter(k) in steps ==> Calls(p, u, k)
  }

  lemma {:induction false} ChainJoins(p: Program, a: Key, one: seq<Key>, b: Key, two: seq<Key>, c: Key)
    requires CallChain(p, a, one, b) && CallChain(p, b, two, c)
    ensures CallChain(p, a, one + [b] + two, c)
    decreases |one|
  {
    var whole := one + [b] + two;
    if one == [] {
      assert whole[1..] == two;
    } else {
      ChainJoins(p, one[0], one[1..], b, two, c);
      assert whole[1..] == one[1..] + [b] + two;
    }
  }

  lemma CallsTransitive(p: Program, a: Key, b: Key, c: Key)
    requires Calls(p, a, b) && Calls(p, b, c)
    ensures Calls(p, a, c)
  {
    var one :| CallChain(p, a, one, b);
    var two :| CallChain(p, b, two, c);
    ChainJoins(p, a, one, b, two, c);
  }

  lemma BodyEnters(p: Program, k: Key, t: Key)
    requires k in p && Enter(t) in Steps(p[k])
    ensures Calls(p, k, t)
    ensures ReachesCycle(p, t) ==> ReachesCycle(p, k)
  {
    StepsMeaning(p[k]);
    assert CallChain(p, k, [], t);
    if c :| (c == t || Calls(p, t, c)) && Calls(p, c, c) {
      if c != t {
        CallsTransitive(p, k, t, c);
      }
    }
  }

  lemma StackGrows(p: Program, v: set<Key>, k: Key)
    requires k in p && forall u :: u in v ==> Calls(p, u, k)
    ensures OnStack(p, v + {k}, Steps(p[k]))
  {
    forall u, t | u in v + {k} && Enter(t) in Steps(p[k])
      ensures Calls(p, u, t)
    {
      BodyEnters(p, k, t);
      if u != k {
        CallsTransitive(p, u, k, t);
      }
    }
  }

  lemma {:induction false} SearchAcyclic(p: Program, m: Memo, v: set<Key>, steps: seq<Step>)
    requires AcyclicExact(p, m) && OnStack(p, v, steps)
    ensures var r := Search(p, m, v, steps);
      && AcyclicExact(p, r.memo)
      && (!r.found ==> Query !in steps)
      && (!r.found ==> forall k :: Enter(k) in steps && !ReachesCycle(p, k) ==> !DeclReaches(p, k))
    decreases Unseen(p, m, v), |steps|
  {
    if steps != [] && steps[0].Enter? {
      var k := steps[0].key;
      var first := SearchDecl(p, m, v, k);
      assert Enter(k) in steps;
      SearchDeclAcyclic(p, m, v, k);
      if !first.found {
        assert forall s :: s in steps ==> s == steps[0] || s in steps[1..];
        SearchAcyclic(p, first.memo, v, steps[1..]);
      }
    }
  }

  lemma {:induction false} SearchDeclAcyclic(p: Program, m: Memo, v: set<Key>, k: Key)
    requires AcyclicExact(p, m) && forall u :: u in v ==> Calls(p, u, k)
    ensures var r := SearchDecl(p, m, v, k);
      AcyclicExact(p, r.memo) && (!r.found && !ReachesCycle(p, k) ==> !DeclReaches(p, k))
    decreases Unseen(p, m, v), 0
  {
    if k in p && k !in m && k !in v {
      StackGrows(p, v, k);
      SearchAcyclic(p, m, v + {k}, Steps(p[k]));
      forall t | Enter(t) in Steps(p[k])
        ensures ReachesCycle(p, t) ==> ReachesCycle(p, k)
      {
        BodyEnters(p, k, t);
      }
      BodyReaches(p, p[k]);
    }
  }

  // ---------------------------------------------------------------------------------------
  // One call
  // ---------------------------------------------------------------------------------------

  /** Running `c` itself, its arguments aside, may enter `k`. */
  ghost predicate MayEnter(c: Node, k: Key) {
    c.Call? && if c.fun.FuncLit? then !c.query && RunsInto(c.fun.body, k) else Enters(c, k)
  }

  lemma CallMeaning(p: Program, c: Node)
    requires c.Call?
    ensures StepsReach(p, CallSteps(c)) <==> CallReaches(p, c)
    ensures forall k :: Enter(k) in CallSteps(c) <==> MayEnter(c, k)
  {
    if c.fun.FuncLit? {
      BodyReaches(p, c.fun.body);
      StepsMeaning(c.fun.body);
    } else if !c.query {
      forall k
        ensures Enter(k) in CallSteps(c) <==> k in c.targets
      {
        if i :| 0 <= i < |c.targets| && c.targets[i] == k {
          assert CallSteps(c)[i] == Enter(k);
        }
      }
    }
  }

  /** One top-level check of a call from an exact memo, on any call graph: the answer is right, and
      a `false` answer leaves the memo exact. */
  lemma TopLevelCheck(p: Program, m: Memo, c: Node)
    requires c.Call? && Exact(p, m)
    ensures var r := Search(p, m, {}, CallSteps(c));
      && (r.found <==> CallReaches(p, c))
      && (!r.found ==> Exact(p, r.memo))
  {
    CheckExact(p, m, CallSteps(c));
    CallMeaning(p, c);
  }

  /** Going on with `rest` after `first` has found nothing. */
  function Continue(first: Outcome, rest: Outcome): Outcome {
    Outcome(rest.found, rest.memo, first.walks + rest.walks)
  }

  lemma SearchTargets(p: Program, m: Memo, v: set<Key>, targets: seq<Key>, i: nat)
    requires i < |targets|
    ensures var first := SearchDecl(p, m, v, targets[i]);
      Search(p, m, v, TargetSteps(targets)[i..]) ==
        if first.found then first else Continue(first, Search(p, first.memo, v, TargetSteps(targets)[i + 1..]))
  {
    assert TargetSteps(targets)[i..][1..] == TargetSteps(targets)[i + 1..];
  }

  lemma WalksAssociate(a: seq<Key>, b: seq<Key>, c: seq<Key>)
    ensures a + (b + c) == (a + b) + c
  {
  }

  lemma {:induction false} SearchAppend(p: Program, m: Memo, v: set<Key>, a: seq<Step>, b: seq<Step>)
    ensures var first := Search(p, m, v, a);
      Search(p, m, v, a + b) == if first.found then first else Continue(first, Search(p, first.memo, v, b))
    decreases |a|
  {
    if a == [] {
      assert a + b == b;
    } else {
      assert (a + b)[0] == a[0] && (a + b)[1..] == a[1..] + b;
      if a[0].Enter? {
        var decl := SearchDecl(p, m, v, a[0].key);
        SearchAppend(p, decl.memo, v, a[1..], b);
        var middle := Search(p, decl.memo, v, a[1..]);
        var last := Search(p, middle.memo, v, b);
        WalksAssociate(decl.walks, middle.walks, last.walks);
      }
    }
  }
}

/** callGraphState: the memo and the stack as fields that the search updates in place. */
module CallGraphSearch {
  import opened CallGraph

  ghost function Size(n: Node): nat {
    match n
    case FuncLit(body) => 1 + SizeAll(body)
    case Call(_, _, _, fun, args) => 2 + Size(fun) + SizeAll(args)
    case Loop(header, body) => 1 + SizeAll(header) + SizeAll(body)
    case Other(children) => 1 + SizeAll(children)
  }

  ghost function SizeAll(ns: seq<Node>): (size: nat)
    ensures size > 0
  {
    if ns == [] then 1 else 1 + Size(ns[0]) + SizeAll(ns[1..])
  }

  class CallGraphState {
    const program: Program
    var memo: Memo
    var visiting: set<Key>
    ghost var walks: seq<Key>  // the bodies walked so far, in order

    constructor (program: Program)
      ensures this.program == program && memo == map[] && visiting == {} && walks == []
    {
      this.program := program;
      memo, visiting, walks := map[], {}, [];
    }

    /** The state after searching `steps` from the given state, with this answer. */
    ghost predicate Searched(m: Memo, w: seq<Key>, steps: seq<Step>, found: bool)
      reads this
    {
      var r := Search(program, m, visiting, steps);
      found == r.found && memo == r.memo && walks == w + r.walks
    }

    method CallExecutesQuery(call: Node) returns (found: bool)
      requires call.Call?
      modifies this
      ensures visiting == old(visiting)
      ensures Searched(old(memo), old(walks), CallSteps(call), found)
      decreases Unseen(program, memo, visiting), Size(call), 0
    {
      if call.query {
        return true;
      }
      if call.fun.FuncLit? {
        assert Size(call) > Size(call.fun) > SizeAll(call.fun.body);
        found := NodesContainQuery(call.fun.body);
        return;
      }
      found := DeclsContainQuery(call.targets);
      assert CallSteps(call) == TargetSteps(call.targets);
    }

    method DeclsContainQuery(targets: seq<Key>) returns (found: bool)
      modifies this
      ensures visiting == old(visiting)
      ensures Searched(old(memo), old(walks), TargetSteps(targets), found)
      decreases Unseen(program, memo, visiting), 0, 1
    {
      ghost var whole := Search(program, memo, visiting, TargetSteps(targets));
      assert TargetSteps(targets)[0..] == TargetSteps(targets);
      for i := 0 to |targets|
        invariant visiting == old(visiting)
        invariant old(memo).Keys <= memo.Keys
        invariant
          var rest := Search(program, memo, visiting, TargetSteps(targets)[i..]);
          whole.found == rest.found && whole.memo == rest.memo && old(walks) + whole.walks == walks + rest.walks
      {
        SearchTargets(program, memo, visiting, targets, i);
        ghost var first := SearchDecl(program, memo, visiting, targets[i]);
        ghost var rest := Search(program, first.memo, visiting, TargetSteps(targets)[i + 1..]);
        WalksAssociate(walks, first.walks, rest.walks);
        var here := DeclContainsQuery(targets[i]);
        if here {
          return true;
        }
      }
      return false;
    }

    method DeclContainsQuery(k: Key) returns (found: bool)
      modifies this
      ensures visiting == old(visiting)
      ensures
        var r := SearchDecl(program, old(memo), visiting, k);
        found == r.found && memo == r.memo && walks == old(walks) + r.walks
      decreases Unseen(program, memo, visiting), 0, 0
    {
      if k !in program {
        return false;
      }
      if k in memo {
        return memo[k];
      }
      if k in visiting {
        return false;
      }
      visiting, walks := visiting + {k}, walks + [k];
      found := NodesContainQuery(program[k]);
      visiting := visiting - {k};
      memo := memo[k := found];
    }

    method NodeContainsQuery(n: Node) returns (found: bool)
      modifies this
      ensures visiting == old(visiting)
      ensures Searched(old(memo), old(walks), NodeSteps(n), found)
      decreases Unseen(program, memo, visiting), Size(n), 2
    {
      match n
      case FuncLit(_) =>
        found := false;
      case Call(_, _, _, _, _) =>
        found := CallNodeContainsQuery(n);
      case Loop(_, _) =>
        found := LoopNodeContainsQuery(n);
      case Other(children) =>
        found := NodesContainQuery(children);
    }

    /** The header first, then the body. */
    method LoopNodeContainsQuery(loop: Node) returns (found: bool)
      requires loop.Loop?
      modifies this
      ensures visiting == old(visiting)
      ensures Searched(old(memo), old(walks), NodeSteps(loop), found)
      decreases Unseen(program, memo, visiting), Size(loop), 1
    {
      assert Size(loop) > SizeAll(loop.header) && Size(loop) > SizeAll(loop.body);
      SearchAppend(program, memo, visiting, Steps(loop.header), Steps(loop.body));
      found := NodesContainQuery(loop.header);
      if !found {
        found := NodesContainQuery(loop.body);
      }
    }

    /** The call first, then whatever is written inside it. */
    method CallNodeContainsQuery(call: Node) returns (found: bool)
      requires call.Call?
      modifies this
      ensures visiting == old(visiting)
      ensures Searched(old(memo), old(walks), NodeSteps(call), found)
      decreases Unseen(program, memo, visiting), Size(call), 1
    {
      var operands := [call.fun] + call.args;
      assert operands[1..] == call.args;
      assert NodeSteps(call) == CallSteps(call) + Steps(operands);
      assert Size(call) > SizeAll(operands);
      SearchAppend(program, memo, visiting, CallSteps(call), Steps(operands));
      found := CallExecutesQuery(call);
      if !found {
        found := NodesContainQuery(operands);
      }
    }

    /** The children of one node, left to right; the walk stops once a query is found. */
    method NodesContainQuery(ns: seq<Node>) returns (found: bool)
      modifies this
      ensures visiting == old(visiting)
      ensures Searched(old(memo), old(walks), Steps(ns), found)
      decreases Unseen(program, memo, visiting), SizeAll(ns), 0
    {
      if ns == [] {
        return false;
      }
      SearchAppend(program, memo, visiting, NodeSteps(ns[0]), Steps(ns[1..]));
      found := NodeContainsQuery(ns[0]);
      if !found {
        found := NodesContainQuery(ns[1..]);
      }
    }
  }
}
