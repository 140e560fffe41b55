/** Which memo entries are wrong, said on the call graph: after one check that finds a query, and
    after any number of checks. */
module WrongEntries {
  import opened CallGraph
  import opened LoopDetector
  import opened MemoisedCheck

  /** The entry says `false` of a declaration that reaches a query. */
  ghost predicate Wrong(p: Program, m: Memo, k: Key) {
    k in m && !m[k] && DeclReaches(p, k)
  }

  predicate SaysTrue(m: Memo, k: Key) {
    k in m && m[k]
  }

  /** A sound memo is wrong in its `Wrong` entries only. */
  lemma WrongIsAllThatIs(p: Program, m: Memo, k: Key)
    requires Sound(p, m) && k in m
    ensures (m[k] <==> DeclReaches(p, k)) <==> !Wrong(p, m, k)
  {
  }

  lemma {:induction false} ChainReaches(p: Program, k: Key, chain: seq<Key>, t: Key)
    requires CallChain(p, k, chain, t) && DeclReaches(p, t)
    ensures DeclReaches(p, k)
    decreases |chain|
  {
    var next := if chain == [] then t else chain[0];
    if chain != [] {
      ChainReaches(p, chain[0], chain[1..], t);
    }
    StepsMeaning(p[k]);
    assert Enter(next) in Steps(p[k]);
    BodyReaches(p, p[k]);
  }

  lemma CallerReaches(p: Program, k: Key, t: Key)
    requires Calls(p, k, t) && DeclReaches(p, t)
    ensures DeclReaches(p, k)
  {
    var chain :| CallChain(p, k, chain, t);
    ChainReaches(p, k, chain, t);
  }

  lemma CallsOn(p: Program, k: Key, t: Key, u: Key)
    requires k in p && RunsInto(p[k], t) && (u == t || Calls(p, t, u))
    ensures Calls(p, k, u)
  {
    assert CallChain(p, k, [], t);
    if u != t {
      CallsTransitive(p, k, t, u);
    }
  }

  // ---------------------------------------------------------------------------------------
  // After any number of checks
  // ---------------------------------------------------------------------------------------

  /** Walking `steps` to the end has met no query, and an entry or the stack at every declaration. */
  ghost predicate Met(p: Program, m: Memo, v: set<Key>, steps: seq<Step>) {
    Query !in steps && forall t :: Enter(t) in steps && t in p ==> t in m || t in v
  }

  /** The bodies behind `false` entries were walked to the end. */
  ghost predicate Closed(p: Program, m: Memo, v: set<Key>) {
    forall k :: k in m && !m[k] ==> k in p && Met(p, m, v, Steps(p[k]))
  }

  lemma {:induction false} SearchClosed(p: Program, m: Memo, v: set<Key>, steps: seq<Step>)
    requires Closed(p, m, v)
    ensures var r := Search(p, m, v, steps);
      Closed(p, r.memo, v) && (!r.found ==> Met(p, r.memo, v, steps))
    decreases Unseen(p, m, v), |steps|
  {
    if steps != [] && steps[0].Enter? {
      var k := steps[0].key;
      var first := SearchDecl(p, m, v, k);
      SearchDeclClosed(p, m, v, k);
      if !first.found {
        SearchClosed(p, first.memo, v, steps[1..]);
        assert forall s :: s in steps ==> s == steps[0] || s in steps[1..];
      }
    }
  }

  lemma {:induction false} SearchDeclClosed(p: Program, m: Memo, v: set<Key>, k: Key)
    requires Closed(p, m, v)
    ensures var r := SearchDecl(p, m, v, k);
      Closed(p, r.memo, v) && (k in p ==> k in r.memo || k in v)
    decreases Unseen(p, m, v), 0
  {
    if k in p && k !in m && k !in v {
      SearchClosed(p, m, v + {k}, Steps(p[k]));
    }
  }

  lemma {:induction false} CallsATrueOne(p: Program, m: Memo, k: Key, path: seq<Key>)
    requires Closed(p, m, {}) && k in m && !m[k] && k in p && QueryPath(p, p[k], path)
    ensures exists t :: Calls(p, k, t) && SaysTrue(m, t)
    decreases |path|
  {
    StepsMeaning(p[k]);
    assert path != [];
    var next := path[0];
    assert Enter(next) in Steps(p[k]);
    if m[next] {
      CallsOn(p, k, next, next);
    } else {
      CallsATrueOne(p, m, next, path[1..]);
      var t :| Calls(p, next, t) && SaysTrue(m, t);
      CallsOn(p, k, next, t);
    }
  }

  lemma WrongExactly(p: Program, m: Memo, k: Key)
    requires Closed(p, m, {}) && Sound(p, m) && k in m && !m[k]
    ensures Wrong(p, m, k) <==> exists t :: Calls(p, k, t) && SaysTrue(m, t)
  {
    if DeclReaches(p, k) {
      var path :| QueryPath(p, p[k], path);
      CallsATrueOne(p, m, k, path);
    }
    if t :| Calls(p, k, t) && SaysTrue(m, t) {
      CallerReaches(p, k, t);
    }
  }

  lemma {:induction false} ChecksClosed(p: Program, m: Memo, calls: seq<Node>)
    requires AllCalls(calls) && Closed(p, m, {}) && Sound(p, m)
    ensures Closed(p, CheckAll(p, m, calls).memo, {}) && Sound(p, CheckAll(p, m, calls).memo)
    decreases |calls|
  {
    if calls != [] {
      SearchClosed(p, m, {}, CallSteps(calls[0]));
      SearchSound(p, m, {}, CallSteps(calls[0]));
      ChecksClosed(p, Search(p, m, {}, CallSteps(calls[0])).memo, calls[1..]);
    }
  }

  /** On any call graph and after any checks, the entries that are wrong are exactly the `false` ones of
      declarations that call, directly or through others, one whose entry says `true`. */
  lemma WrongAfterChecks(p: Program, calls: seq<Node>, k: Key)
    requires AllCalls(calls)
    ensures var m := CheckAll(p, map[], calls).memo;
      k in m ==> ((m[k] <==> DeclReaches(p, k)) <==> m[k] || !exists t :: Calls(p, k, t) && SaysTrue(m, t))
  {
    var m := CheckAll(p, map[], calls).memo;
    ChecksClosed(p, map[], calls);
    if k in m {
      WrongIsAllThatIs(p, m, k);
      if !m[k] {
        WrongExactly(p, m, k);
      }
    }
  }

  // ---------------------------------------------------------------------------------------
  // After the first check that finds a query
  // ---------------------------------------------------------------------------------------

  /** `a` and `b` lie on one call cycle. */
  ghost predicate OnOneCycle(p: Program, a: Key, b: Key) {
    Calls(p, a, b) && Calls(p, b, a)
  }

  ghost predicate CallsAll(p: Program, v: set<Key>, ks: seq<Key>) {
    forall u, k :: u in v && k in ks ==> Calls(p, u, k)
  }

  /** The stack calls every body that is walked above it. */
  lemma {:induction false} SearchUnder(p: Program, m: Memo, v: set<Key>, steps: seq<Step>)
    requires OnStack(p, v, steps)
    ensures CallsAll(p, v, Search(p, m, v, steps).walks)
    decreases Unseen(p, m, v), |steps|
  {
    if steps != [] && steps[0].Enter? {
      var k := steps[0].key;
      var first := SearchDecl(p, m, v, k);
      assert Enter(k) in steps;
      SearchDeclUnder(p, m, v, k);
      if !first.found {
        assert forall s :: s in steps[1..] ==> s in steps;
        SearchUnder(p, first.memo, v, steps[1..]);
      }
    }
  }

  lemma {:induction false} SearchDeclUnder(p: Program, m: Memo, v: set<Key>, k: Key)
    requires forall u :: u in v ==> Calls(p, u, k)
    ensures CallsAll(p, v, SearchDecl(p, m, v, k).walks)
    decreases Unseen(p, m, v), 0
  {
    if k in p && k !in m && k !in v {
      StackGrows(p, v, k);
      SearchUnder(p, m, v + {k}, Steps(p[k]));
    }
  }

  /** While nothing has been found, a wrong `false` leads back to the stack. */
  lemma {:induction false} WrongCallsStack(p: Program, m: Memo, v: set<Key>, k: Key, path: seq<Key>)
    requires FalseHolds(p, m, v) && k in m && !m[k] && k in p && QueryPath(p, p[k], path)
    ensures exists u :: u in v && Calls(p, k, u)
    decreases |path|
  {
    assert DeclReaches(p, k);
    StepsMeaning(p[k]);
    assert path != [];
    var next := path[0];
    assert Enter(next) in Steps(p[k]);
    if next in v {
      CallsOn(p, k, next, next);
    } else {
      WrongCallsStack(p, m, v, next, path[1..]);
      var u :| u in v && Calls(p, next, u);
      CallsOn(p, k, next, u);
    }
  }

  /** A declaration of the stack, or one that the search has found to reach a query. */
  predicate Open(r: Outcome, v: set<Key>, u: Key) {
    u in v || (u in r.walks && SaysTrue(r.memo, u))
  }

  ghost predicate WrongOnCycles(p: Program, r: Outcome, v: set<Key>) {
    forall k :: k in r.walks && Wrong(p, r.memo, k) ==> exists u :: Open(r, v, u) && OnOneCycle(p, u, k)
  }

  lemma UnfoundOnCycles(p: Program, r: Outcome, v: set<Key>)
    requires FalseHolds(p, r.memo, v) && CallsAll(p, v, r.walks)
    ensures WrongOnCycles(p, r, v)
  {
    forall k | k in r.walks && Wrong(p, r.memo, k)
      ensures exists u :: Open(r, v, u) && OnOneCycle(p, u, k)
    {
      var path :| QueryPath(p, p[k], path);
      WrongCallsStack(p, r.memo, v, k, path);
      var u :| u in v && Calls(p, k, u);
      assert Open(r, v, u) && OnOneCycle(p, u, k);
    }
  }

  lemma CyclesJoin(p: Program, m: Memo, v: set<Key>, first: Outcome, rest: Outcome)
    requires Extends(first.memo, v, rest) && Extends(m, v, first)
    requires WrongOnCycles(p, first, v) && WrongOnCycles(p, rest, v)
    ensures WrongOnCycles(p, Outcome(rest.found, rest.memo, first.walks + rest.walks), v)
  {
    var r := Outcome(rest.found, rest.memo, first.walks + rest.walks);
    forall k | k in r.walks && Wrong(p, r.memo, k)
      ensures exists u :: Open(r, v, u) && OnOneCycle(p, u, k)
    {
      if k in first.walks {
        assert Wrong(p, first.memo, k);
        var u :| Open(first, v, u) && OnOneCycle(p, u, k);
        assert Open(r, v, u);
      } else {
        var u :| Open(rest, v, u) && OnOneCycle(p, u, k);
        assert Open(r, v, u);
      }
    }
  }

  lemma {:induction false} SearchCycles(p: Program, m: Memo, v: set<Key>, steps: seq<Step>)
    requires FalseHolds(p, m, v) && OnStack(p, v, steps)
    ensures WrongOnCycles(p, Search(p, m, v, steps), v)
    decreases Unseen(p, m, v), |steps|
  {
    if steps != [] && steps[0].Enter? {
      var k := steps[0].key;
      var first := SearchDecl(p, m, v, k);
      assert Enter(k) in steps;
      SearchDeclCycles(p, m, v, k);
      if !first.found {
        assert forall s :: s in steps[1..] ==> s in steps;
        SearchDeclSettles(p, m, v, k);
        SearchCycles(p, first.memo, v, steps[1..]);
        SearchDeclExtends(p, m, v, k);
        SearchExtends(p, first.memo, v, steps[1..]);
        CyclesJoin(p, m, v, first, Search(p, first.memo, v, steps[1..]));
      }
    }
  }

  lemma {:induction false} SearchDeclCycles(p: Program, m: Memo, v: set<Key>, k: Key)
    requires FalseHolds(p, m, v) && forall u :: u in v ==> Calls(p, u, k)
    ensures WrongOnCycles(p, SearchDecl(p, m, v, k), v)
    decreases Unseen(p, m, v), 0
  {
    if k in p && k !in m && k !in v {
      var inner, r := Search(p, m, v + {k}, Steps(p[k])), SearchDecl(p, m, v, k);
      if r.found {
        StackGrows(p, v, k);
        SearchCycles(p, m, v + {k}, Steps(p[k]));
        SearchExtends(p, m, v + {k}, Steps(p[k]));
        forall e | e in r.walks && Wrong(p, r.memo, e)
          ensures exists u :: Open(r, v, u) && OnOneCycle(p, u, e)
        {
          assert e in inner.walks && Wrong(p, inner.memo, e);
          var u :| Open(inner, v + {k}, u) && OnOneCycle(p, u, e);
          assert Open(r, v, u);
        }
      } else {
        SearchDeclSettles(p, m, v, k);
        SearchDeclUnder(p, m, v, k);
        UnfoundOnCycles(p, r, v);
      }
    }
  }

  /** A check from an exact memo leaves wrong exactly the `false` entries of declarations that share a
      call cycle with one it has found to reach a query: those it cut short at the stack. */
  lemma WrongAfterOne(p: Program, m: Memo, c: Node, k: Key)
    requires c.Call? && Exact(p, m)
    ensures var r := Search(p, m, {}, CallSteps(c));
      Wrong(p, r.memo, k) <==>
        k in r.memo && !r.memo[k] && exists t :: t in r.walks && SaysTrue(r.memo, t) && OnOneCycle(p, t, k)
  {
    var r := Search(p, m, {}, CallSteps(c));
    SearchCycles(p, m, {}, CallSteps(c));
    SearchExtends(p, m, {}, CallSteps(c));
    SearchSound(p, m, {}, CallSteps(c));
    if Wrong(p, r.memo, k) {
      assert k in r.walks;
      var t :| Open(r, {}, t) && OnOneCycle(p, t, k);
    }
    if t :| t in r.walks && SaysTrue(r.memo, t) && OnOneCycle(p, t, k) {
      CallerReaches(p, k, t);
    }
  }

  lemma {:induction false} ExactWhileSilent(p: Program, m: Memo, calls: seq<Node>)
    requires AllCalls(calls) && Exact(p, m)
    requires forall j :: 0 <= j < |calls| ==> !CheckAll(p, m, calls).verdicts[j]
    ensures Exact(p, CheckAll(p, m, calls).memo)
    decreases |calls|
  {
    if calls != [] {
      var first := Search(p, m, {}, CallSteps(calls[0]));
      var verdicts, rest := CheckAll(p, m, calls).verdicts, CheckAll(p, first.memo, calls[1..]).verdicts;
      TopLevelCheck(p, m, calls[0]);
      assert !verdicts[0];
      assert forall j :: 0 <= j < |rest| ==> rest[j] == verdicts[j + 1];
      ExactWhileSilent(p, first.memo, calls[1..]);
    }
  }

  lemma MemoAfter(p: Program, calls: seq<Node>, i: nat)
    requires AllCalls(calls) && i < |calls|
    ensures MemoBefore(p, calls, i + 1) == Search(p, MemoBefore(p, calls, i), {}, CallSteps(calls[i])).memo
  {
    var one := [calls[i]];
    assert calls[..i + 1] == calls[..i] + one;
    CheckAllAppend(p, map[], calls[..i], one);
    assert one[1..] == [];
  }

  /** In a package: while nothing has been reported no entry is wrong, and the first report leaves
      wrong exactly the `false` entries that share a call cycle with a `true` one. */
  lemma FirstReportLeavesWrong(p: Program, calls: seq<Node>, i: nat, k: Key)
    requires AllCalls(calls) && i < |calls|
    requires forall j :: 0 <= j < i ==> !CheckAll(p, map[], calls).verdicts[j]
    ensures !Wrong(p, MemoBefore(p, calls, i), k)
    ensures var m := MemoBefore(p, calls, i + 1);
      Wrong(p, m, k) <==> k in m && !m[k] && exists t :: SaysTrue(m, t) && OnOneCycle(p, t, k)
  {
    var before, rest := calls[..i], calls[i..];
    assert calls == before + rest;
    CheckAllAppend(p, map[], before, rest);
    assert forall j :: 0 <= j < i ==> CheckAll(p, map[], before).verdicts[j] == CheckAll(p, map[], calls).verdicts[j];
    ExactWhileSilent(p, map[], before);
    MemoAfter(p, calls, i);
    WrongAfterOne(p, MemoBefore(p, calls, i), calls[i], k);
    var m := MemoBefore(p, calls, i + 1);
    SearchSound(p, MemoBefore(p, calls, i), {}, CallSteps(calls[i]));
    if t :| SaysTrue(m, t) && OnOneCycle(p, t, k) {
      CallerReaches(p, k, t);
    }
  }
}
