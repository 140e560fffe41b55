/** What one check answers from any memo, right or wrong: exactly what the program looks like through
    the memo. */
module MemoisedCheck {
  import opened CallGraph
  import opened LoopDetector

  const QUERY_BODY: seq<Node> := [Call(0, true, [], Other([]), [])]

  /** The program as the memo tells it: `true` entries run a query, `false` entries run nothing. */
  function Remembered(p: Program, m: Memo): Program {
    map k | k in p && (k in m ==> m[k]) :: if k in m then QUERY_BODY else p[k]
  }

  /** `one` searches the program with the memo `m`, `other` the remembered program without it. */
  ghost predicate Related(m: Memo, one: Memo, other: Memo) {
    && (forall k :: k in m ==> k in one && one[k] == m[k] && k !in other)
    && (forall k :: k !in m ==> (k in one <==> k in other) && (k in one ==> one[k] == other[k]))
  }

  lemma {:induction false} SameAnswer(p: Program, m: Memo, one: Memo, other: Memo, v: set<Key>, steps: seq<Step>)
    requires Related(m, one, other) && v !! m.Keys
    ensures var r, s := Search(p, one, v, steps), Search(Remembered(p, m), other, v, steps);
      r.found == s.found && (!r.found ==> Related(m, r.memo, s.memo))
    decreases Unseen(p, one, v), |steps|
  {
    if steps != [] && steps[0].Enter? {
      var k := steps[0].key;
      SameDecl(p, m, one, other, v, k);
      var first := SearchDecl(p, one, v, k);
      if !first.found {
        SameAnswer(p, m, first.memo, SearchDecl(Remembered(p, m), other, v, k).memo, v, steps[1..]);
      }
    }
  }

  lemma {:induction false} SameDecl(p: Program, m: Memo, one: Memo, other: Memo, v: set<Key>, k: Key)
    requires Related(m, one, other) && v !! m.Keys
    ensures var r, s := SearchDecl(p, one, v, k), SearchDecl(Remembered(p, m), other, v, k);
      r.found == s.found && (!r.found ==> Related(m, r.memo, s.memo))
    decreases Unseen(p, one, v), 0
  {
    if k in m && m[k] {
      QueryFound(Remembered(p, m), other, v + {k});
    } else if k in p && k !in one && k !in v {
      SameAnswer(p, m, one, other, v + {k}, Steps(p[k]));
      assert Remembered(p, m)[k] == p[k];
    }
  }

  lemma QueryFound(p: Program, m: Memo, v: set<Key>)
    ensures Search(p, m, v, Steps(QUERY_BODY)).found
  {
    assert Steps(QUERY_BODY)[0] == Query;
  }

  /** One check, from any memo and on any call graph, answers `true` exactly when the call reaches a
      query in the program as remembered. */
  lemma CheckExactly(p: Program, m: Memo, c: Node)
    requires c.Call?
    ensures Search(p, m, {}, CallSteps(c)).found <==> CallReaches(Remembered(p, m), c)
  {
    SameAnswer(p, m, m, map[], {}, CallSteps(c));
    TopLevelCheck(Remembered(p, m), map[], c);
  }

  /** The memo when call `i` of the package is checked. */
  function MemoBefore(p: Program, calls: seq<Node>, i: nat): Memo
    requires AllCalls(calls) && i <= |calls|
  {
    CheckAll(p, map[], calls[..i]).memo
  }

  /** Whether a call of the package is reported, on any call graph: exactly when it reaches a query in
      the program as remembered at that point. So a call that does reach one is missed exactly when it
      reaches none there, that is, when a wrong `false` entry cuts every way to a query. */
  lemma {:induction false} VerdictExactly(p: Program, calls: seq<Node>, i: nat)
    requires AllCalls(calls) && i < |calls|
    ensures CheckAll(p, map[], calls).verdicts[i] <==> CallReaches(Remembered(p, MemoBefore(p, calls, i)), calls[i])
  {
    var before, rest := calls[..i], calls[i..];
    assert calls == before + rest;
    assert forall k :: 0 <= k < |rest| ==> rest[k] == calls[i + k];
    CheckAllAppend(p, map[], before, rest);
    CheckExactly(p, MemoBefore(p, calls, i), calls[i]);
  }
}
