/** Where in the files the calls stand that the linter checks, read off the syntax tree and not off
    the linter's walk. */
module LoopPositions {
  import opened Options
  import opened CallGraph
  import opened LoopDetector

  /** The way from a node down to one of its parts: the child taken at each level. */
  type Position = seq<nat>

  /** In source order. */
  function Children(n: Node): seq<Node> {
    match n
    case FuncLit(body) => body
    case Call(_, _, _, fun, args) => [fun] + args
    case Loop(header, body) => header + body
    case Other(children) => children
  }

  function PartAt(n: Node, at: Position): Option<Node>
    decreases |at|
  {
    if at == [] then Some(n)
    else if at[0] >= |Children(n)| then None
    else PartAt(Children(n)[at[0]], at[1..])
  }

  predicate CallAt(n: Node, at: Position) {
    PartAt(n, at).Some? && PartAt(n, at).value.Call?
  }

  predicate LitAt(n: Node, at: Position) {
    PartAt(n, at).Some? && PartAt(n, at).value.FuncLit?
  }

  predicate LoopAt(n: Node, at: Position) {
    PartAt(n, at).Some? && PartAt(n, at).value.Loop?
  }

  /** The way passes from a loop into its body at level `j`. */
  predicate EntersBody(n: Node, at: Position, j: nat)
    requires j < |at|
  {
    LoopAt(n, at[..j]) && at[j] >= |PartAt(n, at[..j]).value.header|
  }

  /** No part of the way from level `from` on is a function literal. */
  ghost predicate NoLitFrom(n: Node, at: Position, from: nat) {
    forall i :: from <= i < |at| ==> !LitAt(n, at[..i])
  }

  /** The outermost loop on the way is entered by its body, at level `j`, and no function literal
      lies between that body and the part. */
  ghost predicate OutermostBodyAt(n: Node, at: Position, j: nat)
    requires j < |at|
  {
    && EntersBody(n, at, j)
    && (forall i :: 0 <= i < j ==> !LoopAt(n, at[..i]))
    && NoLitFrom(n, at, j + 1)
  }

  ghost predicate InOutermostBody(n: Node, at: Position) {
    exists j: nat :: j < |at| && OutermostBodyAt(n, at, j)
  }

  /** Which calls of `n` are wanted: of an outermost loop body, all outside function literals. */
  ghost predicate Wanted(inBody: bool, n: Node, at: Position) {
    CallAt(n, at) && if inBody then NoLitFrom(n, at, 0) else InOutermostBody(n, at)
  }

  lemma PartBelow(n: Node, at: Position, i: nat)
    requires 0 < i <= |at| && at[0] < |Children(n)|
    ensures PartAt(n, at[..i]) == PartAt(Children(n)[at[0]], at[1..][..i - 1])
  {
    assert at[..i][0] == at[0] && at[..i][1..] == at[1..][..i - 1];
  }

  lemma NoLitBelow(n: Node, at: Position, from: nat)
    requires at != [] && at[0] < |Children(n)|
    ensures NoLitFrom(n, at, from + 1) <==> NoLitFrom(Children(n)[at[0]], at[1..], from)
    ensures NoLitFrom(n, at, 0) <==> !n.FuncLit? && NoLitFrom(n, at, 1)
  {
    var child := Children(n)[at[0]];
    forall i | 0 < i < |at|
      ensures PartAt(n, at[..i]) == PartAt(child, at[1..][..i - 1])
    {
      PartBelow(n, at, i);
    }
    assert forall i :: 0 <= i < |at[1..]| ==> LitAt(child, at[1..][..i]) == LitAt(n, at[..i + 1]);
    assert PartAt(n, at[..0]) == Some(n);
  }

  lemma BodyBelow(n: Node, at: Position, j: nat)
    requires at != [] && at[0] < |Children(n)| && !n.Loop? && 0 < j < |at|
    ensures OutermostBodyAt(n, at, j) <==> OutermostBodyAt(Children(n)[at[0]], at[1..], j - 1)
  {
    var child := Children(n)[at[0]];
    forall i | 0 < i <= j
      ensures PartAt(n, at[..i]) == PartAt(child, at[1..][..i - 1])
    {
      PartBelow(n, at, i);
    }
    assert forall i :: 0 <= i < j ==> LoopAt(child, at[1..][..i]) == LoopAt(n, at[..i + 1]);
    assert PartAt(n, at[..0]) == Some(n);
    NoLitBelow(n, at, j);
  }

  /** What is wanted of `n`, said of the child that the way takes first. */
  lemma WantedBelow(inBody: bool, n: Node, at: Position)
    requires at != []
    ensures Wanted(inBody, n, at) <==>
      && at[0] < |Children(n)|
      && (if inBody then !n.FuncLit? else n.Loop? ==> at[0] >= |n.header|)
      && Wanted(inBody || n.Loop?, Children(n)[at[0]], at[1..])
  {
    if at[0] < |Children(n)| {
      var child := Children(n)[at[0]];
      NoLitBelow(n, at, 0);
      assert PartAt(n, at[..0]) == Some(n);
      if n.Loop? {
        assert forall j: nat :: 0 < j < |at| && OutermostBodyAt(n, at, j) ==> !LoopAt(n, at[..0]);
        assert InOutermostBody(n, at) <==> OutermostBodyAt(n, at, 0);
      } else {
        LoopBelow(n, at);
      }
    }
  }

  lemma LoopBelow(n: Node, at: Position)
    requires at != [] && at[0] < |Children(n)| && !n.Loop?
    ensures InOutermostBody(n, at) <==> InOutermostBody(Children(n)[at[0]], at[1..])
  {
    assert PartAt(n, at[..0]) == Some(n);
    if j: nat :| j < |at| && OutermostBodyAt(n, at, j) {
      assert j > 0;
      BodyBelow(n, at, j);
      assert OutermostBodyAt(Children(n)[at[0]], at[1..], j - 1);
    }
    if j: nat :| j < |at[1..]| && OutermostBodyAt(Children(n)[at[0]], at[1..], j) {
      BodyBelow(n, at, j + 1);
      assert OutermostBodyAt(n, at, j + 1);
    }
  }

  // ---------------------------------------------------------------------------------------
  // Source order
  // ---------------------------------------------------------------------------------------

  /** A part comes before what is inside it and before all later siblings. */
  predicate Before(a: Position, b: Position)
    decreases |a|
  {
    b != [] && (a == [] || a[0] < b[0] || (a[0] == b[0] && Before(a[1..], b[1..])))
  }

  lemma {:induction false} NotBeforeItself(a: Position)
    ensures !Before(a, a)
    decreases |a|
  {
    if a != [] {
      NotBeforeItself(a[1..]);
    }
  }

  ghost predicate InOrder(ats: seq<Position>) {
    forall i, j :: 0 <= i < j < |ats| ==> Before(ats[i], ats[j])
  }

  // ---------------------------------------------------------------------------------------
  // The positions of the calls, in the order the linter collects them
  // ---------------------------------------------------------------------------------------

  function Under(i: nat, ats: seq<Position>): seq<Position> {
    seq(|ats|, k requires 0 <= k < |ats| => [i] + ats[k])
  }

  function Positions(inBody: bool, n: Node): seq<Position>
    decreases n
  {
    match n
    case FuncLit(body) => if inBody then [] else Among(false, body, 0)
    case Call(_, _, _, fun, args) =>
      if inBody then [[]] + (Under(0, Positions(inBody, fun)) + Among(inBody, args, 1))
      else Under(0, Positions(inBody, fun)) + Among(inBody, args, 1)
    case Loop(header, body) =>
      if inBody then Among(true, header, 0) + Among(true, body, |header|) else Among(true, body, |header|)
    case Other(children) => Among(inBody, children, 0)
  }

  /** For the children `ns`, the first of which is number `lo`. */
  function Among(inBody: bool, ns: seq<Node>, lo: nat): seq<Position>
    decreases ns
  {
    if ns == [] then [] else Under(lo, Positions(inBody, ns[0])) + Among(inBody, ns[1..], lo + 1)
  }

  function Collected(inBody: bool, n: Node): seq<Node> {
    if inBody then NodeVisibleCalls(n) else NodeLoopCalls(n)
  }

  function CollectedAmong(inBody: bool, ns: seq<Node>): seq<Node> {
    if inBody then VisibleCalls(ns) else LoopCalls(ns)
  }

  /** `ats` lists the positions of `calls` in `n`, in source order. */
  ghost predicate Locates(n: Node, ats: seq<Position>, calls: seq<Node>) {
    && |ats| == |calls|
    && (forall i :: 0 <= i < |ats| ==> PartAt(n, ats[i]) == Some(calls[i]))
    && InOrder(ats)
  }

  ghost predicate Enumerates(inBody: bool, n: Node, ats: seq<Position>, calls: seq<Node>) {
    Locates(n, ats, calls) && forall at :: at in ats <==> Wanted(inBody, n, at)
  }

  /** The same of the children `lo` to before `hi`. */
  ghost predicate EnumeratesAmong(inBody: bool, n: Node, lo: nat, hi: nat, ats: seq<Position>, calls: seq<Node>)
    requires hi <= |Children(n)|
  {
    && Locates(n, ats, calls)
    && forall at :: at in ats <==> at != [] && lo <= at[0] < hi && Wanted(inBody, Children(n)[at[0]], at[1..])
  }

  lemma ChildEnumerated(inBody: bool, n: Node, i: nat, ats: seq<Position>, calls: seq<Node>)
    requires i < |Children(n)| && Enumerates(inBody, Children(n)[i], ats, calls)
    ensures EnumeratesAmong(inBody, n, i, i + 1, Under(i, ats), calls)
  {
    var under := Under(i, ats);
    assert forall k :: 0 <= k < |ats| ==> under[k] != [] && under[k][0] == i && under[k][1..] == ats[k];
    forall at
      ensures at in under <==> at != [] && at[0] == i && Wanted(inBody, Children(n)[i], at[1..])
    {
      if at != [] && at[0] == i && at[1..] in ats {
        var k :| 0 <= k < |ats| && ats[k] == at[1..];
        assert under[k] == at;
      }
    }
  }

  lemma LocatedJoin(n: Node, a: seq<Position>, ca: seq<Node>, b: seq<Position>, cb: seq<Node>)
    requires Locates(n, a, ca) && Locates(n, b, cb)
    requires forall i, j :: 0 <= i < |a| && 0 <= j < |b| ==> Before(a[i], b[j])
    ensures Locates(n, a + b, ca + cb)
  {
  }

  lemma AmongJoin(inBody: bool, n: Node, lo: nat, mid: nat, hi: nat, a: seq<Position>, ca: seq<Node>, b: seq<Position>,
                  cb: seq<Node>)
    requires lo <= mid <= hi <= |Children(n)|
    requires EnumeratesAmong(inBody, n, lo, mid, a, ca) && EnumeratesAmong(inBody, n, mid, hi, b, cb)
    ensures EnumeratesAmong(inBody, n, lo, hi, a + b, ca + cb)
  {
    forall i, j | 0 <= i < |a| && 0 <= j < |b|
      ensures Before(a[i], b[j])
    {
      assert a[i] in a && b[j] in b;
    }
    LocatedJoin(n, a, ca, b, cb);
  }

  lemma {:induction false} AmongEnumerates(inBody: bool, n: Node, ns: seq<Node>, lo: nat)
    requires lo + |ns| <= |Children(n)| && Children(n)[lo..lo + |ns|] == ns
    ensures EnumeratesAmong(inBody, n, lo, lo + |ns|, Among(inBody, ns, lo), CollectedAmong(inBody, ns))
    decreases ns
  {
    if ns != [] {
      assert Children(n)[lo] == ns[0] && Children(n)[lo + 1..lo + |ns|] == ns[1..];
      NodeEnumerates(inBody, ns[0]);
      ChildEnumerated(inBody, n, lo, Positions(inBody, ns[0]), Collected(inBody, ns[0]));
      AmongEnumerates(inBody, n, ns[1..], lo + 1);
      AmongJoin(inBody, n, lo, lo + 1, lo + |ns|, Under(lo, Positions(inBody, ns[0])), Collected(inBody, ns[0]),
                Among(inBody, ns[1..], lo + 1), CollectedAmong(inBody, ns[1..]));
    }
  }

  lemma WantedOf(inBody: bool, n: Node, lo: nat, ats: seq<Position>, calls: seq<Node>)
    requires lo <= |Children(n)| && EnumeratesAmong(inBody || n.Loop?, n, lo, |Children(n)|, ats, calls)
    requires !(inBody && n.FuncLit?)
    requires lo == if n.Loop? && !inBody then |n.header| else 0
    ensures if n.Call? && inBody then Enumerates(inBody, n, [[]] + ats, [n] + calls)
      else Enumerates(inBody, n, ats, calls)
  {
    forall at: Position | at != []
      ensures at in ats <==> Wanted(inBody, n, at)
    {
      WantedBelow(inBody, n, at);
    }
    assert Wanted(inBody, n, []) <==> n.Call? && inBody;
    if n.Call? && inBody {
      LocatedJoin(n, [[]], [n], ats, calls);
    }
  }

  lemma LitEnumerates(inBody: bool, n: Node, ats: seq<Position>, calls: seq<Node>)
    requires n.FuncLit? && EnumeratesAmong(false, n, 0, |Children(n)|, ats, calls)
    ensures if inBody then Enumerates(true, n, [], []) else Enumerates(false, n, ats, calls)
  {
    if inBody {
      forall at
        ensures !Wanted(true, n, at)
      {
        if at != [] {
          WantedBelow(true, n, at);
        }
      }
    } else {
      WantedOf(false, n, 0, ats, calls);
    }
  }

  lemma CallEnumerates(inBody: bool, n: Node, f: seq<Position>, cf: seq<Node>, a: seq<Position>, ca: seq<Node>)
    requires n.Call? && Enumerates(inBody, n.fun, f, cf)
    requires EnumeratesAmong(inBody, n, 1, |Children(n)|, a, ca)
    ensures if inBody then Enumerates(inBody, n, [[]] + (Under(0, f) + a), [n] + (cf + ca))
            else Enumerates(inBody, n, Under(0, f) + a, cf + ca)
  {
    ChildEnumerated(inBody, n, 0, f, cf);
    AmongJoin(inBody, n, 0, 1, |Children(n)|, Under(0, f), cf, a, ca);
    WantedOf(inBody, n, 0, Under(0, f) + a, cf + ca);
  }

  lemma LoopEnumerates(inBody: bool, n: Node, h: seq<Position>, ch: seq<Node>, b: seq<Position>, cb: seq<Node>)
    requires n.Loop? && EnumeratesAmong(true, n, 0, |n.header|, h, ch)
    requires EnumeratesAmong(true, n, |n.header|, |Children(n)|, b, cb)
    ensures if inBody then Enumerates(inBody, n, h + b, ch + cb) else Enumerates(inBody, n, b, cb)
  {
    if inBody {
      AmongJoin(true, n, 0, |n.header|, |Children(n)|, h, ch, b, cb);
      WantedOf(true, n, 0, h + b, ch + cb);
    } else {
      WantedOf(false, n, |n.header|, b, cb);
    }
  }

  lemma {:induction false} NodeEnumerates(inBody: bool, n: Node)
    ensures Enumerates(inBody, n, Positions(inBody, n), Collected(inBody, n))
    decreases n
  {
    match n
    case FuncLit(body) =>
      AmongEnumerates(false, n, body, 0);
      LitEnumerates(inBody, n, Among(false, body, 0), LoopCalls(body));
    case Call(_, _, _, fun, args) =>
      NodeEnumerates(inBody, fun);
      AmongEnumerates(inBody, n, args, 1);
      CallEnumerates(inBody, n, Positions(inBody, fun), Collected(inBody, fun), Among(inBody, args, 1),
                     CollectedAmong(inBody, args));
    case Loop(header, body) =>
      AmongEnumerates(true, n, header, 0);
      AmongEnumerates(true, n, body, |header|);
      LoopEnumerates(inBody, n, Among(true, header, 0), VisibleCalls(header), Among(true, body, |header|),
                     VisibleCalls(body));
    case Other(children) =>
      AmongEnumerates(inBody, n, children, 0);
      WantedOf(inBody, n, 0, Among(inBody, children, 0), CollectedAmong(inBody, children));
  }

  /** The linter checks, each once and in source order, exactly the calls that stand in the body of an
      outermost loop and in no function literal within that body. */
  lemma EachCheckedOnce(files: seq<Node>)
    ensures var whole, ats, calls := Other(files), Positions(false, Other(files)), LoopCalls(files);
      && |ats| == |calls|
      && (forall i :: 0 <= i < |ats| ==> PartAt(whole, ats[i]) == Some(calls[i]))
      && (forall i, j :: 0 <= i < j < |ats| ==> Before(ats[i], ats[j]) && ats[i] != ats[j])
      && (forall at :: at in ats <==> CallAt(whole, at) && InOutermostBody(whole, at))
  {
    var whole := Other(files);
    NodeEnumerates(false, whole);
    forall at
      ensures !Before(at, at)
    {
      NotBeforeItself(at);
    }
  }

  /** The call at `at` is checked and reported. */
  ghost predicate ReportedAt(p: Program, files: seq<Node>, at: Position) {
    LoopCallsAreCalls(files);
    var ats, verdicts := Positions(false, Other(files)), CheckAll(p, map[], LoopCalls(files)).verdicts;
    exists i: nat :: i < |ats| && i < |verdicts| && ats[i] == at && verdicts[i]
  }

  /** Without call cycles a call is reported exactly when it stands in such a place and reaches a
      query. */
  lemma ReportedExactly(p: Program, files: seq<Node>, at: Position)
    requires NoCycles(p)
    ensures ReportedAt(p, files, at) <==>
      && CallAt(Other(files), at) && InOutermostBody(Other(files), at)
      && CallReaches(p, PartAt(Other(files), at).value)
  {
    var ats, calls := Positions(false, Other(files)), LoopCalls(files);
    LoopCallsAreCalls(files);
    EachCheckedOnce(files);
    VerdictsSound(p, map[], calls);
    if CallAt(Other(files), at) && InOutermostBody(Other(files), at) {
      var i: nat :| i < |ats| && ats[i] == at;
      assert PartAt(Other(files), ats[i]) == Some(calls[i]);
    }
  }

  /** On any call graph the linter stays silent exactly when no call in such a place reaches a query. */
  lemma SilentByPosition(p: Program, files: seq<Node>)
    ensures LintReports(p, files) == [] <==>
      forall at :: CallAt(Other(files), at) && InOutermostBody(Other(files), at) ==>
        !CallReaches(p, PartAt(Other(files), at).value)
  {
    var ats, calls := Positions(false, Other(files)), LoopCalls(files);
    EachCheckedOnce(files);
    SilentExactly(p, files);
    assert forall i :: 0 <= i < |ats| ==> ats[i] in ats && PartAt(Other(files), ats[i]) == Some(calls[i]);
  }
}
