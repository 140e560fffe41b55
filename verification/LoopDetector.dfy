/** tools/nplusonecheck/loop_detector.go: every `for` and `range` body outside another loop is
    checked call by call, with one call graph state for the whole package. */
module LoopDetector {
  import opened CallGraph
  import opened CallGraphSearch

  /** The calls of a loop body outside function literals, outer call first. */
  function VisibleCalls(code: seq<Node>): seq<Node> {
    if code == [] then [] else NodeVisibleCalls(code[0]) + VisibleCalls(code[1..])
  }

  function NodeVisibleCalls(n: Node): seq<Node> {
    match n
    case FuncLit(_) => []
    case Call(_, _, _, fun, args) => [n] + (NodeVisibleCalls(fun) + VisibleCalls(args))
    case Loop(header, body) => VisibleCalls(header) + VisibleCalls(body)
    case Other(children) => VisibleCalls(children)
  }

  /** The calls the linter checks in `code`: those of the outermost loop bodies. Function literals
      outside loops are entered; loop headers are not. */
  function LoopCalls(code: seq<Node>): seq<Node> {
    if code == [] then [] else NodeLoopCalls(code[0]) + LoopCalls(code[1..])
  }

  function NodeLoopCalls(n: Node): seq<Node> {
    match n
    case FuncLit(body) => LoopCalls(body)
    case Call(_, _, _, fun, args) => NodeLoopCalls(fun) + LoopCalls(args)
    case Loop(_, body) => VisibleCalls(body)
    case Other(children) => LoopCalls(children)
  }

  ghost predicate AllCalls(calls: seq<Node>) {
    forall i :: 0 <= i < |calls| ==> calls[i].Call?
  }

  lemma {:induction false} VisibleAreCalls(code: seq<Node>)
    ensures AllCalls(VisibleCalls(code))
  {
    if code != [] {
      NodeVisibleAreCalls(code[0]);
      VisibleAreCalls(code[1..]);
    }
  }

  lemma {:induction false} NodeVisibleAreCalls(n: Node)
    ensures AllCalls(NodeVisibleCalls(n))
  {
    match n
    case FuncLit(_) =>
    case Call(_, _, _, fun, args) => NodeVisibleAreCalls(fun); VisibleAreCalls(args);
    case Loop(header, body) => VisibleAreCalls(header); VisibleAreCalls(body);
    case Other(children) => VisibleAreCalls(children);
  }

  lemma {:induction false} LoopCallsAreCalls(code: seq<Node>)
    ensures AllCalls(LoopCalls(code))
  {
    if code != [] {
      NodeLoopCallsAreCalls(code[0]);
      LoopCallsAreCalls(code[1..]);
    }
  }

  lemma {:induction false} NodeLoopCallsAreCalls(n: Node)
    ensures AllCalls(NodeLoopCalls(n))
  {
    match n
    case FuncLit(body) => LoopCallsAreCalls(body);
    case Call(_, _, _, fun, args) => NodeLoopCallsAreCalls(fun); LoopCallsAreCalls(args);
    case Loop(_, body) => VisibleAreCalls(body);
    case Other(children) => LoopCallsAreCalls(children);
  }

  // ---------------------------------------------------------------------------------------
  // A run of checks with one shared memo
  // ---------------------------------------------------------------------------------------

  datatype Checks = Checks(verdicts: seq<bool>, memo: Memo, walks: seq<Key>)

  function CheckAll(p: Program, m: Memo, calls: seq<Node>): (r: Checks)
    requires AllCalls(calls)
    ensures |r.verdicts| == |calls|
    decreases |calls|
  {
    if calls == [] then Checks([], m, [])
    else
      var first := Search(p, m, {}, CallSteps(calls[0]));
      var rest := CheckAll(p, first.memo, calls[1..]);
      Checks([first.found] + rest.verdicts, rest.memo, first.walks + rest.walks)
  }

  function Reported(calls: seq<Node>, verdicts: seq<bool>): seq<nat>
    requires AllCalls(calls) && |verdicts| == |calls|
  {
    if calls == [] then []
    else (if verdicts[0] then [calls[0].pos] else []) + Reported(calls[1..], verdicts[1..])
  }

  /** Checking `b` after `a` with the memo that `a` leaves. */
  function Then(a: Checks, b: Checks): Checks {
    Checks(a.verdicts + b.verdicts, b.memo, a.walks + b.walks)
  }

  lemma ThenAssociates(a: Checks, b: Checks, c: Checks)
    ensures Then(a, Then(b, c)) == Then(Then(a, b), c)
  {
    assert a.verdicts + (b.verdicts + c.verdicts) == (a.verdicts + b.verdicts) + c.verdicts;
    assert a.walks + (b.walks + c.walks) == (a.walks + b.walks) + c.walks;
  }

  lemma {:induction false} CheckAllJoins(p: Program, m: Memo, a: seq<Node>, b: seq<Node>)
    requires AllCalls(a) && AllCalls(b) && AllCalls(a + b)
    ensures CheckAll(p, m, a + b) == Then(CheckAll(p, m, a), CheckAll(p, CheckAll(p, m, a).memo, b))
    decreases |a|
  {
    if a == [] {
      assert a + b == b;
      var rest := CheckAll(p, m, b);
      assert [] + rest.verdicts == rest.verdicts && [] + rest.walks == rest.walks;
    } else {
      assert (a + b)[0] == a[0] && (a + b)[1..] == a[1..] + b;
      var one := Search(p, m, {}, CallSteps(a[0]));
      var middle := CheckAll(p, one.memo, a[1..]);
      CheckAllJoins(p, one.memo, a[1..], b);
      ThenAssociates(Checks([one.found], one.memo, one.walks), middle, CheckAll(p, middle.memo, b));
    }
  }

  lemma CheckAllAppend(p: Program, m: Memo, a: seq<Node>, b: seq<Node>)
    requires AllCalls(a) && AllCalls(b)
    ensures AllCalls(a + b)
    ensures var first := CheckAll(p, m, a); var rest := CheckAll(p, first.memo, b);
      && CheckAll(p, m, a + b) == Checks(first.verdicts + rest.verdicts, rest.memo, first.walks + rest.walks)
      && Reported(a + b, first.verdicts + rest.verdicts) == Reported(a, first.verdicts) + Reported(b, rest.verdicts)
  {
    var first := CheckAll(p, m, a);
    ReportedAppend(a, first.verdicts, b, CheckAll(p, first.memo, b).verdicts);
    CheckAllJoins(p, m, a, b);
  }

  lemma {:induction false} ReportedAppend(a: seq<Node>, va: seq<bool>, b: seq<Node>, vb: seq<bool>)
    requires AllCalls(a) && AllCalls(b) && |a| == |va| && |b| == |vb|
    ensures AllCalls(a + b)
    ensures Reported(a + b, va + vb) == Reported(a, va) + Reported(b, vb)
  {
    if a == [] {
      assert a + b == b && va + vb == vb;
    } else {
      assert (a + b)[1..] == a[1..] + b && (va + vb)[1..] == va[1..] + vb;
      ReportedAppend(a[1..], va[1..], b, vb);
    }
  }

  /** No declaration body is walked twice in the whole package, whatever the call graph. */
  lemma {:induction false} EachBodyWalkedOnce(p: Program, m: Memo, calls: seq<Node>)
    requires AllCalls(calls)
    ensures var r := CheckAll(p, m, calls);
      Extends(m, {}, Outcome(true, r.memo, r.walks))
    decreases |calls|
  {
    if calls != [] {
      var first := Search(p, m, {}, CallSteps(calls[0]));
      SearchExtends(p, m, {}, CallSteps(calls[0]));
      EachBodyWalkedOnce(p, first.memo, calls[1..]);
      var rest := CheckAll(p, first.memo, calls[1..]);
      ExtendsJoin(m, {}, first, Outcome(true, rest.memo, rest.walks));
    }
  }

  /** Over any sequence of checks: `true` entries of the memo are right, and so are all entries of
      declarations that lead into no call cycle. Nothing is reported that does not reach a query; what
      reaches one is reported unless it may enter a declaration that leads into a call cycle. */
  lemma {:induction false} VerdictsSound(p: Program, m: Memo, calls: seq<Node>)
    requires AllCalls(calls) && Sound(p, m) && AcyclicExact(p, m)
    ensures var r := CheckAll(p, m, calls);
      && Sound(p, r.memo) && AcyclicExact(p, r.memo)
      && forall i :: 0 <= i < |calls| ==>
        && (r.verdicts[i] ==> CallReaches(p, calls[i]))
        && (CallReaches(p, calls[i]) && (forall k :: MayEnter(calls[i], k) ==> !ReachesCycle(p, k)) ==> r.verdicts[i])
    decreases |calls|
  {
    if calls != [] {
      var c := calls[0];
      var first := Search(p, m, {}, CallSteps(c));
      SearchSound(p, m, {}, CallSteps(c));
      SearchAcyclic(p, m, {}, CallSteps(c));
      CallMeaning(p, c);
      VerdictsSound(p, first.memo, calls[1..]);
      assert forall i :: 0 < i < |calls| ==> calls[i] == calls[1..][i - 1];
    }
  }

  /** On any call graph the verdicts are right up to and including the first report. */
  lemma {:induction false} VerdictsExactToFirst(p: Program, m: Memo, calls: seq<Node>, i: nat)
    requires AllCalls(calls) && Exact(p, m) && i < |calls|
    requires forall j :: 0 <= j < i ==> !CheckAll(p, m, calls).verdicts[j]
    ensures CheckAll(p, m, calls).verdicts[i] <==> CallReaches(p, calls[i])
    decreases i
  {
    var first := Search(p, m, {}, CallSteps(calls[0]));
    TopLevelCheck(p, m, calls[0]);
    if i > 0 {
      var verdicts := CheckAll(p, m, calls).verdicts;
      assert !verdicts[0];
      var rest := CheckAll(p, first.memo, calls[1..]).verdicts;
      assert forall j :: 0 <= j < |rest| ==> rest[j] == verdicts[j + 1];
      VerdictsExactToFirst(p, first.memo, calls[1..], i - 1);
    }
  }

  ghost predicate NoCycles(p: Program) {
    forall k :: !Calls(p, k, k)
  }

  /** The positions of the calls that reach a query, in order, each as often as it is checked. */
  ghost function QueryPositions(p: Program, calls: seq<Node>): seq<nat>
    requires AllCalls(calls)
  {
    if calls == [] then []
    else (if CallReaches(p, calls[0]) then [calls[0].pos] else []) + QueryPositions(p, calls[1..])
  }

  lemma {:induction false} ReportedExact(p: Program, calls: seq<Node>, verdicts: seq<bool>)
    requires AllCalls(calls) && |verdicts| == |calls|
    requires forall i :: 0 <= i < |calls| ==> (verdicts[i] <==> CallReaches(p, calls[i]))
    ensures Reported(calls, verdicts) == QueryPositions(p, calls)
  {
    if calls != [] {
      ReportedExact(p, calls[1..], verdicts[1..]);
    }
  }

  lemma {:induction false} NothingReported(calls: seq<Node>, verdicts: seq<bool>)
    requires AllCalls(calls) && |verdicts| == |calls|
    ensures Reported(calls, verdicts) == [] <==> forall i :: 0 <= i < |calls| ==> !verdicts[i]
  {
    if calls != [] {
      NothingReported(calls[1..], verdicts[1..]);
      assert forall i :: 0 < i < |calls| ==> verdicts[i] == verdicts[1..][i - 1];
    }
  }

  /** The reports for a package with these files. */
  function LintReports(p: Program, files: seq<Node>): seq<nat> {
    LoopCallsAreCalls(files);
    Reported(LoopCalls(files), CheckAll(p, map[], LoopCalls(files)).verdicts)
  }

  /** Without call cycles the reports are exactly the query-reaching calls of outermost loop
      bodies, in source order, each once. */
  lemma ReportsExactWithoutCycles(p: Program, files: seq<Node>)
    requires NoCycles(p)
    ensures AllCalls(LoopCalls(files))
    ensures LintReports(p, files) == QueryPositions(p, LoopCalls(files))
  {
    LoopCallsAreCalls(files);
    VerdictsSound(p, map[], LoopCalls(files));
    ReportedExact(p, LoopCalls(files), CheckAll(p, map[], LoopCalls(files)).verdicts);
  }

  ghost predicate NoneReaches(p: Program, calls: seq<Node>) {
    forall i :: 0 <= i < |calls| ==> !CallReaches(p, calls[i])
  }

  lemma SilentOn(p: Program, calls: seq<Node>)
    requires AllCalls(calls)
    ensures Reported(calls, CheckAll(p, map[], calls).verdicts) == [] <==> NoneReaches(p, calls)
  {
    var verdicts := CheckAll(p, map[], calls).verdicts;
    NothingReported(calls, verdicts);
    VerdictsSound(p, map[], calls);
    if forall i :: 0 <= i < |calls| ==> !verdicts[i] {
      forall i | 0 <= i < |calls|
        ensures !CallReaches(p, calls[i])
      {
        VerdictsExactToFirst(p, map[], calls, i);
      }
    } else {
      var i :| 0 <= i < |calls| && verdicts[i];
      assert CallReaches(p, calls[i]);
    }
  }

  /** On any call graph the linter stays silent exactly when no checked call reaches a query. */
  lemma SilentExactly(p: Program, files: seq<Node>)
    ensures LintReports(p, files) == [] <==> NoneReaches(p, LoopCalls(files))
  {
    LoopCallsAreCalls(files);
    SilentOn(p, LoopCalls(files));
  }

  // ---------------------------------------------------------------------------------------
  // With a cycle, a call that reaches a query can go unreported
  // ---------------------------------------------------------------------------------------

  function PlainCall(pos: nat, k: Key): Node {
    Call(pos, false, [k], Other([]), [])
  }

  function QueryCall(pos: nat): Node {
    Call(pos, true, [], Other([]), [])
  }

  /** `A` calls `B` and then runs a query; `B` calls `A`. */
  const MUTUAL_RECURSION: Program := map["A" := [PlainCall(1, "B"), QueryCall(2)], "B" := [PlainCall(3, "A")]]

  /** The search from `A` meets `B` while `A` is on the stack, and stores `false` for it. */
  lemma SearchFromA()
    ensures var r := SearchDecl(MUTUAL_RECURSION, map[], {}, "A");
      r.found && r.memo == map["B" := false, "A" := true]
  {
    var p := MUTUAL_RECURSION;
    assert Steps(p["B"]) == [Enter("A")];
    assert Steps(p["A"]) == [Enter("B"), Query];
    assert [Enter("A")][1..] == [] && [Enter("B"), Query][1..] == [Query];
    assert SearchDecl(p, map[], {"A"} + {"B"}, "A") == Outcome(false, map[], []);
    assert Search(p, map[], {"A"} + {"B"}, [Enter("A")]) == Outcome(false, map[], []);
    assert {"A"} == {} + {"A"} && "B" in p && "B" !in {"A"};
    assert SearchDecl(p, map[], {} + {"A"}, "B").memo == map[]["B" := false];
  }

  lemma BReachesTheQuery()
    ensures DeclReaches(MUTUAL_RECURSION, "B")
  {
    var p := MUTUAL_RECURSION;
    assert Executed(p["B"][0], PlainCall(3, "A")) && Enters(PlainCall(3, "A"), "A");
    assert ExecutedIn(p["B"], PlainCall(3, "A"));
    assert Executed(p["A"][1], QueryCall(2));
    assert ExecutedIn(p["A"], QueryCall(2));
    assert QueryPath(p, p["A"], []);
    assert ["A"][1..] == [];
    assert QueryPath(p, p["B"], ["A"]);
  }

  lemma LoopOfTwo(a: nat, k: Key, b: nat, l: Key)
    ensures LoopCalls([Loop([], [PlainCall(a, k), PlainCall(b, l)])]) == [PlainCall(a, k), PlainCall(b, l)]
  {
    var one, two := PlainCall(a, k), PlainCall(b, l);
    assert NodeVisibleCalls(one) == [one] && NodeVisibleCalls(two) == [two];
    assert [one, two][1..] == [two] && [two][1..] == [];
    assert VisibleCalls([two]) == [two];
    assert [Loop([], [one, two])][1..] == [];
  }

  /** The second check finds `false` for `B` in the memo. */
  lemma BIsForgotten()
    ensures var first := Search(MUTUAL_RECURSION, map[], {}, CallSteps(PlainCall(10, "A")));
      first.found && !Search(MUTUAL_RECURSION, first.memo, {}, CallSteps(PlainCall(11, "B"))).found
  {
    SearchFromA();
    assert CallSteps(PlainCall(10, "A")) == [Enter("A")];
    assert CallSteps(PlainCall(11, "B")) == [Enter("B")];
    assert [Enter("B")][1..] == [];
    assert "B" in MUTUAL_RECURSION;
  }

  lemma TwoChecks(p: Program, m: Memo, a: Node, b: Node)
    requires a.Call? && b.Call?
    ensures var first := Search(p, m, {}, CallSteps(a));
      CheckAll(p, m, [a, b]).verdicts == [first.found, Search(p, first.memo, {}, CallSteps(b)).found]
  {
    var first := Search(p, m, {}, CallSteps(a));
    assert [a, b][1..] == [b] && [b][1..] == [];
    assert CheckAll(p, first.memo, [b]).verdicts == [Search(p, first.memo, {}, CallSteps(b)).found];
  }

  /** A loop over `A()` and then `B()`: both reach the query, only the first is reported. */
  lemma CycleHidesACall()
    ensures var file := [Loop([], [PlainCall(10, "A"), PlainCall(11, "B")])];
      && LintReports(MUTUAL_RECURSION, file) == [10]
      && LoopCalls(file) == [PlainCall(10, "A"), PlainCall(11, "B")]
      && CallReaches(MUTUAL_RECURSION, PlainCall(11, "B"))
  {
    var callA, callB := PlainCall(10, "A"), PlainCall(11, "B");
    LoopOfTwo(10, "A", 11, "B");
    BIsForgotten();
    BReachesTheQuery();
    TwoChecks(MUTUAL_RECURSION, map[], callA, callB);
    assert [callA, callB][1..] == [callB] && [true, false][1..] == [false];
    assert Reported([callB], [false]) == [];
  }

  // ---------------------------------------------------------------------------------------
  // The linter
  // ---------------------------------------------------------------------------------------

  method Run(program: Program, files: seq<Node>) returns (reports: seq<nat>)
    ensures reports == LintReports(program, files)
  {
    var state := new CallGraphState(program);
    LoopCallsAreCalls(files);
    reports := InspectAll(state, files);
  }

  /** The reports and the new state after checking `calls`. */
  ghost predicate Checked(state: CallGraphState, m: Memo, calls: seq<Node>, reports: seq<nat>)
    reads state
  {
    AllCalls(calls) && state.visiting == {} &&
    var r := CheckAll(state.program, m, calls);
    state.memo == r.memo && reports == Reported(calls, r.verdicts)
  }

  method InspectAll(state: CallGraphState, code: seq<Node>) returns (reports: seq<nat>)
    requires state.visiting == {}
    modifies state
    ensures Checked(state, old(state.memo), LoopCalls(code), reports)
    decreases code
  {
    if code == [] {
      return [];
    }
    LoopCallsAreCalls(code[1..]);
    NodeLoopCallsAreCalls(code[0]);
    CheckAllAppend(state.program, state.memo, NodeLoopCalls(code[0]), LoopCalls(code[1..]));
    var first := Inspect(state, code[0]);
    var rest := InspectAll(state, code[1..]);
    reports := first + rest;
  }

  method Inspect(state: CallGraphState, n: Node) returns (reports: seq<nat>)
    requires state.visiting == {}
    modifies state
    ensures Checked(state, old(state.memo), NodeLoopCalls(n), reports)
    decreases n
  {
    match n
    case FuncLit(body) =>
      reports := InspectAll(state, body);
    case Call(_, _, _, fun, args) =>
      NodeLoopCallsAreCalls(fun);
      LoopCallsAreCalls(args);
      CheckAllAppend(state.program, state.memo, NodeLoopCalls(fun), LoopCalls(args));
      var first := Inspect(state, fun);
      var rest := InspectAll(state, args);
      reports := first + rest;
    case Loop(_, body) =>
      reports := ReportAll(state, body);
    case Other(children) =>
      reports := InspectAll(state, children);
  }

  method ReportAll(state: CallGraphState, code: seq<Node>) returns (reports: seq<nat>)
    requires state.visiting == {}
    modifies state
    ensures Checked(state, old(state.memo), VisibleCalls(code), reports)
    decreases code
  {
    if code == [] {
      return [];
    }
    VisibleAreCalls(code[1..]);
    NodeVisibleAreCalls(code[0]);
    CheckAllAppend(state.program, state.memo, NodeVisibleCalls(code[0]), VisibleCalls(code[1..]));
    var first := ReportLoopQueries(state, code[0]);
    var rest := ReportAll(state, code[1..]);
    reports := first + rest;
  }

  method ReportLoopQueries(state: CallGraphState, n: Node) returns (reports: seq<nat>)
    requires state.visiting == {}
    modifies state
    ensures Checked(state, old(state.memo), NodeVisibleCalls(n), reports)
    decreases n
  {
    match n
    case FuncLit(_) =>
      reports := [];
    case Call(pos, _, _, fun, args) =>
      NodeVisibleAreCalls(fun);
      VisibleAreCalls(args);
      ghost var inner := NodeVisibleCalls(fun) + VisibleCalls(args);
      ghost var m := Search(state.program, state.memo, {}, CallSteps(n)).memo;
      CheckAllAppend(state.program, m, NodeVisibleCalls(fun), VisibleCalls(args));
      CheckAllAppend(state.program, state.memo, [n], inner);
      var found := state.CallExecutesQuery(n);
      var first := ReportLoopQueries(state, fun);
      var rest := ReportAll(state, args);
      reports := (if found then [pos] else []) + (first + rest);
    case Loop(header, body) =>
      VisibleAreCalls(header);
      VisibleAreCalls(body);
      CheckAllAppend(state.program, state.memo, VisibleCalls(header), VisibleCalls(body));
      var first := ReportAll(state, header);
      var rest := ReportAll(state, body);
      reports := first + rest;
    case Other(children) =>
      reports := ReportAll(state, children);
  }
}
