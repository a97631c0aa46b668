/**
 Tarjan's strongly connected components of the call graph
 (crates/codegen/src/module_analysis.rs).
 */
module CallGraphs {
  import opened Graphs

  type FuncRef = Node
  type SccRef = nat

  /** `funcs` lists the keys of the call graph, `callees` its edges. */
  datatype CallGraph = CallGraph(funcs: seq<FuncRef>, callees: Adj)

  datatype SccInfo = SccInfo(isCycle: bool, components: set<FuncRef>)

  /** Present in the node table once visited. */
  datatype NodeState = NodeState(index: nat, lowlink: nat, onStack: bool)

  type Nodes = map<FuncRef, NodeState>

  /** The fields of the builder. */
  datatype State = State(
    sccMap: map<FuncRef, SccRef>,
    sccStore: seq<SccInfo>,
    stack: seq<FuncRef>,
    nodes: Nodes,
    nextIndex: nat)

  ghost predicate Idx(nodes: Nodes, v: FuncRef, w: FuncRef) {
    v in nodes && w in nodes && nodes[v].index <= nodes[w].index
  }

  // ----- the invariant; `gray` are the functions whose visit is in progress

  /** From `y` one gets to a visit in progress that started no later. */
  ghost predicate BackToGray(a: Adj, gray: set<FuncRef>, nodes: Nodes, y: FuncRef) {
    exists x :: x in gray && Idx(nodes, x, y) && Reach(a, y, x)
  }

  ghost predicate ReachesLater(a: Adj, nodes: Nodes, x: FuncRef, y: FuncRef) {
    Idx(nodes, x, y) ==> Reach(a, x, y)
  }

  ghost predicate CalleesVisited(a: Adj, nodes: Nodes, v: FuncRef) {
    forall w :: w in Out(a, v) ==> w in nodes
  }

  ghost predicate CalleesAssigned(a: Adj, m: map<FuncRef, SccRef>, v: FuncRef) {
    v in m && forall w :: w in Out(a, v) ==> w in m && m[w] <= m[v]
  }

  ghost predicate InfoOk(a: Adj, m: map<FuncRef, SccRef>, info: SccInfo, s: SccRef) {
    && info.components != {}
    && (forall v :: v in info.components <==> v in m && m[v] == s)
    && (info.isCycle <==> exists v :: v in info.components && OnCycle(a, v))
  }

  /** The stack holds the visited, unassigned functions in the order of their visits. */
  ghost predicate StackOk(nodes: Nodes, stack: seq<FuncRef>, nextIndex: nat) {
    && (forall v :: v in stack <==> v in nodes && nodes[v].onStack)
    && (forall i :: 0 <= i < |stack| ==> stack[i] in nodes && nodes[stack[i]].index < nextIndex)
    && (forall i, j :: 0 <= i < j < |stack| ==> nodes[stack[i]].index < nodes[stack[j]].index)
  }

  /** The finished components. */
  ghost predicate AssignedOk(a: Adj, m: map<FuncRef, SccRef>, store: seq<SccInfo>) {
    && (forall v :: v in m ==> m[v] < |store|)
    && (forall v {:trigger CalleesAssigned(a, m, v)} :: v in m ==> CalleesAssigned(a, m, v))
    && (forall v, w {:trigger SameIffMutual(a, m, v, w)} :: v in m && w in m ==> SameIffMutual(a, m, v, w))
    && (forall s {:trigger InfoOk(a, m, store[s], s)} :: 0 <= s < |store| ==> InfoOk(a, m, store[s], s))
  }

  ghost predicate GrayOk(a: Adj, gray: set<FuncRef>, nodes: Nodes, stack: seq<FuncRef>) {
    && (forall x :: x in gray ==> x in stack)
    && (forall y {:trigger BackToGray(a, gray, nodes, y)} :: y in stack ==> BackToGray(a, gray, nodes, y))
    && (forall x, y {:trigger ReachesLater(a, nodes, x, y)} :: x in gray && y in stack ==> ReachesLater(a, nodes, x, y))
    && (forall v {:trigger CalleesVisited(a, nodes, v)} :: v in nodes && v !in gray ==> CalleesVisited(a, nodes, v))
  }

  ghost predicate Inv(a: Adj, gray: set<FuncRef>, s: State) {
    && StackOk(s.nodes, s.stack, s.nextIndex)
    && AssignedOk(a, s.sccMap, s.sccStore)
    && GrayOk(a, gray, s.nodes, s.stack)
    && (forall v :: v in s.sccMap <==> v in s.nodes && !s.nodes[v].onStack)
  }

  /** Nothing the caller of a visit relies on has changed. */
  ghost predicate Extends(s0: State, s: State) {
    && (forall v :: v in s0.nodes ==> v in s.nodes && s.nodes[v] == s0.nodes[v])
    && (forall v :: v in s.nodes && v !in s0.nodes ==> s.nodes[v].index >= s0.nextIndex)
    && s0.nextIndex <= s.nextIndex
    && |s0.stack| <= |s.stack| && s.stack[..|s0.stack|] == s0.stack
  }

  ghost predicate OnStackFrom(nodes: Nodes, i0: nat, x: FuncRef) {
    x in nodes && nodes[x].onStack && nodes[x].index >= i0
  }

  ghost predicate OnStackBelow(nodes: Nodes, i0: nat, y: FuncRef) {
    y in nodes && nodes[y].onStack && nodes[y].index < i0
  }

  /** Calls from `x` to stack entries older than index `i0` are accounted for in `low`. */
  ghost predicate LowBound(a: Adj, nodes: Nodes, i0: nat, low: nat, x: FuncRef) {
    forall y :: y in Out(a, x) && OnStackBelow(nodes, i0, y) ==> low <= nodes[y].index
  }

  /** A low link smaller than the own index is that of an older stack entry within reach. */
  ghost predicate LowWitness(a: Adj, nodes: Nodes, low: nat, f: FuncRef) {
    exists y :: y in nodes && nodes[y].onStack && nodes[y].index == low && Reach(a, f, y)
  }

  /** What a completed visit of `f` leaves behind. */
  ghost predicate Visited(a: Adj, nodes: Nodes, f: FuncRef) {
    && f in nodes
    && (!nodes[f].onStack ==> nodes[f].lowlink == nodes[f].index)
    && (nodes[f].onStack ==> nodes[f].lowlink < nodes[f].index && LowWitness(a, nodes, nodes[f].lowlink, f))
    && (forall x {:trigger LowBound(a, nodes, nodes[f].index, nodes[f].lowlink, x)} ::
          OnStackFrom(nodes, nodes[f].index, x) ==> LowBound(a, nodes, nodes[f].index, nodes[f].lowlink, x))
  }

  /** The visit of `f` has dealt with the callees `done`. */
  ghost predicate Visiting(a: Adj, gray: set<FuncRef>, s: State, f: FuncRef, done: seq<FuncRef>) {
    && f !in gray && Inv(a, gray + {f}, s)
    && f in s.nodes && s.nodes[f].onStack
    && (forall x :: x in gray ==> x in s.nodes && s.nodes[x].index < s.nodes[f].index)
    && s.nodes[f].lowlink <= s.nodes[f].index
    && (s.nodes[f].lowlink < s.nodes[f].index ==> LowWitness(a, s.nodes, s.nodes[f].lowlink, f))
    && (forall x {:trigger LowBound(a, s.nodes, s.nodes[f].index, s.nodes[f].lowlink, x)} ::
          OnStackFrom(s.nodes, s.nodes[f].index + 1, x) ==> LowBound(a, s.nodes, s.nodes[f].index, s.nodes[f].lowlink, x))
    && (forall c :: c in done ==> c in s.nodes)
    && (forall c :: c in done && OnStackBelow(s.nodes, s.nodes[f].index, c) ==> s.nodes[f].lowlink <= s.nodes[c].index)
  }

  // ----- steps of a visit

  function Push(s: State, f: FuncRef): State {
    s.(stack := s.stack + [f], nodes := s.nodes[f := NodeState(s.nextIndex, s.nextIndex, true)], nextIndex := s.nextIndex + 1)
  }

  function SetLow(s: State, f: FuncRef, low: nat): State
    requires f in s.nodes
  {
    s.(nodes := s.nodes[f := s.nodes[f].(lowlink := low)])
  }

  lemma PushGray(a: Adj, gray: set<FuncRef>, s: State, f: FuncRef)
    requires Inv(a, gray, s) && f !in s.nodes && forall x :: x in gray ==> Reach(a, x, f)
    ensures GrayOk(a, gray + {f}, Push(s, f).nodes, Push(s, f).stack)
  {
    hide AssignedOk;
    var s' := Push(s, f);
    ReachRefl(a, f);
    hide Reach;
    forall y | y in s'.stack ensures BackToGray(a, gray + {f}, s'.nodes, y) {
      if y == f {
        assert Idx(s'.nodes, f, f);
      } else {
        assert BackToGray(a, gray, s.nodes, y);
        var x :| x in gray && Idx(s.nodes, x, y) && Reach(a, y, x);
        assert Idx(s'.nodes, x, y);
      }
    }
    forall x, y | x in gray + {f} && y in s'.stack ensures ReachesLater(a, s'.nodes, x, y) {
      if x in gray && y != f { assert ReachesLater(a, s.nodes, x, y); }
    }
    forall v | v in s'.nodes && v !in gray + {f} ensures CalleesVisited(a, s'.nodes, v) {
      assert CalleesVisited(a, s.nodes, v);
    }
  }

  lemma PushStack(s: State, f: FuncRef)
    requires StackOk(s.nodes, s.stack, s.nextIndex) && f !in s.nodes
    ensures StackOk(Push(s, f).nodes, Push(s, f).stack, Push(s, f).nextIndex)
  {
    assert f !in s.stack;
  }

  lemma PushExtends(s: State, f: FuncRef)
    requires f !in s.nodes
    ensures Extends(s, Push(s, f))
  {
  }

  lemma NothingAboveTop(s: State, f: FuncRef, x: FuncRef)
    requires StackOk(s.nodes, s.stack, s.nextIndex)
    ensures !OnStackFrom(Push(s, f).nodes, s.nextIndex + 1, x)
  {
    if x in s.nodes && s.nodes[x].onStack { assert x in s.stack; }
  }

  lemma PushKeeps(a: Adj, gray: set<FuncRef>, s: State, f: FuncRef)
    requires Inv(a, gray, s) && f !in s.nodes && forall x :: x in gray ==> Reach(a, x, f)
    ensures Visiting(a, gray, Push(s, f), f, []) && Extends(s, Push(s, f))
  {
    hide Reach, AssignedOk, GrayOk, StackOk, Extends, OnStackFrom, LowBound;
    PushGray(a, gray, s, f);
    PushStack(s, f);
    PushExtends(s, f);
    GrayParts(a, gray, s);
    var s' := Push(s, f);
    var i1 := s.nextIndex + 1;
    forall x ensures !OnStackFrom(s'.nodes, i1, x) {
      NothingAboveTop(s, f, x);
    }
  }

  lemma GrayParts(a: Adj, gray: set<FuncRef>, s: State)
    requires Inv(a, gray, s)
    ensures forall x :: x in gray ==> x in s.stack && x in s.nodes && s.nodes[x].onStack && s.nodes[x].index < s.nextIndex
  {
  }

  function Min(x: nat, y: nat): nat {
    if x <= y then x else y
  }

  lemma SetLowBack(a: Adj, gray: set<FuncRef>, s: State, f: FuncRef, low: nat, y: FuncRef)
    requires f in s.nodes && BackToGray(a, gray, s.nodes, y)
    ensures BackToGray(a, gray, SetLow(s, f, low).nodes, y)
  {
    hide Reach;
    var x :| x in gray && Idx(s.nodes, x, y) && Reach(a, y, x);
    assert Idx(SetLow(s, f, low).nodes, x, y);
  }

  lemma SetLowGray(a: Adj, gray: set<FuncRef>, s: State, f: FuncRef, low: nat)
    requires GrayOk(a, gray, s.nodes, s.stack) && f in s.nodes
    ensures GrayOk(a, gray, SetLow(s, f, low).nodes, s.stack)
  {
    hide Reach, BackToGray;
    var s' := SetLow(s, f, low);
    forall y | y in s.stack ensures BackToGray(a, gray, s'.nodes, y) {
      assert BackToGray(a, gray, s.nodes, y);
      SetLowBack(a, gray, s, f, low, y);
    }
    forall x, y | x in gray && y in s.stack ensures ReachesLater(a, s'.nodes, x, y) {
      assert ReachesLater(a, s.nodes, x, y);
    }
    forall v | v in s'.nodes && v !in gray ensures CalleesVisited(a, s'.nodes, v) {
      assert CalleesVisited(a, s.nodes, v);
    }
  }

  lemma SetLowStack(s: State, f: FuncRef, low: nat)
    requires StackOk(s.nodes, s.stack, s.nextIndex) && f in s.nodes
    ensures StackOk(SetLow(s, f, low).nodes, s.stack, s.nextIndex)
  {
  }

  /** Low links play no part in the invariant. */
  lemma SetLowKeeps(a: Adj, gray: set<FuncRef>, s: State, f: FuncRef, low: nat)
    requires Inv(a, gray, s) && f in s.nodes
    ensures Inv(a, gray, SetLow(s, f, low))
  {
    hide Reach, AssignedOk, GrayOk, StackOk;
    SetLowGray(a, gray, s, f, low);
    SetLowStack(s, f, low);
  }

  lemma SetLowWitness(a: Adj, s: State, f: FuncRef, low: nat)
    requires f in s.nodes && LowWitness(a, s.nodes, low, f)
    ensures LowWitness(a, SetLow(s, f, low).nodes, low, f)
  {
    hide Reach;
    var y :| y in s.nodes && s.nodes[y].onStack && s.nodes[y].index == low && Reach(a, f, y);
    assert y in SetLow(s, f, low).nodes;
  }

  lemma SetLowBound(a: Adj, s: State, f: FuncRef, low: nat, i0: nat, old_: nat, x: FuncRef)
    requires f in s.nodes && low <= old_ && LowBound(a, s.nodes, i0, old_, x)
    ensures LowBound(a, SetLow(s, f, low).nodes, i0, low, x)
  {
    var s' := SetLow(s, f, low);
    forall y | y in Out(a, x) && OnStackBelow(s'.nodes, i0, y) ensures low <= s'.nodes[y].index {
      assert OnStackBelow(s.nodes, i0, y);
    }
  }

  /** The new low link after a callee that is already visited and on the stack. */
  lemma StackedCallee(a: Adj, gray: set<FuncRef>, s: State, f: FuncRef, done: seq<FuncRef>, c: FuncRef)
    requires Visiting(a, gray, s, f, done) && Edge(a, f, c)
    requires c in s.nodes && s.nodes[c].onStack
    ensures Visiting(a, gray, SetLow(s, f, Min(s.nodes[f].lowlink, s.nodes[c].index)), f, done + [c])
  {
    hide Reach, Inv;
    var low0 := s.nodes[f].lowlink;
    var low := Min(low0, s.nodes[c].index);
    SetLowKeeps(a, gray + {f}, s, f, low);
    ReachEdge(a, f, c);
    if low < s.nodes[f].index {
      assert LowWitness(a, s.nodes, low, f) by {
        if low < low0 { assert s.nodes[c].index == low; }
      }
      SetLowWitness(a, s, f, low);
    }
    var s' := SetLow(s, f, low);
    forall x | OnStackFrom(s'.nodes, s'.nodes[f].index + 1, x) ensures LowBound(a, s'.nodes, s'.nodes[f].index, low, x) {
      assert OnStackFrom(s.nodes, s.nodes[f].index + 1, x);
      assert LowBound(a, s.nodes, s.nodes[f].index, low0, x);
      SetLowBound(a, s, f, low, s.nodes[f].index, low0, x);
    }
    forall d | d in done + [c] ensures d in s'.nodes {}
    forall d | d in done + [c] && OnStackBelow(s'.nodes, s'.nodes[f].index, d) ensures low <= s'.nodes[d].index {
      assert d in done ==> OnStackBelow(s.nodes, s.nodes[f].index, d);
    }
  }

  /** A callee whose component is already assigned changes nothing. */
  lemma AssignedCallee(a: Adj, gray: set<FuncRef>, s: State, f: FuncRef, done: seq<FuncRef>, c: FuncRef)
    requires Visiting(a, gray, s, f, done)
    requires c in s.nodes && !s.nodes[c].onStack
    ensures Visiting(a, gray, s, f, done + [c])
  {
    hide Reach, Inv;
  }

  /** Calls of an entry that was on the stack before the recursive visit. */
  lemma OldLowBound(a: Adj, s1: State, s: State, i0: nat, low: nat, x: FuncRef)
    requires Extends(s1, s) && i0 < s1.nextIndex && LowBound(a, s1.nodes, i0, low, x)
    ensures LowBound(a, s.nodes, i0, low, x)
  {
    forall y | y in Out(a, x) && OnStackBelow(s.nodes, i0, y) ensures low <= s.nodes[y].index {
      assert OnStackBelow(s1.nodes, i0, y);
    }
  }

  /** Calls of an entry that the recursive visit left on the stack. */
  lemma NewLowBound(a: Adj, s: State, c: FuncRef, i0: nat, x: FuncRef)
    requires Visited(a, s.nodes, c) && i0 <= s.nodes[c].index && OnStackFrom(s.nodes, s.nodes[c].index, x)
    ensures LowBound(a, s.nodes, i0, s.nodes[c].lowlink, x)
  {
    assert LowBound(a, s.nodes, s.nodes[c].index, s.nodes[c].lowlink, x);
    forall y | y in Out(a, x) && OnStackBelow(s.nodes, i0, y) ensures s.nodes[c].lowlink <= s.nodes[y].index {
      assert OnStackBelow(s.nodes, s.nodes[c].index, y);
    }
  }

  /** The new low link after a recursive visit of `c`. */
  lemma RecursiveCallee(a: Adj, gray: set<FuncRef>, s1: State, s: State, f: FuncRef, done: seq<FuncRef>, c: FuncRef)
    requires Visiting(a, gray, s1, f, done) && Edge(a, f, c) && c !in s1.nodes
    requires Inv(a, gray + {f}, s) && Extends(s1, s) && Visited(a, s.nodes, c) && s1.nodes[f].index < s1.nextIndex
    requires s.nodes[c].index == s1.nextIndex
    ensures f in s.nodes
    ensures Visiting(a, gray, SetLow(s, f, Min(s.nodes[f].lowlink, s.nodes[c].lowlink)), f, done + [c])
  {
    hide Reach, Inv;
    var i0, low0 := s1.nodes[f].index, s1.nodes[f].lowlink;
    assert s.nodes[f] == s1.nodes[f];
    var low := Min(low0, s.nodes[c].lowlink);
    SetLowKeeps(a, gray + {f}, s, f, low);
    if low < i0 {
      LowWitnessAfter(a, s1, s, f, c, low);
      SetLowWitness(a, s, f, low);
    }
    var s' := SetLow(s, f, low);
    forall x | OnStackFrom(s'.nodes, i0 + 1, x) ensures LowBound(a, s'.nodes, i0, low, x) {
      if x in s1.nodes {
        assert OnStackFrom(s1.nodes, i0 + 1, x);
        OldLowBound(a, s1, s, i0, low0, x);
        SetLowBound(a, s, f, low, i0, low0, x);
      } else {
        NewLowBound(a, s, c, i0, x);
        SetLowBound(a, s, f, low, i0, s.nodes[c].lowlink, x);
      }
    }
    forall d | d in done + [c] ensures d in s'.nodes {}
    forall d | d in done + [c] && OnStackBelow(s'.nodes, i0, d) ensures low <= s'.nodes[d].index {
      assert d in done ==> d in s1.nodes && OnStackBelow(s1.nodes, i0, d);
    }
  }

  lemma LowWitnessAfter(a: Adj, s1: State, s: State, f: FuncRef, c: FuncRef, low: nat)
    requires Extends(s1, s) && f in s1.nodes && Visited(a, s.nodes, c) && Edge(a, f, c)
    requires low == Min(s1.nodes[f].lowlink, s.nodes[c].lowlink) && low < s1.nodes[f].index < s.nodes[c].index
    requires s1.nodes[f].lowlink < s1.nodes[f].index ==> LowWitness(a, s1.nodes, s1.nodes[f].lowlink, f)
    ensures LowWitness(a, s.nodes, low, f)
  {
    hide Reach;
    if low == s1.nodes[f].lowlink {
      var y :| y in s1.nodes && s1.nodes[y].onStack && s1.nodes[y].index == low && Reach(a, f, y);
      assert y in s.nodes;
    } else {
      var y :| y in s.nodes && s.nodes[y].onStack && s.nodes[y].index == s.nodes[c].lowlink && Reach(a, c, y);
      ReachCons(a, f, c, y);
    }
  }

  // ----- the end of a visit

  /** The visit ends with `f` left on the stack for an older visit to collect. */
  lemma LeaveOnStack(a: Adj, gray: set<FuncRef>, s: State, f: FuncRef)
    requires Visiting(a, gray, s, f, Out(a, f)) && s.nodes[f].lowlink != s.nodes[f].index
    ensures Inv(a, gray, s) && Visited(a, s.nodes, f)
  {
    LeaveGray(a, gray, s, f);
    LeaveVisited(a, gray, s, f);
    hide GrayOk, AssignedOk, StackOk;
  }

  lemma LeaveVisited(a: Adj, gray: set<FuncRef>, s: State, f: FuncRef)
    requires Visiting(a, gray, s, f, Out(a, f)) && s.nodes[f].lowlink != s.nodes[f].index
    ensures Visited(a, s.nodes, f)
  {
    hide Reach, Inv;
    IndexUnique(a, gray, s, f);
    forall x | OnStackFrom(s.nodes, s.nodes[f].index, x)
      ensures LowBound(a, s.nodes, s.nodes[f].index, s.nodes[f].lowlink, x)
    {
      if x != f { assert OnStackFrom(s.nodes, s.nodes[f].index + 1, x); }
    }
  }

  lemma IndexUnique(a: Adj, gray: set<FuncRef>, s: State, f: FuncRef)
    requires Inv(a, gray + {f}, s) && f in s.nodes && s.nodes[f].onStack
    ensures forall x :: x in s.nodes && s.nodes[x].onStack && s.nodes[x].index == s.nodes[f].index ==> x == f
  {
    hide AssignedOk, GrayOk;
    forall x | x in s.nodes && s.nodes[x].onStack && s.nodes[x].index == s.nodes[f].index ensures x == f {
      assert x in s.stack && f in s.stack;
    }
  }

  lemma LeaveGray(a: Adj, gray: set<FuncRef>, s: State, f: FuncRef)
    requires Visiting(a, gray, s, f, Out(a, f)) && s.nodes[f].lowlink != s.nodes[f].index
    ensures GrayOk(a, gray, s.nodes, s.stack)
  {
    hide Reach, AssignedOk, BackToGray, LowWitness, LowBound;
    var x0 := OlderGray(a, gray, s, f);
    forall y | y in s.stack ensures BackToGray(a, gray, s.nodes, y) {
      assert BackToGray(a, gray + {f}, s.nodes, y);
      WithoutTop(a, gray, s.nodes, f, x0, y);
    }
    forall x, y | x in gray && y in s.stack ensures ReachesLater(a, s.nodes, x, y) {
      assert ReachesLater(a, s.nodes, x, y);
    }
    forall v | v in s.nodes && v !in gray ensures CalleesVisited(a, s.nodes, v) {
      if v != f { assert CalleesVisited(a, s.nodes, v); }
    }
  }

  lemma WithoutTop(a: Adj, gray: set<FuncRef>, nodes: Nodes, f: FuncRef, x0: FuncRef, y: FuncRef)
    requires BackToGray(a, gray + {f}, nodes, y) && x0 in gray && Idx(nodes, x0, f) && Reach(a, f, x0)
    ensures BackToGray(a, gray, nodes, y)
  {
    hide Reach;
    var x :| x in gray + {f} && Idx(nodes, x, y) && Reach(a, y, x);
    if x == f {
      ReachTrans(a, y, f, x0);
      assert Idx(nodes, x0, y);
    }
  }

  /** A low link below the own index leads to an older visit in progress. */
  lemma OlderGray(a: Adj, gray: set<FuncRef>, s: State, f: FuncRef) returns (x0: FuncRef)
    requires GrayOk(a, gray + {f}, s.nodes, s.stack) && f in s.nodes
    requires forall v :: v in s.stack <==> v in s.nodes && s.nodes[v].onStack
    requires s.nodes[f].lowlink < s.nodes[f].index && LowWitness(a, s.nodes, s.nodes[f].lowlink, f)
    ensures x0 in gray && Idx(s.nodes, x0, f) && Reach(a, f, x0)
  {
    hide Reach;
    var y0 :| y0 in s.nodes && s.nodes[y0].onStack && s.nodes[y0].index == s.nodes[f].lowlink && Reach(a, f, y0);
    assert BackToGray(a, gray + {f}, s.nodes, y0);
    x0 :| x0 in gray + {f} && Idx(s.nodes, x0, y0) && Reach(a, y0, x0);
    ReachTrans(a, f, y0, x0);
  }

  /** The functions popped together with `f`. */
  ghost predicate InComponent(nodes: Nodes, f: FuncRef, v: FuncRef) {
    f in nodes && OnStackFrom(nodes, nodes[f].index, v)
  }

  function Unstack(nodes: Nodes, n: set<FuncRef>): Nodes {
    map v | v in nodes :: if v in n then nodes[v].(onStack := false) else nodes[v]
  }

  /** Every popped function and `f` reach each other. */
  lemma ComponentMutual(a: Adj, gray: set<FuncRef>, s: State, f: FuncRef, v: FuncRef)
    requires Visiting(a, gray, s, f, Out(a, f)) && InComponent(s.nodes, f, v)
    ensures Mutual(a, v, f)
  {
    hide Reach, AssignedOk, LowBound;
    assert v in s.stack && f in s.stack;
    assert ReachesLater(a, s.nodes, f, v) && Idx(s.nodes, f, v);
    assert BackToGray(a, gray + {f}, s.nodes, v);
    var x :| x in gray + {f} && Idx(s.nodes, x, v) && Reach(a, v, x);
    if x != f {
      assert ReachesLater(a, s.nodes, x, f) && Idx(s.nodes, x, f);
      ReachTrans(a, v, x, f);
    }
  }

  /** A popped function calls only popped and already assigned functions. */
  lemma ComponentCalls(a: Adj, gray: set<FuncRef>, s: State, f: FuncRef, v: FuncRef, w: FuncRef)
    requires Visiting(a, gray, s, f, Out(a, f)) && s.nodes[f].lowlink == s.nodes[f].index
    requires InComponent(s.nodes, f, v) && w in Out(a, v)
    ensures InComponent(s.nodes, f, w) || w in s.sccMap
  {
    hide Reach, AssignedOk, BackToGray, ReachesLater;
    IndexUnique(a, gray, s, f);
    if v != f {
      assert CalleesVisited(a, s.nodes, v);
      assert OnStackFrom(s.nodes, s.nodes[f].index + 1, v);
      assert LowBound(a, s.nodes, s.nodes[f].index, s.nodes[f].lowlink, v);
    }
    assert !OnStackBelow(s.nodes, s.nodes[f].index, w);
  }

  ghost predicate Popped(a: Adj, s: State, f: FuncRef, n: set<FuncRef>, m': map<FuncRef, SccRef>, store': seq<SccInfo>) {
    && (forall v :: v in n <==> InComponent(s.nodes, f, v))
    && (forall v :: v in m' <==> v in s.sccMap || v in n)
    && (forall v :: v in s.sccMap ==> m'[v] == s.sccMap[v])
    && (forall v :: v in n ==> m'[v] == |s.sccStore|)
    && store' == s.sccStore + [SccInfo(|n| > 1 || f in Out(a, f), n)]
  }

  /** Assigned functions do not reach unassigned ones. */
  lemma AssignedIsClosed(a: Adj, m: map<FuncRef, SccRef>, store: seq<SccInfo>, v: FuncRef, w: FuncRef)
    requires AssignedOk(a, m, store) && v in m && Reach(a, v, w)
    ensures w in m
  {
    forall x, y | x in m.Keys && Edge(a, x, y) ensures y in m.Keys { assert CalleesAssigned(a, m, x); }
    ReachClosed(a, m.Keys, v, w);
  }

  lemma PoppedPair(a: Adj, gray: set<FuncRef>, s: State, f: FuncRef, n: set<FuncRef>, m': map<FuncRef, SccRef>, store': seq<SccInfo>,
                   v: FuncRef, w: FuncRef)
    requires Visiting(a, gray, s, f, Out(a, f)) && Popped(a, s, f, n, m', store')
    requires v in m' && w in m'
    ensures SameIffMutual(a, m', v, w)
  {
    hide Reach, StackOk, GrayOk, LowBound, InComponent, CalleesAssigned, InfoOk;
    NoneAssigned(a, gray, s, f, n, m', store');
    if v in s.sccMap && w in s.sccMap {
      assert SameIffMutual(a, s.sccMap, v, w);
    } else if v in n && w in n {
      ComponentMutual(a, gray, s, f, v);
      ComponentMutual(a, gray, s, f, w);
      MutualTrans(a, v, f, w);
    } else if v in s.sccMap {
      if Mutual(a, v, w) { AssignedIsClosed(a, s.sccMap, s.sccStore, v, w); }
    } else {
      if Mutual(a, v, w) { AssignedIsClosed(a, s.sccMap, s.sccStore, w, v); }
    }
  }

  lemma NoneAssigned(a: Adj, gray: set<FuncRef>, s: State, f: FuncRef, n: set<FuncRef>, m': map<FuncRef, SccRef>, store': seq<SccInfo>)
    requires Visiting(a, gray, s, f, Out(a, f)) && Popped(a, s, f, n, m', store')
    ensures forall v :: v in n ==> v !in s.sccMap
    ensures f in n
  {
    hide Reach, StackOk, GrayOk, AssignedOk, LowBound;
    assert InComponent(s.nodes, f, f);
  }

  lemma PoppedInfo(a: Adj, gray: set<FuncRef>, s: State, f: FuncRef, n: set<FuncRef>, m': map<FuncRef, SccRef>, store': seq<SccInfo>)
    requires Visiting(a, gray, s, f, Out(a, f)) && Popped(a, s, f, n, m', store') && s.nodes[f].lowlink == s.nodes[f].index
    ensures InfoOk(a, m', store'[|s.sccStore|], |s.sccStore|)
  {
    hide Reach, StackOk, GrayOk, LowBound, InComponent, InfoOk, CalleesAssigned, SameIffMutual, OnCycle;
    NoneAssigned(a, gray, s, f, n, m', store');
    var k := |s.sccStore|;
    var info := store'[k];
    forall v ensures v in info.components <==> v in m' && m'[v] == k {}
    if |n| > 1 {
      assert n != {f};
      var v :| v in n && v != f;
      ComponentMutual(a, gray, s, f, v);
      DistinctMutualOnCycle(a, v, f);
    }
    if f in Out(a, f) {
      ReachRefl(a, f);
      OnCycleIntro(a, f, f);
    }
    forall v | v in n && OnCycle(a, v) ensures info.isCycle {
      if n == {f} {
        CycleStaysInside(a, gray, s, f, n, m', store', v);
      } else {
        var w :| w in n && w != f;
        assert {f, w} <= n && |{f, w}| == 2;
        SubsetSize({f, w}, n);
      }
    }
    InfoIntro(a, m', info, k, f);
  }

  lemma OnCycleIntro(a: Adj, b: Node, v: Node)
    requires Edge(a, b, v) && Reach(a, v, b)
    ensures OnCycle(a, b)
  {
  }

  lemma InfoIntro(a: Adj, m: map<FuncRef, SccRef>, info: SccInfo, s: SccRef, f: FuncRef)
    requires f in info.components
    requires forall v :: v in info.components <==> v in m && m[v] == s
    requires info.isCycle ==> exists v :: v in info.components && OnCycle(a, v)
    requires forall v :: v in info.components && OnCycle(a, v) ==> info.isCycle
    ensures InfoOk(a, m, info, s)
  {
  }

  /** A cycle through the only popped function is a self call. */
  lemma CycleStaysInside(a: Adj, gray: set<FuncRef>, s: State, f: FuncRef, n: set<FuncRef>, m': map<FuncRef, SccRef>, store': seq<SccInfo>, v: FuncRef)
    requires Visiting(a, gray, s, f, Out(a, f)) && Popped(a, s, f, n, m', store') && s.nodes[f].lowlink == s.nodes[f].index
    requires n == {f} && v in n && OnCycle(a, v)
    ensures f in Out(a, f)
  {
    hide StackOk, GrayOk, LowBound, InfoOk, CalleesAssigned, SameIffMutual;
    NoneAssigned(a, gray, s, f, n, m', store');
    var w :| Edge(a, v, w) && Reach(a, w, v);
    ComponentCalls(a, gray, s, f, v, w);
    if w in s.sccMap {
      AssignedIsClosed(a, s.sccMap, s.sccStore, w, v);
    }
  }

  lemma PoppedAssigned(a: Adj, gray: set<FuncRef>, s: State, f: FuncRef, n: set<FuncRef>, m': map<FuncRef, SccRef>, store': seq<SccInfo>)
    requires Visiting(a, gray, s, f, Out(a, f)) && Popped(a, s, f, n, m', store') && s.nodes[f].lowlink == s.nodes[f].index
    ensures AssignedOk(a, m', store')
  {
    hide Reach, StackOk, GrayOk, LowBound, InComponent, SameIffMutual, OnCycle;
    NoneAssigned(a, gray, s, f, n, m', store');
    forall v | v in m' ensures CalleesAssigned(a, m', v) {
      if v in s.sccMap {
        assert CalleesAssigned(a, s.sccMap, v);
      } else {
        forall w | w in Out(a, v) ensures w in m' && m'[w] <= m'[v] {
          ComponentCalls(a, gray, s, f, v, w);
        }
      }
    }
    forall v, w | v in m' && w in m' ensures SameIffMutual(a, m', v, w) {
      PoppedPair(a, gray, s, f, n, m', store', v, w);
    }
    forall i | 0 <= i < |store'| ensures InfoOk(a, m', store'[i], i) {
      if i < |s.sccStore| {
        assert InfoOk(a, s.sccMap, s.sccStore[i], i);
      } else {
        PoppedInfo(a, gray, s, f, n, m', store');
      }
    }
  }

  lemma PoppedBack(a: Adj, gray: set<FuncRef>, nodes: Nodes, f: FuncRef, n: set<FuncRef>, y: FuncRef)
    requires BackToGray(a, gray + {f}, nodes, y)
    requires f in nodes && y in nodes && nodes[y].index < nodes[f].index
    ensures BackToGray(a, gray, Unstack(nodes, n), y)
  {
    hide Reach;
    var x :| x in gray + {f} && Idx(nodes, x, y) && Reach(a, y, x);
    assert Idx(Unstack(nodes, n), x, y);
  }

  lemma PoppedGray(a: Adj, gray: set<FuncRef>, s: State, f: FuncRef, n: set<FuncRef>, stack': seq<FuncRef>)
    requires Visiting(a, gray, s, f, Out(a, f)) && forall v :: v in n <==> InComponent(s.nodes, f, v)
    requires forall v :: v in stack' <==> v in s.stack && v !in n
    ensures GrayOk(a, gray, Unstack(s.nodes, n), stack')
  {
    hide Reach, AssignedOk, LowBound, BackToGray, LowWitness;
    var nodes' := Unstack(s.nodes, n);
    forall x | x in gray ensures x in stack' {
      assert x in s.stack && x !in n;
    }
    forall y | y in stack' ensures BackToGray(a, gray, nodes', y) {
      assert BackToGray(a, gray + {f}, s.nodes, y);
      assert s.nodes[y].index < s.nodes[f].index;
      PoppedBack(a, gray, s.nodes, f, n, y);
    }
    forall x, y | x in gray && y in stack' ensures ReachesLater(a, nodes', x, y) {
      assert ReachesLater(a, s.nodes, x, y);
    }
    forall v | v in nodes' && v !in gray ensures CalleesVisited(a, nodes', v) {
      if v != f { assert CalleesVisited(a, s.nodes, v); }
    }
  }

  lemma PoppedStack(nodes: Nodes, stack: seq<FuncRef>, nextIndex: nat, f: FuncRef, n: set<FuncRef>, pos: nat)
    requires StackOk(nodes, stack, nextIndex) && pos < |stack| && stack[pos] == f
    requires forall v :: v in n <==> InComponent(nodes, f, v)
    ensures StackOk(Unstack(nodes, n), stack[..pos], nextIndex)
    ensures forall v :: v in stack[..pos] <==> v in stack && v !in n
  {
    forall i | 0 <= i < |stack| ensures stack[i] in n <==> i >= pos {
      assert stack[i] in stack;
    }
    forall v ensures v in stack[..pos] <==> v in stack && v !in n {
      if v in stack && v !in n {
        var i :| 0 <= i < |stack| && stack[i] == v;
        assert stack[..pos][i] == v;
      }
    }
  }

  /** The visit ends with `f` and everything above it popped as one component. */
  lemma PopKeeps(a: Adj, gray: set<FuncRef>, s: State, f: FuncRef, n: set<FuncRef>, pos: nat, s': State)
    requires Visiting(a, gray, s, f, Out(a, f)) && s.nodes[f].lowlink == s.nodes[f].index
    requires Popped(a, s, f, n, s'.sccMap, s'.sccStore)
    requires pos < |s.stack| && s.stack[pos] == f && s'.stack == s.stack[..pos]
    requires s'.nodes == Unstack(s.nodes, n) && s'.nextIndex == s.nextIndex
    ensures Inv(a, gray, s') && Visited(a, s'.nodes, f)
  {
    hide Reach, AssignedOk, GrayOk, StackOk, LowBound;
    PoppedAssigned(a, gray, s, f, n, s'.sccMap, s'.sccStore);
    PoppedStack(s.nodes, s.stack, s.nextIndex, f, n, pos);
    PoppedGray(a, gray, s, f, n, s'.stack);
    NoneAssigned(a, gray, s, f, n, s'.sccMap, s'.sccStore);
    forall x ensures !OnStackFrom(s'.nodes, s'.nodes[f].index, x) {
      assert x in s.nodes && x !in n ==> !InComponent(s.nodes, f, x);
    }
  }

  datatype CallGraphSccs = CallGraphSccs(sccMap: map<FuncRef, SccRef>, sccStore: seq<SccInfo>)

  ghost predicate DescribesSccs(g: CallGraph, sccs: CallGraphSccs) {
    && AssignedOk(g.callees, sccs.sccMap, sccs.sccStore)
    && (forall f :: f in g.funcs ==> f in sccs.sccMap)
  }

  lemma NothingVisited(a: Adj)
    ensures Inv(a, {}, State(map[], [], [], map[], 0))
  {
  }

  /** With no visit in progress the stack is empty. */
  lemma AllAssigned(a: Adj, s: State)
    requires Inv(a, {}, s)
    ensures AssignedOk(a, s.sccMap, s.sccStore)
    ensures forall v :: v in s.nodes <==> v in s.sccMap
  {
    hide AssignedOk, Reach;
    forall v | v in s.nodes ensures v in s.sccMap {
      assert !BackToGray(a, {}, s.nodes, v);
      assert v !in s.stack;
    }
  }

  /** Functions share a component exactly when each reaches the other through
      calls; the component lists exactly those functions, is marked as a cycle
      exactly when a member can call itself, directly or not, and all calls
      that leave it go to components with smaller references. */
  lemma SccExact(g: CallGraph, sccs: CallGraphSccs, f: FuncRef, h: FuncRef)
    requires DescribesSccs(g, sccs) && f in g.funcs
    ensures f in sccs.sccMap && sccs.sccMap[f] < |sccs.sccStore|
    ensures h in sccs.sccStore[sccs.sccMap[f]].components <==> Mutual(g.callees, f, h)
    ensures sccs.sccStore[sccs.sccMap[f]].isCycle <==> OnCycle(g.callees, f)
    ensures Edge(g.callees, f, h) ==> h in sccs.sccMap && sccs.sccMap[h] <= sccs.sccMap[f]
    ensures Edge(g.callees, f, h) && !Mutual(g.callees, f, h) ==> sccs.sccMap[h] < sccs.sccMap[f]
  {
    hide Reach, Mutual, OnCycle;
    var a, m := g.callees, sccs.sccMap;
    var s := m[f];
    assert CalleesAssigned(a, m, f) && InfoOk(a, m, sccs.sccStore[s], s);
    if h in m { assert SameIffMutual(a, m, f, h); }
    if Mutual(a, f, h) {
      assert Reach(a, f, h) by { MutualParts(a, f, h); }
      AssignedIsClosed(a, m, sccs.sccStore, f, h);
    }
    forall v | v in m && m[v] == s && OnCycle(a, v) ensures OnCycle(a, f) {
      assert SameIffMutual(a, m, v, f);
      CycleShared(a, v, f);
    }
  }

  lemma MutualParts(a: Adj, f: Node, h: Node)
    requires Mutual(a, f, h)
    ensures Reach(a, f, h) && Reach(a, h, f)
  {
  }

  lemma CycleShared(a: Adj, v: Node, f: Node)
    requires Mutual(a, v, f) && OnCycle(a, v)
    ensures OnCycle(a, f)
  {
    if v != f { DistinctMutualOnCycle(a, f, v); }
  }

  // ----- the builder

  class SccBuilder {
    var sccMap: map<FuncRef, SccRef>
    var sccStore: seq<SccInfo>
    var stack: seq<FuncRef>
    var nodes: Nodes
    var nextIndex: nat

    ghost function S(): State
      reads this
    {
      State(sccMap, sccStore, stack, nodes, nextIndex)
    }

    constructor ()
      ensures S() == State(map[], [], [], map[], 0)
    {
      sccMap, sccStore, stack, nodes, nextIndex := map[], [], [], map[], 0;
    }

    /** Visits `f` and everything it calls that is not visited yet. */
    method StrongComponent(f: FuncRef, g: CallGraph, ghost gray: set<FuncRef>, ghost universe: set<FuncRef>)
      requires Universe(g.callees) <= universe && f in universe
      requires f !in nodes && Inv(g.callees, gray, S()) && forall x :: x in gray ==> Reach(g.callees, x, f)
      modifies this
      ensures Inv(g.callees, gray, S()) && Extends(old(S()), S()) && Visited(g.callees, nodes, f)
      ensures f in nodes && nodes[f].index == old(nextIndex)
      decreases universe - nodes.Keys
    {
      hide Reach, Inv, Visiting, Visited, Extends, Universe, Popped, InComponent, StillVisiting, StackOk;
      ghost var a := g.callees;
      ghost var s0 := S();
      PushKeeps(a, gray, S(), f);
      var index := nextIndex;
      nextIndex := nextIndex + 1;
      nodes := nodes[f := NodeState(index, index, true)];
      stack := stack + [f];
      ghost var s1 := S();
      assert s1 == Push(s0, f);
      StillVisitingStart(s0, f);

      var isTrivialCycle := false;
      var callees := Out(g.callees, f);
      assert callees[..0] == [];
      var k := 0;
      while k < |callees|
        invariant 0 <= k <= |callees|
        invariant Visiting(a, gray, S(), f, callees[..k])
        invariant StillVisiting(s0, S(), f)
        invariant isTrivialCycle <==> f in callees[..k]
        decreases |callees| - k
      {
        var callee := callees[k];
        assert callees[..k + 1] == callees[..k] + [callee];
        assert Edge(a, f, callee);
        isTrivialCycle := isTrivialCycle || callee == f;
        ghost var s2 := S();
        VisitingParts(a, gray, s2, f, callees[..k]);
        if callee !in nodes {
          forall x | x in gray + {f} ensures Reach(a, x, callee) {
            if x == f { ReachEdge(a, f, callee); } else { ReachSnoc(a, x, f, callee); }
          }
          EdgeInUniverse(a, f, callee);
          StillGrown(s0, s2, f);
          StrongComponent(callee, g, gray + {f}, universe);
          RecursiveCallee(a, gray, s2, S(), f, callees[..k], callee);
          StillVisitingAfter(s0, s2, S(), f);
          StillVisitingLow(s0, S(), f, Min(nodes[f].lowlink, nodes[callee].lowlink));
          nodes := nodes[f := nodes[f].(lowlink := Min(nodes[f].lowlink, nodes[callee].lowlink))];
        } else if nodes[callee].onStack {
          StackedCallee(a, gray, s2, f, callees[..k], callee);
          StillVisitingLow(s0, s2, f, Min(nodes[f].lowlink, nodes[callee].index));
          nodes := nodes[f := nodes[f].(lowlink := Min(nodes[f].lowlink, nodes[callee].index))];
        } else {
          AssignedCallee(a, gray, s2, f, callees[..k], callee);
        }
        k := k + 1;
      }
      assert callees[..k] == callees;
      VisitingParts(a, gray, S(), f, callees);
      if nodes[f].index == nodes[f].lowlink {
        PopComponent(f, g, isTrivialCycle, gray, s0);
      } else {
        StillGrown(s0, S(), f);
        LeaveOnStack(a, gray, S(), f);
      }
    }

    /** Components of everything the functions of the graph reach. */
    method ComputeScc(g: CallGraph) returns (sccs: CallGraphSccs)
      requires S() == State(map[], [], [], map[], 0)
      modifies this
      ensures DescribesSccs(g, sccs)
    {
      hide Reach, Inv, Visited, Universe;
      ghost var universe := Universe(g.callees) + Elems(g.funcs);
      NothingVisited(g.callees);
      var k := 0;
      while k < |g.funcs|
        invariant 0 <= k <= |g.funcs|
        invariant Inv(g.callees, {}, S())
        invariant forall j :: 0 <= j < k ==> g.funcs[j] in nodes
      {
        var f := g.funcs[k];
        if f !in nodes {
          StrongComponent(f, g, {}, universe);
        }
        k := k + 1;
      }
      AllAssigned(g.callees, S());
      sccs := CallGraphSccs(sccMap, sccStore);
    }

    /** Pops the stack down to `f`. */
    method Unwind(f: FuncRef, ghost pos: nat) returns (scc: set<FuncRef>)
      requires StackOk(nodes, stack, nextIndex) && pos < |stack| && stack[pos] == f
      modifies this`stack, this`nodes
      ensures stack == old(stack)[..pos] && scc == Elems(old(stack)[pos..])
      ensures nodes == Unstack(old(nodes), scc)
    {
      hide StackOk, Unstack;
      ghost var nodes0, stack0 := nodes, stack;
      scc := {};
      ghost var m := |stack|;
      assert stack0[m..] == [];
      NothingUnstacked(nodes);
      while true
        invariant pos < m <= |stack0| && stack == stack0[..m] && scc == Elems(stack0[m..])
        invariant nodes == Unstack(nodes0, scc)
        decreases m
      {
        var top := stack[|stack| - 1];
        UnstackStep(nodes0, stack0, nextIndex, m - 1, f, pos);
        stack := stack[..|stack| - 1];
        m := m - 1;
        nodes := nodes[top := nodes[top].(onStack := false)];
        scc := scc + {top};
        if top == f { break; }
      }
    }

    /** Gives the functions `scc` the next component reference. */
    method Record(scc: set<FuncRef>, isCycle: bool)
      modifies this`sccMap, this`sccStore
      ensures sccStore == old(sccStore) + [SccInfo(isCycle, scc)]
      ensures forall v :: v in sccMap <==> v in old(sccMap) || v in scc
      ensures forall v :: v in sccMap ==> sccMap[v] == if v in scc then |old(sccStore)| else old(sccMap)[v]
    {
      var sccRef := |sccStore|;
      sccStore := sccStore + [SccInfo(isCycle, {})];
      var rest := scc;
      while rest != {}
        invariant rest <= scc
        invariant forall v :: v in sccMap <==> v in old(sccMap) || v in scc - rest
        invariant forall v :: v in sccMap ==> sccMap[v] == if v in scc - rest then sccRef else old(sccMap)[v]
        invariant sccStore == old(sccStore) + [SccInfo(isCycle, {})]
      {
        var v :| v in rest;
        sccMap := sccMap[v := sccRef];
        rest := rest - {v};
      }
      sccStore := sccStore[sccRef := sccStore[sccRef].(components := scc)];
    }

    /** Pops `f` and everything above it, and records that as a component. */
    method PopComponent(f: FuncRef, g: CallGraph, isTrivialCycle: bool, ghost gray: set<FuncRef>, ghost s0: State)
      requires Visiting(g.callees, gray, S(), f, Out(g.callees, f)) && StillVisiting(s0, S(), f)
      requires Inv(g.callees, gray, s0)
      requires f in nodes && nodes[f].lowlink == nodes[f].index
      requires isTrivialCycle <==> f in Out(g.callees, f)
      modifies this
      ensures Inv(g.callees, gray, S()) && Extends(s0, S()) && Visited(g.callees, nodes, f)
      ensures f in nodes && nodes[f].index == s0.nextIndex
    {
      hide Reach, Inv, Visiting, Visited, Extends, InComponent, StackOk, Unstack, Popped;
      ghost var s := S();
      ghost var pos := |s0.stack|;
      VisitingParts(g.callees, gray, s, f, Out(g.callees, f));
      var scc := Unwind(f, pos);
      PoppedAre(s.nodes, s.stack, s.nextIndex, f, scc, pos);
      NotAssignedBefore(g.callees, gray, s, f, scc);
      Record(scc, |scc| > 1 || isTrivialCycle);
      PoppedIntro(g.callees, s, f, scc, sccMap, sccStore);
      PopKeeps(g.callees, gray, s, f, scc, pos, S());
      PopExtends(g.callees, gray, s0, s, f, scc, pos, S());
    }
  }

  lemma PoppedIntro(a: Adj, s: State, f: FuncRef, n: set<FuncRef>, m': map<FuncRef, SccRef>, store': seq<SccInfo>)
    requires forall v :: v in n <==> InComponent(s.nodes, f, v)
    requires forall v :: v in n ==> v !in s.sccMap
    requires forall v :: v in m' <==> v in s.sccMap || v in n
    requires forall v :: v in m' ==> m'[v] == if v in n then |s.sccStore| else s.sccMap[v]
    requires store' == s.sccStore + [SccInfo(|n| > 1 || f in Out(a, f), n)]
    ensures Popped(a, s, f, n, m', store')
  {
    hide InComponent;
  }

  /** `f` was pushed right after `s0` and is still there. */
  ghost predicate StillVisiting(s0: State, s: State, f: FuncRef) {
    && f !in s0.nodes && Extends(s0, s)
    && f in s.nodes && s.nodes[f].onStack && s.nodes[f].index == s0.nextIndex
    && |s0.stack| < |s.stack| && s.stack[|s0.stack|] == f
  }

  lemma StillGrown(s0: State, s: State, f: FuncRef)
    requires StillVisiting(s0, s, f)
    ensures s0.nodes.Keys <= s.nodes.Keys && f in s.nodes && f !in s0.nodes
    ensures Extends(s0, s) && s.nodes[f].index == s0.nextIndex
  {
  }

  lemma StillVisitingStart(s0: State, f: FuncRef)
    requires f !in s0.nodes
    ensures StillVisiting(s0, Push(s0, f), f)
  {
  }

  lemma StillVisitingLow(s0: State, s: State, f: FuncRef, low: nat)
    requires StillVisiting(s0, s, f)
    ensures f in s.nodes && StillVisiting(s0, SetLow(s, f, low), f)
  {
  }

  lemma StillVisitingAfter(s0: State, s1: State, s: State, f: FuncRef)
    requires StillVisiting(s0, s1, f) && Extends(s1, s)
    ensures StillVisiting(s0, s, f)
  {
    assert s.stack[|s0.stack|] == s.stack[..|s1.stack|][|s0.stack|];
    assert s.stack[..|s0.stack|] == s.stack[..|s1.stack|][..|s0.stack|];
  }

  lemma VisitingParts(a: Adj, gray: set<FuncRef>, s: State, f: FuncRef, done: seq<FuncRef>)
    requires Visiting(a, gray, s, f, done)
    ensures Inv(a, gray + {f}, s) && StackOk(s.nodes, s.stack, s.nextIndex)
    ensures f in s.nodes && s.nodes[f].onStack && s.nodes[f].index < s.nextIndex
  {
    assert f in s.stack;
  }

  lemma NothingUnstacked(nodes: Nodes)
    ensures Unstack(nodes, {}) == nodes
  {
  }

  lemma UnstackStep(nodes: Nodes, stack: seq<FuncRef>, nextIndex: nat, m: nat, f: FuncRef, pos: nat)
    requires StackOk(nodes, stack, nextIndex) && m < |stack| && pos < |stack| && stack[pos] == f
    ensures stack[m] in nodes && (stack[m] == f <==> m == pos)
    ensures stack[m] in Unstack(nodes, Elems(stack[m + 1..]))
    ensures Elems(stack[m..]) == Elems(stack[m + 1..]) + {stack[m]}
    ensures var top := stack[m]; var u := Unstack(nodes, Elems(stack[m + 1..]));
            u[top := u[top].(onStack := false)] == Unstack(nodes, Elems(stack[m..]))
  {
    assert stack[m..] == [stack[m]] + stack[m + 1..];
  }

  lemma PoppedAre(nodes: Nodes, stack: seq<FuncRef>, nextIndex: nat, f: FuncRef, n: set<FuncRef>, pos: nat)
    requires StackOk(nodes, stack, nextIndex) && pos < |stack| && stack[pos] == f
    requires n == Elems(stack[pos..])
    ensures forall v :: v in n <==> InComponent(nodes, f, v)
  {
    assert f in stack;
    forall i | 0 <= i < |stack| ensures stack[i] in n <==> i >= pos {
      if i >= pos { assert stack[pos..][i - pos] == stack[i]; }
      assert forall j :: pos <= j < |stack| && stack[j] == stack[i] ==> j == i;
    }
    forall v | InComponent(nodes, f, v) ensures v in n {
      assert v in stack;
    }
  }

  lemma NotAssignedBefore(a: Adj, gray: set<FuncRef>, s: State, f: FuncRef, n: set<FuncRef>)
    requires Visiting(a, gray, s, f, Out(a, f)) && forall v :: v in n <==> InComponent(s.nodes, f, v)
    ensures forall v :: v in n ==> v !in s.sccMap
  {
    hide Reach, StackOk, GrayOk, AssignedOk, LowBound;
  }

  lemma PopExtends(a: Adj, gray: set<FuncRef>, s0: State, s: State, f: FuncRef, n: set<FuncRef>, pos: nat, s': State)
    requires StillVisiting(s0, s, f) && pos == |s0.stack| && s'.stack == s.stack[..pos]
    requires Inv(a, gray, s0)
    requires forall v :: v in n <==> InComponent(s.nodes, f, v)
    requires s'.nodes == Unstack(s.nodes, n) && s'.nextIndex == s.nextIndex
    ensures Extends(s0, s') && f in s'.nodes && s'.nodes[f].index == s0.nextIndex
  {
    hide AssignedOk, GrayOk;
    forall v | v in s0.nodes ensures v !in n {
      if s0.nodes[v].onStack { assert v in s0.stack; }
    }
  }
}
