/**
 The control flow graph and its post-order traversal
 (crates/ir/src/cfg.rs).
 */
module Cfgs {
  import opened Graphs
  import opened Options

  type BlockId = Node

  /** What an analysis that borrows the graph can read of it. */
  datatype Cfg = Cfg(entry: Option<BlockId>, succs: Adj, preds: Adj)

  ghost predicate ValidCfg(g: Cfg) {
    Inverse(g.succs, g.preds)
  }

  /** `po` is the order in which a depth-first walk from `entry` finishes the
      blocks: it lists exactly the blocks reachable from `entry`, each once, and
      whenever `po[i]` is finished, every edge from a finished block to an
      unfinished one leads to a block that is still open, so that it reaches
      `po[i]`; and a block other than the entry is finished before some block
      that has an edge to it. */
  ghost predicate DfsPostOrder(a: Adj, entry: Node, po: seq<Node>) {
    && NoDup(po)
    && (forall b :: b in po <==> Reach(a, entry, b))
    && DfsOrder(a, po)
    && (forall k :: 0 <= k < |po| && po[k] != entry ==> HasLaterPredecessor(a, po, k))
  }

  ghost predicate HasLaterPredecessor(a: Adj, po: seq<Node>, k: nat)
    requires k < |po|
  {
    exists i :: k < i < |po| && Edge(a, po[i], po[k])
  }

  ghost predicate DfsOrder(a: Adj, po: seq<Node>) {
    forall i :: 0 <= i < |po| ==> OpenTargetsReach(a, po, i)
  }

  ghost predicate OpenTargetsReach(a: Adj, po: seq<Node>, i: nat)
    requires i < |po|
  {
    forall u, v :: u in po[..i + 1] && v in Out(a, u) && v !in po[..i + 1] ==> Reach(a, v, po[i])
  }

  datatype NodeState = Visited | Finished

  type States = map<BlockId, NodeState>

  predicate Unvisited(ns: States, b: BlockId) {
    b !in ns
  }

  predicate HasFinished(ns: States, b: BlockId) {
    b in ns && ns[b].Finished?
  }

  function FilterUnvisited(ns: States, s: seq<BlockId>): (r: seq<BlockId>)
    ensures forall v :: v in r <==> v in s && Unvisited(ns, v)
  {
    if |s| == 0 then [] else
      var rest := FilterUnvisited(ns, s[..|s| - 1]);
      if Unvisited(ns, s[|s| - 1]) then rest + [s[|s| - 1]] else rest
  }

  /** An open block: visited, not finished. Its copy at `i` is its last one on
      the stack, it reaches everything from there up, and its unvisited
      successors are all above it. */
  ghost predicate OpenAt(a: Adj, ns: States, stack: seq<BlockId>, b: BlockId, i: nat) {
    && i < |stack| && stack[i] == b && !Above(stack, i, b)
    && (forall j :: i <= j < |stack| ==> Reach(a, b, stack[j]))
    && (forall v :: v in Out(a, b) && Unvisited(ns, v) ==> Above(stack, i, v))
  }

  ghost predicate Above(stack: seq<BlockId>, i: nat, v: BlockId) {
    exists j :: i < j < |stack| && stack[j] == v
  }

  ghost predicate Open(a: Adj, ns: States, stack: seq<BlockId>, b: BlockId) {
    exists i :: OpenAt(a, ns, stack, b, i)
  }

  /** The block at `j` was pushed by an open block below it. */
  ghost predicate PushedBelow(a: Adj, ns: States, stack: seq<BlockId>, j: nat)
    requires j < |stack|
  {
    exists i: nat :: i < j && stack[i] in ns && ns[stack[i]].Visited? && !Above(stack, i, stack[i])
                && Edge(a, stack[i], stack[j])
  }

  /** The block yielded at `k` has a predecessor that was not finished by then. */
  ghost predicate OutlivedByPredecessor(a: Adj, ns: States, yielded: seq<BlockId>, k: nat)
    requires k < |yielded|
  {
    exists u :: u in ns && u !in yielded[..k + 1] && Edge(a, u, yielded[k])
  }

  /** Visited and unfinished blocks are open. */
  ghost predicate OpenInv(a: Adj, ns: States, stack: seq<BlockId>) {
    forall b :: b in ns && ns[b].Visited? ==> Open(a, ns, stack, b)
  }

  ghost predicate PushInv(a: Adj, ns: States, stack: seq<BlockId>) {
    forall j :: 0 < j < |stack| ==> PushedBelow(a, ns, stack, j)
  }

  ghost predicate ReachInv(a: Adj, entry: Option<BlockId>, ns: States, stack: seq<BlockId>) {
    && (entry.None? ==> stack == [] && ns == map[])
    && (entry.Some? ==>
          && (forall b :: b in stack || b in ns ==> Reach(a, entry.value, b))
          && (entry.value in stack || entry.value in ns)
          && (|stack| > 0 ==> stack[0] == entry.value))
  }

  ghost predicate YieldInv(a: Adj, entry: Option<BlockId>, ns: States, yielded: seq<BlockId>) {
    && NoDup(yielded)
    && (forall b :: b in yielded <==> HasFinished(ns, b))
    && (forall b, v :: HasFinished(ns, b) && v in Out(a, b) ==> v in ns)
    && DfsOrder(a, yielded)
    && (forall k :: 0 <= k < |yielded| && Some(yielded[k]) != entry ==> OutlivedByPredecessor(a, ns, yielded, k))
  }

  ghost predicate TraversalInv(a: Adj, entry: Option<BlockId>, ns: States, stack: seq<BlockId>, yielded: seq<BlockId>) {
    && OpenInv(a, ns, stack)
    && PushInv(a, ns, stack)
    && ReachInv(a, entry, ns, stack)
    && YieldInv(a, entry, ns, yielded)
  }

  lemma OpenAfterVisit(a: Adj, ns: States, stack: seq<BlockId>, b: BlockId, ns': States, pushed: seq<BlockId>, c: BlockId)
    requires |stack| > 0 && b == stack[|stack| - 1] && Unvisited(ns, b)
    requires ns' == ns[b := Visited] && pushed == FilterUnvisited(ns', Out(a, b))
    requires Open(a, ns, stack, c) && c in ns
    ensures Open(a, ns', stack + pushed, c)
  {
    var stack' := stack + pushed;
    var i: nat :| OpenAt(a, ns, stack, c, i);
    assert Reach(a, c, stack[|stack| - 1]);
    forall j | i <= j < |stack'| ensures Reach(a, c, stack'[j]) {
      if j >= |stack| {
        assert stack'[j] in pushed;
        ReachSnoc(a, c, b, stack'[j]);
      }
    }
    forall v | v in Out(a, c) && Unvisited(ns', v) ensures Above(stack', i, v) {
      var j :| i < j < |stack| && stack[j] == v;
      assert stack'[j] == v;
    }
    assert !Above(stack', i, c) by {
      assert forall j :: |stack| <= j < |stack'| ==> stack'[j] in pushed;
    }
    assert OpenAt(a, ns', stack', c, i);
  }

  lemma VisitedIsOpen(a: Adj, stack: seq<BlockId>, b: BlockId, ns': States, pushed: seq<BlockId>)
    requires |stack| > 0 && b == stack[|stack| - 1] && b in ns'
    requires pushed == FilterUnvisited(ns', Out(a, b))
    ensures Open(a, ns', stack + pushed, b)
  {
    var n := |stack| - 1;
    var stack' := stack + pushed;
    forall j | n <= j < |stack'| ensures Reach(a, b, stack'[j]) {
      if j == n {
        ReachRefl(a, b);
      } else {
        assert stack'[j] in pushed;
        ReachEdge(a, b, stack'[j]);
      }
    }
    forall v | v in pushed ensures Above(stack', n, v) {
      var j :| 0 <= j < |pushed| && pushed[j] == v;
      assert stack'[n + 1 + j] == v;
    }
    assert !Above(stack', n, b) by {
      assert forall j :: n < j < |stack'| ==> stack'[j] in pushed;
    }
    assert OpenAt(a, ns', stack', b, n);
  }

  lemma PushedAfterVisit(a: Adj, ns: States, stack: seq<BlockId>, b: BlockId, ns': States, pushed: seq<BlockId>)
    requires |stack| > 0 && b == stack[|stack| - 1] && Unvisited(ns, b) && PushInv(a, ns, stack)
    requires ns' == ns[b := Visited] && pushed == FilterUnvisited(ns', Out(a, b))
    ensures PushInv(a, ns', stack + pushed)
  {
    var n := |stack| - 1;
    var stack' := stack + pushed;
    assert forall j :: n < j < |stack'| ==> stack'[j] in pushed;
    forall j | 0 < j < |stack'| ensures PushedBelow(a, ns', stack', j) {
      if j < |stack| {
        assert PushedBelow(a, ns, stack, j);
        var i: nat :| i < j && stack[i] in ns && ns[stack[i]].Visited? && !Above(stack, i, stack[i])
                 && Edge(a, stack[i], stack[j]);
        assert !Above(stack', i, stack'[i]);
      } else {
        assert !Above(stack', n, stack'[n]);
        assert Edge(a, stack'[n], stack'[j]);
      }
    }
  }

  lemma VisitStep(a: Adj, entry: Option<BlockId>, ns: States, stack: seq<BlockId>, yielded: seq<BlockId>,
                  ns': States, stack': seq<BlockId>)
    requires TraversalInv(a, entry, ns, stack, yielded)
    requires |stack| > 0 && Unvisited(ns, stack[|stack| - 1])
    requires var b := stack[|stack| - 1];
             ns' == ns[b := Visited] && stack' == stack + FilterUnvisited(ns', Out(a, b))
    ensures TraversalInv(a, entry, ns', stack', yielded)
  {
    var b := stack[|stack| - 1];
    var pushed := FilterUnvisited(ns', Out(a, b));
    forall c | c in ns' && ns'[c].Visited? ensures Open(a, ns', stack', c) {
      if c == b {
        VisitedIsOpen(a, stack, b, ns', pushed);
      } else {
        OpenAfterVisit(a, ns, stack, b, ns', pushed, c);
      }
    }
    PushedAfterVisit(a, ns, stack, b, ns', pushed);
    forall v | v in pushed ensures Reach(a, entry.value, v) { ReachSnoc(a, entry.value, b, v); }
    YieldSurvives(a, entry, ns, ns', yielded);
  }

  lemma YieldSurvives(a: Adj, entry: Option<BlockId>, ns: States, ns': States, yielded: seq<BlockId>)
    requires YieldInv(a, entry, ns, yielded)
    requires ns.Keys <= ns'.Keys && forall b :: HasFinished(ns', b) <==> HasFinished(ns, b)
    ensures YieldInv(a, entry, ns', yielded)
  {
    forall k | 0 <= k < |yielded| && Some(yielded[k]) != entry ensures OutlivedByPredecessor(a, ns', yielded, k) {
      assert OutlivedByPredecessor(a, ns, yielded, k);
      var u :| u in ns && u !in yielded[..k + 1] && Edge(a, u, yielded[k]);
      assert u in ns';
    }
  }

  lemma OpenSurvivesPop(a: Adj, ns: States, stack: seq<BlockId>, c: BlockId)
    requires Open(a, ns, stack, c) && |stack| > 0
    requires stack[|stack| - 1] != c && !Unvisited(ns, stack[|stack| - 1])
    ensures Open(a, ns, stack[..|stack| - 1], c)
  {
    var n := |stack| - 1;
    var i: nat :| OpenAt(a, ns, stack, c, i);
    assert i != n;
    forall v | v in Out(a, c) && Unvisited(ns, v) ensures Above(stack[..n], i, v) {
      var j :| i < j < |stack| && stack[j] == v;
      assert stack[..n][j] == v;
    }
    assert OpenAt(a, ns, stack[..n], c, i);
  }

  /** Neither finishing the top block nor popping it disturbs the blocks below. */
  lemma PushedSurvivesPop(a: Adj, ns: States, ns': States, stack: seq<BlockId>)
    requires |stack| > 0 && PushInv(a, ns, stack)
    requires forall c :: c in ns && ns[c].Visited? && c != stack[|stack| - 1] ==> c in ns' && ns'[c].Visited?
    ensures PushInv(a, ns', stack[..|stack| - 1])
  {
    var n := |stack| - 1;
    var rest := stack[..n];
    forall j | 0 < j < n ensures PushedBelow(a, ns', rest, j) {
      assert PushedBelow(a, ns, stack, j);
      var i: nat :| i < j && stack[i] in ns && ns[stack[i]].Visited? && !Above(stack, i, stack[i])
               && Edge(a, stack[i], stack[j]);
      assert Above(stack, i, stack[n]);
      assert rest[i] == stack[i] && rest[j] == stack[j];
    }
  }

  /** Popping a stale copy of a finished block. */
  lemma PopStep(a: Adj, entry: Option<BlockId>, ns: States, stack: seq<BlockId>, yielded: seq<BlockId>)
    requires TraversalInv(a, entry, ns, stack, yielded)
    requires |stack| > 0 && HasFinished(ns, stack[|stack| - 1])
    ensures TraversalInv(a, entry, ns, stack[..|stack| - 1], yielded)
  {
    forall c | c in ns && ns[c].Visited? ensures Open(a, ns, stack[..|stack| - 1], c) {
      OpenSurvivesPop(a, ns, stack, c);
    }
    PushedSurvivesPop(a, ns, ns, stack);
  }

  lemma OpenSurvivesFinish(a: Adj, ns: States, stack: seq<BlockId>, b: BlockId, c: BlockId)
    requires Open(a, ns, stack, c)
    ensures Open(a, ns[b := Finished], stack, c)
  {
    var i: nat :| OpenAt(a, ns, stack, c, i);
    assert OpenAt(a, ns[b := Finished], stack, c, i);
  }

  /** Some open block below the top has an edge to it. */
  lemma TopHasOpenPredecessor(a: Adj, ns: States, stack: seq<BlockId>) returns (u: BlockId)
    requires |stack| > 1 && PushInv(a, ns, stack)
    ensures u in ns && ns[u].Visited? && u != stack[|stack| - 1] && Edge(a, u, stack[|stack| - 1])
  {
    var n := |stack| - 1;
    assert PushedBelow(a, ns, stack, n);
    var i: nat :| i < n && stack[i] in ns && ns[stack[i]].Visited? && !Above(stack, i, stack[i])
             && Edge(a, stack[i], stack[n]);
    assert Above(stack, i, stack[n]);
    u := stack[i];
  }

  /** All successors of the open block on top are visited. */
  lemma TopIsComplete(a: Adj, ns: States, stack: seq<BlockId>)
    requires |stack| > 0 && Open(a, ns, stack, stack[|stack| - 1])
    ensures forall v :: v in Out(a, stack[|stack| - 1]) ==> v in ns
  {
    var n := |stack| - 1;
    assert forall k: nat :: k < n ==> Above(stack, k, stack[n]);
    var i: nat :| OpenAt(a, ns, stack, stack[n], i);
  }

  /** An open block reaches the top. */
  lemma OpenReachesTop(a: Adj, ns: States, stack: seq<BlockId>, v: BlockId)
    requires |stack| > 0 && Open(a, ns, stack, v)
    ensures Reach(a, v, stack[|stack| - 1])
  {
    var i: nat :| OpenAt(a, ns, stack, v, i);
    assert Reach(a, v, stack[|stack| - 1]);
  }

  lemma YieldAfterFinish(a: Adj, entry: Option<BlockId>, ns: States, yielded: seq<BlockId>, b: BlockId)
    requires YieldInv(a, entry, ns, yielded)
    requires b in ns && ns[b].Visited?
    requires forall v :: v in Out(a, b) ==> v in ns
    requires forall v :: v in ns && ns[v].Visited? ==> Reach(a, v, b)
    requires Some(b) == entry || exists u :: u in ns && ns[u].Visited? && u != b && Edge(a, u, b)
    ensures YieldInv(a, entry, ns[b := Finished], yielded + [b])
  {
    var ns' := ns[b := Finished];
    var out := yielded + [b];
    assert !HasFinished(ns, b);
    forall k | 0 <= k < |out| && Some(out[k]) != entry ensures OutlivedByPredecessor(a, ns', out, k) {
      assert out[..k + 1] == if k < |yielded| then yielded[..k + 1] else out;
      if k < |yielded| {
        assert OutlivedByPredecessor(a, ns, yielded, k);
        var u :| u in ns && u !in yielded[..k + 1] && Edge(a, u, yielded[k]);
        assert u in ns';
      } else {
        var u :| u in ns && ns[u].Visited? && u != b && Edge(a, u, b);
        assert !HasFinished(ns, u);
        assert u in ns' && u !in out;
      }
    }
    forall i | 0 <= i < |out| ensures OpenTargetsReach(a, out, i) {
      if i < |yielded| {
        assert OpenTargetsReach(a, yielded, i);
        assert out[..i + 1] == yielded[..i + 1];
      } else {
        assert out[..i + 1] == out;
        forall u, v | u in out && v in Out(a, u) && v !in out ensures Reach(a, v, b) {
          assert u == b || HasFinished(ns, u);
          assert v in ns && !HasFinished(ns, v);
        }
      }
    }
  }

  lemma FinishStep(a: Adj, entry: Option<BlockId>, ns: States, stack: seq<BlockId>, yielded: seq<BlockId>)
    requires TraversalInv(a, entry, ns, stack, yielded)
    requires |stack| > 0 && stack[|stack| - 1] in ns && ns[stack[|stack| - 1]].Visited?
    ensures var b := stack[|stack| - 1];
            TraversalInv(a, entry, ns[b := Finished], stack[..|stack| - 1], yielded + [b])
  {
    var n := |stack| - 1;
    var b := stack[n];
    var ns' := ns[b := Finished];
    forall c | c in ns' && ns'[c].Visited? ensures Open(a, ns', stack[..n], c) {
      OpenSurvivesPop(a, ns, stack, c);
      OpenSurvivesFinish(a, ns, stack[..n], b, c);
    }
    PushedSurvivesPop(a, ns, ns', stack);
    TopIsComplete(a, ns, stack);
    forall v | v in ns && ns[v].Visited? ensures Reach(a, v, b) { OpenReachesTop(a, ns, stack, v); }
    if n > 0 {
      var u := TopHasOpenPredecessor(a, ns, stack);
    }
    YieldAfterFinish(a, entry, ns, yielded, b);
  }

  /** With an empty stack everything reachable has been yielded. */
  lemma TraversalDone(a: Adj, entry: Option<BlockId>, ns: States, yielded: seq<BlockId>)
    requires TraversalInv(a, entry, ns, [], yielded)
    ensures entry.Some? ==> DfsPostOrder(a, entry.value, yielded)
    ensures entry.None? ==> yielded == []
  {
    assert forall b :: !Open(a, ns, [], b);
    assert forall b :: b in ns ==> HasFinished(ns, b);
    assert |yielded| > 0 ==> yielded[0] in yielded;
    if entry.Some? {
      var s := Elems(yielded);
      forall b | Reach(a, entry.value, b) ensures b in yielded {
        ReachClosed(a, s, entry.value, b);
      }
      forall k | 0 <= k < |yielded| && yielded[k] != entry.value ensures HasLaterPredecessor(a, yielded, k) {
        assert OutlivedByPredecessor(a, ns, yielded, k);
        var u :| u in ns && u !in yielded[..k + 1] && Edge(a, u, yielded[k]);
        assert u in yielded;
        var i :| 0 <= i < |yielded| && yielded[i] == u;
        PrefixElems(yielded, k + 1);
      }
    }
  }

  // ----- the recursive traversal

  /** The recursive depth-first traversal: visits the blocks of `todo` that are
      `left`, the last one first, each after its successors.  Gives the blocks then
      left, and those visited in the order they are finished. */
  function Dfs(a: Adj, left: set<BlockId>, todo: seq<BlockId>): (r: (set<BlockId>, seq<BlockId>))
    ensures r.0 <= left
    decreases left, |todo|
  {
    if todo == [] then (left, [])
    else
      var (b, rest) := (todo[|todo| - 1], todo[..|todo| - 1]);
      if b !in left then Dfs(a, left, rest)
      else
        var below := Dfs(a, left - {b}, Out(a, b));
        var others := Dfs(a, below.0, rest);
        (others.0, below.1 + [b] + others.1)
  }

  /** What a stack is still to yield, if `left` are the unvisited blocks and `open`
      the visited ones that are not finished. */
  function Upcoming(a: Adj, left: set<BlockId>, open: set<BlockId>, stack: seq<BlockId>): seq<BlockId>
    decreases |stack|
  {
    if stack == [] then []
    else
      var (b, rest) := (stack[|stack| - 1], stack[..|stack| - 1]);
      if b in left then
        var below := Dfs(a, left - {b}, Out(a, b));
        below.1 + [b] + Upcoming(a, below.0, open, rest)
      else if b in open then [b] + Upcoming(a, left, open - {b}, rest)
      else Upcoming(a, left, open, rest)
  }

  lemma {:induction false} VisitedSkipped(a: Adj, left: set<BlockId>, ns: States, todo: seq<BlockId>)
    requires forall b :: b in left ==> Unvisited(ns, b)
    ensures Dfs(a, left, FilterUnvisited(ns, todo)) == Dfs(a, left, todo)
    decreases |todo|
  {
    if todo != [] {
      var (b, rest) := (todo[|todo| - 1], todo[..|todo| - 1]);
      var stay := FilterUnvisited(ns, rest);
      if Unvisited(ns, b) { assert (stay + [b])[..|stay|] == stay; }
      VisitedSkipped(a, left, ns, rest);
      if b in left { VisitedSkipped(a, Dfs(a, left - {b}, Out(a, b)).0, ns, rest); }
    }
  }

  /** Blocks pushed on a stack are traversed before the rest of it. */
  lemma {:induction false} PushedFirst(a: Adj, left: set<BlockId>, open: set<BlockId>, stack: seq<BlockId>, pushed: seq<BlockId>)
    requires forall b :: b in pushed ==> b !in open
    ensures var d := Dfs(a, left, pushed); Upcoming(a, left, open, stack + pushed) == d.1 + Upcoming(a, d.0, open, stack)
    decreases |pushed|
  {
    if pushed == [] {
      assert stack + pushed == stack;
    } else {
      var (b, rest) := (pushed[|pushed| - 1], pushed[..|pushed| - 1]);
      assert (stack + pushed)[..|stack + pushed| - 1] == stack + rest && (stack + pushed)[|stack + pushed| - 1] == b;
      if b in left {
        PushedFirst(a, Dfs(a, left - {b}, Out(a, b)).0, open, stack, rest);
      } else {
        PushedFirst(a, left, open, stack, rest);
      }
    }
  }

  ghost function OpenBlocks(ns: States): set<BlockId> { set b | b in ns && ns[b].Visited? }

  /** Visiting the top block does not change what is to come. */
  lemma VisitPlanned(a: Adj, left: set<BlockId>, ns: States, stack: seq<BlockId>)
    requires |stack| > 0 && stack[|stack| - 1] in left && (forall c :: c in left ==> Unvisited(ns, c))
    ensures var b := stack[|stack| - 1];
      var ns' := ns[b := Visited];
      Upcoming(a, left - {b}, OpenBlocks(ns'), stack + FilterUnvisited(ns', Out(a, b))) == Upcoming(a, left, OpenBlocks(ns), stack)
  {
    var b := stack[|stack| - 1];
    var ns' := ns[b := Visited];
    var (rest, open) := (left - {b}, OpenBlocks(ns'));
    assert open == OpenBlocks(ns) + {b} && open - {b} == OpenBlocks(ns);
    VisitedSkipped(a, rest, ns', Out(a, b));
    PushedFirst(a, rest, open, stack, FilterUnvisited(ns', Out(a, b)));
  }

  /** Popping the top block takes it from what is to come, if that finishes it. */
  lemma PopPlanned(a: Adj, left: set<BlockId>, ns: States, stack: seq<BlockId>)
    requires |stack| > 0 && stack[|stack| - 1] in ns && (forall c :: c in left ==> Unvisited(ns, c))
    ensures var (b, rest) := (stack[|stack| - 1], stack[..|stack| - 1]);
      Upcoming(a, left, OpenBlocks(ns), stack)
        == if HasFinished(ns, b) then Upcoming(a, left, OpenBlocks(ns), rest) else [b] + Upcoming(a, left, OpenBlocks(ns[b := Finished]), rest)
  {
    var b := stack[|stack| - 1];
    assert !HasFinished(ns, b) ==> OpenBlocks(ns[b := Finished]) == OpenBlocks(ns) - {b};
  }

  /** Every block a traversal can meet. */
  ghost function AllBlocks(g: Cfg): set<BlockId> {
    Universe(g.succs) + (if g.entry.Some? then {g.entry.value} else {})
  }

  /** The order of the recursive traversal from the entry. */
  ghost function RecursiveOrder(g: Cfg): seq<BlockId> {
    if g.entry.Some? then Dfs(g.succs, AllBlocks(g), [g.entry.value]).1 else []
  }

  class CfgPostOrder {
    const cfg: Cfg
    var nodeState: States
    var stack: seq<BlockId>
    ghost var yielded: seq<BlockId>

    ghost predicate Valid()
      reads this
    {
      TraversalInv(cfg.succs, cfg.entry, nodeState, stack, yielded) && OnPlan()
    }

    /** What was yielded and what is to come is the recursive order. */
    ghost predicate OnPlan()
      reads this
    {
      yielded + Upcoming(cfg.succs, Blocks() - nodeState.Keys, OpenBlocks(nodeState), stack) == RecursiveOrder(cfg)
    }

    /** Every block the traversal can ever meet. */
    ghost function Blocks(): set<BlockId> { AllBlocks(cfg) }

    lemma VisitedInBlocks()
      requires Valid()
      ensures forall b :: b in stack || b in nodeState ==> b in Blocks()
    {
      forall b | b in stack || b in nodeState ensures b in Blocks() {
        ReachInUniverse(cfg.succs, cfg.entry.value, b);
      }
    }

    constructor (g: Cfg)
      ensures Valid() && cfg == g && yielded == []
    {
      cfg := g;
      nodeState := map[];
      stack := if g.entry.Some? then [g.entry.value] else [];
      yielded := [];
      new;
      if g.entry.Some? { ReachRefl(g.succs, g.entry.value); }
      PlanStarts(g);
      assert Blocks() - nodeState.Keys == AllBlocks(g) && [] + RecursiveOrder(g) == RecursiveOrder(g);
    }

    /** Marks `block` visited and pushes its unvisited successors. */
    method Visit(block: BlockId)
      requires Valid() && |stack| > 0 && block == stack[|stack| - 1] && Unvisited(nodeState, block) && block in Blocks()
      modifies this`nodeState, this`stack
      ensures Valid() && nodeState.Keys == old(nodeState).Keys + {block}
    {
      hide TraversalInv, Upcoming, RecursiveOrder, OpenBlocks, AllBlocks;
      nodeState := nodeState[block := Visited];
      var succs := Out(cfg.succs, block);
      var k := 0;
      while k < |succs|
        invariant 0 <= k <= |succs|
        invariant nodeState == old(nodeState)[block := Visited]
        invariant stack == old(stack) + FilterUnvisited(nodeState, succs[..k])
      {
        assert succs[..k + 1][..k] == succs[..k];
        if Unvisited(nodeState, succs[k]) {
          stack := stack + [succs[k]];
        }
        k := k + 1;
      }
      assert succs[..k] == succs;
      VisitPlanned(cfg.succs, Blocks() - old(nodeState).Keys, old(nodeState), old(stack));
      assert Blocks() - nodeState.Keys == Blocks() - old(nodeState).Keys - {block};
      VisitStep(cfg.succs, cfg.entry, old(nodeState), old(stack), yielded, nodeState, stack);
    }

    /** Pops the top block; reports whether that finished it. */
    method Pop(block: BlockId) returns (finished: bool)
      requires Valid() && |stack| > 0 && block == stack[|stack| - 1] && !Unvisited(nodeState, block)
      modifies this
      ensures Valid() && stack == old(stack)[..|old(stack)| - 1] && nodeState.Keys == old(nodeState).Keys
      ensures yielded == if finished then old(yielded) + [block] else old(yielded)
    {
      hide TraversalInv;
      PopPlanned(cfg.succs, Blocks() - nodeState.Keys, nodeState, stack);
      finished := !HasFinished(nodeState, block);
      if finished {
        FinishStep(cfg.succs, cfg.entry, nodeState, stack, yielded);
        nodeState := nodeState[block := Finished];
        yielded := yielded + [block];
      } else {
        PopStep(cfg.succs, cfg.entry, nodeState, stack, yielded);
      }
      stack := stack[..|stack| - 1];
      assert Blocks() - nodeState.Keys == Blocks() - old(nodeState).Keys;
      assert forall s: seq<BlockId> :: old(yielded) + ([block] + s) == old(yielded) + [block] + s;
    }

    /** Yields the next finished block, or nothing once every reachable block
        has been yielded. */
    method Next() returns (r: Option<BlockId>)
      requires Valid()
      modifies this
      ensures Valid()
      ensures r.Some? ==> yielded == old(yielded) + [r.value]
      ensures r.None? ==> yielded == old(yielded) && stack == []
    {
      while |stack| > 0
        invariant Valid() && yielded == old(yielded)
        decreases Blocks() - nodeState.Keys, |stack|
      {
        var block := stack[|stack| - 1];
        VisitedInBlocks();
        if Unvisited(nodeState, block) {
          Visit(block);
        } else {
          var finished := Pop(block);
          if finished { return Some(block); }
        }
      }
      r := None;
    }
  }

  lemma PlanStarts(g: Cfg)
    ensures OpenBlocks(map[]) == {}
    ensures var stack := if g.entry.Some? then [g.entry.value] else []; Upcoming(g.succs, AllBlocks(g), {}, stack) == RecursiveOrder(g)
  {
    if g.entry.Some? {
      PushedFirst(g.succs, AllBlocks(g), {}, [], [g.entry.value]);
      assert [] + [g.entry.value] == [g.entry.value];
    }
  }

  /** `cfg.post_order().collect()`. */
  method PostOrder(g: Cfg) returns (po: seq<BlockId>)
    ensures g.entry.Some? ==> DfsPostOrder(g.succs, g.entry.value, po)
    ensures g.entry.None? ==> po == []
    ensures po == RecursiveOrder(g)
  {
    var it := new CfgPostOrder(g);
    po := [];
    var next := it.Next();
    while next.Some?
      invariant it.Valid() && it.cfg == g && fresh(it)
      invariant next.Some? ==> it.yielded == po + [next.value]
      invariant next.None? ==> it.yielded == po && it.stack == []
      decreases next.Some?, |it.Blocks()| - |po|
    {
      po := po + [next.value];
      ghost var sofar := Elems(po);
      NoDupSize(po);
      it.VisitedInBlocks();
      SubsetSize(sofar, it.Blocks());
      next := it.Next();
      if next.Some? {
        NoDupSize(it.yielded);
        it.VisitedInBlocks();
        SubsetSize(Elems(it.yielded), it.Blocks());
      }
    }
    TraversalDone(g.succs, g.entry, it.nodeState, po);
  }

  // ----- what the order promises its users

  ghost function Position(po: seq<Node>, b: Node): (i: nat)
    requires b in po
    ensures i < |po| && po[i] == b
  {
    var i: nat :| i < |po| && po[i] == b; i
  }

  lemma PositionIs(po: seq<Node>, i: nat)
    requires NoDup(po) && i < |po|
    ensures Position(po, po[i]) == i
  {
  }

  /** For an edge between yielded blocks, either its target is yielded first or
      it closes a cycle. */
  lemma EdgeOrder(a: Adj, entry: Node, po: seq<Node>, u: Node, v: Node)
    requires DfsPostOrder(a, entry, po) && u in po && Edge(a, u, v)
    ensures v in po
    ensures Position(po, v) < Position(po, u) || Reach(a, v, u)
  {
    ReachSnoc(a, entry, u, v);
    var i := Position(po, u);
    assert OpenTargetsReach(a, po, i);
    PrefixElems(po, i + 1);
    if v in po[..i + 1] {
      var k :| 0 <= k < i + 1 && po[k] == v;
      PositionIs(po, k);
      if k == i { ReachRefl(a, u); }
    }
  }

  /** A block that reaches `po[r]` through blocks yielded no later than `po[r]`
      is reached by it: the fact behind Kosaraju's algorithm. */
  lemma ReachedBackFromLatest(a: Adj, entry: Node, po: seq<Node>, x: nat, r: nat, p: seq<Node>)
    requires DfsPostOrder(a, entry, po) && x <= r < |po|
    requires Path(a, po[x], p, po[r])
    requires forall b :: b in p ==> b in po && Position(po, b) <= r
    ensures Reach(a, po[r], po[x])
    decreases r - x
  {
    if x == r {
      ReachRefl(a, po[r]);
    } else {
      // the walk leaves the first x+1 blocks at some point
      var s := Elems(po[..x + 1]);
      PrefixElems(po, x + 1);
      assert po[r] !in s;
      var u, v, pu, pv := PathCrossing(a, s, po[x], p, po[r]);
      assert OpenTargetsReach(a, po, x);
      assert v in p;
      var k := Position(po, v);
      assert k > x;
      assert forall b :: b in pv ==> b in p;
      ReachedBackFromLatest(a, entry, po, k, r, pv);
      ReachTrans(a, po[r], v, po[x]);
    }
  }

  /** In reverse post-order every block but the entry has an earlier predecessor. */
  lemma EarlierPredecessor(a: Adj, entry: Node, po: seq<Node>, b: Node) returns (u: Node)
    requires DfsPostOrder(a, entry, po) && b in po && b != entry
    ensures u in po && Edge(a, u, b) && Position(po, u) > Position(po, b)
  {
    var k := Position(po, b);
    assert HasLaterPredecessor(a, po, k);
    var i :| k < i < |po| && Edge(a, po[i], po[k]);
    PositionIs(po, i);
    u := po[i];
  }

  lemma EntryYieldedLast(a: Adj, entry: Node, po: seq<Node>)
    requires DfsPostOrder(a, entry, po)
    ensures |po| > 0 && po[|po| - 1] == entry
  {
    ReachRefl(a, entry);
    var e := Position(po, entry);
    assert !HasLaterPredecessor(a, po, |po| - 1);
  }
}
