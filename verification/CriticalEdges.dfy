/**
 Building the control flow graph of a function (crates/ir/src/cfg.rs:6-118) and
 splitting its critical edges (crates/codegen/src/critical_edge.rs,
 crates/codegen/src/cfg_edit.rs:206-237, 578-602).
 */
module CriticalEdges {
  import opened Options
  import opened Ir
  import Words
  import SccpSound

  // ----- the edges of a function

  type Table = map<BlockId, set<BlockId>>

  function Row(t: Table, b: BlockId): set<BlockId> { if b in t then t[b] else {} }

  /** Predecessors and successors say the same. */
  ghost predicate Mirrored(preds: Table, succs: Table) {
    forall b, d {:trigger d in Row(succs, b)} {:trigger b in Row(preds, d)} :: d in Row(succs, b) <==> b in Row(preds, d)
  }

  lemma EdgeAdded(preds: Table, succs: Table, from: BlockId, to: BlockId)
    requires Mirrored(preds, succs)
    ensures Mirrored(preds[to := Row(preds, to) + {from}], succs[from := Row(succs, from) + {to}])
    ensures forall b, d :: d in Row(succs[from := Row(succs, from) + {to}], b) <==> d in Row(succs, b) || (b == from && d == to)
  {
    var (p, s) := (preds[to := Row(preds, to) + {from}], succs[from := Row(succs, from) + {to}]);
    forall b, d ensures d in Row(s, b) <==> b in Row(p, d) { assert d in Row(succs, b) <==> b in Row(preds, d); }
  }

  lemma EdgeRemoved(preds: Table, succs: Table, from: BlockId, to: BlockId)
    requires Mirrored(preds, succs)
    ensures Mirrored(preds[to := Row(preds, to) - {from}], succs[from := Row(succs, from) - {to}])
    ensures forall b, d :: d in Row(succs[from := Row(succs, from) - {to}], b) <==> d in Row(succs, b) && !(b == from && d == to)
  {
    var (p, s) := (preds[to := Row(preds, to) - {from}], succs[from := Row(succs, from) - {to}]);
    forall b, d ensures d in Row(s, b) <==> b in Row(p, d) { assert d in Row(succs, b) <==> b in Row(preds, d); }
  }

  /** `t` has the edges of `s` and those from `b` to `ds`. */
  ghost predicate Extended(s: Table, t: Table, b: BlockId, ds: seq<BlockId>) {
    forall c, d {:trigger d in Row(t, c)} :: d in Row(t, c) <==> d in Row(s, c) || (c == b && d in ds)
  }

  lemma ExtendedStep(s: Table, t: Table, u: Table, b: BlockId, ds: seq<BlockId>, k: nat)
    requires k < |ds| && Extended(s, t, b, ds[..k])
    requires forall c, d {:trigger d in Row(u, c)} :: d in Row(u, c) <==> d in Row(t, c) || (c == b && d == ds[k])
    ensures Extended(s, u, b, ds[..k + 1])
  {
    assert ds[..k + 1] == ds[..k] + [ds[k]];
  }

  lemma EdgesOf(f: Function, b: BlockId)
    ensures forall d :: HasEdge(f, b, d) <==> f.LastInst(b).Some? && d in Dests(f.At(f.LastInst(b).value))
  {
  }

  lemma EdgeFrom(f: Function, b: BlockId, d: BlockId)
    ensures HasEdge(f, b, d) ==> b in f.layout
  {
  }

  class ControlFlowGraph {
    var entry: Option<BlockId>
    var preds: Table
    var succs: Table
    var exits: seq<BlockId>

    ghost predicate Valid()
      reads this
    {
      Mirrored(preds, succs)
    }

    constructor ()
      ensures Valid() && succs == map[] == preds
    {
      entry, preds, succs, exits := None, map[], map[], [];
    }

    method AddEdge(from: BlockId, to: BlockId)
      requires Valid()
      modifies this`preds, this`succs
      ensures Valid()
      ensures forall b, d {:trigger d in Row(succs, b)} :: d in Row(succs, b) <==> d in Row(old(succs), b) || (b == from && d == to)
    {
      hide Mirrored, Row;
      EdgeAdded(preds, succs, from, to);
      preds := preds[to := Row(preds, to) + {from}];
      succs := succs[from := Row(succs, from) + {to}];
    }

    method RemoveEdge(from: BlockId, to: BlockId)
      requires Valid()
      modifies this`preds, this`succs
      ensures Valid()
      ensures forall b, d {:trigger d in Row(succs, b)} :: d in Row(succs, b) <==> d in Row(old(succs), b) && !(b == from && d == to)
    {
      hide Mirrored, Row;
      EdgeRemoved(preds, succs, from, to);
      preds := preds[to := Row(preds, to) - {from}];
      succs := succs[from := Row(succs, from) - {to}];
    }

    method ReverseEdges(newEntry: BlockId, newExits: seq<BlockId>)
      requires Valid()
      modifies this
      ensures Valid() && entry == Some(newEntry) && exits == newExits
      ensures forall b, d {:trigger d in Row(succs, b)} :: d in Row(succs, b) <==> b in Row(old(succs), d)
    {
      preds, succs := succs, preds;
      entry, exits := Some(newEntry), newExits;
    }

    /** `compute`: the edges of the terminators, and the blocks that leave. */
    method Compute(f: Function)
      modifies this
      ensures Valid() && entry == Some(f.entry)
      ensures Describes(f, succs)
      ensures forall b :: b in exits <==> b in f.layout && f.LastInst(b).Some? && (f.At(f.LastInst(b).value).Return? || f.At(f.LastInst(b).value).Unreachable?)
    {
      assert forall inst: Inst {:trigger IsExit(inst)} :: IsExit(inst) <==> inst.Return? || inst.Unreachable?;
      hide HasEdge, IsExit;
      entry, preds, succs, exits := Some(f.entry), map[], map[], [];
      var rest := f.layout.Keys;
      while rest != {}
        invariant rest <= f.layout.Keys && Valid() && entry == Some(f.entry)
        invariant forall b, d {:trigger d in Row(succs, b)} :: d in Row(succs, b) <==> b in f.layout && b !in rest && HasEdge(f, b, d)
        invariant forall b :: b in exits <==> b in f.layout && b !in rest && f.LastInst(b).Some? && IsExit(f.At(f.LastInst(b).value))
        decreases |rest|
      {
        var b: BlockId :| b in rest;
        rest := rest - {b};
        if f.LastInst(b).Some? { AnalyzeInst(f, b, f.LastInst(b).value); }
        EdgesOf(f, b);
      }
      forall b, d ensures HasEdge(f, b, d) ==> b in f.layout { EdgeFrom(f, b, d); }
    }

    method AnalyzeInst(f: Function, b: BlockId, last: InstId)
      requires Valid()
      modifies this`preds, this`succs, this`exits
      ensures Valid()
      ensures Extended(old(succs), succs, b, Dests(f.At(last)))
      ensures exits == if IsExit(f.At(last)) then old(exits) + [b] else old(exits)
    {
      assert Extended(succs, succs, b, Dests(f.At(last))[..0]);
      hide Mirrored, IsExit, Extended;
      if IsExit(f.At(last)) { exits := exits + [b]; }
      ghost var left := exits;
      var ds, k := Dests(f.At(last)), 0;
      while k < |ds|
        invariant 0 <= k <= |ds| && Valid() && exits == left
        invariant Extended(old(succs), succs, b, ds[..k])
      {
        ghost var before := succs;
        AddEdge(b, ds[k]);
        ExtendedStep(old(succs), before, succs, b, ds, k);
        k := k + 1;
      }
      assert ds[..k] == ds;
    }
  }

  predicate IsExit(inst: Inst) { IsTerminator(inst) && !IsBranch(inst) }

  ghost predicate Describes(f: Function, succs: Table) {
    forall b, d {:trigger d in Row(succs, b)} {:trigger HasEdge(f, b, d)} :: d in Row(succs, b) <==> HasEdge(f, b, d)
  }

  // ----- critical edges

  ghost predicate Branches(f: Function, b: BlockId) {
    exists d, e :: d != e && HasEdge(f, b, d) && HasEdge(f, b, e)
  }

  ghost predicate Merges(f: Function, d: BlockId) {
    exists b, c :: b != c && HasEdge(f, b, d) && HasEdge(f, c, d)
  }

  /** From a block with several successors to one with several predecessors. */
  ghost predicate Critical(f: Function, b: BlockId, d: BlockId) {
    HasEdge(f, b, d) && Branches(f, b) && Merges(f, d)
  }

  // ----- splitting one edge

  function Redirect(d: BlockId, from: BlockId, to: BlockId): BlockId { if d == from then to else d }

  function RedirectTable(table: seq<(ValueId, BlockId)>, from: BlockId, to: BlockId): (r: seq<(ValueId, BlockId)>)
    ensures |r| == |table| && forall k :: 0 <= k < |r| ==> r[k] == (table[k].0, Redirect(table[k].1, from, to))
  {
    if table == [] then [] else [(table[0].0, Redirect(table[0].1, from, to))] + RedirectTable(table[1..], from, to)
  }

  /** `try_convert_branch_to_jump`. */
  function MaybeJump(inst: Inst): Inst {
    var ds := Dests(inst);
    if ds == [] then Unreachable
    else if forall k :: 0 <= k < |ds| ==> ds[k] == ds[0] then Jump(ds[0])
    else inst
  }

  /** `BranchInfo::rewrite_dest`. */
  function RewriteDest(inst: Inst, from: BlockId, to: BlockId): Inst {
    match inst
    case Jump(d) => Jump(Redirect(d, from, to))
    case Br(c, nz, z) => MaybeJump(Br(c, Redirect(nz, from, to), Redirect(z, from, to)))
    case BrTable(v, default, table) =>
      MaybeJump(BrTable(v, if default.Some? then Some(Redirect(default.value, from, to)) else None, RedirectTable(table, from, to)))
    case _ => inst
  }

  /** A phi of `to` after its incoming block `from` has become `mid`. */
  function Renamed(inst: Inst, from: BlockId, mid: BlockId): Inst {
    if inst.Phi? then Phi(RedirectTable(inst.args, from, mid)) else inst
  }

  predicate Splittable(f: Function, from: BlockId, to: BlockId, mid: BlockId, jump: InstId) {
    HasEdge(f, from, to) && to in f.layout && from in f.layout && mid !in f.layout && jump !in f.home && jump !in f.insts && jump !in f.results
  }

  function SplitInst(f: Function, from: BlockId, to: BlockId, mid: BlockId, jump: InstId, i: InstId): Inst {
    if i == jump then Jump(to)
    else if f.LastInst(from) == Some(i) then RewriteDest(f.At(i), to, mid)
    else if i in f.home && f.home[i] == to then Renamed(f.At(i), from, mid)
    else f.At(i)
  }

  /** `g` is `f` with the edge from `from` to `to` led over the new block `mid`. */
  ghost predicate SplitOf(f: Function, g: Function, from: BlockId, to: BlockId, mid: BlockId, jump: InstId) {
    && g.args == f.args && g.values == f.values && g.types == f.types && g.results == f.results && g.users == f.users
    && g.entry == (if f.entry == to then mid else f.entry)
    && g.layout == f.layout[mid := [jump]] && g.home == f.home[jump := mid]
    && (forall i {:trigger g.At(i)} :: g.At(i) == SplitInst(f, from, to, mid, jump, i))
  }

  lemma {:induction false} SecondRedirect(table: seq<(ValueId, BlockId)>, from: BlockId, to: BlockId)
    ensures Second(RedirectTable(table, from, to)) == RedirectAll(Second(table), from, to)
  {
    if table != [] { SecondRedirect(table[1..], from, to); }
  }

  function RedirectAll(ds: seq<BlockId>, from: BlockId, to: BlockId): (r: seq<BlockId>)
    ensures |r| == |ds| && forall k :: 0 <= k < |r| ==> r[k] == Redirect(ds[k], from, to)
  {
    if ds == [] then [] else [Redirect(ds[0], from, to)] + RedirectAll(ds[1..], from, to)
  }

  lemma MaybeJumpDests(inst: Inst)
    requires IsBranch(inst)
    ensures forall d :: d in Dests(MaybeJump(inst)) <==> d in Dests(inst)
  {
  }

  predicate AllSame(ds: seq<BlockId>) { forall k :: 0 <= k < |ds| ==> ds[k] == ds[0] }

  /** Every entry of a branch is redirected by itself; a branch whose entries then
      all go to one block is a jump. */
  lemma RewriteForm(inst: Inst, from: BlockId, to: BlockId)
    requires IsBranch(inst)
    ensures var (ds, r) := (RedirectAll(Dests(inst), from, to), RewriteDest(inst, from, to));
      if ds == [] then r == Unreachable
      else if AllSame(ds) then r == Jump(ds[0])
      else Dests(r) == ds && Operands(r) == Operands(inst) && r.Br? == inst.Br?
  {
    hide RedirectAll, Redirect, AllSame, TableDests, RedirectTable, First, MaybeJump;
    match inst
    case Jump(d) => JumpForm(d, from, to);
    case Br(c, nz, z) =>
      PairForm(nz, z, from, to);
      MaybeJumpForm(Br(c, Redirect(nz, from, to), Redirect(z, from, to)));
    case BrTable(v, default, table) =>
      TableDestsRedirect(default, table, from, to);
      FirstRedirect(table, from, to);
      MaybeJumpForm(BrTable(v, if default.Some? then Some(Redirect(default.value, from, to)) else None, RedirectTable(table, from, to)));
  }

  lemma JumpForm(d: BlockId, from: BlockId, to: BlockId)
    ensures RedirectAll([d], from, to) == [Redirect(d, from, to)] && AllSame([Redirect(d, from, to)])
  {
  }

  lemma PairForm(d: BlockId, e: BlockId, from: BlockId, to: BlockId)
    ensures RedirectAll([d, e], from, to) == [Redirect(d, from, to), Redirect(e, from, to)]
  {
  }

  lemma MaybeJumpForm(inst: Inst)
    ensures var ds := Dests(inst); MaybeJump(inst) == if ds == [] then Unreachable else if AllSame(ds) then Jump(ds[0]) else inst
  {
  }

  lemma FirstRedirect(table: seq<(ValueId, BlockId)>, from: BlockId, to: BlockId)
    ensures First(RedirectTable(table, from, to)) == First(table)
  {
  }

  predicate Comes(ds: seq<BlockId>, from: BlockId, to: BlockId, d: BlockId) {
    exists e :: e in ds && d == Redirect(e, from, to)
  }

  lemma {:induction false} RedirectMembers(ds: seq<BlockId>, from: BlockId, to: BlockId, d: BlockId)
    ensures d in RedirectAll(ds, from, to) <==> Comes(ds, from, to, d)
  {
    var es := RedirectAll(ds, from, to);
    if d in es {
      var k :| 0 <= k < |es| && es[k] == d;
      assert ds[k] in ds;
    }
    if Comes(ds, from, to, d) {
      var e :| e in ds && d == Redirect(e, from, to);
      var k :| 0 <= k < |ds| && ds[k] == e;
      assert es[k] == d;
    }
  }

  lemma TableDestsRedirect(default: Option<BlockId>, table: seq<(ValueId, BlockId)>, from: BlockId, to: BlockId)
    ensures TableDests(if default.Some? then Some(Redirect(default.value, from, to)) else None, RedirectTable(table, from, to))
         == RedirectAll(TableDests(default, table), from, to)
  {
    SecondRedirect(table, from, to);
    var def := if default.Some? then Some(Redirect(default.value, from, to)) else None;
    var (ds, es) := (TableDests(default, table), TableDests(def, RedirectTable(table, from, to)));
    assert forall k :: 0 <= k < |ds| ==> es[k] == Redirect(ds[k], from, to);
  }

  lemma RewriteDests(inst: Inst, from: BlockId, to: BlockId, d: BlockId)
    requires IsBranch(inst)
    ensures d in Dests(RewriteDest(inst, from, to)) <==> Comes(Dests(inst), from, to, d)
  {
    match inst
    case Jump(t) => assert t in Dests(inst);
    case Br(c, nz, z) =>
      MaybeJumpDests(Br(c, Redirect(nz, from, to), Redirect(z, from, to)));
      assert nz in Dests(inst) && z in Dests(inst);
    case BrTable(v, default, table) =>
      var def := if default.Some? then Some(Redirect(default.value, from, to)) else None;
      MaybeJumpDests(BrTable(v, def, RedirectTable(table, from, to)));
      TableDestsRedirect(default, table, from, to);
      RedirectMembers(Dests(inst), from, to, d);
      hide MaybeJump, TableDests, RedirectTable, RedirectAll, Comes;
  }

  // ----- what a split does to the edges

  lemma LastHere(f: Function, b: BlockId)
    requires WellFormed(f) && f.LastInst(b).Some?
    ensures var i := f.LastInst(b).value; i in f.home && f.home[i] == b && InstOk(f, i)
  {
    hide ValueOk, HomeOk;
    assert BodyOk(f, b) && PlacedAt(f, b, f.LastInst(b).value);
  }

  lemma EdgesInside(f: Function, b: BlockId, d: BlockId)
    requires WellFormed(f) && HasEdge(f, b, d)
    ensures b in f.layout && d in f.layout
  {
    LastHere(f, b);
  }

  lemma RenamedKind(inst: Inst, from: BlockId, mid: BlockId)
    ensures var r := Renamed(inst, from, mid);
      Dests(r) == Dests(inst) && IsBranch(r) == IsBranch(inst) && r.Return? == inst.Return? && (!inst.Phi? ==> r == inst)
  {
  }

  lemma NoDests(inst: Inst)
    ensures !IsBranch(inst) ==> Dests(inst) == []
  {
  }

  lemma SourceEdges(f: Function, g: Function, from: BlockId, to: BlockId, mid: BlockId, jump: InstId, d: BlockId)
    requires WellFormed(f) && Splittable(f, from, to, mid, jump) && SplitOf(f, g, from, to, mid, jump)
    ensures HasEdge(g, from, d) <==> d == mid || (d != to && HasEdge(f, from, d))
  {
    hide WellFormed, Dests, RewriteDest, Redirect;
    var i := f.LastInst(from).value;
    LastHere(f, from);
    NoDests(f.At(i));
    assert g.Body(from) == f.Body(from) && g.At(i) == SplitInst(f, from, to, mid, jump, i) == RewriteDest(f.At(i), to, mid);
    RewriteDests(f.At(i), to, mid, d);
    RedirectedFrom(Dests(f.At(i)), to, mid, d);
    if mid in Dests(f.At(i)) { EdgesInside(f, from, mid); }
  }

  lemma RedirectedFrom(ds: seq<BlockId>, to: BlockId, mid: BlockId, d: BlockId)
    requires to in ds
    ensures Comes(ds, to, mid, d) <==> d == mid || (d != to && d in ds) || (d == to == mid)
  {
    if d == mid { assert d == Redirect(to, to, mid); }
    if d != to && d in ds { assert d == Redirect(d, to, mid); }
  }

  lemma EdgesAfter(f: Function, g: Function, from: BlockId, to: BlockId, mid: BlockId, jump: InstId, b: BlockId, d: BlockId)
    requires WellFormed(f) && Splittable(f, from, to, mid, jump) && SplitOf(f, g, from, to, mid, jump)
    ensures HasEdge(g, b, d) <==>
      if b == mid then d == to else if b == from then d == mid || (d != to && HasEdge(f, b, d)) else HasEdge(f, b, d)
    ensures HasEdge(f, b, d) ==> b != mid && d != mid
  {
    assert Dests(Jump(to)) == [to];
    hide WellFormed, Dests, RewriteDest, SplitInst;
    if HasEdge(f, b, d) { EdgesInside(f, b, d); }
    if b == from {
      SourceEdges(f, g, from, to, mid, jump, d);
    } else if b == mid {
      SplitJump(f, g, from, to, mid, jump);
    } else {
      OtherEdges(f, g, from, to, mid, jump, b, d);
    }
  }

  lemma SplitJump(f: Function, g: Function, from: BlockId, to: BlockId, mid: BlockId, jump: InstId)
    requires SplitOf(f, g, from, to, mid, jump)
    ensures g.LastInst(mid) == Some(jump) && g.At(jump) == Jump(to)
  {
  }

  lemma OtherEdges(f: Function, g: Function, from: BlockId, to: BlockId, mid: BlockId, jump: InstId, b: BlockId, d: BlockId)
    requires WellFormed(f) && Splittable(f, from, to, mid, jump) && SplitOf(f, g, from, to, mid, jump) && b != mid && b != from
    ensures HasEdge(g, b, d) <==> HasEdge(f, b, d)
  {
    hide WellFormed, Dests, RewriteDest, Renamed, IsBranch;
    assert g.Body(b) == f.Body(b);
    if f.LastInst(b).Some? {
      var i := f.LastInst(b).value;
      LastHere(f, b);
      LastHere(f, from);
      assert g.At(i) == SplitInst(f, from, to, mid, jump, i) && i != jump && f.LastInst(from) != Some(i);
      RenamedKind(f.At(i), from, mid);
    }
  }

  lemma SplitEdgeThere(f: Function, from: BlockId, to: BlockId, mid: BlockId, jump: InstId)
    requires Splittable(f, from, to, mid, jump)
    ensures HasEdge(f, from, to)
  {
  }

  /** A split makes no edge critical, and its own edge is gone. */
  lemma CriticalAfter(f: Function, g: Function, from: BlockId, to: BlockId, mid: BlockId, jump: InstId, b: BlockId, d: BlockId)
    requires WellFormed(f) && Splittable(f, from, to, mid, jump) && SplitOf(f, g, from, to, mid, jump)
    requires Critical(g, b, d)
    ensures Critical(f, b, d) && !(b == from && d == to)
  {
    hide HasEdge, WellFormed, Splittable, SplitOf, SplitInst;
    SplitEdgeThere(f, from, to, mid, jump);
    forall x, y ensures HasEdge(g, x, y) <==>
      if x == mid then y == to else if x == from then y == mid || (y != to && HasEdge(f, x, y)) else HasEdge(f, x, y)
    ensures HasEdge(f, x, y) ==> x != mid && y != mid
    { EdgesAfter(f, g, from, to, mid, jump, x, y); }
    var e1, e2 :| e1 != e2 && HasEdge(g, b, e1) && HasEdge(g, b, e2);
    var c1, c2 :| c1 != c2 && HasEdge(g, c1, d) && HasEdge(g, c2, d);
    var (x1, x2) := (if e1 == mid then to else e1, if e2 == mid then to else e2);
    assert b != mid && x1 != x2 && HasEdge(f, b, x1) && HasEdge(f, b, x2);
    var (y1, y2) := (if c1 == mid then from else c1, if c2 == mid then from else c2);
    assert d != mid && y1 != y2 && HasEdge(f, y1, d) && HasEdge(f, y2, d);
  }

  lemma RedirectSecond(args: seq<(ValueId, BlockId)>, from: BlockId, mid: BlockId, p: BlockId)
    ensures p in Second(RedirectTable(args, from, mid)) <==> Comes(Second(args), from, mid, p)
  {
    SecondRedirect(args, from, mid);
    RedirectMembers(Second(args), from, mid, p);
  }

  /** Phis still have one incoming value for each predecessor. */
  lemma PhisFitAfter(f: Function, g: Function, from: BlockId, to: BlockId, mid: BlockId, jump: InstId)
    requires WellFormed(f) && Splittable(f, from, to, mid, jump) && SplitOf(f, g, from, to, mid, jump) && PhisFit(f)
    ensures PhisFit(g)
  {
    hide WellFormed, HasEdge;
    forall i {:trigger g.At(i)} | i in g.home && g.At(i).Phi? ensures PhiFits(g, g.home[i], g.At(i).args) {
      assert g.At(i) == SplitInst(f, from, to, mid, jump, i);
      PhiUnsplit(f, from, to, mid, jump, i);
      var (b, args) := (f.home[i], f.At(i).args);
      assert PhiFits(f, b, args);
      forall p ensures HasEdge(g, p, b) <==> if p == mid then b == to else if p == from then b == mid || (b != to && HasEdge(f, p, b)) else HasEdge(f, p, b) {
        EdgesAfter(f, g, from, to, mid, jump, p, b);
      }
      assert !HasEdge(f, mid, b) by { EdgesAfter(f, g, from, to, mid, jump, mid, b); }
      assert b != mid by { PlacedInLayout(f, i); }
      if b == to {
        assert HasEdge(f, from, to) && from != mid;
        RedirectFits(f, g, from, to, mid, args);
      }
    }
  }

  lemma RedirectFits(f: Function, g: Function, from: BlockId, to: BlockId, mid: BlockId, args: seq<(ValueId, BlockId)>)
    requires PhiFits(f, to, args) && HasEdge(f, from, to) && !HasEdge(f, mid, to) && from != mid
    requires forall p :: HasEdge(g, p, to) <==> p == mid || (p != from && HasEdge(f, p, to))
    ensures PhiFits(g, to, RedirectTable(args, from, mid))
  {
    hide HasEdge, RedirectTable;
    RedirectDistinct(args, from, mid);
    var r := RedirectTable(args, from, mid);
    assert from in Second(args) && mid !in Second(args);
    forall p ensures p in Second(r) <==> HasEdge(g, p, to) {
      RedirectSecond(args, from, mid, p);
      if p == mid {
        assert p == Redirect(from, from, mid);
      } else if p != from && HasEdge(f, p, to) {
        assert p in Second(args) && p == Redirect(p, from, mid);
      }
    }
  }

  lemma PlacedInLayout(f: Function, i: InstId)
    requires WellFormed(f) && i in f.home
    ensures f.home[i] in f.layout
  {
    assert HomeOk(f, i);
  }

  /** A phi comes from a phi of the same block. */
  lemma PhiUnsplit(f: Function, from: BlockId, to: BlockId, mid: BlockId, jump: InstId, i: InstId)
    requires WellFormed(f) && Splittable(f, from, to, mid, jump) && i in f.home[jump := mid] && SplitInst(f, from, to, mid, jump, i).Phi?
    ensures i in f.home && f.At(i).Phi? && i != jump
    ensures SplitInst(f, from, to, mid, jump, i) == if f.home[i] == to then Phi(RedirectTable(f.At(i).args, from, mid)) else f.At(i)
  {
    hide WellFormed;
    LastHere(f, from);
  }

  lemma RedirectDistinct(args: seq<(ValueId, BlockId)>, from: BlockId, mid: BlockId)
    requires forall j, k :: 0 <= j < k < |args| ==> args[j].1 != args[k].1
    requires mid !in Second(args)
    ensures var r := RedirectTable(args, from, mid); forall j, k :: 0 <= j < k < |r| ==> r[j].1 != r[k].1
  {
    assert forall k :: 0 <= k < |args| ==> Second(args)[k] == args[k].1;
  }

  // ----- a split function is well-formed

  lemma {:induction false} RedirectFirst(table: seq<(ValueId, BlockId)>, from: BlockId, to: BlockId)
    ensures First(RedirectTable(table, from, to)) == First(table)
  {
    if table != [] { RedirectFirst(table[1..], from, to); }
  }

  lemma MaybeJumpShape(inst: Inst)
    requires IsBranch(inst)
    ensures MaybeJump(inst) == inst || MaybeJump(inst).Jump? || MaybeJump(inst).Unreachable?
  {
  }

  /** A rewritten branch uses no other values than before. */
  lemma RewriteShape(f: Function, i: InstId, from: BlockId, to: BlockId)
    requires TypeOk(f, i) && IsBranch(f.At(i))
    ensures var r := RewriteDest(f.At(i), from, to);
      && !r.Phi? && !r.Effect? && !IsPure(r) && !r.Return?
      && (forall v :: v in Operands(r) ==> v in Operands(f.At(i)))
      && (r.BrTable? ==> forall k :: 0 <= k < |r.table| ==> f.Data(r.table[k].0).Immediate?)
  {
    match f.At(i)
    case Jump(_) =>
    case Br(c, nz, z) =>
      hide MaybeJump;
      MaybeJumpShape(Br(c, Redirect(nz, from, to), Redirect(z, from, to)));
    case BrTable(v, default, table) =>
      hide MaybeJump, First;
      RedirectFirst(table, from, to);
      MaybeJumpShape(BrTable(v, if default.Some? then Some(Redirect(default.value, from, to)) else None, RedirectTable(table, from, to)));
  }

  /** Two functions with the same values, results, users and types. */
  ghost predicate SameValues(f: Function, g: Function) {
    g.values == f.values && g.types == f.types && g.results == f.results && g.users == f.users
  }

  lemma SameInstOk(f: Function, g: Function, i: InstId)
    requires SameValues(f, g) && f.home.Keys <= g.home.Keys && InstOk(f, i) && (forall b :: b in f.layout ==> b in g.layout)
    requires g.At(i) == f.At(i)
    ensures InstOk(g, i)
  {
    hide Operands, Dests;
    assert forall v :: g.Data(v) == f.Data(v) && g.Type(v) == f.Type(v) && g.Users(v) == f.Users(v);
    assert g.ResultOf(i) == f.ResultOf(i);
  }

  lemma PhiInstOk(f: Function, g: Function, i: InstId, from: BlockId, mid: BlockId)
    requires SameValues(f, g) && f.home.Keys <= g.home.Keys && InstOk(f, i) && f.At(i).Phi? && g.At(i) == Phi(RedirectTable(f.At(i).args, from, mid))
    ensures InstOk(g, i)
  {
    RedirectFirst(f.At(i).args, from, mid);
    hide First;
    assert forall v :: g.Data(v) == f.Data(v) && g.Type(v) == f.Type(v) && g.Users(v) == f.Users(v);
    assert g.ResultOf(i) == f.ResultOf(i);
  }

  lemma BranchInstOk(f: Function, g: Function, i: InstId, to: BlockId, mid: BlockId)
    requires SameValues(f, g) && f.home.Keys <= g.home.Keys && InstOk(f, i) && IsBranch(f.At(i)) && g.At(i) == RewriteDest(f.At(i), to, mid)
    requires mid in g.layout && forall b :: b in f.layout ==> b in g.layout
    ensures InstOk(g, i)
  {
    RewriteShape(f, i, to, mid);
    forall d | d in Dests(g.At(i)) ensures d in g.layout { RewriteDests(f.At(i), to, mid, d); }
    hide RewriteDest, Operands, Dests;
    FewerOperandsOk(f, g, i);
    assert f.ResultOf(i) == None == g.ResultOf(i);
    assert TypeOk(g, i) by { assert forall v :: g.Data(v) == f.Data(v); }
  }

  lemma FewerOperandsOk(f: Function, g: Function, i: InstId)
    requires SameValues(f, g) && f.home.Keys <= g.home.Keys && UsersOk(f, i) && OperandsOk(f, i)
    requires forall v :: v in Operands(g.At(i)) ==> v in Operands(f.At(i))
    ensures UsersOk(g, i) && OperandsOk(g, i)
  {
    hide Operands;
    assert forall v :: g.Data(v) == f.Data(v) && g.Users(v) == f.Users(v);
  }

  lemma SplitInstOk(f: Function, g: Function, from: BlockId, to: BlockId, mid: BlockId, jump: InstId, i: InstId)
    requires WellFormed(f) && Splittable(f, from, to, mid, jump) && SplitOf(f, g, from, to, mid, jump) && i in g.home
    ensures InstOk(g, i)
  {
    assert f.LastInst(from).Some? && IsBranch(f.At(f.LastInst(from).value));
    hide HasEdge;
    assert g.At(i) == SplitInst(f, from, to, mid, jump, i);
    if i == jump {
      assert g.ResultOf(i) == None;
    } else {
      LastHere(f, from);
      assert InstOk(f, i);
      hide WellFormed, InstOk;
      if f.LastInst(from) == Some(i) {
        BranchInstOk(f, g, i, to, mid);
      } else if f.home[i] == to && f.At(i).Phi? {
        PhiInstOk(f, g, i, from, mid);
      } else {
        SameInstOk(f, g, i);
      }
    }
  }

  lemma SplitHomeOk(f: Function, g: Function, from: BlockId, to: BlockId, mid: BlockId, jump: InstId, i: InstId)
    requires WellFormed(f) && Splittable(f, from, to, mid, jump) && SplitOf(f, g, from, to, mid, jump) && i in g.home
    ensures HomeOk(g, i)
  {
    hide InstOk, ValueOk, BodyOk;
    if i != jump { assert HomeOk(f, i); }
  }

  lemma SameValueOk(f: Function, g: Function, v: ValueId)
    requires SameValues(f, g) && g.args == f.args && ValueOk(f, v)
    ensures ValueOk(g, v)
  {
    assert g.Data(v) == f.Data(v) && g.Type(v) == f.Type(v);
    assert f.Data(v).Result? ==> g.ResultOf(f.Data(v).inst) == f.ResultOf(f.Data(v).inst);
  }

  lemma SplitWellFormed(f: Function, g: Function, from: BlockId, to: BlockId, mid: BlockId, jump: InstId)
    requires WellFormed(f) && Splittable(f, from, to, mid, jump) && SplitOf(f, g, from, to, mid, jump)
    ensures WellFormed(g)
  {
    hide InstOk, HasEdge, ValueOk, BodyOk, HomeOk;
    forall i | i in g.home ensures InstOk(g, i) { SplitInstOk(f, g, from, to, mid, jump, i); }
    forall b ensures BodyOk(g, b) { SplitBodyOk(f, g, from, to, mid, jump, b); }
    forall i | i in g.home ensures HomeOk(g, i) { SplitHomeOk(f, g, from, to, mid, jump, i); }
    forall v ensures ValueOk(g, v) && g.Users(v) == f.Users(v) && g.Data(v) == f.Data(v) {
      assert ValueOk(f, v);
      SameValueOk(f, g, v);
    }
  }

  lemma SplitBodyOk(f: Function, g: Function, from: BlockId, to: BlockId, mid: BlockId, jump: InstId, b: BlockId)
    requires WellFormed(f) && Splittable(f, from, to, mid, jump) && SplitOf(f, g, from, to, mid, jump)
    ensures BodyOk(g, b)
  {
    hide InstOk, ValueOk, HomeOk;
    assert BodyOk(f, b);
    LastHere(f, from);
    forall i | i in g.Body(b) ensures PlacedAt(g, b, i) {
      assert g.At(i) == SplitInst(f, from, to, mid, jump, i);
      if b != mid { assert PlacedAt(f, b, i); }
    }
  }

  // ----- runs of a split function

  /** `w` is where `m` is; it may have come over the new block. */
  ghost predicate Follows(f: Function, from: BlockId, to: BlockId, mid: BlockId, m: Machine, w: Machine) {
    && w.block == m.block && w.at == m.at && w.locals == m.locals && w.events == m.events
    && m.block in f.layout && (m.prev.Some? ==> m.prev.value in f.layout)
    && (if m.prev == Some(from) && m.block == to then w.prev == Some(mid) else w.prev == m.prev || (m.prev.None? && m.block == to))
  }

  lemma {:induction false} IncomingSplit(val: Valuation, args: seq<(ValueId, BlockId)>, from: BlockId, mid: BlockId, p: BlockId)
    requires mid !in Second(args) && p != mid
    ensures Incoming(val, RedirectTable(args, from, mid), Redirect(p, from, mid)) == Incoming(val, args, p)
  {
    if args != [] {
      assert Second(args) == [args[0].1] + Second(args[1..]);
      IncomingSplit(val, args[1..], from, mid, p);
    }
  }

  lemma {:induction false} TableRedirect(val: Valuation, c: Words.Imm, table: seq<(ValueId, BlockId)>, from: BlockId, to: BlockId)
    ensures var (hit, new_) := (TableTarget(val, c, table), TableTarget(val, c, RedirectTable(table, from, to)));
      new_ == if hit.Some? then Some(Redirect(hit.value, from, to)) else None
  {
    if table != [] { TableRedirect(val, c, table[1..], from, to); }
  }

  lemma TargetRedirected(val: Valuation, inst: Inst, from: BlockId, to: BlockId)
    requires Target(val, inst).Some?
    ensures Target(val, RewriteDest(inst, from, to)) == Some(Redirect(Target(val, inst).value, from, to))
    ensures IsBranch(RewriteDest(inst, from, to))
  {
    match inst
    case Br(c, nz, z) => MaybeJumpTarget(val, Br(c, Redirect(nz, from, to), Redirect(z, from, to)));
    case BrTable(v, default, table) =>
      TableRedirect(val, val(v).imm, table, from, to);
      MaybeJumpTarget(val, BrTable(v, if default.Some? then Some(Redirect(default.value, from, to)) else None, RedirectTable(table, from, to)));
    case _ =>
  }

  lemma MaybeJumpTarget(val: Valuation, inst: Inst)
    requires Target(val, inst).Some?
    ensures Target(val, MaybeJump(inst)) == Target(val, inst) && IsBranch(MaybeJump(inst))
  {
    hide TableTarget;
    SccpSound.TargetListed(val, inst);
  }

  lemma SplitBody(f: Function, g: Function, from: BlockId, to: BlockId, mid: BlockId, jump: InstId, b: BlockId, k: nat)
    requires WellFormed(f) && Splittable(f, from, to, mid, jump) && SplitOf(f, g, from, to, mid, jump)
    requires b in f.layout && k < |f.Body(b)|
    ensures g.Body(b) == f.Body(b)
    ensures var i := f.Body(b)[k];
      && i != jump && i in f.home && f.home[i] == b && InstOk(f, i)
      && (IsBranch(f.At(i)) ==> f.LastInst(b) == Some(i))
      && g.At(i) == if IsBranch(f.At(i)) && b == from then RewriteDest(f.At(i), to, mid) else if b == to then Renamed(f.At(i), from, mid) else f.At(i)
  {
    assert f.LastInst(from).Some? && IsBranch(f.At(f.LastInst(from).value));
    hide HasEdge, ValueOk, HomeOk, InstOk, RewriteDest;
    var i := f.Body(b)[k];
    assert BodyOk(f, b) && PlacedAt(f, b, i);
    LastHere(f, from);
    assert g.At(i) == SplitInst(f, from, to, mid, jump, i);
    assert f.LastInst(from) == Some(i) ==> b == from && IsBranch(f.At(i));
  }

  /** What a phi or another instruction produces does not change. */
  lemma SameProduced(f: Function, g: Function, from: BlockId, to: BlockId, mid: BlockId, jump: InstId, world: World, m: Machine, w: Machine, i: InstId)
    requires WellFormed(f) && Splittable(f, from, to, mid, jump) && SplitOf(f, g, from, to, mid, jump) && PhisFit(f)
    requires Follows(f, from, to, mid, m, w) && i in f.home && f.home[i] == m.block && !IsBranch(f.At(i))
    requires g.At(i) == if m.block == to then Renamed(f.At(i), from, mid) else f.At(i)
    requires Produced(f, world, m, i).Some?
    ensures Produced(g, world, w, i) == Produced(f, world, m, i) && Observed(g, w, i) == Observed(f, m, i)
  {
    hide Incoming, Evaluate, Evaluable, HasEdge;
    assert Values(g, w) == Values(f, m);
    var inst := f.At(i);
    if inst.Phi? {
      assert m.prev.value != mid;
      if m.block == to {
        assert PhiFits(f, to, inst.args);
        assert mid !in Second(inst.args) by { if mid in Second(inst.args) { assert HasEdge(f, mid, to); EdgesInside(f, mid, to); } }
        IncomingSplit(Values(f, m), inst.args, from, mid, m.prev.value);
      }
    }
  }

  /** One step of `f` is one or two of `g`. */
  lemma StepFollowed(f: Function, g: Function, from: BlockId, to: BlockId, mid: BlockId, jump: InstId, world: World, m: Machine, w: Machine)
    returns (j: nat, v: Machine)
    requires WellFormed(f) && Splittable(f, from, to, mid, jump) && SplitOf(f, g, from, to, mid, jump) && PhisFit(f)
    requires Follows(f, from, to, mid, m, w) && Step(f, world, m).Running?
    ensures Run(g, world, w, j) == Running(v) && Follows(f, from, to, mid, Step(f, world, m).m, v)
  {
    assert forall x :: g.ResultOf(x) == f.ResultOf(x);
    hide WellFormed, SplitOf, Splittable, Target, Produced, Observed, RewriteDest, Renamed;
    var i := f.Body(m.block)[m.at];
    SplitBody(f, g, from, to, mid, jump, m.block, m.at);
    if IsBranch(f.At(i)) {
      var d := Target(Values(f, m), f.At(i)).value;
      SccpSound.TargetListed(Values(f, m), f.At(i));
      j, v := BranchFollowed(f, g, from, to, mid, jump, world, m, w, i, d);
    } else {
      SameProduced(f, g, from, to, mid, jump, world, m, w, i);
      assert g.ResultOf(i) == f.ResultOf(i);
      RenamedKind(f.At(i), from, mid);
      j, v := 1, Step(g, world, w).m;
    }
  }

  lemma BranchFollowed(f: Function, g: Function, from: BlockId, to: BlockId, mid: BlockId, jump: InstId, world: World, m: Machine, w: Machine, i: InstId, d: BlockId)
    returns (j: nat, v: Machine)
    requires WellFormed(f) && Splittable(f, from, to, mid, jump) && SplitOf(f, g, from, to, mid, jump)
    requires Follows(f, from, to, mid, m, w) && m.at < |f.Body(m.block)| && i == f.Body(m.block)[m.at]
    requires IsBranch(f.At(i)) && Target(Values(f, m), f.At(i)) == Some(d) && d in Dests(f.At(i))
    ensures Run(g, world, w, j) == Running(v) && Follows(f, from, to, mid, JumpTo(m, d), v)
  {
    assert Values(g, w) == Values(f, m);
    hide WellFormed, Target, RewriteDest;
    SplitBody(f, g, from, to, mid, jump, m.block, m.at);
    assert d in f.layout && d != mid;
    if m.block == from {
      TargetRedirected(Values(f, m), f.At(i), to, mid);
      if d == to {
        MidStep(f, g, from, to, mid, jump, world, JumpTo(w, mid));
        j, v := 2, JumpTo(JumpTo(w, mid), to);
        assert Step(g, world, w) == Running(JumpTo(w, mid));
        assert Run(g, world, JumpTo(w, mid), 1) == Running(v);
      } else {
        j, v := 1, JumpTo(w, d);
        assert Step(g, world, w) == Running(v);
      }
    } else {
      assert g.At(i) == f.At(i);
      j, v := 1, JumpTo(w, d);
      assert Step(g, world, w) == Running(v);
    }
  }

  lemma MidStep(f: Function, g: Function, from: BlockId, to: BlockId, mid: BlockId, jump: InstId, world: World, w: Machine)
    requires SplitOf(f, g, from, to, mid, jump) && w.block == mid && w.at == 0
    ensures Step(g, world, w) == Running(JumpTo(w, to))
  {
    assert g.At(jump) == SplitInst(f, from, to, mid, jump, jump);
    assert g.Body(mid) == [jump];
  }

  lemma ReturnFollowed(f: Function, g: Function, from: BlockId, to: BlockId, mid: BlockId, jump: InstId, world: World, m: Machine, w: Machine)
    requires WellFormed(f) && Splittable(f, from, to, mid, jump) && SplitOf(f, g, from, to, mid, jump)
    requires Follows(f, from, to, mid, m, w) && Step(f, world, m).Returned?
    ensures Step(g, world, w) == Step(f, world, m)
  {
    hide WellFormed, Splittable, Produced, Target, RewriteDest;
    SplitBody(f, g, from, to, mid, jump, m.block, m.at);
  }

  // ----- runs

  /** What a run of `f` and a run of `g` share: where they are among the blocks
      of `f`, the locals and the effects; or the value returned. */
  ghost predicate SameOutcome(o: Outcome, p: Outcome) {
    match o
    case Running(m) => p.Running? && p.m.block == m.block && p.m.at == m.at && p.m.locals == m.locals && p.m.events == m.events
    case Returned(_, _) => p == o
    case Panicked => true
  }

  ghost predicate Matched(g: Function, world: World, w: Machine, o: Outcome, j: nat) {
    SameOutcome(o, Run(g, world, w, j))
  }

  lemma {:induction false} RunFollowed(f: Function, g: Function, from: BlockId, to: BlockId, mid: BlockId, jump: InstId, world: World, m: Machine, w: Machine, k: nat)
    returns (j: nat)
    requires WellFormed(f) && Splittable(f, from, to, mid, jump) && SplitOf(f, g, from, to, mid, jump) && PhisFit(f)
    requires Follows(f, from, to, mid, m, w)
    ensures Matched(g, world, w, Run(f, world, m, k), j)
    decreases k
  {
    hide WellFormed, Splittable, SplitOf, PhisFit, Step;
    if k == 0 {
      j := 0;
    } else if Step(f, world, m).Running? {
      var i, v := StepFollowed(f, g, from, to, mid, jump, world, m, w);
      var rest := RunFollowed(f, g, from, to, mid, jump, world, Step(f, world, m).m, v, k - 1);
      RunSplit(g, world, w, i, rest);
      j := i + rest;
    } else if Step(f, world, m).Returned? {
      ReturnFollowed(f, g, from, to, mid, jump, world, m, w);
      j := 1;
    } else {
      j := 0;
    }
  }

  lemma MatchedLater(g: Function, world: World, w: Machine, v: Machine, o: Outcome, j: nat)
    requires Run(g, world, w, 1) == Running(v) && Matched(g, world, v, o, j)
    ensures Matched(g, world, w, o, 1 + j)
  {
    hide Run;
    RunSplit(g, world, w, 1, j);
  }

  /** Every run of `f` is matched, step for step on the blocks of `f`, by one of `g`. */
  ghost predicate SameRuns(f: Function, g: Function) {
    && g.args == f.args
    && forall world: World, actuals: seq<EvalValue>, k: nat {:trigger RunMatched(f, g, world, actuals, k)} ::
         |actuals| == |f.args| ==> RunMatched(f, g, world, actuals, k)
  }

  ghost predicate RunMatched(f: Function, g: Function, world: World, actuals: seq<EvalValue>, k: nat)
    requires |actuals| == |f.args| == |g.args|
  {
    exists j: nat {:trigger Matched(g, world, Start(g, actuals), Run(f, world, Start(f, actuals), k), j)} ::
      Matched(g, world, Start(g, actuals), Run(f, world, Start(f, actuals), k), j)
  }

  /** Splitting an edge keeps every run. */
  lemma SplitKeepsRuns(f: Function, g: Function, from: BlockId, to: BlockId, mid: BlockId, jump: InstId)
    requires WellFormed(f) && Splittable(f, from, to, mid, jump) && SplitOf(f, g, from, to, mid, jump) && PhisFit(f)
    ensures SameRuns(f, g)
  {
    assert f.entry in f.layout;
    hide WellFormed, Splittable, PhisFit, Run, Matched;
    forall world: World, actuals: seq<EvalValue>, k: nat | |actuals| == |f.args| ensures RunMatched(f, g, world, actuals, k) {
      var (m, w) := (Start(f, actuals), Start(g, actuals));
      if f.entry == to {
        MidStep(f, g, from, to, mid, jump, world, w);
        var v := JumpTo(w, to);
        RunOne(g, world, w);
        var j := RunFollowed(f, g, from, to, mid, jump, world, m, v, k);
        MatchedLater(g, world, w, v, Run(f, world, m, k), j);
      } else {
        var j := RunFollowed(f, g, from, to, mid, jump, world, m, w, k);
      }
    }
  }

  lemma SameRunsTwice(f: Function, g: Function, h: Function)
    requires SameRuns(f, g) && SameRuns(g, h)
    ensures SameRuns(f, h)
  {
    hide Run;
    forall world: World, actuals: seq<EvalValue>, k: nat | |actuals| == |f.args| ensures RunMatched(f, h, world, actuals, k) {
      assert RunMatched(f, g, world, actuals, k);
      var j: nat :| Matched(g, world, Start(g, actuals), Run(f, world, Start(f, actuals), k), j);
      assert RunMatched(g, h, world, actuals, j);
      var l: nat :| Matched(h, world, Start(h, actuals), Run(g, world, Start(g, actuals), j), l);
      assert Matched(h, world, Start(h, actuals), Run(f, world, Start(f, actuals), k), l);
    }
  }

  // ----- the splitter

  /** The phis of a block come first. */
  ghost predicate PhisLead(f: Function, b: BlockId) {
    forall j, k :: 0 <= j < k < |f.Body(b)| && f.At(f.Body(b)[k]).Phi? ==> f.At(f.Body(b)[j]).Phi?
  }

  method FreshId(used: set<nat>) returns (n: nat)
    ensures forall x: nat :: x in used ==> x < n
  {
    n := 0;
    var rest := used;
    while rest != {}
      invariant rest <= used && forall x: nat :: x in used ==> x in rest || x < n
      decreases |rest|
    {
      var x: nat :| x in rest;
      rest := rest - {x};
      if x >= n { n := x + 1; }
    }
  }

  /** `replace_phi_incoming_block` on the leading phis of `to`. */
  method ReplacePhiIncoming(f: Function, insts0: map<InstId, Inst>, to: BlockId, from: BlockId, mid: BlockId) returns (insts: map<InstId, Inst>)
    requires PhisLead(f, to) && PlacedOnce(f)
    requires forall i :: i in f.Body(to) && f.At(i).Phi? ==> i in insts0 && insts0[i] == f.At(i)
    ensures forall i :: i in insts <==> i in insts0
    ensures forall i :: i in insts ==> insts[i] == if i in f.Body(to) && f.At(i).Phi? then Renamed(f.At(i), from, mid) else insts0[i]
  {
    insts := insts0;
    var body, k := f.Body(to), 0;
    while k < |body| && f.At(body[k]).Phi?
      invariant 0 <= k <= |body| && insts.Keys == insts0.Keys
      invariant forall j :: 0 <= j < k ==> f.At(body[j]).Phi?
      invariant forall i :: i in insts ==> insts[i] == if i in body[..k] then Renamed(f.At(i), from, mid) else insts0[i]
    {
      assert body[k] in body && body[k] !in body[..k];
      insts := insts[body[k] := Renamed(insts[body[k]], from, mid)];
      assert body[..k + 1] == body[..k] + [body[k]];
      k := k + 1;
    }
    forall i | i in body && f.At(i).Phi? ensures i in body[..k] {
      var j :| 0 <= j < |body| && body[j] == i;
    }
    forall i | i in body[..k] ensures i in body && f.At(i).Phi? {
      var j :| 0 <= j < k && body[j] == i;
    }
  }

  /** `CfgEditor::split_edge`. */
  method SplitEdge(f: Function, from: BlockId, to: BlockId) returns (g: Function, mid: BlockId, jump: InstId)
    requires WellFormed(f) && PlacedOnce(f) && HasEdge(f, from, to) && PhisLead(f, to)
    ensures Splittable(f, from, to, mid, jump) && SplitOf(f, g, from, to, mid, jump)
  {
    hide WellFormed, RewriteDest, Renamed, PlacedOnce, PhisLead, Dests;
    EdgesInside(f, from, to);
    mid := FreshId(f.layout.Keys);
    jump := FreshId(f.home.Keys + f.insts.Keys + f.results.Keys);
    var term := f.LastInst(from).value;
    LastHere(f, from);
    NoDests(f.At(term));
    var insts := f.insts[jump := Jump(to)];
    forall i | i in f.Body(to) && f.At(i).Phi? ensures i in insts && insts[i] == f.At(i) && i in f.home && f.home[i] == to {
      BodyPlaced(f, to, i);
    }
    insts := insts[term := RewriteDest(f.At(term), to, mid)];
    insts := ReplacePhiIncoming(f, insts, to, from, mid);
    g := f.(insts := insts, layout := f.layout[mid := [jump]], home := f.home[jump := mid], entry := if f.entry == to then mid else f.entry);
    forall i: InstId {:trigger g.At(i)} ensures g.At(i) == SplitInst(f, from, to, mid, jump, i) {
      SplitAt(f, from, to, mid, i);
    }
  }

  /** Renaming the phis of the body of `to` is renaming what is placed in it. */
  lemma SplitAt(f: Function, from: BlockId, to: BlockId, mid: BlockId, i: InstId)
    requires WellFormed(f)
    ensures i in f.Body(to) <==> i in f.home && f.home[i] == to
    ensures !f.At(i).Phi? ==> Renamed(f.At(i), from, mid) == f.At(i)
  {
    hide WellFormed, Renamed;
    if i in f.home && f.home[i] == to { HomePlaced(f, i); }
    if i in f.Body(to) { BodyPlaced(f, to, i); }
    RenamedOther(f.At(i), from, mid);
  }

  lemma RenamedOther(inst: Inst, from: BlockId, mid: BlockId)
    ensures !inst.Phi? ==> Renamed(inst, from, mid) == inst
  {
  }

  lemma BodyPlaced(f: Function, b: BlockId, i: InstId)
    requires WellFormed(f) && i in f.Body(b)
    ensures i in f.home && f.home[i] == b
  {
    assert BodyOk(f, b) && PlacedAt(f, b, i);
  }

  lemma HomePlaced(f: Function, i: InstId)
    requires WellFormed(f) && i in f.home
    ensures i in f.Body(f.home[i])
  {
    assert HomeOk(f, i);
  }

  datatype CriticalEdge = CriticalEdge(inst: InstId, to: BlockId)

  ghost predicate Listed(f: Function, e: CriticalEdge) {
    e.inst in f.home && f.LastInst(f.home[e.inst]) == Some(e.inst) && Critical(f, f.home[e.inst], e.to)
  }

  /** The list has every critical edge, once. */
  ghost predicate AllListed(f: Function, es: seq<CriticalEdge>) {
    NoDup(es) && forall e {:trigger Listed(f, e)} :: e in es <==> Listed(f, e)
  }

  lemma TwoIn(s: set<BlockId>)
    ensures |s| >= 2 <==> exists d, e :: d != e && d in s && e in s
  {
    if |s| >= 2 {
      var d :| d in s;
      var rest := s - {d};
      assert |rest| >= 1;
      var e :| e in rest;
      assert d != e && d in s && e in s;
    }
    if d, e :| d != e && d in s && e in s {
      assert |s - {d, e}| == |s| - 2;
    }
  }

  lemma CriticalCounts(f: Function, preds: Table, succs: Table, b: BlockId, d: BlockId)
    requires Describes(f, succs) && Mirrored(preds, succs)
    ensures Critical(f, b, d) <==> d in Row(succs, b) && |Row(succs, b)| >= 2 && |Row(preds, d)| > 1
  {
    hide HasEdge;
    TwoIn(Row(succs, b));
    TwoIn(Row(preds, d));
    assert forall e :: e in Row(succs, b) <==> HasEdge(f, b, e);
    assert forall c :: c in Row(preds, d) <==> d in Row(succs, c);
    if d in Row(succs, b) && |Row(succs, b)| >= 2 && |Row(preds, d)| > 1 {
      var x, y :| x != y && x in Row(succs, b) && y in Row(succs, b);
      assert HasEdge(f, b, x) && HasEdge(f, b, y);
      var p, q :| p != q && p in Row(preds, d) && q in Row(preds, d);
      assert HasEdge(f, p, d) && HasEdge(f, q, d);
    }
    if Critical(f, b, d) {
      var x, y :| x != y && HasEdge(f, b, x) && HasEdge(f, b, y);
      var p, q :| p != q && HasEdge(f, p, d) && HasEdge(f, q, d);
      assert d in Row(succs, p) && d in Row(succs, q);
    }
  }

  // ----- between two splits

  ghost predicate EdgeLeft(f: Function, g: Function, e: CriticalEdge)
    requires e.inst in f.home
  {
    HasEdge(g, f.home[e.inst], e.to)
  }

  ghost predicate StillCritical(f: Function, g: Function, done: seq<CriticalEdge>, b: BlockId, d: BlockId) {
    Critical(g, b, d) ==> Critical(f, b, d) && forall e :: e in done && e.inst in f.home ==> !(f.home[e.inst] == b && e.to == d)
  }

  ghost predicate Sound(f: Function, g: Function) {
    && WellFormed(g) && PhisFit(g) && PlacedOnce(g) && (forall b {:trigger PhisLead(g, b)} :: PhisLead(g, b)) && SameRuns(f, g)
    && (forall i :: i in f.home ==> i in g.home && g.home[i] == f.home[i])
  }

  /** One of `done` is the edge from `b` to `d`. */
  ghost predicate Done(f: Function, done: seq<CriticalEdge>, b: BlockId, d: BlockId) {
    exists e :: e in done && e.inst in f.home && f.home[e.inst] == b && e.to == d
  }

  /** Over a block that `f` does not have. */
  ghost predicate Detour(f: Function, g: Function, b: BlockId, d: BlockId, m: BlockId) {
    m !in f.layout && HasEdge(g, b, m) && HasEdge(g, m, d)
  }

  /** Between blocks of `f` exactly the edges of `done` are gone; each of them
      leads over a new block, and there is one such block for each. */
  ghost predicate Routed(f: Function, g: Function, done: seq<CriticalEdge>) {
    && f.layout.Keys <= g.layout.Keys && |g.layout.Keys| == |f.layout.Keys| + |done|
    && (forall b, d {:trigger HasEdge(g, b, d)} :: b in f.layout && d in f.layout ==> (HasEdge(g, b, d) <==> HasEdge(f, b, d) && !Done(f, done, b, d)))
    && (forall b, d {:trigger Done(f, done, b, d)} :: Done(f, done, b, d) ==> exists m {:trigger Detour(f, g, b, d, m)} :: Detour(f, g, b, d, m))
  }

  lemma RoutedTurn(f: Function, g: Function, h: Function, done: seq<CriticalEdge>, e: CriticalEdge, mid: BlockId, jump: InstId)
    requires WellFormed(g) && Routed(f, g, done) && e.inst in f.home && f.home[e.inst] in f.layout && e.to in f.layout
    requires var (from, to) := (f.home[e.inst], e.to); Splittable(g, from, to, mid, jump) && SplitOf(g, h, from, to, mid, jump)
    ensures Routed(f, h, done + [e])
  {
    var (from, to) := (f.home[e.inst], e.to);
    assert h.layout.Keys == g.layout.Keys + {mid};
    assert mid !in g.layout && mid !in f.layout;
    hide WellFormed, Splittable, SplitOf, HasEdge;
    SplitEdgeThere(g, from, to, mid, jump);
    forall b: BlockId, d: BlockId ensures Done(f, done + [e], b, d) <==> Done(f, done, b, d) || (b == from && d == to) { DoneMore(f, done, e, b, d); }
    forall b: BlockId, d: BlockId | b in f.layout && d in f.layout ensures HasEdge(h, b, d) <==> HasEdge(f, b, d) && !Done(f, done + [e], b, d) {
      EdgesAfter(g, h, from, to, mid, jump, b, d);
    }
    forall b: BlockId, d: BlockId | Done(f, done + [e], b, d) ensures exists m {:trigger Detour(f, h, b, d, m)} :: Detour(f, h, b, d, m) {
      if b == from && d == to {
        EdgesAfter(g, h, from, to, mid, jump, from, mid);
        EdgesAfter(g, h, from, to, mid, jump, mid, to);
        assert Detour(f, h, b, d, mid);
      } else {
        var m :| Detour(f, g, b, d, m);
        EdgesAfter(g, h, from, to, mid, jump, b, m);
        EdgesAfter(g, h, from, to, mid, jump, m, d);
        assert Detour(f, h, b, d, m);
      }
    }
  }

  lemma DoneMore(f: Function, done: seq<CriticalEdge>, e: CriticalEdge, b: BlockId, d: BlockId)
    ensures Done(f, done + [e], b, d) <==> Done(f, done, b, d) || (e.inst in f.home && f.home[e.inst] == b && e.to == d)
  {
  }

  ghost predicate Splitting(f: Function, g: Function, es: seq<CriticalEdge>, k: int)
    requires 0 <= k <= |es|
  {
    && AllListed(f, es) && Sound(f, g) && Routed(f, g, es[..k])
    && (forall b, d {:trigger StillCritical(f, g, es[..k], b, d)} :: StillCritical(f, g, es[..k], b, d))
    && (forall j :: k <= j < |es| ==> es[j].inst in f.home && EdgeLeft(f, g, es[j]))
  }

  lemma SameRunsRefl(f: Function)
    ensures SameRuns(f, f)
  {
    hide Run;
    forall world: World, actuals: seq<EvalValue>, k: nat | |actuals| == |f.args| ensures RunMatched(f, f, world, actuals, k) {
      assert Matched(f, world, Start(f, actuals), Run(f, world, Start(f, actuals), k), k);
    }
  }

  lemma SplittingStarts(f: Function, es: seq<CriticalEdge>)
    requires WellFormed(f) && PhisFit(f) && PlacedOnce(f) && (forall b {:trigger PhisLead(f, b)} :: PhisLead(f, b)) && AllListed(f, es)
    ensures Splitting(f, f, es, 0)
  {
    hide WellFormed, PhisFit, PlacedOnce, SameRuns, HasEdge, PhisLead;
    SameRunsRefl(f);
    assert es[..0] == [];
    assert Routed(f, f, []);
    forall j | 0 <= j < |es| ensures es[j].inst in f.home && EdgeLeft(f, f, es[j]) { assert es[j] in es && Listed(f, es[j]); }
  }

  lemma SplitKeepsShape(f: Function, g: Function, from: BlockId, to: BlockId, mid: BlockId, jump: InstId)
    requires WellFormed(f) && Splittable(f, from, to, mid, jump) && SplitOf(f, g, from, to, mid, jump)
    requires PlacedOnce(f) && (forall b {:trigger PhisLead(f, b)} :: PhisLead(f, b))
    ensures PlacedOnce(g) && (forall b {:trigger PhisLead(g, b)} :: PhisLead(g, b))
  {
    hide WellFormed, RewriteDest, HasEdge;
    forall b: BlockId ensures PhisLead(g, b) { LeadKept(f, g, from, to, mid, jump, b); }
    assert forall b :: b != mid ==> g.Body(b) == f.Body(b);
  }

  lemma LeadKept(f: Function, g: Function, from: BlockId, to: BlockId, mid: BlockId, jump: InstId, b: BlockId)
    requires WellFormed(f) && Splittable(f, from, to, mid, jump) && SplitOf(f, g, from, to, mid, jump) && PhisLead(f, b)
    ensures PhisLead(g, b)
  {
    hide WellFormed, SplitInst, HasEdge;
    if b != mid {
      assert g.Body(b) == f.Body(b);
      forall j: nat, k: nat | j < k < |g.Body(b)| && g.At(g.Body(b)[k]).Phi? ensures g.At(g.Body(b)[j]).Phi? {
        PhiKept(f, g, from, to, mid, jump, b, j);
        PhiKept(f, g, from, to, mid, jump, b, k);
      }
    }
  }

  lemma PhiKept(f: Function, g: Function, from: BlockId, to: BlockId, mid: BlockId, jump: InstId, b: BlockId, k: nat)
    requires WellFormed(f) && Splittable(f, from, to, mid, jump) && SplitOf(f, g, from, to, mid, jump)
    requires b in f.layout && k < |f.Body(b)|
    ensures g.At(f.Body(b)[k]).Phi? <==> f.At(f.Body(b)[k]).Phi?
  {
    var i := f.Body(b)[k];
    SplitBody(f, g, from, to, mid, jump, b, k);
    hide WellFormed;
    if IsBranch(f.At(i)) { RewriteShape(f, i, to, mid); }
  }

  lemma SplitSound(f: Function, g: Function, h: Function, from: BlockId, to: BlockId, mid: BlockId, jump: InstId)
    requires Sound(f, g) && Splittable(g, from, to, mid, jump) && SplitOf(g, h, from, to, mid, jump)
    ensures Sound(f, h)
  {
    assert jump !in g.home;
    hide WellFormed, PhisFit, PlacedOnce, PhisLead, SameRuns, Splittable;
    SplitWellFormed(g, h, from, to, mid, jump);
    PhisFitAfter(g, h, from, to, mid, jump);
    SplitKeepsRuns(g, h, from, to, mid, jump);
    SameRunsTwice(f, g, h);
    SplitKeepsShape(g, h, from, to, mid, jump);
  }

  lemma SplittingTurn(f: Function, g: Function, h: Function, es: seq<CriticalEdge>, k: nat, mid: BlockId, jump: InstId)
    requires WellFormed(f) && k < |es| && Splitting(f, g, es, k) && es[k].inst in f.home
    requires var (from, to) := (f.home[es[k].inst], es[k].to); Splittable(g, from, to, mid, jump) && SplitOf(g, h, from, to, mid, jump)
    ensures Splitting(f, h, es, k + 1)
  {
    hide WellFormed, Sound, SplitOf, Critical, HasEdge, Splittable, Routed;
    var (from, to) := (f.home[es[k].inst], es[k].to);
    RoutedOn(f, g, h, es, k, mid, jump);
    SplitSound(f, g, h, from, to, mid, jump);
    var done := es[..k + 1];
    assert done == es[..k] + [es[k]];
    forall b: BlockId, d: BlockId ensures StillCritical(f, h, done, b, d) {
      assert StillCritical(f, g, es[..k], b, d);
      if Critical(h, b, d) { CriticalLeft(f, g, h, from, to, mid, jump, b, d); }
    }
    forall j | k + 1 <= j < |es| ensures es[j].inst in f.home && EdgeLeft(f, h, es[j]) {
      OtherEdgeLeft(f, g, h, es, k, j, mid, jump);
    }
  }

  lemma RoutedOn(f: Function, g: Function, h: Function, es: seq<CriticalEdge>, k: nat, mid: BlockId, jump: InstId)
    requires WellFormed(f) && k < |es| && Splitting(f, g, es, k) && es[k].inst in f.home
    requires var (from, to) := (f.home[es[k].inst], es[k].to); Splittable(g, from, to, mid, jump) && SplitOf(g, h, from, to, mid, jump)
    ensures Routed(f, h, es[..k + 1])
  {
    hide SplitOf, HasEdge, Splittable, PhisFit, PlacedOnce, SameRuns, WellFormed, Routed;
    assert es[..k + 1] == es[..k] + [es[k]];
    ListedInside(f, es, k);
    RoutedTurn(f, g, h, es[..k], es[k], mid, jump);
  }

  lemma ListedInside(f: Function, es: seq<CriticalEdge>, k: nat)
    requires WellFormed(f) && k < |es| && AllListed(f, es) && es[k].inst in f.home
    ensures f.home[es[k].inst] in f.layout && es[k].to in f.layout
  {
    hide WellFormed, HasEdge;
    assert es[k] in es && Listed(f, es[k]);
    EdgesInside(f, f.home[es[k].inst], es[k].to);
  }

  lemma CriticalLeft(f: Function, g: Function, h: Function, from: BlockId, to: BlockId, mid: BlockId, jump: InstId, b: BlockId, d: BlockId)
    requires Sound(f, g) && Splittable(g, from, to, mid, jump) && SplitOf(g, h, from, to, mid, jump) && Critical(h, b, d)
    ensures Critical(g, b, d) && !(b == from && d == to)
  {
    CriticalAfter(g, h, from, to, mid, jump, b, d);
  }

  lemma OtherEdgeLeft(f: Function, g: Function, h: Function, es: seq<CriticalEdge>, k: nat, j: nat, mid: BlockId, jump: InstId)
    requires k < j < |es| && Splitting(f, g, es, k) && es[k].inst in f.home
    requires var (from, to) := (f.home[es[k].inst], es[k].to); Splittable(g, from, to, mid, jump) && SplitOf(g, h, from, to, mid, jump)
    ensures es[j].inst in f.home && EdgeLeft(f, h, es[j])
  {
    hide SplitOf, HasEdge, PhisFit, SameRuns, PlacedOnce, WellFormed;
    var (from, to) := (f.home[es[k].inst], es[k].to);
    assert es[j].inst in f.home && EdgeLeft(f, g, es[j]);
    EdgesAfter(g, h, from, to, mid, jump, f.home[es[j].inst], es[j].to);
    assert es[j] in es && es[k] in es && Listed(f, es[j]) && Listed(f, es[k]) && es[j] != es[k];
  }

  lemma NextSplit(f: Function, g: Function, es: seq<CriticalEdge>, k: nat)
    requires k < |es| && Splitting(f, g, es, k)
    ensures es[k].inst in f.home && Sound(f, g) && es[k].inst in g.home && g.home[es[k].inst] == f.home[es[k].inst]
    ensures HasEdge(g, f.home[es[k].inst], es[k].to)
  {
    hide HasEdge, WellFormed, PhisFit, SameRuns, PlacedOnce, Critical;
    assert EdgeLeft(f, g, es[k]);
  }

  lemma SplittingEnds(f: Function, g: Function, es: seq<CriticalEdge>)
    requires Splitting(f, g, es, |es|) && WellFormed(f)
    ensures Sound(f, g) && forall b, d :: !Critical(g, b, d)
    ensures AllListed(f, es) && OnlyCriticalSplit(f, g, es)
  {
    hide HasEdge, WellFormed, PhisFit, SameRuns, PlacedOnce, Branches, Merges;
    assert es[..|es|] == es;
    forall b: BlockId, d: BlockId ensures Done(f, es, b, d) <==> Critical(f, b, d) {
      if Critical(f, b, d) { CriticalListed(f, es, b, d); }
      if Done(f, es, b, d) {
        var e :| e in es && e.inst in f.home && f.home[e.inst] == b && e.to == d;
        assert Listed(f, e);
      }
    }
    hide AllListed, Critical;
    forall b, d ensures !Critical(g, b, d) {
      assert StillCritical(f, g, es[..|es|], b, d);
      if Critical(f, b, d) { CriticalListed(f, es, b, d); }
    }
  }

  /** Between blocks of `f` exactly the critical edges are gone; each leads over a
      new block, and there is one for each edge of the list. */
  ghost predicate OnlyCriticalSplit(f: Function, g: Function, es: seq<CriticalEdge>) {
    && |g.layout.Keys| == |f.layout.Keys| + |es|
    && (forall b, d {:trigger HasEdge(g, b, d)} :: b in f.layout && d in f.layout ==> (HasEdge(g, b, d) <==> HasEdge(f, b, d) && !Critical(f, b, d)))
    && (forall b, d {:trigger Critical(f, b, d)} :: Critical(f, b, d) ==> exists m {:trigger Detour(f, g, b, d, m)} :: Detour(f, g, b, d, m))
  }

  lemma CriticalListed(f: Function, es: seq<CriticalEdge>, b: BlockId, d: BlockId)
    requires WellFormed(f) && AllListed(f, es) && Critical(f, b, d)
    ensures exists e :: e in es && e.inst in f.home && f.home[e.inst] == b && e.to == d
  {
    LastHere(f, b);
    hide WellFormed;
    var e := CriticalEdge(f.LastInst(b).value, d);
    assert Listed(f, e);
  }

  class CriticalEdgeSplitter {
    var criticalEdges: seq<CriticalEdge>

    constructor ()
      ensures criticalEdges == []
    {
      criticalEdges := [];
    }

    method AddCriticalEdges(inst: InstId, f: Function, cfg: ControlFlowGraph)
      requires cfg.Valid() && Describes(f, cfg.succs) && inst in f.home
      requires NoDup(criticalEdges) && forall e :: e in criticalEdges ==> e.inst != inst
      modifies this
      ensures NoDup(criticalEdges)
      ensures forall e :: e in criticalEdges <==> e in old(criticalEdges) || (e.inst == inst && Critical(f, f.home[inst], e.to))
    {
      hide Critical, Describes, Mirrored;
      var block := f.home[inst];
      var succs, preds := cfg.succs, cfg.preds;
      forall d ensures Critical(f, block, d) <==> d in Row(succs, block) && |Row(succs, block)| >= 2 && |Row(preds, d)| > 1 {
        CriticalCounts(f, preds, succs, block, d);
      }
      if |Row(succs, block)| < 2 { return; }
      var rest := Row(succs, block);
      while rest != {}
        invariant rest <= Row(succs, block) && NoDup(criticalEdges)
        invariant forall e :: e in criticalEdges <==> e in old(criticalEdges) || (e.inst == inst && Critical(f, block, e.to) && e.to !in rest)
        decreases |rest|
      {
        var d: BlockId :| d in rest;
        assert CriticalEdge(inst, d) !in criticalEdges;
        rest := rest - {d};
        if |Row(preds, d)| > 1 { criticalEdges := criticalEdges + [CriticalEdge(inst, d)]; }
      }
    }

    /** The first loop of `run`: every block with a last instruction. */
    method Collect(f: Function, cfg: ControlFlowGraph)
      requires WellFormed(f) && cfg.Valid() && Describes(f, cfg.succs)
      modifies this
      ensures AllListed(f, criticalEdges)
    {
      hide Critical, Describes, Mirrored, WellFormed;
      criticalEdges := [];
      var rest := f.layout.Keys;
      while rest != {}
        invariant rest <= f.layout.Keys && NoDup(criticalEdges)
        invariant forall e {:trigger Listed(f, e)} :: e in criticalEdges <==> Listed(f, e) && f.home[e.inst] !in rest
        decreases |rest|
      {
        var b: BlockId :| b in rest;
        rest := rest - {b};
        if f.LastInst(b).Some? {
          LastHere(f, b);
          forall e | e in criticalEdges ensures e.inst != f.LastInst(b).value { assert Listed(f, e); }
          ghost var before := criticalEdges;
          AddCriticalEdges(f.LastInst(b).value, f, cfg);
          forall e ensures e in criticalEdges <==> Listed(f, e) && f.home[e.inst] !in rest {
            assert e in before <==> Listed(f, e) && f.home[e.inst] !in rest + {b};
          }
        } else {
          forall e ensures e in criticalEdges <==> Listed(f, e) && f.home[e.inst] !in rest {
            assert e in criticalEdges <==> Listed(f, e) && f.home[e.inst] !in rest + {b};
          }
        }
      }
      forall e | Listed(f, e) ensures f.home[e.inst] in f.layout { PlacedInLayout(f, e.inst); }
    }

    /** `run`: on a function whose phis fit, no critical edge is left, phis still
        fit, and every run is kept. */
    method Run(f: Function, cfg: ControlFlowGraph) returns (g: Function)
      requires WellFormed(f) && PlacedOnce(f) && PhisFit(f) && (forall b {:trigger PhisLead(f, b)} :: PhisLead(f, b))
      requires cfg.Valid() && Describes(f, cfg.succs)
      modifies this, cfg
      ensures WellFormed(g) && PhisFit(g) && SameRuns(f, g)
      ensures forall b, d :: !Critical(g, b, d)
      ensures exists es {:trigger AllListed(f, es)} :: AllListed(f, es) && OnlyCriticalSplit(f, g, es)
      ensures cfg.Valid() && Describes(g, cfg.succs) && cfg.entry == Some(g.entry)
    {
      hide WellFormed, PhisFit, Critical, SameRuns, Splitting, PlacedOnce, PhisLead, Describes, AllListed, Splittable, SplitOf, HasEdge, OnlyCriticalSplit;
      Collect(f, cfg);
      var edges := criticalEdges;
      criticalEdges := [];
      g := f;
      SplittingStarts(f, edges);
      var k := 0;
      while k < |edges|
        invariant 0 <= k <= |edges| && Splitting(f, g, edges, k)
      {
        NextSplit(f, g, edges, k);
        assert PhisLead(g, edges[k].to);
        var h, mid, jump := SplitEdge(g, g.home[edges[k].inst], edges[k].to);
        SplittingTurn(f, g, h, edges, k, mid, jump);
        g := h;
        k := k + 1;
      }
      SplittingEnds(f, g, edges);
      cfg.Compute(g);
    }
  }
}
