/**
 Sparse conditional constant propagation
 (crates/codegen/src/optim/sccp.rs and sccp_simplify.rs): the solver with its
 two worklists, the functions its methods compute, and what holds when both
 worklists are empty.
 */
module Sccps {
  import opened Options
  import opened Words
  import opened Ir

  datatype Cell = Bot | Const(imm: Imm) | Top

  datatype FlowEdge = FlowEdge(inst: InstId, to: BlockId)

  datatype Facts = Facts(
    lattice: map<ValueId, Cell>,
    mayBeUndef: map<ValueId, bool>,
    edges: set<FlowEdge>,
    blocks: set<BlockId>,
    flow: seq<FlowEdge>,
    ssa: seq<ValueId>,
    flowSet: set<FlowEdge>,
    ssaSet: set<ValueId>
  )

  // ----- reading cells

  function CellAt(s: Facts, v: ValueId): Cell { if v in s.lattice then s.lattice[v] else Bot }

  function UndefAt(s: Facts, v: ValueId): bool { v in s.mayBeUndef && s.mayBeUndef[v] }

  function Join(c: Cell, d: Cell): Cell {
    if c.Top? || d.Top? then Top
    else if c.Const? && d.Const? then (if c == d then c else Top)
    else if c.Bot? then d
    else c
  }

  function CellOf(f: Function, s: Facts, v: ValueId): Cell {
    match f.Data(v)
    case Immediate(c) => Const(c)
    case Undefined => Top
    case _ => CellAt(s, v)
  }

  function MayBeUndef(f: Function, s: Facts, v: ValueId): bool {
    match f.Data(v)
    case Undefined => true
    case Result(_) => UndefAt(s, v)
    case _ => false
  }

  function KnownImm(f: Function, s: Facts, v: ValueId): Option<Imm> {
    if f.Data(v).Immediate? then Some(f.Data(v).imm)
    else match CellAt(s, v)
         case Const(c) => Some(c)
         case _ => None
  }

  // ----- the simplifier

  datatype Simplified = ToConst(imm: Imm) | ToCopy(src: ValueId) | NoChange

  predicate SameNonUndef(f: Function, s: Facts, l: ValueId, r: ValueId) {
    l == r && !MayBeUndef(f, s, l) && (f.Data(l).Immediate? || !CellAt(s, l).Bot?)
  }

  function SimplifyAnd(f: Function, s: Facts, l: ValueId, r: ValueId): Simplified {
    var w := f.Type(l);
    var (x, y) := (KnownImm(f, s, l), KnownImm(f, s, r));
    if x == Some(Zero(w)) || y == Some(Zero(w)) then ToConst(Zero(w))
    else if x == Some(AllOnes(w)) then ToCopy(r)
    else if y == Some(AllOnes(w)) then ToCopy(l)
    else if SameNonUndef(f, s, l, r) then ToCopy(l)
    else NoChange
  }

  function SimplifyOr(f: Function, s: Facts, l: ValueId, r: ValueId): Simplified {
    var w := f.Type(l);
    var (x, y) := (KnownImm(f, s, l), KnownImm(f, s, r));
    if x == Some(AllOnes(w)) || y == Some(AllOnes(w)) then ToConst(AllOnes(w))
    else if x == Some(Zero(w)) then ToCopy(r)
    else if y == Some(Zero(w)) then ToCopy(l)
    else if SameNonUndef(f, s, l, r) then ToCopy(l)
    else NoChange
  }

  function SimplifyXor(f: Function, s: Facts, l: ValueId, r: ValueId): Simplified {
    var w := f.Type(l);
    if KnownImm(f, s, l) == Some(Zero(w)) then ToCopy(r)
    else if KnownImm(f, s, r) == Some(Zero(w)) then ToCopy(l)
    else if SameNonUndef(f, s, l, r) then ToConst(Zero(w))
    else NoChange
  }

  function SimplifyMul(f: Function, s: Facts, l: ValueId, r: ValueId): Simplified {
    var w := f.Type(l);
    var (x, y) := (KnownImm(f, s, l), KnownImm(f, s, r));
    if x == Some(Zero(w)) || y == Some(Zero(w)) then ToConst(Zero(w))
    else if x == Some(One(w)) then ToCopy(r)
    else if y == Some(One(w)) then ToCopy(l)
    else NoChange
  }

  function SimplifyAdd(f: Function, s: Facts, l: ValueId, r: ValueId): Simplified {
    var w := f.Type(l);
    if KnownImm(f, s, l) == Some(Zero(w)) then ToCopy(r)
    else if KnownImm(f, s, r) == Some(Zero(w)) then ToCopy(l)
    else NoChange
  }

  function SimplifySub(f: Function, s: Facts, l: ValueId, r: ValueId): Simplified {
    if SameNonUndef(f, s, l, r) then ToConst(Zero(f.Type(l)))
    else if KnownImm(f, s, r) == Some(Zero(f.Type(l))) then ToCopy(l)
    else NoChange
  }

  function SimplifyShift(f: Function, s: Facts, bits: ValueId, value: ValueId): Simplified {
    var amount := KnownImm(f, s, bits);
    if KnownImm(f, s, value) == Some(Zero(f.Type(value))) then ToConst(Zero(f.Type(value)))
    else if amount.Some? && amount.value.bits == 0 then ToCopy(value)
    else NoChange
  }

  function SimplifyCompare(f: Function, s: Facts, op: BinOp, l: ValueId, r: ValueId): Simplified {
    if SameNonUndef(f, s, l, r) then ToConst(Bool(op == Eq || op == Le || op == Ge || op == Sle || op == Sge))
    else NoChange
  }

  /** `not (not z)` and `neg (neg z)` become `z`, read off the definition. */
  function SimplifyTwice(f: Function, op: UnOp, arg: ValueId): Simplified {
    match f.Data(arg)
    case Result(j) => if f.At(j).Unary? && f.At(j).unop == op then ToCopy(f.At(j).arg) else NoChange
    case _ => NoChange
  }

  function Simplify(f: Function, s: Facts, inst: Inst): Simplified
    requires IsPure(inst)
  {
    match inst
    case Binary(And, l, r) => SimplifyAnd(f, s, l, r)
    case Binary(Or, l, r) => SimplifyOr(f, s, l, r)
    case Binary(Xor, l, r) => SimplifyXor(f, s, l, r)
    case Binary(Mul, l, r) => SimplifyMul(f, s, l, r)
    case Binary(Add, l, r) => SimplifyAdd(f, s, l, r)
    case Binary(Sub, l, r) => SimplifySub(f, s, l, r)
    case Binary(op, l, r) => if IsShift(op) then SimplifyShift(f, s, l, r) else SimplifyCompare(f, s, op, l, r)
    case Unary(op, a) => if op == IsZero then NoChange else SimplifyTwice(f, op, a)
    case Cast(_, a, w) => if f.Type(a) == w then ToCopy(a) else NoChange
  }

  // ----- evaluating an instruction on cells

  function CellValues(f: Function, s: Facts): Valuation {
    (v: ValueId) => if CellOf(f, s, v).Const? then Word(CellOf(f, s, v).imm) else Undef
  }

  /** The interpreter on cells.  Operands of different types make the source's
      arithmetic assert; `Top` stands for that. */
  function Interpreted(f: Function, s: Facts, inst: Inst): Cell
    requires IsPure(inst)
  {
    var val := CellValues(f, s);
    if !Evaluable(val, inst) then Top
    else
      match Evaluate(val, inst)
      case Word(c) => Const(c)
      case Undef =>
        if (exists v :: v in Operands(inst) && CellOf(f, s, v).Top?) then Top
        else if (exists v :: v in Operands(inst) && CellOf(f, s, v).Bot?) then Bot
        else Top
  }

  function EvalCell(f: Function, s: Facts, inst: Inst): Cell {
    if !IsPure(inst) then Top
    else
      match Simplify(f, s, inst)
      case ToConst(c) => Const(c)
      case ToCopy(src) => CellOf(f, s, src)
      case NoChange => Interpreted(f, s, inst)
  }

  function AnyUndef(f: Function, s: Facts, vs: seq<ValueId>): bool {
    vs != [] && (MayBeUndef(f, s, vs[0]) || AnyUndef(f, s, vs[1..]))
  }

  function EvalUndef(f: Function, s: Facts, inst: Inst): bool
    requires IsPure(inst)
  {
    match Simplify(f, s, inst)
    case ToConst(_) => false
    case ToCopy(src) => MayBeUndef(f, s, src)
    case NoChange => AnyUndef(f, s, Operands(inst))
  }

  /** Some branch of `from` to `to` has been found executable. */
  predicate IsReachable(f: Function, s: Facts, from: BlockId, to: BlockId) {
    && from in f.layout && to in f.layout
    && var last := f.LastInst(from);
       last.Some? && to in Dests(f.At(last.value)) && FlowEdge(last.value, to) in s.edges
  }

  function JoinArgs(f: Function, s: Facts, block: BlockId, args: seq<(ValueId, BlockId)>, acc: Cell): Cell {
    if args == [] then acc
    else
      var next := if IsReachable(f, s, args[0].1, block) then Join(acc, CellOf(f, s, args[0].0)) else acc;
      JoinArgs(f, s, block, args[1..], next)
  }

  function UndefArgs(f: Function, s: Facts, block: BlockId, args: seq<(ValueId, BlockId)>, acc: bool): bool {
    if args == [] then acc
    else
      var next := acc || (IsReachable(f, s, args[0].1, block) && MayBeUndef(f, s, args[0].0));
      UndefArgs(f, s, block, args[1..], next)
  }

  function Home(f: Function, i: InstId): BlockId { if i in f.home then f.home[i] else f.entry }

  function PhiCell(f: Function, s: Facts, i: InstId): Cell
    requires f.At(i).Phi?
  {
    JoinArgs(f, s, Home(f, i), f.At(i).args, Bot)
  }

  // ----- the destinations a branch makes executable

  function TableDemand(f: Function, s: Facts, c: Imm, table: seq<(ValueId, BlockId)>, default: Option<BlockId>): seq<BlockId> {
    if table == [] then (if default.Some? then [default.value] else [])
    else
      match CellOf(f, s, table[0].0)
      case Const(x) => if x == c then [table[0].1] else TableDemand(f, s, c, table[1..], default)
      case _ => [table[0].1] + TableDemand(f, s, c, table[1..], default)
  }

  function Demand(f: Function, s: Facts, inst: Inst): seq<BlockId> {
    match inst
    case Jump(d) => [d]
    case Br(c, nz, z) => (
      match CellOf(f, s, c)
      case Const(x) => if x.bits == 0 then [z] else [nz]
      case Top => [z, nz]
      case Bot => [])
    case BrTable(scrutinee, default, table) => (
      match CellOf(f, s, scrutinee)
      case Const(c) => TableDemand(f, s, c, table, default)
      case Top => Dests(inst)
      case Bot => [])
    case _ => []
  }

  // ----- what one step of the solver makes of the facts

  function PushFlow(s: Facts, e: FlowEdge): Facts {
    if e in s.edges || e in s.flowSet then s else s.(flow := s.flow + [e], flowSet := s.flowSet + {e})
  }

  function PushSsa(s: Facts, v: ValueId): Facts {
    if v in s.ssaSet then s else s.(ssa := s.ssa + [v], ssaSet := s.ssaSet + {v})
  }

  function SetCell(s: Facts, v: ValueId, c: Cell): Facts {
    if CellAt(s, v) == c then s else PushSsa(s.(lattice := s.lattice[v := c]), v)
  }

  function SetUndef(s: Facts, v: ValueId, u: bool): Facts {
    if UndefAt(s, v) == u then s else PushSsa(s.(mayBeUndef := s.mayBeUndef[v := u]), v)
  }

  function PushAll(s: Facts, i: InstId, ds: seq<BlockId>): Facts
    decreases |ds|
  {
    if ds == [] then s else PushAll(PushFlow(s, FlowEdge(i, ds[0])), i, ds[1..])
  }

  function AfterPhi(f: Function, s: Facts, i: InstId): Facts
    requires f.At(i).Phi?
  {
    if f.ResultOf(i).None? then s
    else
      var r := f.ResultOf(i).value;
      SetUndef(SetCell(s, r, PhiCell(f, s, i)), r, UndefArgs(f, s, Home(f, i), f.At(i).args, false))
  }

  function AfterInst(f: Function, s: Facts, i: InstId): Facts {
    var inst := f.At(i);
    if IsBranch(inst) then PushAll(s, i, Demand(f, s, inst))
    else if f.ResultOf(i).None? then s
    else
      var r := f.ResultOf(i).value;
      if !IsPure(inst) then SetCell(s, r, Top)
      else SetUndef(SetCell(s, r, EvalCell(f, s, inst)), r, EvalUndef(f, s, inst))
  }

  function AfterOne(f: Function, s: Facts, i: InstId): Facts {
    if f.At(i).Phi? then AfterPhi(f, s, i) else AfterInst(f, s, i)
  }

  function AfterAll(f: Function, s: Facts, insts: seq<InstId>): Facts
    decreases |insts|
  {
    if insts == [] then s else AfterAll(f, AfterOne(f, s, insts[0]), insts[1..])
  }

  function AfterPhis(f: Function, s: Facts, insts: seq<InstId>): Facts
    decreases |insts|
  {
    if insts == [] then s else AfterPhis(f, if f.At(insts[0]).Phi? then AfterPhi(f, s, insts[0]) else s, insts[1..])
  }

  function AfterUsers(f: Function, s: Facts, insts: seq<InstId>): Facts
    decreases |insts|
  {
    if insts == [] then s else AfterUsers(f, if Home(f, insts[0]) in s.blocks then AfterOne(f, s, insts[0]) else s, insts[1..])
  }

  function AfterEdge(f: Function, s: Facts, e: FlowEdge): Facts {
    if e in s.edges then s
    else
      var t := s.(edges := s.edges + {e});
      if e.to in s.blocks then AfterPhis(f, t, f.Body(e.to))
      else AfterAll(f, t.(blocks := s.blocks + {e.to}), f.Body(e.to))
  }

  function PopFlow(s: Facts): Facts
    requires s.flow != []
  {
    var n := |s.flow| - 1;
    s.(flow := s.flow[..n], flowSet := s.flowSet - {s.flow[n]})
  }

  function PopSsa(s: Facts): Facts
    requires s.ssa != []
  {
    var n := |s.ssa| - 1;
    s.(ssa := s.ssa[..n], ssaSet := s.ssaSet - {s.ssa[n]})
  }

  /** One turn of one of the two inner loops; `ssaTurn` says which. */
  datatype Config = Config(facts: Facts, ssaTurn: bool)

  function Advance(f: Function, c: Config): Config {
    var s := c.facts;
    if c.ssaTurn then
      if s.ssa == [] then Config(s, false)
      else Config(AfterUsers(f, PopSsa(s), f.Users(s.ssa[|s.ssa| - 1])), true)
    else
      if s.flow == [] then Config(s, true)
      else Config(AfterEdge(f, PopFlow(s), s.flow[|s.flow| - 1]), false)
  }

  function TopArgs(args: seq<ValueId>, m: map<ValueId, Cell>): map<ValueId, Cell> {
    if args == [] then m else TopArgs(args[1..], m[args[0] := Top])
  }

  function Initial(f: Function): Facts {
    AfterAll(f, Facts(TopArgs(f.args, map[]), map[], {}, {f.entry}, [], [], {}, {}), f.Body(f.entry))
  }

  function Iterate(f: Function, n: nat): Config {
    if n == 0 then Config(Initial(f), false) else Advance(f, Iterate(f, n - 1))
  }

  predicate Finished(s: Facts) { s.flow == [] && s.ssa == [] }

  // ----- the solver

  class SccpSolver {
    var lattice: map<ValueId, Cell>
    var mayBeUndef: map<ValueId, bool>
    var reachableEdges: set<FlowEdge>
    var reachableBlocks: set<BlockId>
    var flowWork: seq<FlowEdge>
    var ssaWork: seq<ValueId>
    var flowWorkSet: set<FlowEdge>
    var ssaWorkSet: set<ValueId>

    function View(): Facts
      reads this
    {
      Facts(lattice, mayBeUndef, reachableEdges, reachableBlocks, flowWork, ssaWork, flowWorkSet, ssaWorkSet)
    }

    constructor ()
      ensures View() == Facts(map[], map[], {}, {}, [], [], {}, {})
    {
      lattice, mayBeUndef, reachableEdges, reachableBlocks := map[], map[], {}, {};
      flowWork, ssaWork, flowWorkSet, ssaWorkSet := [], [], {}, {};
    }

    method PushFlowWork(e: FlowEdge)
      modifies this
      ensures View() == PushFlow(old(View()), e)
    {
      if e in reachableEdges || e in flowWorkSet { return; }
      flowWork := flowWork + [e];
      flowWorkSet := flowWorkSet + {e};
    }

    method PushSsaWork(v: ValueId)
      modifies this
      ensures View() == PushSsa(old(View()), v)
    {
      if v in ssaWorkSet { return; }
      ssaWork := ssaWork + [v];
      ssaWorkSet := ssaWorkSet + {v};
    }

    method SetLatticeCell(v: ValueId, c: Cell)
      modifies this
      ensures View() == SetCell(old(View()), v, c)
    {
      if CellAt(View(), v) != c {
        lattice := lattice[v := c];
        PushSsaWork(v);
      }
    }

    method SetMayBeUndef(v: ValueId, u: bool)
      modifies this
      ensures View() == SetUndef(old(View()), v, u)
    {
      if UndefAt(View(), v) != u {
        mayBeUndef := mayBeUndef[v := u];
        PushSsaWork(v);
      }
    }

    method EvalPhi(f: Function, i: InstId)
      requires f.At(i).Phi?
      modifies this
      ensures View() == AfterPhi(f, old(View()), i)
    {
      hide SetCell, SetUndef, IsReachable, CellOf, MayBeUndef, Join;
      if f.ResultOf(i).None? { return; }
      var s := View();
      var args, block := f.At(i).args, Home(f, i);
      var cell, undef := Bot, false;
      var k := 0;
      while k < |args|
        invariant 0 <= k <= |args| && View() == s
        invariant JoinArgs(f, s, block, args, Bot) == JoinArgs(f, s, block, args[k..], cell)
        invariant UndefArgs(f, s, block, args, false) == UndefArgs(f, s, block, args[k..], undef)
      {
        assert args[k..][1..] == args[k + 1..];
        if IsReachable(f, s, args[k].1, block) {
          cell := Join(cell, CellOf(f, s, args[k].0));
          undef := undef || MayBeUndef(f, s, args[k].0);
        }
        k := k + 1;
      }
      SetLatticeCell(f.ResultOf(i).value, cell);
      SetMayBeUndef(f.ResultOf(i).value, undef);
    }

    method EvalBranch(f: Function, i: InstId)
      requires IsBranch(f.At(i))
      modifies this
      ensures View() == PushAll(old(View()), i, Demand(f, old(View()), f.At(i)))
    {
      hide PushFlow, CellOf;
      var s := View();
      match f.At(i) {
        case Jump(d) => PushFlowWork(FlowEdge(i, d));
        case Br(c, nz, z) =>
          match CellOf(f, s, c) {
            case Const(x) =>
              if x.bits == 0 { PushFlowWork(FlowEdge(i, z)); } else { PushFlowWork(FlowEdge(i, nz)); }
            case Top =>
              PushFlowWork(FlowEdge(i, z));
              PushFlowWork(FlowEdge(i, nz));
              PushTwo(s, i, z, nz);
            case Bot =>
          }
        case BrTable(scrutinee, default, table) =>
          match CellOf(f, s, scrutinee) {
            case Const(c) => PushDemanded(f, i, c, table, default);
            case Top =>
              assert Demand(f, s, f.At(i)) == TableDests(default, table);
              PushEvery(i, default, table);
            case Bot =>
          }
      }
    }

    method PushDemanded(f: Function, i: InstId, c: Imm, table: seq<(ValueId, BlockId)>, default: Option<BlockId>)
      modifies this
      ensures View() == PushAll(old(View()), i, TableDemand(f, old(View()), c, table, default))
    {
      hide PushFlow;
      var s := View();
      var k := 0;
      while k < |table|
        invariant 0 <= k <= |table| && View().lattice == s.lattice
        invariant PushAll(s, i, TableDemand(f, s, c, table, default)) == PushAll(View(), i, TableDemand(f, s, c, table[k..], default))
      {
        assert table[k..][1..] == table[k + 1..];
        var (v, d) := table[k];
        var here := View();
        PushKeeps(here, FlowEdge(i, d));
        match CellOf(f, here, v) {
          case Const(x) =>
            if x == c {
              assert TableDemand(f, s, c, table[k..], default) == [d];
              PushFlowWork(FlowEdge(i, d));
              return;
            }
          case _ =>
            assert TableDemand(f, s, c, table[k..], default)[1..] == TableDemand(f, s, c, table[k + 1..], default);
            PushFlowWork(FlowEdge(i, d));
        }
        k := k + 1;
      }
      if default.Some? { PushFlowWork(FlowEdge(i, default.value)); }
    }

    method PushEvery(i: InstId, default: Option<BlockId>, table: seq<(ValueId, BlockId)>)
      modifies this
      ensures View() == PushAll(old(View()), i, TableDests(default, table))
    {
      hide PushFlow;
      var s := View();
      var all := TableDests(default, table);
      if default.Some? {
        PushFlowWork(FlowEdge(i, default.value));
        assert all[1..] == Second(table);
      } else {
        assert all == Second(table);
      }
      var k := 0;
      while k < |table|
        invariant 0 <= k <= |table|
        invariant PushAll(s, i, all) == PushAll(View(), i, Second(table)[k..])
      {
        assert Second(table)[k..][1..] == Second(table)[k + 1..];
        PushFlowWork(FlowEdge(i, table[k].1));
        k := k + 1;
      }
    }

    method EvalInst(f: Function, i: InstId)
      modifies this
      ensures View() == AfterInst(f, old(View()), i)
    {
      hide SetCell, SetUndef, Simplify, Interpreted, CellOf, MayBeUndef, AnyUndef, PushAll, Demand;
      var inst := f.At(i);
      if IsBranch(inst) {
        EvalBranch(f, i);
        return;
      }
      if f.ResultOf(i).None? { return; }
      var r, s := f.ResultOf(i).value, View();
      if !IsPure(inst) {
        SetLatticeCell(r, Top);
        return;
      }
      match Simplify(f, s, inst) {
        case ToConst(c) =>
          SetLatticeCell(r, Const(c));
          SetMayBeUndef(r, false);
        case ToCopy(src) =>
          SetLatticeCell(r, CellOf(f, s, src));
          SetMayBeUndef(r, MayBeUndef(f, s, src));
        case NoChange =>
          SetLatticeCell(r, Interpreted(f, s, inst));
          SetMayBeUndef(r, AnyUndef(f, s, Operands(inst)));
      }
    }

    method EvalInstsIn(f: Function, block: BlockId)
      modifies this
      ensures View() == AfterAll(f, old(View()), f.Body(block))
    {
      hide AfterPhi, AfterInst;
      var body, k := f.Body(block), 0;
      ghost var s := View();
      while k < |body|
        invariant 0 <= k <= |body|
        invariant AfterAll(f, s, body) == AfterAll(f, View(), body[k..])
      {
        assert body[k..][1..] == body[k + 1..];
        if f.At(body[k]).Phi? { EvalPhi(f, body[k]); } else { EvalInst(f, body[k]); }
        k := k + 1;
      }
    }

    method EvalPhisIn(f: Function, block: BlockId)
      modifies this
      ensures View() == AfterPhis(f, old(View()), f.Body(block))
    {
      hide AfterPhi;
      var body, k := f.Body(block), 0;
      ghost var s := View();
      while k < |body|
        invariant 0 <= k <= |body|
        invariant AfterPhis(f, s, body) == AfterPhis(f, View(), body[k..])
      {
        assert body[k..][1..] == body[k + 1..];
        if f.At(body[k]).Phi? { EvalPhi(f, body[k]); }
        k := k + 1;
      }
    }

    method EvalUsers(f: Function, value: ValueId)
      modifies this
      ensures View() == AfterUsers(f, old(View()), f.Users(value))
    {
      hide AfterPhi, AfterInst;
      var users, k := f.Users(value), 0;
      ghost var s := View();
      while k < |users|
        invariant 0 <= k <= |users|
        invariant AfterUsers(f, s, users) == AfterUsers(f, View(), users[k..])
      {
        assert users[k..][1..] == users[k + 1..];
        if Home(f, users[k]) in reachableBlocks {
          if f.At(users[k]).Phi? { EvalPhi(f, users[k]); } else { EvalInst(f, users[k]); }
        }
        k := k + 1;
      }
    }

    method EvalEdge(f: Function, e: FlowEdge)
      modifies this
      ensures View() == AfterEdge(f, old(View()), e)
    {
      hide AfterAll, AfterPhis;
      if e in reachableEdges { return; }
      reachableEdges := reachableEdges + {e};
      if e.to in reachableBlocks {
        EvalPhisIn(f, e.to);
      } else {
        reachableBlocks := reachableBlocks + {e.to};
        EvalInstsIn(f, e.to);
      }
    }

    method Clear()
      modifies this
      ensures View() == Facts(map[], map[], {}, {}, [], [], {}, {})
    {
      lattice, mayBeUndef, reachableEdges, reachableBlocks := map[], map[], {}, {};
      flowWork, ssaWork, flowWorkSet, ssaWorkSet := [], [], {}, {};
    }

    method Enter(f: Function)
      modifies this
      ensures View() == Initial(f)
    {
      hide AfterAll;
      Clear();
      var k := 0;
      while k < |f.args|
        invariant 0 <= k <= |f.args|
        invariant View() == Facts(lattice, map[], {}, {}, [], [], {}, {})
        invariant TopArgs(f.args, map[]) == TopArgs(f.args[k..], lattice)
      {
        assert f.args[k..][1..] == f.args[k + 1..];
        lattice := lattice[f.args[k] := Top];
        k := k + 1;
      }
      reachableBlocks := {f.entry};
      EvalInstsIn(f, f.entry);
    }

    /** The first inner loop, from the n-th turn on. */
    method DrainFlow(f: Function, ghost n: nat, fuel: nat) returns (left: nat, ghost m: nat)
      requires Iterate(f, n) == Config(View(), false)
      modifies this
      ensures Iterate(f, m) == Config(View(), false) && m + left == n + fuel && left <= fuel
      ensures flowWork == [] || left == 0
    {
      hide AfterEdge, AfterUsers, Initial;
      left, m := fuel, n;
      while flowWork != [] && left > 0
        invariant Iterate(f, m) == Config(View(), false) && m + left == n + fuel && left <= fuel
        decreases left
      {
        var e := flowWork[|flowWork| - 1];
        ghost var s := View();
        flowWorkSet := flowWorkSet - {e};
        flowWork := flowWork[..|flowWork| - 1];
        assert View() == PopFlow(s);
        EvalEdge(f, e);
        left, m := left - 1, m + 1;
      }
    }

    /** The second inner loop. */
    method DrainSsa(f: Function, ghost n: nat, fuel: nat) returns (left: nat, ghost m: nat)
      requires Iterate(f, n) == Config(View(), true)
      modifies this
      ensures Iterate(f, m) == Config(View(), true) && m + left == n + fuel && left <= fuel
      ensures ssaWork == [] || left == 0
    {
      hide AfterEdge, AfterUsers, Initial;
      left, m := fuel, n;
      while ssaWork != [] && left > 0
        invariant Iterate(f, m) == Config(View(), true) && m + left == n + fuel && left <= fuel
        decreases left
      {
        var v := ssaWork[|ssaWork| - 1];
        ghost var s := View();
        ssaWork := ssaWork[..|ssaWork| - 1];
        ssaWorkSet := ssaWorkSet - {v};
        assert View() == PopSsa(s);
        EvalUsers(f, v);
        left, m := left - 1, m + 1;
      }
    }

    /** Both worklists, cut off after `fuel` turns of the loops. */
    method Solve(f: Function, fuel: nat) returns (done: bool, ghost turns: nat)
      modifies this
      ensures View() == Iterate(f, turns).facts && turns <= fuel
      ensures done <==> Finished(View())
      ensures done || turns == fuel
    {
      hide AfterEdge, AfterUsers, Initial;
      Enter(f);
      turns := 0;
      var left: nat := fuel;
      while left > 0 && (flowWork != [] || ssaWork != [])
        invariant turns + left == fuel && (left > 0 ==> Iterate(f, turns) == Config(View(), false))
        invariant View() == Iterate(f, turns).facts
        decreases left
      {
        left, turns := DrainFlow(f, turns, left);
        if left == 0 { break; }
        left, turns := left - 1, turns + 1;
        left, turns := DrainSsa(f, turns, left);
        if left == 0 { break; }
        left, turns := left - 1, turns + 1;
      }
      done := flowWork == [] && ssaWork == [];
    }
  }

  lemma PushTwo(s: Facts, i: InstId, d: BlockId, e: BlockId)
    ensures PushAll(s, i, [d, e]) == PushFlow(PushFlow(s, FlowEdge(i, d)), FlowEdge(i, e))
  {
    hide PushFlow;
    assert [d, e][1..] == [e] && [e][1..] == [];
    var t := PushFlow(s, FlowEdge(i, d));
    assert PushAll(t, i, [e]) == PushAll(PushFlow(t, FlowEdge(i, e)), i, []);
  }

  lemma PushKeeps(s: Facts, e: FlowEdge)
    ensures PushFlow(s, e).lattice == s.lattice
  {
  }
}
