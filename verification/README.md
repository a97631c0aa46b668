# Sonatina: a verified model of the compiler's graph, dataflow and layout algorithms

Sonatina is a backend for SSA code. This project states in Dafny what its
algorithms compute and proves it: the post-order of a control flow graph,
strongly connected components (two algorithms), dominators, effects closed over
the call graph, sparse conditional constant propagation with the rewriting that
follows it, splitting of critical edges, splicing of straight-line callees,
block and instruction liveness, bounds for heap allocation, the linked-list
layout, the placing of stack slots, and the linking of a section.

Code that works by changing things in place is a class or a method with loops
here too, proved against a function or a predicate on values; what the source
promises is then proved as lemmas about those. Nothing was executed.

## How the files fit together

- `Graphs.dfy` walks, reachability, reversal, components: the vocabulary of all graph results.
- `Cfg.dfy` the stack-driven post-order iterator.
- `Kahn.dfy` sets in increasing order; topological sorting by in-degrees with a tie-break key.
- `CfgScc.dfy` components of a control flow graph and their order.
- `DomTree.dfy` dominators by the iterative algorithm on reverse post-order.
- `CallGraph.dfy` components of the call graph, by Tarjan's algorithm.
- `Effects.dfy` memory effects of functions, joined along the components.
- `Words.dfy`, `Ir.dfy` immediates, instructions, functions and the interpreter.
- `Sccp.dfy`, `SccpSound.dfy`, `SccpFold.dfy` constant propagation: the solver, its soundness, the rewriting.
- `SccpSsa.dfy`, `SccpSafe.dfy` what it gains from SSA form: monotone evaluation, an end, the least solution, and conditions on the code.
- `SccpExact.dfy` that it claims no less than it can: demanded edges, known results, the algebraic rules, reached blocks.
- `SccpStale.dfy`, `SccpShift.dfy` two functions on which a rule goes wrong.
- `CriticalEdges.dfy` building the graph of a function and splitting its critical edges.
- `Splice.dfy` copying a straight-line callee into its caller.
- `Liveness.dfy`, `HeapBounds.dfy` liveness and the bounds computed from it.
- `Layout.dfy` the linked-list layout of blocks and instructions.
- `AllocaPlan.dfy` stack slots by best fit.
- `Assembly.dfy`, `Linking.dfy`, `LinkFacts.dfy` laying out, relaxing and linking machine code.
- `EvmAssembly.dfy` the EVM as a backend, and what the machine reads in a linked section.

## Two places where the code does not do what it is for

- The rules that turn a negation of a negation into its operand
  (`crates/codegen/src/optim/sccp_simplify.rs:236-258`) read a value that is no
  operand of the instruction, so the solver is not told when that value changes.
  `SccpStale.NegationOfNegationIsStale` gives a function in SSA form, with a
  negation of a negation of a negation, on which the solver finishes with a
  constant that a run contradicts, and which no rewriting by those facts
  preserves.
- The rule `x sar 0 = x` (`crates/codegen/src/optim/sccp_simplify.rs:213-234`)
  disagrees with the interpreter (`crates/ir/src/interpret/arith.rs:132-149`),
  which negates the shifted word unless the operand is positive.
  `Words.SarByZeroExact` says exactly for which words the rule holds: those that
  are not negative, and the least one. `SccpShift.ShiftByZeroIsWrong` gives a
  function that returns another word after the rewriting.

What is proved about constant propagation in view of this, for all functions:

- `SccpSound.RunDescribedExactly`: the final facts describe a run for exactly as
  long as it does not trip, that is, execute one of those two kinds of
  instruction and compute what its recorded cell does not have.
- `SccpSound.EveryRunDescribed`: no run trips if the final facts pass a check of
  each executable instruction by itself (`AllTrusted`): no shift by a known zero
  of a known word that it changes, and what is recorded for a negation of a
  negation covers the negation of what is recorded for its operand. A caller can
  make this check before rewriting. `SccpSound.TrustedExactly`: no weaker check
  would do, as facts that fail it describe a state from which a step, whatever the
  outside answers, leads to one they do not describe.
- `SccpSafe.SafeTrusted`: in SSA form the facts pass it whenever the code does
  (`RulesSafe`): every arithmetic shift has an amount or an operand that is never
  taken for a constant or is a harmless immediate, and no negation of a negation
  is negated again, unless it all started from a value that takes one cell only.
  This can be read off the function before solving.
- `SccpSafe.DescribedUnlessShifted`: in SSA form, and with only the second of the
  two conditions, the facts describe a run for exactly as long as it does not
  execute an arithmetic shift by a known zero of a known word that it changes.

SSA form (`SccpSsa.SsaForm`) means that every use is dominated by its definition,
a phi's incoming value by the end of the block it comes from, that a phi has one
incoming value for each predecessor, and that the entry has no phis. In SSA form
evaluation is monotone for the instructions modelled here, undefinedness
included, and the solver ends (`SccpSsa.SolverEnds`). Without negations of
negations what it ends with is the least solution of its equations
(`SccpSsa.FinalIsLeast`), whatever the order of the worklists.

## Model

| member | source | states |
|---|---|---|
| Graphs.ReachReverse | crates/ir/src/cfg.rs:31-37 | With mutually inverse predecessor and successor tables, reaching forwards is reaching backwards read the other way. |
| Cfgs.CfgPostOrder.Visit | crates/ir/src/cfg.rs:170-180 | A visit marks the block and puts its unvisited successors above it, keeping the traversal invariant. |
| Cfgs.CfgPostOrder.Pop | crates/ir/src/cfg.rs:181-186 | A block seen again is taken off the stack and finished once. |
| Cfgs.CfgPostOrder.Next | crates/ir/src/cfg.rs:165-188 | Each call yields one more block, never one yielded before, until the stack is empty. |
| Cfgs.VisitPlanned | crates/ir/src/cfg.rs:170-180 | Read as a recursive traversal, what the stack is still to yield is the same before and after the top block is visited, although only unvisited successors are pushed. |
| Cfgs.PopPlanned | crates/ir/src/cfg.rs:181-186 | Popping takes the top block from what is still to come exactly when that finishes it; stale copies stand for nothing. |
| Cfgs.PostOrder | crates/ir/src/cfg.rs:146-188 | The blocks yielded are exactly those reachable from the entry, each once, in depth-first finishing order; it is the order of the recursive traversal that takes successors last to first. |
| Cfgs.EdgeOrder | crates/ir/src/cfg.rs:146-188 | Along every edge u to v among the yielded blocks, v is yielded before u or v reaches u. |
| Cfgs.EarlierPredecessor | crates/ir/src/cfg.rs:146-188 | Every block but the entry has a predecessor earlier in reverse post-order. |
| Cfgs.ReachedBackFromLatest | crates/ir/src/cfg.rs:146-188 | A block yielded no later than another and able to reach it through blocks yielded no later is reached by it: why a backward walk in reverse post-order finds components. |
| Kahn.TopoSort | crates/codegen/src/cfg_scc.rs:214-251 | On an acyclic graph the in-degree algorithm lists every node once, always the ready node with the smallest key. |
| Kahn.NeverStuck | crates/codegen/src/cfg_scc.rs:231-250 | While nodes are left in an acyclic graph some node is ready. |
| Kahn.GreedyGoesForward | crates/codegen/src/cfg_scc.rs:231-250 | In such a listing every edge goes forward. |
| CfgSccs.CfgSccAnalysis.Gather | crates/codegen/src/cfg_scc.rs:96-124 | The backward walk from a root assigns exactly the unassigned blocks that reach the root inside the reachable part. |
| CfgSccs.ComponentComplete | crates/codegen/src/cfg_scc.rs:86-124 | What one backward walk gathers is a whole component, no more and no less. |
| CfgSccs.CfgSccAnalysis.Compute | crates/codegen/src/cfg_scc.rs:79-180 | The tables describe the components: blocks, successors, predecessors, entries, exits, cycles, and an order that always takes the ready component with the least first block. |
| CfgSccs.CycleFromTables | crates/codegen/src/cfg_scc.rs:133-180 | A component is marked cyclic exactly when its blocks lie on a cycle. |
| CfgSccs.SccExact | crates/codegen/src/cfg_scc.rs:86-124 | Two blocks have the same component exactly when both are reachable and each reaches the other. |
| CfgSccs.CondensationIsDag | crates/codegen/src/cfg_scc.rs:214-251 | The graph of the components is acyclic, so the order always covers it. |
| CfgSccs.CrossEdgesGoForward | crates/codegen/src/cfg_scc.rs:202-251 | Every edge between different components goes forward in the computed order. |
| CfgSccs.GreedyIsLeast | crates/codegen/src/cfg_scc.rs:59-62 | The order is determined: each component listed is the one with the least first block among those whose predecessors are all listed. |
| DomTrees.DomTree.Intersect | crates/codegen/src/domtree.rs:137-159 | Walking two blocks up the tree meets at their closest common ancestor; each step raises the number, so the walk ends. |
| DomTrees.DomTree.Sweep | crates/codegen/src/domtree.rs:83-104 | One pass keeps the tree and every dominator on it, and either changes nothing and is a fixpoint or lowers the potential. |
| DomTrees.MovesUp | crates/codegen/src/domtree.rs:83-104 | Evaluating a block again moves its tree parent up its old chain of ancestors. |
| DomTrees.PotentialFalls | crates/codegen/src/domtree.rs:73-104 | Every change of a pass lowers a bounded measure, so the outer loop ends. |
| DomTrees.CompleteStep | crates/codegen/src/domtree.rs:83-104 | No dominator is ever lost from the chain of a block. |
| DomTrees.AncestorsDominate | crates/codegen/src/domtree.rs:83-104 | At a fixpoint every ancestor of a block dominates it. |
| DomTrees.ChainIsDominators | crates/codegen/src/domtree.rs:59-105 | At the end the ancestors of a block are exactly its dominators. |
| DomTrees.DomTree.Compute | crates/codegen/src/domtree.rs:59-105 | The computed table is such a tree over exactly the reachable blocks. |
| DomTrees.DomTree.StrictlyDominates | crates/codegen/src/domtree.rs:38-49 | The query holds exactly when the second block is reachable, differs from the first, and every walk to it passes through the first. |
| DomTrees.DomTree.DominatesBlock | crates/codegen/src/domtree.rs:51-57 | The non-strict query holds for a block and itself, and otherwise exactly when the first dominates the second, which is reachable. |
| DomTrees.IdomExact | crates/codegen/src/domtree.rs:30-36 | The immediate dominator is the strict dominator that all the others dominate. |
| CallGraphs.SccBuilder.StrongComponent | crates/codegen/src/module_analysis.rs:250-301 | One recursive visit keeps the invariant of the stack, the indices and the finished components, and assigns or stacks all it reaches. |
| CallGraphs.SccBuilder.ComputeScc | crates/codegen/src/module_analysis.rs:237-248 | Every function gets a component, and the table describes the components. |
| CallGraphs.PopKeeps | crates/codegen/src/module_analysis.rs:279-299 | What is popped together is one whole component. |
| CallGraphs.SccExact | crates/codegen/src/module_analysis.rs:237-301 | Two functions share a component exactly when each reaches the other; the cycle flag is exact; calls between components go to smaller references. |
| FuncEffects.TopoSortSccs | crates/codegen/src/analysis/func_behavior.rs:335-368 | The components of the module are listed once, callers before callees, always the least that is ready. |
| FuncEffects.ClosureStep | crates/codegen/src/analysis/func_behavior.rs:104-129 | Joining members and successors of a component gives everything reachable from it, and nothing else. |
| FuncEffects.FuncBehaviorAnalyzer.PropagateMem | crates/codegen/src/analysis/func_behavior.rs:104-129 | The pass leaves in every function the closure of the local effects over its calls; what that is on the inputs is `FuncEffects.ClosureIsExact`. |
| FuncEffects.ClosureIsExact | crates/codegen/src/analysis/func_behavior.rs:104-129 | The closure holds reading, or writing, exactly when some function reached is external, has no body, or reads, or writes, itself. |
| FuncEffects.AnalyzeMem | crates/codegen/src/analysis/func_behavior.rs:69-129 | On the inputs: a function is marked as reading, or as writing, exactly when some function it reaches is external, has no body, or reads, or writes, itself. |
| FuncEffects.ComputeFuncMemEffects | crates/codegen/src/isa/evm/mem_effects.rs:31-110 | The EVM effects of a function are exactly the union over the functions it reaches. |
| Words.WordLaws | crates/codegen/src/optim/sccp_simplify.rs:58-211 | The identities behind the algebraic rules hold for words of every width. |
| Words.ShiftLaws | crates/codegen/src/optim/sccp_simplify.rs:213-234 | Shifting a zero word, or shifting left or right by zero, leaves the word, through the widening to 256 bits. |
| Words.SarByZeroExact | crates/ir/src/interpret/arith.rs:132-149 | An arithmetic shift by zero returns its operand exactly when that is not negative or is the least word. |
| Words.ArithmeticIsWide | crates/ir/src/value.rs:262-324 | Widening both operands to 256 bits with sign, computing there and truncating is addition, subtraction, multiplication, negation and complement modulo the width. |
| Words.BitwiseIsWide | crates/ir/src/value.rs:326-348 | The same for and, or and exclusive or. |
| Words.ComparisonIsWide | crates/ir/src/value.rs:123-193 | Comparing the widened words without sign compares the words without sign. |
| Words.SignedComparisonIsWide | crates/ir/src/value.rs:131-153 | Comparing them with sign compares the words with sign. |
| Words.ShiftLeftExact | crates/ir/src/bigint.rs:204-213 | Shifting the widened word left is multiplying by a power of two modulo the width, and gives zero from 256 on. |
| Words.ShiftRightUnsigned | crates/ir/src/bigint.rs:215-224 | Shifting right divides by a power of two, rounding down, exactly if the word is not negative or has 256 bits. |
| Words.ShiftRightSigned | crates/ir/src/bigint.rs:215-224 | While the shift stays within what was widened, shifting right shifts in the sign: the quotient of the signed word. |
| Words.ShiftArithmeticExact | crates/ir/src/interpret/arith.rs:132-149 | An arithmetic shift is the other right shift for a positive word and its negation for any other. |
| Words.CastsExact | crates/ir/src/value.rs:155-179 | Extending keeps the word without or with its sign, truncating keeps the low bits. |
| Sccps.SccpSolver.EvalPhi | crates/codegen/src/optim/sccp.rs:168-187 | The phi gets the join over its executable incoming edges; a change is put on the worklist. |
| Sccps.SccpSolver.EvalInst | crates/codegen/src/optim/sccp.rs:199-251 | One evaluation makes of the facts what the specification function says. |
| Sccps.SccpSolver.EvalBranch | crates/codegen/src/optim/sccp.rs:271-330 | Exactly the demanded destinations are pushed, in order; that these are what the condition's cell admits is `SccpExact.DemandIsTarget`, `SccpExact.VaryingGoesBothWays` and `SccpExact.DemandBounds`. |
| Sccps.SccpSolver.EvalEdge | crates/codegen/src/optim/sccp.rs:144-158 | A new edge evaluates the whole block the first time and its phis later. |
| Sccps.SccpSolver.Solve | crates/codegen/src/optim/sccp.rs:57-101 | The two worklist loops compute the iterates of the specification, and say whether both lists are empty. |
| SccpSound.OneKeeps | crates/codegen/src/optim/sccp.rs:160-251 | Evaluating an instruction settles it and unsettles none: an executable instruction is up to date or has an operand waiting; only a negation of a negation, which reads a value that is no operand, is left out. |
| SccpSound.TurnsKeep | crates/codegen/src/optim/sccp.rs:80-99 | That holds after any number of turns, although cells are overwritten and the rules are not monotone. |
| SccpSound.SolvedWhenFinished | crates/codegen/src/optim/sccp.rs:80-99 | With both worklists empty every such instruction evaluates to its recorded cell and every branch's demanded edges are executable. |
| SccpSound.BinaryRuleSound | crates/codegen/src/optim/sccp_simplify.rs:317-435 | A simplification that fires names the value the interpreter computes; for an arithmetic shift by a known zero, if the word is not negative or the least one. |
| SccpSound.EvalSound | crates/codegen/src/optim/sccp.rs:199-251 | The cell of a pure instruction covers what it computes on any values its operands' cells cover, but for the two kinds the rules get wrong. |
| SccpSound.BranchDescribed | crates/codegen/src/optim/sccp.rs:271-330 | Every edge a run takes is in the set of executable edges. |
| SccpSound.TripsBreaks | crates/codegen/src/optim/sccp_simplify.rs:213-258 | Executing an instruction that trips leaves a state the facts do not describe. |
| SccpSound.RunDescribedExactly | crates/interpreter/src/lib.rs:60-98 | The final facts describe the states of a run, of any length, for exactly as long as it does not trip: the block is executable, it was entered by an executable edge, and each value is the constant of its cell, or undefined, or its cell is top. |
| SccpSound.EveryRunDescribed | crates/interpreter/src/lib.rs:60-98 | Final facts that pass an instruction-by-instruction check describe every state of every run. |
| SccpSound.TrustedExactly | crates/codegen/src/optim/sccp_simplify.rs:213-258 | Final facts pass that check if and only if no state they describe trips, and if and only if no step, whatever the outside answers, leads from a state they describe to one they do not. |
| SccpFold.ShrunkStep | crates/ir/src/inst/control_flow.rs:140-155 | Removing destinations one after another, with the conversions to jump and unreachable on the way, is removing them together. |
| SccpFold.ShrunkDests | crates/ir/src/inst/control_flow.rs:187-208 | The destinations left are exactly those not removed. |
| SccpFold.ShrunkForm | crates/ir/src/inst/control_flow.rs:140-208 | A branch that loses nothing is left alone; otherwise it is unreachable when nothing is left, a jump when one entry is left, and a table on the same value when more are. |
| SccpFold.TargetKept | crates/ir/src/interpret/control_flow.rs:12-55 | A branch that loses only destinations it does not take still goes the same way. |
| SccpFold.RemoveUnreachableEdges | crates/codegen/src/optim/sccp.rs:333-362 | Unreachable blocks are deleted and every remaining branch has lost exactly its dead destinations. |
| SccpFold.FoldInsts | crates/codegen/src/optim/sccp.rs:368-418 | In the result the blocks are those found executable; a branch goes exactly where it was found to go, into blocks of the result; each phi has exactly the predecessors left, once each, with the values it had; no known result is computed any more, it is a constant instead; all other instructions stay, unchanged and in order. |
| SccpFold.RewrittenTidy | crates/codegen/src/optim/sccp.rs:333-476 | The same for every function that the rewriting by consistent facts can give. |
| SccpFold.KeptSieves | crates/codegen/src/optim/sccp.rs:381-418 | A block keeps exactly its instructions without a known result, in their order. |
| SccpFold.MeaningPreserved | crates/codegen/src/optim/sccp.rs:333-418 | Whenever the original function returns without tripping, so does the rewritten one, with the same value unless the original's was undefined, and with the same effects in the same order. |
| SccpFold.TurnsKeepEdges | crates/codegen/src/optim/sccp.rs:144-158 | At every moment executable edges lead into executable blocks, whichever rules fire. |
| SccpFold.PropagateConstants | crates/codegen/src/optim/sccp.rs:57-113 | The pass rewrites by the facts found once both worklists are empty, with the graph, phis and constants those facts leave; if they can be trusted, the result returns like the input on all arguments and for all answers from outside. It gives up only when the worklists are still not empty after the turns allowed. |
| SccpSsa.PureLater | crates/codegen/src/optim/sccp.rs:199-251 | With known operands, evaluating a pure instruction later, when its operands' cells and undefinedness have only risen, gives a cell and undefinedness that have only risen, whichever rules fire. |
| SccpSsa.InstReady | crates/codegen/src/optim/sccp.rs:144-158 | In SSA form every operand of an instruction is known when its block is evaluated for the first time. |
| SccpSsa.PhiReady | crates/codegen/src/optim/sccp.rs:168-187 | In SSA form a phi then has a known incoming value over the edge by which its block was entered. |
| SccpSsa.TurnsRise | crates/codegen/src/optim/sccp.rs:80-99 | In SSA form cells, undefinedness and executable edges only rise from turn to turn, executable instructions have known results, and a bounded measure of what is left to do falls. |
| SccpSsa.SolverEnds | crates/codegen/src/optim/sccp.rs:80-99 | In SSA form both worklists are empty after a number of turns that is read off the function. |
| SccpSsa.WantedLater | crates/codegen/src/optim/sccp.rs:271-330 | What a branch demands it demands ever after, as cells only rise. |
| SccpSsa.TurnsBelow | crates/codegen/src/optim/sccp.rs:80-99 | In SSA form no turn ever says more than any solution: facts with the entry, the demanded edges, their targets, and every evaluated cell or more. |
| SccpSsa.FinalIsLeast | crates/codegen/src/optim/sccp.rs:80-99 | In SSA form without negations of negations the final facts are a solution themselves, and so the least one. |
| SccpExact.DemandIsTarget | crates/codegen/src/optim/sccp.rs:271-330 | A branch on a known condition demands nothing but the destination the interpreter takes. |
| SccpExact.VaryingGoesBothWays | crates/codegen/src/optim/sccp.rs:288-291 | A branch on a varying condition demands both destinations, and some values the cells admit lead to each. |
| SccpExact.DemandBounds | crates/codegen/src/optim/sccp.rs:288-329 | A table on a varying value demands exactly all its destinations, a condition without a value none. |
| SccpExact.EdgesAreDemanded | crates/codegen/src/optim/sccp.rs:144-158 | In SSA form the executable edges at the end are exactly those that executable branches demand by the final cells, and the executable blocks are what follows from the entry along them. |
| SccpExact.EdgesAreTaken | crates/codegen/src/optim/sccp.rs:271-330 | So a branch on a known condition has exactly one executable edge, the one the interpreter takes. |
| SccpExact.ConstantsFold | crates/codegen/src/optim/sccp.rs:199-251 | A pure instruction on known operands evaluates to the interpreter's result, whichever rule fires; excepted are the two kinds the rules get wrong. |
| SccpExact.FinalConstants | crates/codegen/src/optim/sccp.rs:80-99 | That result is what is recorded at the end. |
| SccpExact.PhiIsLeast | crates/codegen/src/optim/sccp.rs:168-187 | The cell of a phi is the least one above what comes in over executable edges; if that is one constant, it is that constant. |
| SccpExact.FinalPhis | crates/codegen/src/optim/sccp.rs:80-99 | That is what is recorded at the end for an executable phi. |
| SccpExact.AbsorbingDecides | crates/codegen/src/optim/sccp_simplify.rs:58-234 | A known zero decides and, multiplication and shifts of it, all ones decide or, whatever the other operand is. |
| SccpExact.NeutralBits | crates/codegen/src/optim/sccp_simplify.rs:58-142 | A known neutral operand of and, or, exclusive or leaves the cell of the other. |
| SccpExact.NeutralNumbers | crates/codegen/src/optim/sccp_simplify.rs:144-234 | The same for addition, subtraction, multiplication and shifts by zero. |
| SccpExact.SameOperandDecides | crates/codegen/src/optim/sccp_simplify.rs:58-211 | An operation on twice the same defined value is that value, zero, or the comparison's answer. |
| SccpExact.NothingDone | crates/codegen/src/optim/sccp_simplify.rs:236-315 | A cast to the width of its operand has the cell of the operand, two negations that of the value behind them. |
| SccpExact.UndefExact | crates/codegen/src/optim/sccp.rs:220-251 | A result may be undefined only if something read may be, and is if an operand may be and none is known. |
| SccpExact.PhiUndefExact | crates/codegen/src/optim/sccp.rs:168-187 | A phi may be undefined exactly if a value coming in over an executable edge may be. |
| SccpExact.NothingUnreachable | crates/codegen/src/optim/sccp.rs:333-362 | In SSA form every block of the rewritten function is reached from its entry. |
| SccpSafe.NegationTrusted | crates/codegen/src/optim/sccp_simplify.rs:236-258 | In SSA form the cell recorded for a negation of a plain negation is in the end that of the value behind both, although nothing asks for a second look at it. |
| SccpSafe.SafeTrusted | crates/codegen/src/optim/sccp_simplify.rs:213-258 | In SSA form the final facts of a function with safe rules pass the check. |
| SccpSafe.DescribedUnlessShifted | crates/codegen/src/optim/sccp_simplify.rs:213-234 | In SSA form with safe negations the final facts describe a run for exactly as long as it executes no arithmetic shift by a known zero of a known word that it changes. |
| SccpSafe.SafeRunsDescribed | crates/interpreter/src/lib.rs:60-98 | In SSA form with safe rules the solver ends and its facts describe every state of every run. |
| SccpSafe.PropagateSsa | crates/codegen/src/optim/sccp.rs:57-113 | On a function in SSA form the pass needs no cut-off, leaves no unreachable block, and keeps the meaning of every function with safe rules. |
| SccpStale.NegationOfNegationIsStale | crates/codegen/src/optim/sccp_simplify.rs:236-246 | On one concrete function the solver ends with a constant that a concrete run contradicts, and no rewriting by those facts keeps the meaning. |
| SccpStale.LoopWellFormed | crates/codegen/src/optim/sccp_simplify.rs:236-246 | That function is well-formed, in SSA form, and of all its instructions only the last of three negations violates the conditions. |
| SccpShift.ShiftByZeroIsWrong | crates/ir/src/interpret/arith.rs:132-149 | On one concrete function the solver ends with the shifted word as it was, every run returns its negation, and no rewriting by those facts keeps the meaning. |
| SccpShift.ShiftedWellFormed | crates/codegen/src/optim/sccp_simplify.rs:213-234 | That function is well-formed, in SSA form, and only its shift violates the conditions. |
| CriticalEdges.ControlFlowGraph.AddEdge | crates/ir/src/cfg.rs:55-58 | Adding an edge adds just that edge and keeps the tables mirrored. |
| CriticalEdges.ControlFlowGraph.RemoveEdge | crates/ir/src/cfg.rs:60-63 | Removing an edge removes just that edge and keeps the tables mirrored. |
| CriticalEdges.ControlFlowGraph.ReverseEdges | crates/ir/src/cfg.rs:65-71 | Every edge is turned round. |
| CriticalEdges.ControlFlowGraph.Compute | crates/ir/src/cfg.rs:19-29 | The tables are exactly the edges of the terminators, the exits exactly the blocks that leave. |
| CriticalEdges.SplitEdge | crates/codegen/src/cfg_edit.rs:206-237 | The edge is led over a fresh block; branch and phis are rewritten, nothing else changes. |
| CriticalEdges.CriticalAfter | crates/codegen/src/critical_edge.rs:46-62 | A split makes no edge critical that was not, and its own edge is gone. |
| CriticalEdges.RewriteForm | crates/ir/src/inst/control_flow.rs:155-208 | Rewriting a destination redirects each entry of the branch by itself; a branch whose entries then all go to one block is a jump. |
| CriticalEdges.RoutedTurn | crates/codegen/src/critical_edge.rs:46-62 | A split takes away its own edge and no other between old blocks, and leads it over one new block. |
| CriticalEdges.PhisFitAfter | crates/codegen/src/cfg_edit.rs:578-602 | Each phi still has one incoming value for each predecessor. |
| CriticalEdges.SplitKeepsRuns | crates/codegen/src/cfg_edit.rs:206-237 | Every run is matched by one that is in the same blocks with the same locals, phi values, effects and result. |
| CriticalEdges.CriticalEdgeSplitter.Run | crates/codegen/src/critical_edge.rs:23-62 | Afterwards no critical edge is left; between the blocks there were exactly the critical edges are gone, each led over a block of its own; phis fit, all runs are kept, and the graph describes the new function. |
| Splices.ValidateValueFlow | crates/codegen/src/optim/inliner.rs:776-805 | The check succeeds exactly when every operand is available where it is used and the returned value at the end. |
| Splices.FlowExact | crates/codegen/src/optim/inliner.rs:776-805 | Available means given at the start or the result of an earlier instruction of the body. |
| Splices.BuildValueMap | crates/codegen/src/optim/inliner.rs:738-756 | Parameters map to the arguments, constants to new constants of the same value; it fails exactly on a wrong number of arguments. |
| Splices.CopyAllRuns | crates/codegen/src/optim/inliner.rs:758-774 | The renamed body runs in step with the body in a frame of its own. |
| Splices.ExecIsStep | crates/interpreter/src/lib.rs:60-98 | A straight-line instruction runs as in the interpreter: the same local, the same operands of an effect, and it panics on the same values. |
| Splices.SpliceSingleBlock | crates/codegen/src/optim/inliner.rs:629-679 | From any state of the caller, be it the first time its block is run or a later one, the effects, every old value and the result after the spliced body are those of the call in a fresh frame; when it declines is exact. |
| Livenesses.Liveness.UpAndMark | crates/codegen/src/liveness.rs:91-117 | The recursion ends, marks only blocks where the value is live, and leaves nothing to carry on below the blocks being visited. |
| Livenesses.MarksExact | crates/codegen/src/liveness.rs:91-117 | Complete marks are live-in, live-out and live blocks exactly as defined by paths. |
| Livenesses.DefsAreSources | crates/codegen/src/liveness.rs:49-63 | Each recorded definition is a real one and no definition is missed. |
| Livenesses.UsesAreReal | crates/codegen/src/liveness.rs:65-80 | Liveness starts from exactly the blocks with an instruction that uses the value, phis counting where the value comes from, immediates not at all. |
| Livenesses.Liveness.Compute | crates/codegen/src/liveness.rs:49-80 | For every defined value and block the three tables are exact, phi inputs counting as uses of the predecessor. |
| Livenesses.InstLiveness.Compute | crates/codegen/src/liveness.rs:144-169 | A value is live after an instruction of a reachable block exactly when a later instruction of the block, or a path from its end, reaches a use of it before a definition. |
| Livenesses.ScanBlock | crates/codegen/src/liveness.rs:144-169 | A value is live after an instruction exactly when a later one of the block uses it, or the end of the block needs it, before it is defined again. |
| HeapBounds.StableExact | crates/codegen/src/isa/evm/heap_plan.rs:164-181 | Where nothing can be raised, a block's bound is the largest local bound of the blocks it reaches. |
| HeapBounds.Sweep | crates/codegen/src/isa/evm/heap_plan.rs:166-181 | A pass that changes something uses up part of a bounded measure; one that changes nothing is stable. |
| HeapBounds.BlockBounds | crates/codegen/src/isa/evm/heap_plan.rs:140-181 | The loop ends, and every reachable block has the largest local bound of the blocks reachable from it. |
| HeapBounds.MallocBounds | crates/codegen/src/isa/evm/heap_plan.rs:140-201 | The bound of a malloc in a reachable block is the largest over it and all instructions that can be executed after it. |
| Layouts.SplicedChained | crates/ir/src/layout.rs:127-162 | Linking a node between two neighbours inserts it into the sequence and touches nothing else. |
| Layouts.UnsplicedChained | crates/ir/src/layout.rs:164-190 | Unlinking a node removes it from the sequence and touches nothing else. |
| Layouts.Layout.IsBlockInserted | crates/ir/src/layout.rs:57-59 | A block counts as inserted exactly when it is in the sequence. |
| Layouts.Layout.IsInstInserted | crates/ir/src/layout.rs:91-93 | An instruction counts as inserted exactly when some block's sequence has it. |
| Layouts.Layout.Neighbours | crates/ir/src/layout.rs:76-89 | The block and the neighbours read off the links are those in the sequence. |
| Layouts.Layout.InstsIn | crates/ir/src/layout.rs:102-107 | Following the links from the first instruction visits the block's sequence. |
| Layouts.Layout.Blocks | crates/ir/src/layout.rs:95-100 | Following the links from the entry visits the sequence. |
| Layouts.Layout.AppendBlock | crates/ir/src/layout.rs:110-125 | The block becomes the last of the sequence, with an empty list. |
| Layouts.Layout.InsertBlockBefore | crates/ir/src/layout.rs:127-144 | The block is inserted just before the given one. |
| Layouts.Layout.InsertBlockAfter | crates/ir/src/layout.rs:146-162 | The block is inserted just after the given one. |
| Layouts.Layout.RemoveBlock | crates/ir/src/layout.rs:164-190 | An emptied block disappears from the sequence, all else stays. |
| Layouts.Layout.AppendInst | crates/ir/src/layout.rs:192-208 | The instruction becomes the last of its block, other blocks stay. |
| Layouts.Layout.PrependInst | crates/ir/src/layout.rs:210-226 | The instruction becomes the first of its block. |
| Layouts.Layout.InsertInstBefore | crates/ir/src/layout.rs:228-246 | The instruction is inserted just before the given one, in its block. |
| Layouts.Layout.InsertInstAfter | crates/ir/src/layout.rs:248-266 | The instruction is inserted just after the given one, in its block. |
| Layouts.Layout.RemoveInst | crates/ir/src/layout.rs:269-297 | The instruction disappears from its block's sequence, all else stays. |
| Layouts.Layout.EraseBlock | crates/ir/src/func_cursor.rs:97-115 | Emptying a block and removing it drops the block and its list, all else stays. |
| AllocaPlans.BestFit | crates/codegen/src/isa/evm/alloca_plan.rs:421-432 | The free block chosen is a smallest one that fits, and of those the first in the free list; none is chosen only if none fits. |
| AllocaPlans.Expire | crates/codegen/src/isa/evm/alloca_plan.rs:411-419 | A block whose interval has ended goes back to the free list and every word of the pool stays covered exactly once. |
| AllocaPlans.TakeFront | crates/codegen/src/isa/evm/alloca_plan.rs:433-447 | Splitting a free block keeps every word of the pool covered exactly once. |
| AllocaPlans.Grow | crates/codegen/src/isa/evm/alloca_plan.rs:448-456 | Growing the pool keeps every word covered exactly once. |
| AllocaPlans.GrowAtPeak | crates/codegen/src/isa/evm/alloca_plan.rs:404-458 | With equal sizes the pool grows only when every slot is live at that point. |
| AllocaPlans.PeakFits | crates/codegen/src/isa/evm/alloca_plan.rs:404-458 | In a safe placement the words live at any point fit into the pool. |
| AllocaPlans.UniformOptimal | crates/codegen/src/isa/evm/alloca_plan.rs:404-458 | With equal sizes the pool is exactly that size times the largest number of intervals sharing a point. |
| AllocaPlans.SortedIsUnique | crates/codegen/src/isa/evm/alloca_plan.rs:397 | The sort has one result: objects of different instructions never tie, so the placement is determined. |
| AllocaPlans.Place | crates/codegen/src/isa/evm/alloca_plan.rs:421-456 | If some free block fits, the object starts at the best one and the pool does not grow; otherwise it starts at the end of the pool, which grows by its size. |
| AllocaPlans.ThriftyNow | crates/codegen/src/isa/evm/alloca_plan.rs:404-458 | On offsets alone: the range of an object that has ended and was not used again since is taken before new words if it is large enough, and is not taken if a smaller such range is. |
| AllocaPlans.ColorAllocas | crates/codegen/src/isa/evm/alloca_plan.rs:396-461 | Objects live at the same time get disjoint ranges inside the pool; no object reaches for new words, or for a larger range, while a vacant range is large enough; the pool is never below the peak and is exact for equal sizes; it fails only when all sizes together exceed 32 bits. |
| Assembly.ResizeFunc | crates/codegen/src/machinst/assemble.rs:122-161 | A pass over a function reports no movement exactly when its tables were settled, and then leaves them alone with fitting opcodes. |
| Assembly.ObjectLayout.Resize | crates/codegen/src/machinst/assemble.rs:47-55 | The same for all functions, whose offsets then follow each other. |
| Assembly.ObjectLayout.Emit | crates/codegen/src/machinst/assemble.rs:57-61 | The buffer is the bytes of the functions in order. |
| Assembly.InsnPlaced | crates/codegen/src/machinst/assemble.rs:122-179 | In settled tables the recorded offset of an instruction is where its bytes are. |
| Assembly.BlockPlaced | crates/codegen/src/machinst/assemble.rs:122-179 | The same for blocks. |
| Assembly.FuncPlaced | crates/codegen/src/machinst/assemble.rs:47-61 | The same for functions, which are as long as recorded. |
| Linking.BuildSymtab | crates/codegen/src/object/link.rs:105-153 | The table is the layout's functions followed by the data and the embedded sections; it fails exactly when the section does not fit 32 bits. |
| Linking.ApplyAll | crates/codegen/src/object/link.rs:66-81 | Every symbol immediate is then the encoding of its value; a failure has a fixup to blame; a layout change is reported only when a fixup asked for another width, and without one no width has changed. |
| Linking.LinkSection | crates/codegen/src/object/link.rs:22-103 | On success the bytes, the layout and the symbol table are consistent with each other and hold the lowered functions, opcodes and immediates included, within 32 bits; an overflow means a settled layout too long for 32 bits, an unknown symbol or backend error names a fixup that fails, and giving up on convergence means 64 rounds that each changed a width. |
| LinkFacts.SymbolRanges | crates/codegen/src/object/link.rs:105-153 | The table has exactly the section's symbols, and each recorded range holds exactly that symbol's bytes. |
| LinkFacts.LabelsPointHome | crates/codegen/src/machinst/assemble.rs:139-155 | After the opcode of an instruction with a label stands the encoding of the address at which the function, block or instruction meant starts. |
| LinkFacts.SymbolImmediates | crates/codegen/src/object/link.rs:155-164 | A symbol immediate in the output reads as the offset or size recorded for its symbol. |
| LinkFacts.OpcodesAnnounce | crates/codegen/src/machinst/assemble.rs:122-179 | The final opcode announces as many bytes as follow it. |
| LinkFacts.FunctionsTile | crates/codegen/src/object/link.rs:113-126 | Each function starts where the one before ends, the first at the start, without a gap. |
| EvmAssembly.EvmMeetsContract | crates/codegen/src/isa/evm/mod.rs:610-641 | The EVM's opcodes, labels and symbol fixups do what linking needs of a backend, under both width policies; a symbol fixup is refused exactly for an instruction without an immediate. |
| EvmAssembly.MinimalReadsBack | crates/codegen/src/isa/evm/mod.rs:1233-1252 | A number reads back from its bytes without leading zeros. |
| EvmAssembly.MinimalIsShortest | crates/codegen/src/isa/evm/mod.rs:2030-2045 | No shorter sequence of bytes reads as the same number. |
| EvmAssembly.DecodeIsBigEndian | crates/codegen/src/isa/evm/mod.rs:1233-1252 | Reading bytes from the last on is reading them by their places, the most significant first. |
| EvmAssembly.PushReadsBack | crates/codegen/src/isa/evm/mod.rs:1834-1868 | The machine, for which 0x5f pushes nothing and 0x60 to 0x7f push 1 to 32 bytes, reads the chosen opcode and up to 32 bytes as the number they encode and goes on right after them. |
| EvmAssembly.PushBytesRead | crates/codegen/src/isa/evm/mod.rs:2030-2045 | A symbol value reads back from its bytes: four under one policy, as few as possible under the other. |
| EvmAssembly.SectionReadsBack | crates/codegen/src/machinst/assemble.rs:163-179 | Reading a linked section instruction by instruction gives the instructions of its functions in their order, each with its label or immediate, and leaves the data and the embedded sections. |
| EvmAssembly.LabelsReadBack | crates/codegen/src/isa/evm/mod.rs:1240-1252 | At an instruction with a label the machine reads a push of the address where the label's target stands. |
| EvmAssembly.SymbolsReadBack | crates/codegen/src/isa/evm/mod.rs:610-641 | At an instruction with a symbol the machine reads a push of the offset or the size recorded for the symbol, in four bytes or as few as possible. |

## Left out

- SccpSafe.SafeTrusted: one direction only; a function outside `RulesSafe` can still get facts that can be trusted, which depends on the order of evaluation and is what checking the final facts decides.
- Sccps.SccpSolver.Solve: takes a bound on the number of turns; that some bound is enough is proved in SSA form, for instructions without division, whose undefinedness falls back when a divisor known to be zero is found to vary.
- SccpFold.PropagateConstants: bounded by the turns allowed, which in SSA form can be chosen so that it never gives up.
- SccpFold.FoldInsts: an instruction found to be a copy of another value, and a phi left with one incoming value, stay where they are unless their cell is constant; the code also renames them to that value.
- Assembly.GuessFunc: the first guess of sizes is not stated; it is only where the passes start.
- Sccps: division and remainder, global values and aggregates; calls and other effectful instructions are `Effect`, whose answers are arbitrary.
- Ir.Run: one frame; calls, memory and multi-frame execution stand behind `Effect`.
- The clean-up passes before and after constant propagation (`CfgCleanup`, dead code elimination).
- Linking.LinkSection: lowering is an input, the loop that settles the layout takes a bound (its start is neither a lower nor an upper bound of the fixpoint; using it up means that many passes that each moved something), and running offsets are unbounded, so wrap-around of an intermediate layout in a release build is not modelled; on success all offsets fit 32 bits.
- Linking.BuildSymtab: the error for a function without a size cannot occur here, because the object lays out exactly the section's functions.
- Splices.SpliceSingleBlock: the variant for callees that end in a terminator, wrapper rewriting and the choice of call sites are not modelled; a constant is always a new value of the caller, where the code may reuse one.
- Layouts.Layout.RemoveBlock: the block must be empty, as its only caller makes it; removing a block with instructions leaves them recorded in a block without a list.
- Livenesses.Liveness.Compute: the counters of uses per value are not modelled, and every used value must be defined in a reachable block, as the code panics otherwise.
- AllocaPlans.ColorAllocas: live intervals are an input; which positions an alloca is live at comes from provenance analysis.
- HeapBounds.MallocBounds: the clobbered and live words of an instruction are inputs.
- FuncEffects.AnalyzeMem: of the attributes only reading and writing memory are modelled, not returning or terminating.
- CriticalEdges.CriticalEdgeSplitter.Run: assumes what the IR verifier enforces: well-formed blocks, phis first, one incoming value for each predecessor.
- Dominance frontiers: the code treats an entry block with predecessors specially; loop analysis and code motion are not modelled.
- Parsing, printing, the driver, egraph rewriting, stackification and EVM lowering.
