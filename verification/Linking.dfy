/**
 Linking a section (crates/codegen/src/object/link.rs): lay out the code,
 compute the symbol table, write symbol values into immediates, and repeat while
 that changes widths; then emit code, data and embedded sections in one buffer.
 */
module Linking {
  import opened Options
  import opened Assembly

  datatype Blob = Blob(sym: Symbol, bytes: seq<Byte>)

  datatype SymbolDef = SymbolDef(offset: nat, size: nat)

  type SymTab = map<Symbol, SymbolDef>

  /** `GaveUp` is the cut-off of the inner loop, which the source does not have. */
  datatype Outcome = Linked(bytes: seq<Byte>, symtab: SymTab) | BackendError(func: FuncRef) | LinkError(message: string) | GaveUp

  // ----- the symbol table

  function FuncDefs(m: Layouts, order: seq<FuncRef>, table: SymTab): SymTab
    decreases |order|
  {
    if order == [] then table
    else if order[0] !in m then FuncDefs(m, order[1..], table)
    else FuncDefs(m, order[1..], table[FuncSym(order[0]) := SymbolDef(m[order[0]].tables.offset, m[order[0]].tables.size)])
  }

  function BlobDefs(blobs: seq<Blob>, at: nat, table: SymTab): SymTab
    decreases |blobs|
  {
    if blobs == [] then table
    else BlobDefs(blobs[1..], at + |blobs[0].bytes|, table[blobs[0].sym := SymbolDef(at, |blobs[0].bytes|)])
  }

  function Concat(blobs: seq<Blob>): seq<Byte> {
    if blobs == [] then [] else blobs[0].bytes + Concat(blobs[1..])
  }

  function MaxEnd(m: Layouts, order: seq<FuncRef>, acc: nat): (r: nat)
    ensures r >= acc
    decreases |order|
  {
    if order == [] then acc
    else if order[0] !in m then MaxEnd(m, order[1..], acc)
    else
      var end := m[order[0]].tables.offset + m[order[0]].tables.size;
      MaxEnd(m, order[1..], if end > acc then end else acc)
  }

  /** Data or embedded sections from `at0` on; `None` when an end does not fit 32 bits. */
  method PlaceBlobs(blobs: seq<Blob>, at0: nat, table0: SymTab) returns (r: Option<(SymTab, nat)>)
    requires at0 <= U32_MAX
    ensures r.Some? <==> at0 + |Concat(blobs)| <= U32_MAX
    ensures r.Some? ==> r.value == (BlobDefs(blobs, at0, table0), at0 + |Concat(blobs)|)
  {
    var table, at: nat, k := table0, at0, 0;
    while k < |blobs|
      invariant 0 <= k <= |blobs| && at <= U32_MAX
      invariant BlobDefs(blobs, at0, table0) == BlobDefs(blobs[k..], at, table)
      invariant at0 + |Concat(blobs)| == at + |Concat(blobs[k..])|
    {
      assert blobs[k..][1..] == blobs[k + 1..];
      var size := |blobs[k].bytes|;
      if size > U32_MAX || at + size > U32_MAX { return None; }
      table := table[blobs[k].sym := SymbolDef(at, size)];
      at := at + size;
      k := k + 1;
    }
    r := Some((table, at));
  }

  /** The table of a laid out object followed by the blobs. */
  function Table(m: Layouts, order: seq<FuncRef>, data: seq<Blob>, embeds: seq<Blob>): SymTab {
    var code := MaxEnd(m, order, 0);
    BlobDefs(embeds, code + |Concat(data)|, BlobDefs(data, code, FuncDefs(m, order, map[])))
  }

  /** `build_section_symtab`. */
  method BuildSymtab(layout: ObjectLayout, data: seq<Blob>, embeds: seq<Blob>) returns (r: Option<SymTab>)
    requires layout.Valid()
    ensures r.Some? <==> MaxEnd(layout.functions, layout.order, 0) + |Concat(data)| + |Concat(embeds)| <= U32_MAX
    ensures r.Some? ==> r.value == Table(layout.functions, layout.order, data, embeds)
  {
    hide BlobDefs, Concat;
    var table, codeEnd: nat, k, m := map[], 0, 0, layout.functions;
    while k < |layout.order|
      invariant 0 <= k <= |layout.order| && codeEnd <= U32_MAX
      invariant FuncDefs(m, layout.order, map[]) == FuncDefs(m, layout.order[k..], table)
      invariant MaxEnd(m, layout.order, 0) == MaxEnd(m, layout.order[k..], codeEnd)
    {
      assert layout.order[k..][1..] == layout.order[k + 1..];
      var f := layout.order[k];
      assert LayoutOk(m, f);
      var offset, size := layout.funcOffsets[f], m[f].tables.size;
      assert offset == m[f].tables.offset;
      if offset + size > U32_MAX { return None; }
      codeEnd := if offset + size > codeEnd then offset + size else codeEnd;
      table := table[FuncSym(f) := SymbolDef(offset, size)];
      k := k + 1;
    }
    var placed := PlaceBlobs(data, codeEnd, table);
    if placed.None? { return None; }
    placed := PlaceBlobs(embeds, placed.value.1, placed.value.0);
    if placed.None? { return None; }
    r := Some(placed.value.0);
  }

  // ----- symbol fixups

  function ImmAt(l: FuncLayout, i: InsnId): Option<seq<Byte>> { if i in l.imm then Some(l.imm[i]) else None }

  datatype Pending = Pending(func: FuncRef, insn: InsnId, fixup: SymFixup)

  function FixupValue(table: SymTab, fixup: SymFixup): Option<nat> {
    if fixup.sym !in table then None
    else if fixup.kind == Addr then Some(table[fixup.sym].offset)
    else Some(table[fixup.sym].size)
  }

  predicate Asks(m: Layouts, p: Pending) {
    p.func in m && p.insn in m[p.func].code.fixups && m[p.func].code.fixups[p.insn] == SymRef(p.fixup)
  }

  /** What the backend answers to `p` in the layout `m`. */
  function Answer(b: Backend, m: Layouts, value: nat, p: Pending): Applied
    requires p.func in m && p.insn in m[p.func].ops
  {
    b.applyFixup(m[p.func].ops[p.insn], ImmAt(m[p.func], p.insn), value)
  }

  /** With the symbols at the places of `table` the backend refuses `p`. */
  ghost predicate Refused(b: Backend, m: Layouts, table: SymTab, p: Pending) {
    && Asks(m, p) && p.insn in m[p.func].ops && FixupValue(table, p.fixup).Some?
    && Answer(b, m, FixupValue(table, p.fixup).value, p).Failed?
  }

  /** With the symbols at the places of `table`, `p` needs another width. */
  ghost predicate Widens(b: Backend, m: Layouts, table: SymTab, p: Pending) {
    && Asks(m, p) && p.insn in m[p.func].ops && FixupValue(table, p.fixup).Some?
    && var a := Answer(b, m, FixupValue(table, p.fixup).value, p); a.Applied? && a.update == LayoutChanged
  }

  ghost predicate Unknown(m: Layouts, table: SymTab, p: Pending) {
    Asks(m, p) && p.fixup.sym !in table
  }

  /** Between `x` and `y` a fixup has changed a width. */
  ghost predicate Widened(b: Backend, x: Layouts, y: Layouts, table: SymTab, m: Layouts, p: Pending) {
    AllPatched(x, m, false) && AllPatched(m, y, false) && Widens(b, m, table, p)
  }

  ghost predicate SomeWidened(b: Backend, x: Layouts, y: Layouts, table: SymTab) {
    exists m: Layouts, p: Pending {:trigger Widened(b, x, y, table, m, p)} :: Widened(b, x, y, table, m, p)
  }

  /** The fixup that made applying them all fail in the layout `m`. */
  ghost predicate Blamed(b: Backend, m: Layouts, table: SymTab, r: Outcome) {
    match r
    case BackendError(f) => exists p: Pending {:trigger Refused(b, m, table, p)} :: p.func == f && Refused(b, m, table, p)
    case LinkError(message) => message == "unknown symbol" && exists p: Pending {:trigger Unknown(m, table, p)} :: Unknown(m, table, p)
    case _ => false
  }

  /** The immediate of `p` encodes, and reads as, the value the table gives its
      symbol. */
  ghost predicate Encoded(b: Backend, m: Layouts, table: SymTab, p: Pending) {
    && p.func in m && p.insn in m[p.func].imm
    && FixupValue(table, p.fixup) == Some(b.decode(m[p.func].imm[p.insn]))
    && m[p.func].imm[p.insn] == b.symBytes(FixupValue(table, p.fixup).value)
  }

  /** Lists the symbol fixups of one function. */
  method CollectFunc(f: FuncRef, c: Code) returns (ps: seq<Pending>)
    ensures forall p :: p in ps <==> p.func == f && p.insn in c.fixups && c.fixups[p.insn] == SymRef(p.fixup)
  {
    ps := [];
    var rest := c.fixups.Keys;
    while rest != {}
      invariant rest <= c.fixups.Keys
      invariant forall p :: p in ps <==> p.func == f && p.insn in c.fixups - rest && c.fixups[p.insn] == SymRef(p.fixup)
      decreases |rest|
    {
      var i: InsnId :| i in rest;
      rest := rest - {i};
      if c.fixups[i].SymRef? { ps := ps + [Pending(f, i, c.fixups[i].sym)]; }
    }
  }

  method Collect(layout: ObjectLayout) returns (ps: seq<Pending>)
    requires layout.Valid()
    ensures forall p :: p in ps <==> Asks(layout.functions, p)
  {
    ps := [];
    var k, m := 0, layout.functions;
    while k < |layout.order|
      invariant 0 <= k <= |layout.order|
      invariant forall p :: p in ps <==> p.func in layout.order[..k] && Asks(m, p)
    {
      var f := layout.order[k];
      assert LayoutOk(m, f) && layout.order[..k + 1] == layout.order[..k] + [f];
      var more := CollectFunc(f, m[f].code);
      assert forall p :: p in more <==> p.func == f && Asks(m, p);
      ps := ps + more;
      k := k + 1;
    }
    assert layout.order[..k] == layout.order;
  }

  predicate OfSymbol(l: FuncLayout, i: InsnId) {
    i in l.code.fixups && l.code.fixups[i].SymRef?
  }

  /** Only immediates of symbols, and opcodes with something after them, of `n`
      differ; with `same`, no width does. */
  ghost predicate Patched(l: FuncLayout, n: FuncLayout, same: bool) {
    && n.code == l.code && n.tables == l.tables && n.ops.Keys == l.ops.Keys && n.imm.Keys == l.imm.Keys
    && (forall i {:trigger n.ops[i]} {:trigger Plain(l, i)} :: Plain(l, i) ==> n.ops[i] == l.ops[i])
    && (forall i {:trigger n.imm[i]} {:trigger OfSymbol(l, i)} :: i in l.imm && !OfSymbol(l, i) ==> n.imm[i] == l.imm[i])
    && (same ==> forall i {:trigger n.imm[i]} :: i in l.imm ==> |n.imm[i]| == |l.imm[i]|)
  }

  ghost predicate AllPatched(m: Layouts, n: Layouts, same: bool) {
    m.Keys == n.Keys && forall f {:trigger n[f]} :: f in m ==> Patched(m[f], n[f], same)
  }

  lemma PatchedTwice(m: Layouts, n: Layouts, p: Layouts, first: bool, second: bool)
    requires AllPatched(m, n, first) && AllPatched(n, p, second)
    ensures AllPatched(m, p, first && second)
  {
    forall f | f in m ensures Patched(m[f], p[f], first && second) {
      assert Patched(m[f], n[f], first) && Patched(n[f], p[f], second);
      if first && second {
        forall i | i in m[f].imm ensures |p[f].imm[i]| == |m[f].imm[i]| { assert |n[f].imm[i]| == |m[f].imm[i]|; }
      }
    }
  }

  ghost predicate Within(table: SymTab, end: nat) {
    forall sym {:trigger table[sym]} :: sym in table ==> table[sym].offset + table[sym].size <= end
  }

  lemma {:induction false} FuncDefsWithin(m: Layouts, order: seq<FuncRef>, table: SymTab, acc: nat)
    requires Within(table, acc)
    ensures Within(FuncDefs(m, order, table), MaxEnd(m, order, acc))
    decreases |order|
  {
    if order != [] {
      if order[0] in m {
        var l := m[order[0]].tables;
        var end := l.offset + l.size;
        FuncDefsWithin(m, order[1..], table[FuncSym(order[0]) := SymbolDef(l.offset, l.size)], if end > acc then end else acc);
      } else {
        FuncDefsWithin(m, order[1..], table, acc);
      }
    }
  }

  lemma {:induction false} BlobDefsWithin(blobs: seq<Blob>, at: nat, table: SymTab)
    requires Within(table, at)
    ensures Within(BlobDefs(blobs, at, table), at + |Concat(blobs)|)
    decreases |blobs|
  {
    if blobs != [] {
      BlobDefsWithin(blobs[1..], at + |blobs[0].bytes|, table[blobs[0].sym := SymbolDef(at, |blobs[0].bytes|)]);
    }
  }

  lemma TableWithin(m: Layouts, order: seq<FuncRef>, data: seq<Blob>, embeds: seq<Blob>)
    ensures Within(Table(m, order, data, embeds), MaxEnd(m, order, 0) + |Concat(data)| + |Concat(embeds)|)
  {
    FuncDefsWithin(m, order, map[], 0);
    var code := MaxEnd(m, order, 0);
    BlobDefsWithin(data, code, FuncDefs(m, order, map[]));
    BlobDefsWithin(embeds, code + |Concat(data)|, BlobDefs(data, code, FuncDefs(m, order, map[])));
  }

  // ----- writing symbol values

  lemma NothingPatched(m: Layouts)
    ensures AllPatched(m, m, true)
  {
    assert forall f :: f in m ==> Patched(m[f], m[f], true);
  }

  lemma PatchOne(b: Backend, m: Layouts, p: Pending, op: Op, bytes: seq<Byte>, same: bool)
    requires Asks(m, p) && p.insn in m[p.func].imm && p.insn in m[p.func].ops
    requires same ==> |bytes| == |m[p.func].imm[p.insn]|
    ensures var l := m[p.func];
      AllPatched(m, m[p.func := l.(ops := l.ops[p.insn := op], imm := l.imm[p.insn := bytes])], same)
  {
    var l := m[p.func];
    var n := m[p.func := l.(ops := l.ops[p.insn := op], imm := l.imm[p.insn := bytes])];
    forall f | f in m ensures Patched(m[f], n[f], same) {}
  }

  lemma PatchedOk(order: seq<FuncRef>, m: Layouts, n: Layouts, fo: map<FuncRef, nat>)
    requires ObjectOk(order, m, fo) && AllPatched(m, n, false)
    ensures ObjectOk(order, n, fo)
  {
    forall f | f in order ensures LayoutOk(n, f) { assert LayoutOk(m, f) && Patched(m[f], n[f], false); }
    forall f | f in n ensures fo[f] == n[f].tables.offset { assert Patched(m[f], n[f], false); }
  }

  lemma AppliedOk(b: Backend, op: Op, current: Option<seq<Byte>>, value: nat)
    requires Contract(b) && value <= U32_MAX && b.applyFixup(op, current, value).Applied?
    ensures var r := b.applyFixup(op, current, value);
      current.Some? && r.bytes == b.symBytes(value) && b.decode(r.bytes) == value && (r.update != LayoutChanged ==> |r.bytes| == |current.value|)
  {
  }

  /** One symbol fixup. */
  method ApplyOne(b: Backend, layout: ObjectLayout, p: Pending, value: nat) returns (update: Option<FixupUpdate>)
    requires Contract(b) && layout.Valid() && Asks(layout.functions, p) && value <= U32_MAX
    modifies layout
    ensures layout.Valid() && layout.order == old(layout.order) && layout.funcOffsets == old(layout.funcOffsets)
    ensures AllPatched(old(layout.functions), layout.functions, update != Some(LayoutChanged))
    ensures layout.functions.Keys == old(layout.functions).Keys && p.func in layout.functions
    ensures update.Some? ==> p.insn in layout.functions[p.func].imm
    ensures update.Some? ==> layout.functions[p.func].imm[p.insn] == b.symBytes(value) && b.decode(b.symBytes(value)) == value
    ensures forall f, i :: f in layout.functions && i in layout.functions[f].imm && (f != p.func || i != p.insn) ==>
      i in old(layout.functions)[f].imm && layout.functions[f].imm[i] == old(layout.functions)[f].imm[i]
    ensures p.func in old(layout.functions) && p.insn in old(layout.functions)[p.func].ops
    ensures var a := Answer(b, old(layout.functions), value, p);
      if update.None? then a.Failed? && layout.functions == old(layout.functions) else a.Applied? && a.update == update.value
  {
    var m, l, i := layout.functions, layout.functions[p.func], p.insn;
    assert p.func in layout.order && LayoutOk(m, p.func) && i in l.ops;
    hide CodeOk, ObjectOk;
    var applied := b.applyFixup(l.ops[i], ImmAt(l, i), value);
    if applied.Failed? {
      NothingPatched(m);
      return None;
    }
    AppliedOk(b, l.ops[i], ImmAt(l, i), value);
    hide Contract;
    PatchOne(b, m, p, applied.op, applied.bytes, applied.update != LayoutChanged);
    var n := m[p.func := l.(ops := l.ops[i := applied.op], imm := l.imm[i := applied.bytes])];
    PatchedWeaker(m, n, applied.update != LayoutChanged);
    hide AllPatched;
    PatchedOk(layout.order, m, n, layout.funcOffsets);
    layout.functions := n;
    update := Some(applied.update);
  }

  lemma StaysEncoded(b: Backend, m: Layouts, n: Layouts, table: SymTab, p: Pending, q: Pending)
    requires AllPatched(m, n, false) && Asks(m, p) && Asks(m, q)
    requires q == p || Encoded(b, m, table, q)
    requires Encoded(b, n, table, p)
    requires forall f, i :: f in n && i in n[f].imm && (f != p.func || i != p.insn) ==> f in m && i in m[f].imm && n[f].imm[i] == m[f].imm[i]
    ensures Encoded(b, n, table, q)
  {
    if q.func == p.func && q.insn == p.insn {
      assert q.fixup == p.fixup;
    } else if q != p {
      assert Patched(m[q.func], n[q.func], false);
    }
  }

  lemma AllStayEncoded(b: Backend, m0: Layouts, m: Layouts, n: Layouts, table: SymTab, qs: seq<Pending>, p: Pending)
    requires AllPatched(m0, m, false) && AllPatched(m, n, false) && Asks(m, p) && Encoded(b, n, table, p)
    requires forall q :: q in qs ==> Asks(m0, q) && Encoded(b, m, table, q)
    requires forall f, i :: f in n && i in n[f].imm && (f != p.func || i != p.insn) ==> f in m && i in m[f].imm && n[f].imm[i] == m[f].imm[i]
    ensures forall q :: q in qs + [p] ==> Encoded(b, n, table, q)
  {
    hide AllPatched, Encoded, Asks;
    forall q | q in qs + [p] ensures Encoded(b, n, table, q) {
      if q in qs { StillAsks(m0, m, q); }
      StaysEncoded(b, m, n, table, p, q);
    }
  }

  /** All symbol fixups with the values of `table`. */
  method ApplyAll(b: Backend, layout: ObjectLayout, ps: seq<Pending>, table: SymTab) returns (failed: Option<Outcome>, changed: bool)
    requires Contract(b) && layout.Valid() && Within(table, U32_MAX)
    requires forall p :: p in ps ==> Asks(layout.functions, p)
    modifies layout
    ensures layout.Valid() && layout.order == old(layout.order) && layout.funcOffsets == old(layout.funcOffsets)
    ensures AllPatched(old(layout.functions), layout.functions, !changed)
    ensures failed.None? ==> forall p :: p in ps ==> Encoded(b, layout.functions, table, p)
    ensures failed.Some? ==> Blamed(b, layout.functions, table, failed.value)
    ensures changed ==> SomeWidened(b, old(layout.functions), layout.functions, table)
  {
    hide Contract, Encoded, ObjectOk, Answer, SomeWidened, Blamed, AllPatched;
    failed, changed := None, false;
    var k := 0;
    ghost var m0 := layout.functions;
    NothingPatched(m0);
    while k < |ps|
      invariant 0 <= k <= |ps| && layout.Valid() && layout.order == old(layout.order) && layout.funcOffsets == old(layout.funcOffsets)
      invariant AllPatched(m0, layout.functions, !changed)
      invariant forall q :: q in ps[..k] ==> Encoded(b, layout.functions, table, q)
      invariant changed ==> SomeWidened(b, m0, layout.functions, table)
    {
      var p := ps[k];
      var value := FixupValue(table, p.fixup);
      ghost var before := layout.functions;
      PatchedWeaker(m0, before, !changed);
      StillAsks(m0, before, p);
      if value.None? {
        UnknownNow(b, before, table, p);
        return Some(LinkError("unknown symbol")), changed;
      }
      var update := ApplyOne(b, layout, p, value.value);
      PatchedTwice(m0, before, layout.functions, !changed, update != Some(LayoutChanged));
      if update.None? {
        assert AllPatched(m0, layout.functions, !changed);
        RefusedNow(b, before, table, p);
        return Some(BackendError(p.func)), changed;
      }
      WidenedOn(b, m0, before, layout.functions, table, p, changed, update.value);
      EncodedNow(b, layout.functions, table, p);
      PatchedWeaker(before, layout.functions, update != Some(LayoutChanged));
      AllStayEncoded(b, m0, before, layout.functions, table, ps[..k], p);
      assert ps[..k + 1] == ps[..k] + [p];
      changed := changed || update == Some(LayoutChanged);
      k := k + 1;
    }
    assert ps[..k] == ps;
  }

  lemma UnknownNow(b: Backend, m: Layouts, table: SymTab, p: Pending)
    requires Asks(m, p) && FixupValue(table, p.fixup).None?
    ensures Blamed(b, m, table, LinkError("unknown symbol"))
  {
    assert Unknown(m, table, p);
  }

  lemma RefusedNow(b: Backend, m: Layouts, table: SymTab, p: Pending)
    requires Asks(m, p) && p.insn in m[p.func].ops && FixupValue(table, p.fixup).Some?
    requires Answer(b, m, FixupValue(table, p.fixup).value, p).Failed?
    ensures Blamed(b, m, table, BackendError(p.func))
  {
    assert Refused(b, m, table, p);
  }

  lemma WidenedOn(b: Backend, x: Layouts, y: Layouts, z: Layouts, table: SymTab, p: Pending, changed: bool, update: FixupUpdate)
    requires AllPatched(x, y, !changed) && AllPatched(y, z, update != LayoutChanged)
    requires changed ==> SomeWidened(b, x, y, table)
    requires Asks(y, p) && p.insn in y[p.func].ops && FixupValue(table, p.fixup).Some?
    requires var a := Answer(b, y, FixupValue(table, p.fixup).value, p); a.Applied? && a.update == update
    ensures changed || update == LayoutChanged ==> SomeWidened(b, x, z, table)
  {
    hide AllPatched, Answer;
    PatchedWeaker(x, y, !changed);
    PatchedWeaker(y, z, update != LayoutChanged);
    if update == LayoutChanged {
      assert Widened(b, x, z, table, y, p);
    } else if changed {
      var m, q :| Widened(b, x, y, table, m, q);
      PatchedTwice(m, y, z, false, false);
      assert Widened(b, x, z, table, m, q);
    }
  }

  lemma EncodedNow(b: Backend, m: Layouts, table: SymTab, p: Pending)
    requires p.func in m && p.insn in m[p.func].imm && FixupValue(table, p.fixup).Some?
    requires var v := FixupValue(table, p.fixup).value; m[p.func].imm[p.insn] == b.symBytes(v) && b.decode(b.symBytes(v)) == v
    ensures Encoded(b, m, table, p)
  {
  }

  lemma PatchedWeaker(m: Layouts, n: Layouts, same: bool)
    requires AllPatched(m, n, same)
    ensures AllPatched(m, n, false)
  {
    forall f | f in m ensures Patched(m[f], n[f], false) { assert Patched(m[f], n[f], same); }
  }

  lemma StillAsks(m: Layouts, n: Layouts, p: Pending)
    requires AllPatched(m, n, false) && Asks(m, p)
    ensures Asks(n, p)
  {
    assert Patched(m[p.func], n[p.func], false);
  }

  // ----- patching without a change of width keeps a layout settled

  lemma {:induction false} InsnsPatched(b: Backend, c: Code, imm: Immediates, jmm: Immediates, t: Tables, fo: map<FuncRef, nat>, insns: seq<InsnId>, at: nat)
    requires forall i :: |ImmOf(imm, i)| == |ImmOf(jmm, i)|
    ensures InsnsEnd(b, c, imm, t, insns, at) == InsnsEnd(b, c, jmm, t, insns, at)
    ensures InsnsSettled(b, c, imm, t, fo, insns, at) <==> InsnsSettled(b, c, jmm, t, fo, insns, at)
    decreases |insns|
  {
    if insns != [] {
      assert InsnLen(b, c, imm, t, insns[0]) == InsnLen(b, c, jmm, t, insns[0]);
      InsnsPatched(b, c, imm, jmm, t, fo, insns[1..], at + InsnLen(b, c, imm, t, insns[0]));
    }
  }

  lemma {:induction false} BlocksPatched(b: Backend, c: Code, imm: Immediates, jmm: Immediates, t: Tables, fo: map<FuncRef, nat>, blocks: seq<BlockId>, at: nat)
    requires forall i :: |ImmOf(imm, i)| == |ImmOf(jmm, i)|
    ensures BlocksEnd(b, c, imm, t, blocks, at) == BlocksEnd(b, c, jmm, t, blocks, at)
    ensures BlocksSettled(b, c, imm, t, fo, blocks, at) <==> BlocksSettled(b, c, jmm, t, fo, blocks, at)
    decreases |blocks|
  {
    hide InsnsEnd, InsnsSettled;
    if blocks != [] {
      InsnsPatched(b, c, imm, jmm, t, fo, c.Insns(blocks[0]), at);
      BlocksPatched(b, c, imm, jmm, t, fo, blocks[1..], InsnsEnd(b, c, imm, t, c.Insns(blocks[0]), at));
    }
  }

  lemma FuncPatched(b: Backend, l: FuncLayout, n: FuncLayout, fo: map<FuncRef, nat>)
    requires Patched(l, n, true) && FuncSettled(b, l.code, l.imm, l.tables, fo)
    ensures FuncSettled(b, n.code, n.imm, n.tables, fo)
  {
    forall i ensures |ImmOf(l.imm, i)| == |ImmOf(n.imm, i)| {
      if i in l.imm { assert |n.imm[i]| == |l.imm[i]|; }
    }
    BlocksPatched(b, l.code, l.imm, n.imm, l.tables, fo, l.code.order, l.tables.offset);
  }

  lemma {:induction false} LayoutPatched(b: Backend, m: Layouts, n: Layouts, fo: map<FuncRef, nat>, order: seq<FuncRef>, at: nat)
    requires AllPatched(m, n, true) && LayoutSettled(b, m, fo, order, at)
    ensures LayoutSettled(b, n, fo, order, at)
    decreases |order|
  {
    hide FuncSettled;
    if order != [] {
      var f := order[0];
      assert Patched(m[f], n[f], true);
      FuncPatched(b, m[f], n[f], fo);
      LayoutPatched(b, m, n, fo, order[1..], at + m[f].tables.size);
    }
  }

  lemma {:induction false} TablesKept(m: Layouts, n: Layouts, order: seq<FuncRef>, table: SymTab, acc: nat)
    requires m.Keys == n.Keys && forall f :: f in m ==> n[f].tables == m[f].tables
    ensures FuncDefs(m, order, table) == FuncDefs(n, order, table) && MaxEnd(m, order, acc) == MaxEnd(n, order, acc)
    decreases |order|
  {
    if order != [] {
      if order[0] in m {
        var l := m[order[0]].tables;
        var end := l.offset + l.size;
        TablesKept(m, n, order[1..], table[FuncSym(order[0]) := SymbolDef(l.offset, l.size)], if end > acc then end else acc);
      } else {
        TablesKept(m, n, order[1..], table, acc);
      }
    }
  }

  // ----- the section

  predicate KindsOk(data: seq<Blob>, embeds: seq<Blob>) {
    (forall x :: x in data ==> x.sym.GlobalSym?) && (forall x :: x in embeds ==> x.sym.EmbedSym?)
  }

  /** Code laid out with settled tables, followed by the blobs; the symbol table
      describes that layout and every symbol fixup has been given its value. */
  ghost predicate SelfConsistent(b: Backend, order: seq<FuncRef>, m: Layouts, fo: map<FuncRef, nat>, data: seq<Blob>, embeds: seq<Blob>, table: SymTab, bytes: seq<Byte>) {
    && ObjectOk(order, m, fo)
    && SettledSoFar(b, m, fo, order, 0, LayoutEnd(m, order, 0))
    && bytes == CodeBytes(b, m, order) + Concat(data) + Concat(embeds)
    && table == Table(m, order, data, embeds)
    && Within(table, U32_MAX) && |bytes| <= U32_MAX
    && (forall p {:trigger Encoded(b, m, table, p)} :: Asks(m, p) ==> Encoded(b, m, table, p))
  }

  datatype Pass = Pass(layouts: Layouts, offsets: map<FuncRef, nat>)

  /** Each pass found the tables unsettled and changed nothing but them. */
  ghost predicate AllMoved(b: Backend, order: seq<FuncRef>, passes: seq<Pass>) {
    forall k: nat {:trigger passes[k]} :: k + 1 < |passes| ==>
      !LayoutSettled(b, passes[k].layouts, passes[k].offsets, order, 0) && Resized(passes[k].layouts, passes[k + 1].layouts, false)
  }

  lemma NonePassed(b: Backend, order: seq<FuncRef>, first: Pass)
    ensures AllMoved(b, order, [first])
  {
  }

  lemma PassMoved(b: Backend, order: seq<FuncRef>, passes: seq<Pass>, next: Pass)
    requires |passes| > 0 && AllMoved(b, order, passes)
    requires var last := passes[|passes| - 1];
      !LayoutSettled(b, last.layouts, last.offsets, order, 0) && Resized(last.layouts, next.layouts, false)
    ensures AllMoved(b, order, passes + [next])
  {
    hide LayoutSettled, Resized;
    var longer := passes + [next];
    forall k: nat | k + 1 < |longer|
      ensures !LayoutSettled(b, longer[k].layouts, longer[k].offsets, order, 0) && Resized(longer[k].layouts, longer[k + 1].layouts, false)
    {
      if k + 1 < |passes| { assert longer[k] == passes[k] && longer[k + 1] == passes[k + 1]; }
    }
  }

  /** `while layout.resize(..) {}`, cut off after `fuel` passes. */
  method Settle(b: Backend, layout: ObjectLayout, fuel: nat) returns (ok: bool, ghost passes: seq<Pass>)
    requires Contract(b) && layout.Valid()
    modifies layout
    ensures layout.Valid() && layout.order == old(layout.order)
    ensures Resized(old(layout.functions), layout.functions, false)
    ensures ok ==> SettledSoFar(b, layout.functions, layout.funcOffsets, layout.order, 0, LayoutEnd(layout.functions, layout.order, 0))
    ensures fuel > 0 && LayoutSettled(b, old(layout.functions), old(layout.funcOffsets), layout.order, 0) ==>
      ok && Resized(old(layout.functions), layout.functions, true) && layout.funcOffsets == old(layout.funcOffsets)
    ensures |passes| > 0 && passes[0] == Pass(old(layout.functions), old(layout.funcOffsets)) && AllMoved(b, layout.order, passes)
    ensures !ok ==> |passes| == fuel + 1
  {
    passes := [Pass(layout.functions, layout.funcOffsets)];
    var left := fuel;
    ghost var m0 := layout.functions;
    assert Resized(m0, m0, true) && Resized(m0, m0, false);
    hide Contract, SettledSoFar, ObjectOk, LayoutSettled, LayoutEnd, Resized, AllMoved;
    NonePassed(b, layout.order, passes[0]);
    while left > 0
      invariant layout.Valid() && layout.order == old(layout.order) && 0 <= left <= fuel
      invariant Resized(m0, layout.functions, false)
      invariant left == fuel ==> layout.functions == m0 && layout.funcOffsets == old(layout.funcOffsets)
      invariant left < fuel ==> !LayoutSettled(b, m0, old(layout.funcOffsets), layout.order, 0)
      invariant |passes| == fuel - left + 1 && AllMoved(b, layout.order, passes)
      invariant passes[0] == Pass(m0, old(layout.funcOffsets)) && passes[|passes| - 1] == Pass(layout.functions, layout.funcOffsets)
      decreases left
    {
      left := left - 1;
      ghost var before := layout.functions;
      var changed := layout.Resize(b, 0);
      ResizedTwice(m0, before, layout.functions, false, !changed);
      if !changed { return true, passes; }
      PassMoved(b, layout.order, passes, Pass(layout.functions, layout.funcOffsets));
      passes := passes + [Pass(layout.functions, layout.funcOffsets)];
    }
    return false, passes;
  }

  lemma SoFarSettled(b: Backend, m: Layouts, fo: map<FuncRef, nat>, order: seq<FuncRef>)
    requires SettledSoFar(b, m, fo, order, 0, LayoutEnd(m, order, 0))
    ensures LayoutSettled(b, m, fo, order, 0)
  {
  }

  lemma TableKept(m: Layouts, n: Layouts, order: seq<FuncRef>, data: seq<Blob>, embeds: seq<Blob>)
    requires m.Keys == n.Keys && forall f :: f in m ==> n[f].tables == m[f].tables
    ensures Table(m, order, data, embeds) == Table(n, order, data, embeds)
  {
    TablesKept(m, n, order, map[], 0);
  }

  lemma EncodedKept(b: Backend, m: Layouts, n: Layouts, table: SymTab, p: Pending)
    requires Resized(m, n, true) && Asks(n, p)
    ensures Asks(m, p) && (Encoded(b, m, table, p) ==> Encoded(b, n, table, p))
  {
    assert SameCode(m[p.func], n[p.func]);
  }

  lemma {:induction false} SettledMaxEnd(b: Backend, m: Layouts, fo: map<FuncRef, nat>, order: seq<FuncRef>, at: nat, acc: nat)
    requires LayoutSettled(b, m, fo, order, at) && acc <= at && (order == [] ==> acc == at)
    ensures MaxEnd(m, order, acc) == LayoutEnd(m, order, at)
    decreases |order|
  {
    hide FuncSettled;
    if order != [] {
      var l := m[order[0]].tables;
      SettledMaxEnd(b, m, fo, order[1..], at + l.size, at + l.size);
    }
  }

  lemma TablesStay(m1: Layouts, m2: Layouts, m3: Layouts)
    requires AllPatched(m1, m2, true) && Resized(m2, m3, true)
    ensures m3.Keys == m1.Keys && forall f :: f in m1 ==> m3[f].tables == m1[f].tables
  {
    forall f | f in m1 ensures m3[f].tables == m1[f].tables { assert Patched(m1[f], m2[f], true) && m3[f].tables == m2[f].tables; }
  }

  lemma CodeEnd(b: Backend, m: Layouts, fo: map<FuncRef, nat>, order: seq<FuncRef>)
    requires Contract(b) && LayoutSettled(b, m, fo, order, 0)
    ensures |CodeBytes(b, m, order)| == MaxEnd(m, order, 0)
  {
    hide Contract, LayoutSettled, CodeBytes, MaxEnd, LayoutEnd;
    SettledMaxEnd(b, m, fo, order, 0, 0);
    CodeBytesLen(b, m, fo, order, 0);
  }

  /** From the layout `m1` whose table was used, over the patched `m2`, to the
      settled `m3` that is emitted. */
  lemma Consistent(b: Backend, order: seq<FuncRef>, m1: Layouts, m2: Layouts, m3: Layouts, fo: map<FuncRef, nat>, data: seq<Blob>, embeds: seq<Blob>, table: SymTab)
    requires AllPatched(m1, m2, true) && Resized(m2, m3, true) && ObjectOk(order, m3, fo)
    requires Contract(b) && table == Table(m1, order, data, embeds) && Within(table, U32_MAX)
    requires MaxEnd(m1, order, 0) + |Concat(data)| + |Concat(embeds)| <= U32_MAX
    requires SettledSoFar(b, m3, fo, order, 0, LayoutEnd(m3, order, 0))
    requires forall p {:trigger Encoded(b, m2, table, p)} :: Asks(m2, p) ==> Encoded(b, m2, table, p)
    ensures SelfConsistent(b, order, m3, fo, data, embeds, table, CodeBytes(b, m3, order) + Concat(data) + Concat(embeds))
  {
    hide Contract, SettledSoFar, ObjectOk, Encoded, Table, Within, LayoutEnd, CodeBytes, Concat, LayoutSettled, FuncDefs, MaxEnd, AllPatched, Resized, Asks;
    SoFarSettled(b, m3, fo, order);
    TablesStay(m1, m2, m3);
    TableKept(m1, m3, order, data, embeds);
    TablesKept(m1, m3, order, map[], 0);
    CodeEnd(b, m3, fo, order);
    assert |CodeBytes(b, m3, order) + Concat(data) + Concat(embeds)| <= U32_MAX;
    forall p | Asks(m3, p) ensures Encoded(b, m3, table, p) {
      EncodedKept(b, m2, m3, table, p);
    }
  }

  /** The lowered function is there: its code, its opcodes as far as nothing
      follows them, and its immediates that stand for no symbol. */
  ghost predicate AsLowered(f: Lowered, m: Layouts) {
    && f.func in m
    && var (l, l0) := (m[f.func], FuncLayout(f.code, f.ops, f.imm, m[f.func].tables));
      && l.code == f.code && l.ops.Keys == f.ops.Keys && l.imm.Keys == f.imm.Keys
      && (forall i {:trigger l.ops[i]} {:trigger Plain(l0, i)} :: Plain(l0, i) ==> l.ops[i] == f.ops[i])
      && (forall i {:trigger l.imm[i]} {:trigger OfSymbol(l0, i)} :: i in f.imm && !OfSymbol(l0, i) ==> l.imm[i] == f.imm[i])
  }

  /** The object holds the lowered functions. */
  ghost predicate SameFunctions(funcs: seq<Lowered>, m: Layouts) {
    forall k: nat {:trigger funcs[k]} :: k < |funcs| ==> AsLowered(funcs[k], m)
  }

  lemma HeldAll(funcs: seq<Lowered>, m: Layouts)
    requires forall k: nat {:trigger Holding(funcs, m, k)} :: k < |funcs| ==> Holding(funcs, m, k)
    ensures SameFunctions(funcs, m)
  {
    forall k: nat | k < |funcs| ensures AsLowered(funcs[k], m) { assert Holding(funcs, m, k); }
  }

  lemma CodeKept(funcs: seq<Lowered>, m: Layouts, n: Layouts)
    requires Resized(m, n, false) && SameFunctions(funcs, m)
    ensures SameFunctions(funcs, n) && forall p :: Asks(m, p) <==> Asks(n, p)
  {
    forall f | f in m ensures n[f].code == m[f].code { assert SameCode(m[f], n[f]); }
    forall k: nat | k < |funcs| ensures AsLowered(funcs[k], n) { assert AsLowered(funcs[k], m) && SameCode(m[funcs[k].func], n[funcs[k].func]); }
  }

  lemma CodePatched(funcs: seq<Lowered>, m: Layouts, n: Layouts, same: bool)
    requires AllPatched(m, n, same) && SameFunctions(funcs, m)
    ensures SameFunctions(funcs, n) && forall p :: Asks(m, p) <==> Asks(n, p)
  {
    forall f | f in m ensures n[f].code == m[f].code { assert Patched(m[f], n[f], same); }
    forall k: nat | k < |funcs| ensures AsLowered(funcs[k], n) { assert AsLowered(funcs[k], m) && Patched(m[funcs[k].func], n[funcs[k].func], same); }
  }

  lemma WithinMore(table: SymTab, end: nat, limit: nat)
    requires Within(table, end) && end <= limit
    ensures Within(table, limit)
  {
  }

  method AppendBlobs(bytes0: seq<Byte>, blobs: seq<Blob>) returns (bytes: seq<Byte>)
    ensures bytes == bytes0 + Concat(blobs)
  {
    bytes := bytes0;
    var k := 0;
    while k < |blobs|
      invariant 0 <= k <= |blobs| && bytes0 + Concat(blobs) == bytes + Concat(blobs[k..])
    {
      assert blobs[k..][1..] == blobs[k + 1..];
      bytes := bytes + blobs[k].bytes;
      k := k + 1;
    }
  }

  // ----- what a result says

  /** The settled layout `at` is too long for 32 bits. */
  ghost predicate Overflows(b: Backend, funcs: seq<Lowered>, data: seq<Blob>, embeds: seq<Blob>, at: Pass) {
    && SameFunctions(funcs, at.layouts) && LayoutSettled(b, at.layouts, at.offsets, FuncsOf(funcs), 0)
    && MaxEnd(at.layouts, FuncsOf(funcs), 0) + |Concat(data)| + |Concat(embeds)| > U32_MAX
  }

  /** From `x` over the settled `at` to `y`, whose symbol immediates fit `at` but
      not its widths. */
  ghost predicate Round(b: Backend, order: seq<FuncRef>, data: seq<Blob>, embeds: seq<Blob>, x: Layouts, at: Pass, y: Layouts, m: Layouts, p: Pending) {
    && Resized(x, at.layouts, false) && LayoutSettled(b, at.layouts, at.offsets, order, 0)
    && var table := Table(at.layouts, order, data, embeds);
      Widened(b, at.layouts, y, table, m, p) && forall q {:trigger Encoded(b, y, table, q)} :: Asks(y, q) ==> Encoded(b, y, table, q)
  }

  ghost predicate Leads(b: Backend, order: seq<FuncRef>, data: seq<Blob>, embeds: seq<Blob>, x: Layouts, y: Layouts) {
    exists at: Pass, m: Layouts, p: Pending {:trigger Round(b, order, data, embeds, x, at, y, m, p)} :: Round(b, order, data, embeds, x, at, y, m, p)
  }

  /** Every round of `trail` ended with a width changed. */
  ghost predicate NeverFits(b: Backend, order: seq<FuncRef>, data: seq<Blob>, embeds: seq<Blob>, trail: seq<Layouts>) {
    forall k: nat {:trigger trail[k]} :: k + 1 < |trail| ==> Leads(b, order, data, embeds, trail[k], trail[k + 1])
  }

  const ROUNDS: nat := 64

  /** What each result of linking says about the section: a linked one is
      self-consistent, and every failure has the cause it names. */
  ghost predicate Explained(b: Backend, funcs: seq<Lowered>, data: seq<Blob>, embeds: seq<Blob>, emitSymtab: bool, fuel: nat, r: Outcome) {
    if r.Linked? then
      exists m, fo, table {:trigger SelfConsistent(b, FuncsOf(funcs), m, fo, data, embeds, table, r.bytes)} ::
        && SelfConsistent(b, FuncsOf(funcs), m, fo, data, embeds, table, r.bytes) && SameFunctions(funcs, m)
        && r.symtab == if emitSymtab then table else map[]
    else if r == LinkError("offset overflow") then
      exists at: Pass {:trigger Overflows(b, funcs, data, embeds, at)} :: Overflows(b, funcs, data, embeds, at)
    else if r == LinkError("fixup relaxation did not converge") then
      exists trail: seq<Layouts> {:trigger NeverFits(b, FuncsOf(funcs), data, embeds, trail)} ::
        |trail| == ROUNDS + 1 && SameFunctions(funcs, trail[0]) && NeverFits(b, FuncsOf(funcs), data, embeds, trail)
    else if r == GaveUp then
      exists passes: seq<Pass> {:trigger AllMoved(b, FuncsOf(funcs), passes)} ::
        |passes| == fuel + 1 && SameFunctions(funcs, passes[0].layouts) && AllMoved(b, FuncsOf(funcs), passes)
    else
      exists m, table {:trigger Blamed(b, m, table, r)} ::
        SameFunctions(funcs, m) && table == Table(m, FuncsOf(funcs), data, embeds) && Blamed(b, m, table, r)
  }

  /** `link_section`, after lowering. */
  method LinkSection(b: Backend, funcs: seq<Lowered>, data: seq<Blob>, embeds: seq<Blob>, emitSymtab: bool, fuel: nat) returns (r: Outcome)
    requires Contract(b) && LoweredOk(funcs) && fuel > 0
    ensures Explained(b, funcs, data, embeds, emitSymtab, fuel, r)
  {
    hide Contract, LoweredOk, ObjectOk, SettledSoFar, LayoutSettled, LayoutEnd, Table, Within, Encoded, FuncsOf, SelfConsistent, CodeBytes, Concat,
      AllPatched, Resized, SameFunctions, MaxEnd, Asks, Holding, Explained, SomeWidened, Blamed, Round, NeverFits, AllMoved, Overflows;
    var layout := new ObjectLayout(funcs, 0);
    HeldAll(funcs, layout.functions);
    var ps := Collect(layout);
    var round := 0;
    ghost var trail := [layout.functions];
    NothingYet(b, FuncsOf(funcs), data, embeds, layout.functions);
    while round < ROUNDS
      invariant round <= ROUNDS && layout.Valid() && layout.order == FuncsOf(funcs)
      invariant SameFunctions(funcs, layout.functions)
      invariant forall p {:trigger Asks(layout.functions, p)} :: p in ps <==> Asks(layout.functions, p)
      invariant |trail| == round + 1 && trail[round] == layout.functions && SameFunctions(funcs, trail[0])
      invariant NeverFits(b, FuncsOf(funcs), data, embeds, trail)
    {
      ghost var m0 := layout.functions;
      var ok: bool;
      ghost var passes: seq<Pass>;
      ok, passes := Settle(b, layout, fuel);
      if !ok {
        GaveUpExplained(b, funcs, data, embeds, emitSymtab, fuel, passes);
        return GaveUp;
      }
      ghost var m1 := layout.functions;
      CodeKept(funcs, m0, m1);
      SoFarSettled(b, m1, layout.funcOffsets, layout.order);
      assert forall p :: p in ps ==> Asks(m1, p);
      var built := BuildSymtab(layout, data, embeds);
      if built.None? {
        OverflowExplained(b, funcs, data, embeds, emitSymtab, fuel, Pass(m1, layout.funcOffsets));
        return LinkError("offset overflow");
      }
      TableWithin(m1, layout.order, data, embeds);
      WithinMore(built.value, MaxEnd(m1, layout.order, 0) + |Concat(data)| + |Concat(embeds)|, U32_MAX);
      var failed, changed := ApplyAll(b, layout, ps, built.value);
      ghost var m2 := layout.functions;
      CodePatched(funcs, m1, m2, !changed);
      if failed.Some? {
        TablePatched(m1, m2, !changed, layout.order, data, embeds);
        BlameExplained(b, funcs, data, embeds, emitSymtab, fuel, m2, failed.value);
        return failed.value;
      }
      if !changed {
        LayoutPatched(b, m1, m2, layout.funcOffsets, layout.order, 0);
        ok, passes := Settle(b, layout, fuel);
        ghost var m3 := layout.functions;
        CodeKept(funcs, m2, m3);
        Consistent(b, layout.order, m1, m2, m3, layout.funcOffsets, data, embeds, built.value);
        var bytes := layout.Emit(b);
        bytes := AppendBlobs(bytes, data);
        bytes := AppendBlobs(bytes, embeds);
        LinkedExplained(b, funcs, m3, layout.funcOffsets, data, embeds, emitSymtab, fuel, built.value, bytes);
        return Linked(bytes, if emitSymtab then built.value else map[]);
      }
      RoundDone(b, layout.order, data, embeds, trail, Pass(m1, layout.funcOffsets), m2);
      trail := trail + [m2];
      round := round + 1;
    }
    NeverExplained(b, funcs, data, embeds, emitSymtab, fuel, trail);
    return LinkError("fixup relaxation did not converge");
  }

  lemma NothingYet(b: Backend, order: seq<FuncRef>, data: seq<Blob>, embeds: seq<Blob>, m: Layouts)
    ensures NeverFits(b, order, data, embeds, [m])
  {
  }

  lemma RoundDone(b: Backend, order: seq<FuncRef>, data: seq<Blob>, embeds: seq<Blob>, trail: seq<Layouts>, at: Pass, y: Layouts)
    requires |trail| > 0 && NeverFits(b, order, data, embeds, trail)
    requires Resized(trail[|trail| - 1], at.layouts, false) && LayoutSettled(b, at.layouts, at.offsets, order, 0)
    requires var table := Table(at.layouts, order, data, embeds);
      && SomeWidened(b, at.layouts, y, table)
      && forall q {:trigger Encoded(b, y, table, q)} :: Asks(y, q) ==> Encoded(b, y, table, q)
    ensures NeverFits(b, order, data, embeds, trail + [y])
  {
    hide Resized, LayoutSettled, Table, Widened, Encoded, Asks;
    var n := |trail| - 1;
    var m, p :| Widened(b, at.layouts, y, Table(at.layouts, order, data, embeds), m, p);
    assert Round(b, order, data, embeds, trail[n], at, y, m, p);
    hide Round;
    assert Leads(b, order, data, embeds, trail[n], y);
    hide Leads;
    var longer := trail + [y];
    forall k: nat | k + 1 < |longer| ensures Leads(b, order, data, embeds, longer[k], longer[k + 1]) {
      if k < n { assert longer[k] == trail[k] && longer[k + 1] == trail[k + 1]; }
    }
  }

  lemma TablePatched(m: Layouts, n: Layouts, same: bool, order: seq<FuncRef>, data: seq<Blob>, embeds: seq<Blob>)
    requires AllPatched(m, n, same)
    ensures Table(m, order, data, embeds) == Table(n, order, data, embeds)
  {
    forall f | f in m ensures n[f].tables == m[f].tables { assert Patched(m[f], n[f], same); }
    TableKept(m, n, order, data, embeds);
  }

  lemma GaveUpExplained(b: Backend, funcs: seq<Lowered>, data: seq<Blob>, embeds: seq<Blob>, emitSymtab: bool, fuel: nat, passes: seq<Pass>)
    requires |passes| == fuel + 1 && SameFunctions(funcs, passes[0].layouts) && AllMoved(b, FuncsOf(funcs), passes)
    ensures Explained(b, funcs, data, embeds, emitSymtab, fuel, GaveUp)
  {
    hide SameFunctions, AllMoved, FuncsOf;
  }

  lemma OverflowExplained(b: Backend, funcs: seq<Lowered>, data: seq<Blob>, embeds: seq<Blob>, emitSymtab: bool, fuel: nat, at: Pass)
    requires SameFunctions(funcs, at.layouts) && LayoutSettled(b, at.layouts, at.offsets, FuncsOf(funcs), 0)
    requires MaxEnd(at.layouts, FuncsOf(funcs), 0) + |Concat(data)| + |Concat(embeds)| > U32_MAX
    ensures Explained(b, funcs, data, embeds, emitSymtab, fuel, LinkError("offset overflow"))
  {
    hide SameFunctions, LayoutSettled, MaxEnd, Concat, FuncsOf;
    assert Overflows(b, funcs, data, embeds, at);
  }

  lemma BlameExplained(b: Backend, funcs: seq<Lowered>, data: seq<Blob>, embeds: seq<Blob>, emitSymtab: bool, fuel: nat, m: Layouts, r: Outcome)
    requires SameFunctions(funcs, m) && Blamed(b, m, Table(m, FuncsOf(funcs), data, embeds), r)
    ensures Explained(b, funcs, data, embeds, emitSymtab, fuel, r)
  {
    BlamedKind(b, m, Table(m, FuncsOf(funcs), data, embeds), r);
    hide SameFunctions, Blamed, Table, FuncsOf;
  }

  lemma BlamedKind(b: Backend, m: Layouts, table: SymTab, r: Outcome)
    requires Blamed(b, m, table, r)
    ensures r.BackendError? || r == LinkError("unknown symbol")
  {
  }

  lemma NeverExplained(b: Backend, funcs: seq<Lowered>, data: seq<Blob>, embeds: seq<Blob>, emitSymtab: bool, fuel: nat, trail: seq<Layouts>)
    requires |trail| == ROUNDS + 1 && SameFunctions(funcs, trail[0]) && NeverFits(b, FuncsOf(funcs), data, embeds, trail)
    ensures Explained(b, funcs, data, embeds, emitSymtab, fuel, LinkError("fixup relaxation did not converge"))
  {
    hide SameFunctions, NeverFits, FuncsOf;
  }

  lemma LinkedExplained(b: Backend, funcs: seq<Lowered>, m: Layouts, fo: map<FuncRef, nat>, data: seq<Blob>, embeds: seq<Blob>, emitSymtab: bool, fuel: nat, table: SymTab, bytes: seq<Byte>)
    requires SelfConsistent(b, FuncsOf(funcs), m, fo, data, embeds, table, bytes) && SameFunctions(funcs, m)
    ensures Explained(b, funcs, data, embeds, emitSymtab, fuel, Linked(bytes, if emitSymtab then table else map[]))
  {
    hide SelfConsistent, SameFunctions, FuncsOf;
  }
}
