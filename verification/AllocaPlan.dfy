/**
 Placing stack objects so that those live at the same time do not overlap
 (crates/codegen/src/isa/evm/alloca_plan.rs).
 */
module AllocaPlans {
  import opened Options

  type InstId = nat

  /** Live at the positions from `startPos` to `endPos`, both included. */
  datatype AllocaObject = AllocaObject(inst: InstId, startPos: nat, endPos: nat, sizeWords: nat)

  /** A range of words; `endPos` is the last position at which an active one is live. */
  datatype FreeBlock = FreeBlock(offsetWords: nat, sizeWords: nat)
  datatype ActiveBlock = ActiveBlock(endPos: nat, offsetWords: nat, sizeWords: nat)

  const U32_MAX: nat := 0xFFFF_FFFF

  // ----- the order of the objects

  /** The sort key (start, end, inst), compared lexicographically. */
  predicate KeyLe(a: AllocaObject, b: AllocaObject) {
    a.startPos < b.startPos
    || (a.startPos == b.startPos && (a.endPos < b.endPos || (a.endPos == b.endPos && a.inst <= b.inst)))
  }

  predicate SortedByKey(s: seq<AllocaObject>) {
    forall i, j :: 0 <= i < j < |s| ==> KeyLe(s[i], s[j])
  }

  /** Both orders are total, and ties are ties in the whole key: the order of the
      objects and the top of the heap are determined. */
  lemma KeysAreOrders(a: AllocaObject, b: AllocaObject, c: AllocaObject, x: ActiveBlock, y: ActiveBlock, z: ActiveBlock)
    ensures KeyLe(a, b) || KeyLe(b, a)
    ensures KeyLe(a, b) && KeyLe(b, a) <==> a.startPos == b.startPos && a.endPos == b.endPos && a.inst == b.inst
    ensures KeyLe(a, b) && KeyLe(b, c) ==> KeyLe(a, c)
    ensures a.startPos < b.startPos ==> KeyLe(a, b) && !KeyLe(b, a)
    ensures TupleLe(x, y) || TupleLe(y, x)
    ensures TupleLe(x, y) && TupleLe(y, x) <==> x == y
    ensures TupleLe(x, y) && TupleLe(y, z) ==> TupleLe(x, z)
  {
  }

  function Insert(s: seq<AllocaObject>, x: AllocaObject): (r: seq<AllocaObject>)
    requires SortedByKey(s)
    ensures SortedByKey(r) && |r| == |s| + 1
    ensures forall y :: y in r <==> y == x || y in s
  {
    if |s| == 0 then [x]
    else if KeyLe(s[|s| - 1], x) then s + [x]
    else
      var k := |s| - 1;
      var r := Insert(s[..k], x);
      InsertLast(s, x, r);
      r + [s[k]]
  }

  lemma InsertLast(s: seq<AllocaObject>, x: AllocaObject, r: seq<AllocaObject>)
    requires |s| > 0 && SortedByKey(s) && !KeyLe(s[|s| - 1], x)
    requires SortedByKey(r) && forall y :: y in r <==> y == x || y in s[..|s| - 1]
    ensures SortedByKey(r + [s[|s| - 1]])
    ensures forall y :: y in r + [s[|s| - 1]] <==> y == x || y in s
  {
    var last := s[|s| - 1];
    assert s == s[..|s| - 1] + [last];
    forall i | 0 <= i < |r| ensures KeyLe(r[i], last) {
      assert r[i] in r;
    }
  }

  /** What `sort_unstable_by_key` leaves in the slice. */
  function Sorted(s: seq<AllocaObject>): (r: seq<AllocaObject>)
    ensures SortedByKey(r) && |r| == |s|
    ensures forall y :: y in r <==> y in s
  {
    if |s| == 0 then [] else
      assert s == s[..|s| - 1] + [s[|s| - 1]];
      Insert(Sorted(s[..|s| - 1]), s[|s| - 1])
  }

  lemma {:induction false} InsertPermutes(s: seq<AllocaObject>, x: AllocaObject)
    requires SortedByKey(s)
    ensures multiset(Insert(s, x)) == multiset(s) + multiset{x}
    decreases |s|
  {
    if |s| > 0 && !KeyLe(s[|s| - 1], x) {
      var k := |s| - 1;
      InsertPermutes(s[..k], x);
      assert s == s[..k] + [s[k]];
    }
  }

  lemma {:induction false} SortedPermutes(s: seq<AllocaObject>)
    ensures multiset(Sorted(s)) == multiset(s)
    decreases |s|
  {
    if |s| > 0 {
      var k := |s| - 1;
      SortedPermutes(s[..k]);
      assert s == s[..k] + [s[k]];
      InsertPermutes(Sorted(s[..k]), s[k]);
    }
  }

  // ----- the heap of active blocks, earliest end first

  predicate TupleLe(a: ActiveBlock, b: ActiveBlock) {
    a.endPos < b.endPos
    || (a.endPos == b.endPos && (a.offsetWords < b.offsetWords || (a.offsetWords == b.offsetWords && a.sizeWords <= b.sizeWords)))
  }

  predicate Heap(h: seq<ActiveBlock>) {
    forall i, j :: 0 <= i < j < |h| ==> TupleLe(h[i], h[j])
  }

  function PushHeap(h: seq<ActiveBlock>, x: ActiveBlock): (r: seq<ActiveBlock>)
    requires Heap(h)
    ensures Heap(r) && forall y :: y in r <==> y == x || y in h
  {
    if |h| == 0 then [x]
    else if TupleLe(x, h[0]) then [x] + h
    else
      var r := PushHeap(h[1..], x);
      assert h == [h[0]] + h[1..];
      assert forall i :: 0 <= i < |r| ==> r[i] == x || r[i] in h[1..];
      [h[0]] + r
  }

  // ----- which words are covered how often

  predicate Holds(offset: nat, size: nat, w: int) {
    offset <= w < offset + size
  }

  function Once(b: bool): nat {
    if b then 1 else 0
  }

  function FreeCover(free: seq<FreeBlock>, w: int): nat {
    if |free| == 0 then 0 else
      FreeCover(free[..|free| - 1], w) + Once(Holds(free[|free| - 1].offsetWords, free[|free| - 1].sizeWords, w))
  }

  function ActiveCover(h: seq<ActiveBlock>, w: int): nat {
    if |h| == 0 then 0 else Once(Holds(h[0].offsetWords, h[0].sizeWords, w)) + ActiveCover(h[1..], w)
  }

  /** Free and active blocks together cover every word of the pool exactly once,
      and nothing else. */
  ghost predicate Partition(free: seq<FreeBlock>, h: seq<ActiveBlock>, pool: nat) {
    forall w: int {:trigger FreeCover(free, w)} {:trigger ActiveCover(h, w)} ::
      FreeCover(free, w) + ActiveCover(h, w) == Once(0 <= w < pool)
  }

  function FreeWords(free: seq<FreeBlock>): nat {
    if |free| == 0 then 0 else FreeWords(free[..|free| - 1]) + free[|free| - 1].sizeWords
  }

  function ActiveWords(h: seq<ActiveBlock>): nat {
    if |h| == 0 then 0 else h[0].sizeWords + ActiveWords(h[1..])
  }

  lemma {:induction false} FreeRemove(free: seq<FreeBlock>, i: nat, w: int)
    requires i < |free|
    ensures FreeCover(free, w) == FreeCover(SwapRemove(free, i), w) + Once(Holds(free[i].offsetWords, free[i].sizeWords, w))
    ensures FreeWords(free) == FreeWords(SwapRemove(free, i)) + free[i].sizeWords
  {
    var n := |free| - 1;
    var r := SwapRemove(free, i);
    if i < n {
      FreeUpdate(free[..n], i, free[n], w);
    }
  }

  /** `Vec::swap_remove`. */
  function SwapRemove(free: seq<FreeBlock>, i: nat): seq<FreeBlock>
    requires i < |free|
  {
    var n := |free| - 1;
    if i == n then free[..n] else free[..n][i := free[n]]
  }

  lemma {:induction false} FreeUpdate(free: seq<FreeBlock>, i: nat, b: FreeBlock, w: int)
    requires i < |free|
    ensures FreeCover(free[i := b], w) + Once(Holds(free[i].offsetWords, free[i].sizeWords, w))
         == FreeCover(free, w) + Once(Holds(b.offsetWords, b.sizeWords, w))
    ensures FreeWords(free[i := b]) + free[i].sizeWords == FreeWords(free) + b.sizeWords
    decreases |free|
  {
    var n := |free| - 1;
    if i == n {
      assert free[i := b][..n] == free[..n];
    } else {
      assert free[i := b][..n] == free[..n][i := b];
      FreeUpdate(free[..n], i, b, w);
    }
  }

  lemma {:induction false} ActivePush(h: seq<ActiveBlock>, x: ActiveBlock, w: int)
    requires Heap(h)
    ensures ActiveCover(PushHeap(h, x), w) == ActiveCover(h, w) + Once(Holds(x.offsetWords, x.sizeWords, w))
    ensures ActiveWords(PushHeap(h, x)) == ActiveWords(h) + x.sizeWords
    ensures |PushHeap(h, x)| == |h| + 1
    decreases |h|
  {
    if |h| == 0 {
      assert PushHeap(h, x)[1..] == [];
    } else if TupleLe(x, h[0]) {
      assert PushHeap(h, x)[1..] == h;
    } else {
      ActivePush(h[1..], x, w);
      assert PushHeap(h, x)[1..] == PushHeap(h[1..], x);
    }
  }

  lemma {:induction false} ActiveHolds(h: seq<ActiveBlock>, x: ActiveBlock, w: int)
    requires x in h && Holds(x.offsetWords, x.sizeWords, w)
    ensures ActiveCover(h, w) >= 1
    decreases |h|
  {
    if x != h[0] { ActiveHolds(h[1..], x, w); }
  }

  lemma {:induction false} FreeHolds(free: seq<FreeBlock>, i: nat, w: int)
    requires i < |free| && Holds(free[i].offsetWords, free[i].sizeWords, w)
    ensures FreeCover(free, w) >= 1
    decreases |free|
  {
    if i < |free| - 1 { FreeHolds(free[..|free| - 1], i, w); }
  }

  // ----- what a placement must satisfy

  predicate Live(o: AllocaObject, t: nat) {
    o.startPos <= t <= o.endPos
  }

  /** The closed live intervals share a position. */
  ghost predicate Meet(a: AllocaObject, b: AllocaObject) {
    exists t :: Live(a, t) && Live(b, t)
  }

  predicate Apart(off1: nat, size1: nat, off2: nat, size2: nat) {
    off1 + size1 <= off2 || off2 + size2 <= off1
  }

  type Offsets = map<InstId, nat>

  ghost predicate DistinctInsts(s: seq<AllocaObject>) {
    forall i, j :: 0 <= i < j < |s| ==> s[i].inst != s[j].inst
  }

  ghost predicate PlacedInPool(offsets: Offsets, pool: nat, o: AllocaObject) {
    o.inst in offsets && offsets[o.inst] + o.sizeWords <= pool
  }

  ghost predicate PairSafe(offsets: Offsets, a: AllocaObject, b: AllocaObject) {
    a.inst in offsets && b.inst in offsets
    && (a.sizeWords > 0 && b.sizeWords > 0 && Meet(a, b) ==>
          Apart(offsets[a.inst], a.sizeWords, offsets[b.inst], b.sizeWords))
  }

  /** Objects that are live together do not overlap, and all lie in the pool. */
  ghost predicate Safe(s: seq<AllocaObject>, offsets: Offsets, pool: nat) {
    && (forall i :: 0 <= i < |s| ==> PlacedInPool(offsets, pool, s[i]))
    && (forall i, j :: 0 <= i < j < |s| ==> PairSafe(offsets, s[i], s[j]))
  }

  function LiveWords(s: seq<AllocaObject>, t: nat): nat {
    if |s| == 0 then 0 else
      LiveWords(s[..|s| - 1], t) + (if Live(s[|s| - 1], t) then s[|s| - 1].sizeWords else 0)
  }

  /** How many objects of nonzero size are live at `t`. */
  function LiveCount(s: seq<AllocaObject>, t: nat): nat {
    if |s| == 0 then 0 else
      LiveCount(s[..|s| - 1], t) + Once(Live(s[|s| - 1], t) && s[|s| - 1].sizeWords > 0)
  }

  ghost predicate UniformSize(s: seq<AllocaObject>, z: nat) {
    z > 0 && forall i :: 0 <= i < |s| && s[i].sizeWords > 0 ==> s[i].sizeWords == z
  }

  // ----- invariants of the sweep

  /** Every placed object that is still live at `thr` is on the heap. */
  ghost predicate Tracked(s: seq<AllocaObject>, offsets: Offsets, h: seq<ActiveBlock>, thr: nat) {
    forall i :: 0 <= i < |s| && s[i].sizeWords > 0 && s[i].endPos >= thr ==> OnHeap(offsets, h, s[i])
  }

  ghost predicate OnHeap(offsets: Offsets, h: seq<ActiveBlock>, o: AllocaObject) {
    o.inst in offsets && ActiveBlock(o.endPos, offsets[o.inst], o.sizeWords) in h
  }

  function EndCount(h: seq<ActiveBlock>, t: nat): nat {
    if |h| == 0 then 0 else Once(h[0].endPos >= t) + EndCount(h[1..], t)
  }

  function ObjCount(s: seq<AllocaObject>, t: nat): nat {
    if |s| == 0 then 0 else
      ObjCount(s[..|s| - 1], t) + Once(s[|s| - 1].endPos >= t && s[|s| - 1].sizeWords > 0)
  }

  /** From `thr` on, the heap holds one block per object that is still live. */
  ghost predicate Counted(s: seq<AllocaObject>, h: seq<ActiveBlock>, thr: nat) {
    forall t {:trigger EndCount(h, t)} {:trigger ObjCount(s, t)} :: t >= thr ==> EndCount(h, t) == ObjCount(s, t)
  }

  ghost predicate AllOfSize(free: seq<FreeBlock>, h: seq<ActiveBlock>, z: nat) {
    && (forall i :: 0 <= i < |free| ==> free[i].sizeWords == z)
    && (forall x :: x in h ==> x.sizeWords == z)
  }

  /** The pool grew only to hold objects that are live together. */
  ghost predicate PeakAt(s: seq<AllocaObject>, z: nat, pool: nat) {
    pool == 0 || exists t :: pool <= z * LiveCount(s, t)
  }

  ghost predicate Blocks(free: seq<FreeBlock>, h: seq<ActiveBlock>, pool: nat) {
    && Heap(h) && Partition(free, h, pool)
    && FreeWords(free) + ActiveWords(h) == pool
  }

  // ----- steps

  /** An expired block becomes free. */
  lemma Expire(free: seq<FreeBlock>, h: seq<ActiveBlock>, pool: nat)
    requires Blocks(free, h, pool) && |h| > 0
    ensures Blocks(free + [FreeBlock(h[0].offsetWords, h[0].sizeWords)], h[1..], pool)
  {
    var b := FreeBlock(h[0].offsetWords, h[0].sizeWords);
    assert (free + [b])[..|free|] == free;
    forall w: int ensures FreeCover(free + [b], w) + ActiveCover(h[1..], w) == Once(0 <= w < pool) {
      assert FreeCover(free, w) + ActiveCover(h, w) == Once(0 <= w < pool);
    }
  }

  /** A free block of exactly the right size becomes active. */
  lemma TakeWhole(free: seq<FreeBlock>, h: seq<ActiveBlock>, pool: nat, i: nat, end: nat)
    requires Blocks(free, h, pool) && i < |free|
    ensures Blocks(SwapRemove(free, i), PushHeap(h, ActiveBlock(end, free[i].offsetWords, free[i].sizeWords)), pool)
  {
    var x := ActiveBlock(end, free[i].offsetWords, free[i].sizeWords);
    FreeRemove(free, i, 0);
    ActivePush(h, x, 0);
    forall w: int ensures FreeCover(SwapRemove(free, i), w) + ActiveCover(PushHeap(h, x), w) == Once(0 <= w < pool) {
      assert FreeCover(free, w) + ActiveCover(h, w) == Once(0 <= w < pool);
      FreeRemove(free, i, w);
      ActivePush(h, x, w);
    }
  }

  /** The front of a larger free block becomes active. */
  lemma TakeFront(free: seq<FreeBlock>, h: seq<ActiveBlock>, pool: nat, i: nat, end: nat, size: nat)
    requires Blocks(free, h, pool) && i < |free| && size <= free[i].sizeWords
    ensures Blocks(free[i := FreeBlock(free[i].offsetWords + size, free[i].sizeWords - size)],
                   PushHeap(h, ActiveBlock(end, free[i].offsetWords, size)), pool)
  {
    var b := FreeBlock(free[i].offsetWords + size, free[i].sizeWords - size);
    var x := ActiveBlock(end, free[i].offsetWords, size);
    FreeUpdate(free, i, b, 0);
    ActivePush(h, x, 0);
    forall w: int ensures FreeCover(free[i := b], w) + ActiveCover(PushHeap(h, x), w) == Once(0 <= w < pool) {
      assert FreeCover(free, w) + ActiveCover(h, w) == Once(0 <= w < pool);
      FreeUpdate(free, i, b, w);
      ActivePush(h, x, w);
    }
  }

  /** New words at the end of the pool become active. */
  lemma Grow(free: seq<FreeBlock>, h: seq<ActiveBlock>, pool: nat, end: nat, size: nat)
    requires Blocks(free, h, pool)
    ensures Blocks(free, PushHeap(h, ActiveBlock(end, pool, size)), pool + size)
  {
    var x := ActiveBlock(end, pool, size);
    ActivePush(h, x, 0);
    forall w: int ensures FreeCover(free, w) + ActiveCover(PushHeap(h, x), w) == Once(0 <= w < pool + size) {
      assert FreeCover(free, w) + ActiveCover(h, w) == Once(0 <= w < pool);
      ActivePush(h, x, w);
    }
  }

  /** Words of a free block, and words beyond the pool, belong to no active block. */
  lemma FreeIsApart(free: seq<FreeBlock>, h: seq<ActiveBlock>, pool: nat, offset: nat, size: nat, x: ActiveBlock)
    requires Blocks(free, h, pool) && x in h && x.sizeWords > 0 && size > 0
    requires offset == pool || exists i :: 0 <= i < |free| && free[i].offsetWords == offset && size <= free[i].sizeWords
    ensures Apart(offset, size, x.offsetWords, x.sizeWords)
  {
    var w := if offset <= x.offsetWords then x.offsetWords else offset;
    if Holds(x.offsetWords, x.sizeWords, w) {
      ActiveHolds(h, x, w);
      assert FreeCover(free, w) + ActiveCover(h, w) == Once(0 <= w < pool);
      if offset != pool {
        var i :| 0 <= i < |free| && free[i].offsetWords == offset && size <= free[i].sizeWords;
        if Holds(offset, size, w) { FreeHolds(free, i, w); }
      }
    }
  }

  lemma FreeInPool(free: seq<FreeBlock>, h: seq<ActiveBlock>, pool: nat, i: nat)
    requires Blocks(free, h, pool) && i < |free| && free[i].sizeWords > 0
    ensures free[i].offsetWords + free[i].sizeWords <= pool
  {
    var w := free[i].offsetWords + free[i].sizeWords - 1;
    assert FreeCover(free, w) + ActiveCover(h, w) == Once(0 <= w < pool);
    FreeHolds(free, i, w);
  }

  // ----- ranges that can be used again

  ghost predicate Shares(s: seq<AllocaObject>, offsets: Offsets, i: nat, j: nat)
    requires i < |s| && j < |s|
  {
    s[i].inst in offsets && s[j].inst in offsets && s[j].sizeWords > 0
    && !Apart(offsets[s[i].inst], s[i].sizeWords, offsets[s[j].inst], s[j].sizeWords)
  }

  /** Between `i` and `k` some object was given words of the range of `i`. */
  ghost predicate Reused(s: seq<AllocaObject>, offsets: Offsets, i: nat, k: nat)
    requires i < |s| && k <= |s|
  {
    exists j: nat :: i < j < k && Shares(s, offsets, i, j)
  }

  /** When `k` is placed, `i` has ended and its range was not used again. */
  ghost predicate Vacant(s: seq<AllocaObject>, offsets: Offsets, i: nat, k: nat)
    requires i < |s| && k < |s|
  {
    i < k && s[i].inst in offsets && s[i].sizeWords > 0 && s[i].endPos < s[k].startPos && !Reused(s, offsets, i, k)
  }

  ghost predicate EndsAt(s: seq<AllocaObject>, offsets: Offsets, j: nat, w: nat)
    requires j < |s|
  {
    s[j].inst in offsets && s[j].sizeWords > 0 && w == offsets[s[j].inst] + s[j].sizeWords
  }

  ghost predicate StartsAt(s: seq<AllocaObject>, offsets: Offsets, j: nat, w: nat)
    requires j < |s|
  {
    s[j].inst in offsets && s[j].sizeWords > 0 && w == offsets[s[j].inst]
  }

  /** One of the first `k` objects starts or ends at word `w`. */
  ghost predicate Border(s: seq<AllocaObject>, k: nat, offsets: Offsets, w: nat)
    requires k <= |s|
  {
    exists j: nat :: j < k && (StartsAt(s, offsets, j, w) || EndsAt(s, offsets, j, w))
  }

  /** Object `k` does not reach for new words while a vacant range is large
      enough, takes no vacant range while a smaller one is large enough, and
      starts where the range it is cut from starts. */
  ghost predicate Thrifty(s: seq<AllocaObject>, offsets: Offsets, k: nat)
    requires k < |s|
  {
    s[k].inst in offsets && s[k].sizeWords > 0 ==>
      && (forall i: nat :: i < |s| && Vacant(s, offsets, i, k) && s[i].sizeWords >= s[k].sizeWords ==>
            exists j: nat, w: nat :: j < k && EndsAt(s, offsets, j, w) && offsets[s[k].inst] < w)
      && (forall i: nat, m: nat :: i < |s| && m < |s| && Vacant(s, offsets, i, k) && Vacant(s, offsets, m, k) ==>
            s[k].sizeWords <= s[i].sizeWords < s[m].sizeWords ==> offsets[s[k].inst] != offsets[s[m].inst])
      && (offsets[s[k].inst] == 0 || Border(s, k, offsets, offsets[s[k].inst]))
  }

  /** The range of `i` was used again, or is still active, or is free as a whole. */
  ghost predicate Kept(s: seq<AllocaObject>, k: nat, offsets: Offsets, free: seq<FreeBlock>, h: seq<ActiveBlock>, i: nat)
    requires i < |s| && k <= |s|
  {
    s[i].inst in offsets
    && (Reused(s, offsets, i, k) || OnHeap(offsets, h, s[i]) || FreeBlock(offsets[s[i].inst], s[i].sizeWords) in free)
  }

  /** What the lists say about the ranges of the first `k` objects. */
  ghost predicate Ranges(s: seq<AllocaObject>, k: nat, offsets: Offsets, free: seq<FreeBlock>, h: seq<ActiveBlock>, pool: nat)
    requires k <= |s|
  {
    && (forall i: nat {:trigger Kept(s, k, offsets, free, h, i)} :: i < k && s[i].sizeWords > 0 ==> Kept(s, k, offsets, free, h, i))
    && (forall b :: b in free ==> Border(s, k, offsets, b.offsetWords))
    && (forall x :: x in h ==> Border(s, k, offsets, x.offsetWords))
    && (pool == 0 || exists j: nat :: j < k && EndsAt(s, offsets, j, pool))
  }

  lemma ExpireRanges(s: seq<AllocaObject>, k: nat, offsets: Offsets, free: seq<FreeBlock>, h: seq<ActiveBlock>, pool: nat)
    requires k <= |s| && Ranges(s, k, offsets, free, h, pool) && |h| > 0
    ensures Ranges(s, k, offsets, free + [FreeBlock(h[0].offsetWords, h[0].sizeWords)], h[1..], pool)
  {
    hide Border, Reused;
    var free', h' := free + [FreeBlock(h[0].offsetWords, h[0].sizeWords)], h[1..];
    assert h == [h[0]] + h';
    forall i: nat | i < k && s[i].sizeWords > 0 ensures Kept(s, k, offsets, free', h', i) {
      assert Kept(s, k, offsets, free, h, i);
    }
  }

  /** A new entry for object `k` changes nothing said about the objects before it. */
  lemma EntryKeeps(s: seq<AllocaObject>, k: nat, offsets: Offsets, offset: nat)
    requires DistinctInsts(s) && k < |s|
    ensures var offsets' := offsets[s[k].inst := offset];
      && (forall i: nat, j: nat :: i < k && j < k ==> Shares(s, offsets', i, j) == Shares(s, offsets, i, j))
      && (forall i: nat, m: nat :: i < k && m <= k ==> Reused(s, offsets', i, m) == Reused(s, offsets, i, m))
      && (forall j: nat, w: nat :: j < k ==> EndsAt(s, offsets', j, w) == EndsAt(s, offsets, j, w))
      && (forall j: nat, w: nat :: j < k ==> StartsAt(s, offsets', j, w) == StartsAt(s, offsets, j, w))
      && (forall m: nat, w: nat :: m <= k ==> Border(s, m, offsets', w) == Border(s, m, offsets, w))
  {
    var offsets' := offsets[s[k].inst := offset];
    assert forall j: nat :: j < k ==> s[j].inst != s[k].inst;
    assert forall i: nat, j: nat :: i < k && j < k ==> Shares(s, offsets', i, j) == Shares(s, offsets, i, j);
    hide Shares;
    forall i: nat, m: nat | i < k && m <= k ensures Reused(s, offsets', i, m) == Reused(s, offsets, i, m) {
      if j: nat :| i < j < m && Shares(s, offsets, i, j) { assert Shares(s, offsets', i, j); }
      if j: nat :| i < j < m && Shares(s, offsets', i, j) { assert Shares(s, offsets, i, j); }
    }
    forall m: nat, w: nat | m <= k ensures Border(s, m, offsets', w) == Border(s, m, offsets, w) {
      forall j: nat | j < m ensures EndsAt(s, offsets', j, w) == EndsAt(s, offsets, j, w)
                                 && StartsAt(s, offsets', j, w) == StartsAt(s, offsets, j, w) {}
    }
  }

  lemma ThriftyStays(s: seq<AllocaObject>, m: nat, k: nat, offsets: Offsets, offset: nat)
    requires DistinctInsts(s) && m < k < |s| && Thrifty(s, offsets, m)
    ensures Thrifty(s, offsets[s[k].inst := offset], m)
  {
    var offsets' := offsets[s[k].inst := offset];
    EntryKeeps(s, k, offsets, offset);
    assert forall j: nat :: j < k ==> s[j].inst != s[k].inst;
    hide Reused, Border, EndsAt, DistinctInsts;
    assert forall i: nat :: i < |s| ==> Vacant(s, offsets', i, m) == Vacant(s, offsets, i, m);
    hide Vacant;
    if s[m].inst in offsets && s[m].sizeWords > 0 {
      forall i: nat | i < |s| && Vacant(s, offsets', i, m) && s[i].sizeWords >= s[m].sizeWords
        ensures exists j: nat, w: nat :: j < m && EndsAt(s, offsets', j, w) && offsets'[s[m].inst] < w
      {
        var j: nat, w: nat :| j < m && EndsAt(s, offsets, j, w) && offsets[s[m].inst] < w;
        assert EndsAt(s, offsets', j, w);
      }
    }
  }

  ghost predicate AllThrifty(s: seq<AllocaObject>, k: nat, offsets: Offsets)
    requires k <= |s|
  {
    forall m: nat :: m < k ==> Thrifty(s, offsets, m)
  }

  lemma AllThriftyStay(s: seq<AllocaObject>, k: nat, offsets: Offsets, offset: nat)
    requires DistinctInsts(s) && k < |s| && AllThrifty(s, k, offsets)
    ensures AllThrifty(s, k, offsets[s[k].inst := offset])
  {
    hide Thrifty;
    var offsets' := offsets[s[k].inst := offset];
    forall m: nat | m < k ensures Thrifty(s, offsets', m) { ThriftyStays(s, m, k, offsets, offset); }
  }

  lemma BorderGrows(s: seq<AllocaObject>, k: nat, offsets: Offsets, offset: nat, w: nat)
    requires DistinctInsts(s) && k < |s| && Border(s, k, offsets, w)
    ensures Border(s, k + 1, offsets[s[k].inst := offset], w)
  {
    EntryKeeps(s, k, offsets, offset);
    hide EndsAt, StartsAt;
    var offsets' := offsets[s[k].inst := offset];
    assert Border(s, k, offsets', w);
    var j: nat :| j < k && (StartsAt(s, offsets', j, w) || EndsAt(s, offsets', j, w));
  }

  /** Placing object `k` at `offset`: what leaves the free list was used for it. */
  lemma RangesStep(s: seq<AllocaObject>, k: nat, offsets: Offsets, free: seq<FreeBlock>, h: seq<ActiveBlock>, pool: nat,
                   offset: nat, free': seq<FreeBlock>, h': seq<ActiveBlock>, pool': nat)
    requires DistinctInsts(s) && k < |s| && Ranges(s, k, offsets, free, h, pool)
    requires s[k].sizeWords > 0 ==> ActiveBlock(s[k].endPos, offset, s[k].sizeWords) in h'
    requires forall x :: x in h ==> x in h'
    requires forall x :: x in h' ==> x in h || (s[k].sizeWords > 0 && x.offsetWords == offset)
    requires forall b :: b in free ==> b in free' || (s[k].sizeWords > 0 && b.offsetWords == offset)
    requires forall b :: b in free' ==> b in free || (s[k].sizeWords > 0 && b.offsetWords == offset + s[k].sizeWords)
    requires pool' == pool || (s[k].sizeWords > 0 && pool' == offset + s[k].sizeWords)
    ensures Ranges(s, k + 1, offsets[s[k].inst := offset], free', h', pool')
  {
    var offsets' := offsets[s[k].inst := offset];
    EntryKeeps(s, k, offsets, offset);
    forall i: nat | i < k + 1 && s[i].sizeWords > 0 ensures Kept(s, k + 1, offsets', free', h', i) {
      KeptStep(s, k, offsets, free, h, offset, free', h', i);
    }
    assert s[k].sizeWords > 0 ==> StartsAt(s, offsets', k, offset) && EndsAt(s, offsets', k, offset + s[k].sizeWords);
    hide Kept, StartsAt, EndsAt, Reused, Shares;
    forall b | b in free' ensures Border(s, k + 1, offsets', b.offsetWords) {
      if b in free { BorderGrows(s, k, offsets, offset, b.offsetWords); }
    }
    forall x | x in h' ensures Border(s, k + 1, offsets', x.offsetWords) {
      if x in h { BorderGrows(s, k, offsets, offset, x.offsetWords); }
    }
    if pool' == pool && pool != 0 {
      var j: nat :| j < k && EndsAt(s, offsets, j, pool);
      assert EndsAt(s, offsets', j, pool);
    }
  }

  lemma KeptStep(s: seq<AllocaObject>, k: nat, offsets: Offsets, free: seq<FreeBlock>, h: seq<ActiveBlock>,
                 offset: nat, free': seq<FreeBlock>, h': seq<ActiveBlock>, i: nat)
    requires DistinctInsts(s) && k < |s| && i <= k && s[i].sizeWords > 0
    requires i < k ==> Kept(s, k, offsets, free, h, i)
    requires s[k].sizeWords > 0 ==> ActiveBlock(s[k].endPos, offset, s[k].sizeWords) in h'
    requires forall x :: x in h ==> x in h'
    requires forall b :: b in free ==> b in free' || (s[k].sizeWords > 0 && b.offsetWords == offset)
    ensures Kept(s, k + 1, offsets[s[k].inst := offset], free', h', i)
  {
    if i < k {
      var offsets' := offsets[s[k].inst := offset];
      EntryKeeps(s, k, offsets, offset);
      assert s[i].inst != s[k].inst;
      if Reused(s, offsets, i, k) {
        var j: nat :| i < j < k && Shares(s, offsets, i, j);
        assert Shares(s, offsets', i, j);
      } else if FreeBlock(offsets[s[i].inst], s[i].sizeWords) in free && s[k].sizeWords > 0 && offsets[s[i].inst] == offset {
        assert Shares(s, offsets', i, k);
      }
    }
  }

  /** Two free blocks do not start at the same word. */
  lemma FreeStartsDiffer(free: seq<FreeBlock>, h: seq<ActiveBlock>, pool: nat, i: nat, j: nat)
    requires Blocks(free, h, pool) && i < |free| && j < |free|
    requires free[i].sizeWords > 0 && free[j].sizeWords > 0 && free[i].offsetWords == free[j].offsetWords
    ensures i == j
  {
    var w := free[i].offsetWords;
    assert FreeCover(free, w) + ActiveCover(h, w) == Once(0 <= w < pool);
    if i < j { HeldTwice(free, i, j, w); } else if j < i { HeldTwice(free, j, i, w); }
  }

  lemma {:induction false} HeldTwice(free: seq<FreeBlock>, i: nat, j: nat, w: nat)
    requires i < j < |free| && Holds(free[i].offsetWords, free[i].sizeWords, w) && Holds(free[j].offsetWords, free[j].sizeWords, w)
    ensures FreeCover(free, w) >= 2
    decreases |free|
  {
    var n := |free| - 1;
    if j < n { HeldTwice(free[..n], i, j, w); } else { FreeHolds(free[..n], i, w); }
  }

  /** Where `Place` puts `size` words: in the best free block, or at the end of
      the pool if none is large enough. */
  ghost predicate Placed(free: seq<FreeBlock>, size: nat, pool: nat, offset: nat, pool': nat) {
    if exists i :: 0 <= i < |free| && Fits(free, i, size) then
      pool' == pool && exists b: nat :: Best(free, b, size) && offset == free[b].offsetWords
    else
      offset == pool && pool' == pool + size
  }

  /** A vacant range is a free block when object `k` is placed. */
  lemma VacantIsFree(s: seq<AllocaObject>, k: nat, offsets: Offsets, free: seq<FreeBlock>, h: seq<ActiveBlock>, pool: nat, offset: nat, i: nat)
    returns (m: nat)
    requires DistinctInsts(s) && k < |s| && i < |s| && Ranges(s, k, offsets, free, h, pool)
    requires forall x :: x in h ==> x.endPos >= s[k].startPos
    requires Vacant(s, offsets[s[k].inst := offset], i, k)
    ensures m < |free| && free[m] == FreeBlock(offsets[s[i].inst], s[i].sizeWords)
    ensures s[i].inst != s[k].inst
  {
    EntryKeeps(s, k, offsets, offset);
    hide Reused, Border, EndsAt;
    assert Kept(s, k, offsets, free, h, i);
    assert FreeBlock(offsets[s[i].inst], s[i].sizeWords) in free;
    m :| m < |free| && free[m] == FreeBlock(offsets[s[i].inst], s[i].sizeWords);
  }

  lemma ThriftyNow(s: seq<AllocaObject>, k: nat, offsets: Offsets, free: seq<FreeBlock>, h: seq<ActiveBlock>, pool: nat, offset: nat, pool': nat)
    requires DistinctInsts(s) && k < |s| && s[k].sizeWords > 0 && Ranges(s, k, offsets, free, h, pool)
    requires Blocks(free, h, pool) && Positive(free, h)
    requires forall x :: x in h ==> x.endPos >= s[k].startPos
    requires Placed(free, s[k].sizeWords, pool, offset, pool')
    ensures Thrifty(s, offsets[s[k].inst := offset], k)
  {
    var offsets' := offsets[s[k].inst := offset];
    EntryKeeps(s, k, offsets, offset);
    hide Vacant, Reused, Blocks, Kept;
    forall i: nat | i < |s| && Vacant(s, offsets', i, k) && s[i].sizeWords >= s[k].sizeWords
      ensures exists j: nat, w: nat :: j < k && EndsAt(s, offsets', j, w) && offset < w
    {
      var m := VacantIsFree(s, k, offsets, free, h, pool, offset, i);
      assert Fits(free, m, s[k].sizeWords);
      var b: nat :| Best(free, b, s[k].sizeWords) && offset == free[b].offsetWords;
      FreeInPool(free, h, pool, b);
      var j: nat :| j < k && EndsAt(s, offsets, j, pool);
      assert EndsAt(s, offsets', j, pool);
    }
    forall i: nat, m: nat | i < |s| && m < |s| && Vacant(s, offsets', i, k) && Vacant(s, offsets', m, k)
        && s[k].sizeWords <= s[i].sizeWords < s[m].sizeWords
      ensures offset != offsets'[s[m].inst]
    {
      var c := VacantIsFree(s, k, offsets, free, h, pool, offset, i);
      var d := VacantIsFree(s, k, offsets, free, h, pool, offset, m);
      assert Fits(free, c, s[k].sizeWords);
      var b: nat :| Best(free, b, s[k].sizeWords) && offset == free[b].offsetWords;
      if offset == offsets'[s[m].inst] { FreeStartsDiffer(free, h, pool, b, d); }
    }
    if exists i :: 0 <= i < |free| && Fits(free, i, s[k].sizeWords) {
      var b: nat :| Best(free, b, s[k].sizeWords) && offset == free[b].offsetWords;
      assert free[b] in free;
    } else if pool != 0 {
      var j: nat :| j < k && EndsAt(s, offsets, j, pool);
      assert Border(s, k, offsets, pool);
    }
  }

  function TotalWords(s: seq<AllocaObject>): nat {
    if |s| == 0 then 0 else TotalWords(s[..|s| - 1]) + s[|s| - 1].sizeWords
  }

  ghost predicate Intervals(s: seq<AllocaObject>) {
    forall i :: 0 <= i < |s| ==> s[i].startPos <= s[i].endPos
  }

  ghost predicate Positive(free: seq<FreeBlock>, h: seq<ActiveBlock>) {
    && (forall i :: 0 <= i < |free| ==> free[i].sizeWords > 0)
    && (forall x :: x in h ==> x.sizeWords > 0)
  }

  ghost predicate UniformOk(s: seq<AllocaObject>, free: seq<FreeBlock>, h: seq<ActiveBlock>, pool: nat, z: nat) {
    Intervals(s) && UniformSize(s, z) ==> AllOfSize(free, h, z) && PeakAt(s, z, pool)
  }

  /** The state once the first `k` objects are placed and everything that ended
      before `thr` may have expired. */
  ghost predicate Placing(s: seq<AllocaObject>, k: nat, offsets: Offsets, free: seq<FreeBlock>, h: seq<ActiveBlock>, pool: nat, thr: nat)
    requires k <= |s|
  {
    && Blocks(free, h, pool) && Positive(free, h)
    && Safe(s[..k], offsets, pool)
    && Tracked(s[..k], offsets, h, thr) && Counted(s[..k], h, thr)
    && pool <= TotalWords(s[..k])
    && (forall z {:trigger UniformOk(s, free, h, pool, z)} :: UniformOk(s, free, h, pool, z))
  }

  lemma StartPlacing(s: seq<AllocaObject>)
    ensures Placing(s, 0, map[], [], [], 0, 0)
  {
    forall w: int ensures FreeCover([], w) + ActiveCover([], w) == Once(0 <= w < 0) {}
  }

  lemma StartRanges(s: seq<AllocaObject>)
    ensures Ranges(s, 0, map[], [], [], 0)
  {
  }

  lemma ExpireStep(s: seq<AllocaObject>, k: nat, offsets: Offsets, free: seq<FreeBlock>, h: seq<ActiveBlock>, pool: nat, thr: nat)
    requires k <= |s| && Placing(s, k, offsets, free, h, pool, thr)
    requires |h| > 0 && h[0].endPos < thr
    ensures Placing(s, k, offsets, free + [FreeBlock(h[0].offsetWords, h[0].sizeWords)], h[1..], pool, thr)
  {
    hide Blocks, Safe;
    var free', h' := free + [FreeBlock(h[0].offsetWords, h[0].sizeWords)], h[1..];
    Expire(free, h, pool);
    assert h == [h[0]] + h[1..];
    forall i | 0 <= i < k && s[..k][i].sizeWords > 0 && s[..k][i].endPos >= thr ensures OnHeap(offsets, h', s[..k][i]) {
      assert OnHeap(offsets, h, s[..k][i]);
    }
    forall t | t >= thr ensures EndCount(h', t) == ObjCount(s[..k], t) {
      assert EndCount(h, t) == ObjCount(s[..k], t);
    }
    forall z ensures UniformOk(s, free', h', pool, z) {
      assert UniformOk(s, free, h, pool, z);
    }
  }

  lemma RaiseThreshold(s: seq<AllocaObject>, k: nat, offsets: Offsets, free: seq<FreeBlock>, h: seq<ActiveBlock>, pool: nat, thr: nat, thr': nat)
    requires k <= |s| && Placing(s, k, offsets, free, h, pool, thr) && thr <= thr'
    ensures Placing(s, k, offsets, free, h, pool, thr')
  {
    hide Blocks, Safe, UniformOk;
  }

  lemma {:induction false} EndCountPush(h: seq<ActiveBlock>, x: ActiveBlock, t: nat)
    requires Heap(h)
    ensures EndCount(PushHeap(h, x), t) == EndCount(h, t) + Once(x.endPos >= t)
    decreases |h|
  {
    if |h| == 0 {
      assert PushHeap(h, x)[1..] == [];
    } else if TupleLe(x, h[0]) {
      assert PushHeap(h, x)[1..] == h;
    } else {
      EndCountPush(h[1..], x, t);
      assert PushHeap(h, x)[1..] == PushHeap(h[1..], x);
    }
  }

  /** Placing object `k` at `offset`, apart from every active block. */
  lemma SafeStep(s: seq<AllocaObject>, k: nat, offsets: Offsets, h: seq<ActiveBlock>, pool: nat, offset: nat, pool': nat)
    requires SortedByKey(s) && DistinctInsts(s) && k < |s|
    requires Safe(s[..k], offsets, pool) && Tracked(s[..k], offsets, h, s[k].startPos)
    requires pool <= pool' && offset + s[k].sizeWords <= pool'
    requires s[k].sizeWords > 0 ==> forall x :: x in h && x.sizeWords > 0 ==> Apart(offset, s[k].sizeWords, x.offsetWords, x.sizeWords)
    ensures Safe(s[..k + 1], offsets[s[k].inst := offset], pool')
  {
    var o := s[k];
    var offsets' := offsets[o.inst := offset];
    var p := s[..k + 1];
    forall i | 0 <= i < |p| ensures PlacedInPool(offsets', pool', p[i]) {
      if i < k {
        assert PlacedInPool(offsets, pool, s[..k][i]);
        assert s[i].inst != o.inst;
      }
    }
    forall i, j | 0 <= i < j < |p| ensures PairSafe(offsets', p[i], p[j]) {
      assert s[i].inst != o.inst;
      if j < k {
        assert PairSafe(offsets, s[..k][i], s[..k][j]);
        assert s[j].inst != o.inst;
      } else {
        assert PlacedInPool(offsets, pool, s[..k][i]);
        if s[i].sizeWords > 0 && o.sizeWords > 0 && Meet(s[i], o) {
          assert s[i].endPos >= o.startPos;
          assert OnHeap(offsets, h, s[..k][i]);
        }
      }
    }
  }

  lemma TrackedStep(s: seq<AllocaObject>, k: nat, offsets: Offsets, h: seq<ActiveBlock>, offset: nat)
    requires SortedByKey(s) && DistinctInsts(s) && k < |s| && Heap(h)
    requires Tracked(s[..k], offsets, h, s[k].startPos) && Counted(s[..k], h, s[k].startPos)
    requires s[k].sizeWords > 0
    ensures var h' := PushHeap(h, ActiveBlock(s[k].endPos, offset, s[k].sizeWords));
            Tracked(s[..k + 1], offsets[s[k].inst := offset], h', s[k].startPos) && Counted(s[..k + 1], h', s[k].startPos)
  {
    var o := s[k];
    var x := ActiveBlock(o.endPos, offset, o.sizeWords);
    var h' := PushHeap(h, x);
    var offsets' := offsets[o.inst := offset];
    var p := s[..k + 1];
    forall i | 0 <= i < |p| && p[i].sizeWords > 0 && p[i].endPos >= o.startPos
      ensures OnHeap(offsets', h', p[i])
    {
      if i < k {
        assert OnHeap(offsets, h, s[..k][i]);
        assert s[i].inst != o.inst;
      }
    }
    assert s[..k + 1][..k] == s[..k];
    forall t | t >= o.startPos ensures EndCount(h', t) == ObjCount(s[..k + 1], t) {
      EndCountPush(h, x, t);
      assert EndCount(h, t) == ObjCount(s[..k], t);
    }
  }

  /** An object of size zero takes part in nothing. */
  lemma ZeroStep(s: seq<AllocaObject>, k: nat, offsets: Offsets, free: seq<FreeBlock>, h: seq<ActiveBlock>, pool: nat)
    requires SortedByKey(s) && DistinctInsts(s) && k < |s| && s[k].sizeWords == 0
    requires Placing(s, k, offsets, free, h, pool, s[k].startPos)
    ensures Placing(s, k + 1, offsets[s[k].inst := 0], free, h, pool, s[k].startPos)
  {
    hide Blocks, UniformOk;
    SafeStep(s, k, offsets, h, pool, 0, pool);
    var offsets' := offsets[s[k].inst := 0];
    hide Safe;
    assert s[..k + 1][..k] == s[..k];
    var p := s[..k + 1];
    forall i | 0 <= i < |p| && p[i].sizeWords > 0 && p[i].endPos >= s[k].startPos
      ensures OnHeap(offsets', h, p[i])
    {
      assert i < k && OnHeap(offsets, h, s[..k][i]) && s[i].inst != s[k].inst;
    }
    forall t | t >= s[k].startPos ensures EndCount(h, t) == ObjCount(s[..k + 1], t) {
      assert EndCount(h, t) == ObjCount(s[..k], t);
    }
  }

  /** Taking words from a free block, or from the end of the pool. */
  lemma PlaceStep(s: seq<AllocaObject>, k: nat, offsets: Offsets, free: seq<FreeBlock>, h: seq<ActiveBlock>, pool: nat,
                  offset: nat, free': seq<FreeBlock>, pool': nat)
    requires SortedByKey(s) && DistinctInsts(s) && k < |s| && s[k].sizeWords > 0
    requires Placing(s, k, offsets, free, h, pool, s[k].startPos)
    requires pool' == pool || (offset == pool && pool' == pool + s[k].sizeWords)
    requires offset + s[k].sizeWords <= pool'
    requires offset == pool || exists i :: 0 <= i < |free| && free[i].offsetWords == offset && s[k].sizeWords <= free[i].sizeWords
    requires var h' := PushHeap(h, ActiveBlock(s[k].endPos, offset, s[k].sizeWords));
             Blocks(free', h', pool') && Positive(free', h') && forall z :: UniformOk(s, free', h', pool', z)
    ensures var h' := PushHeap(h, ActiveBlock(s[k].endPos, offset, s[k].sizeWords));
            Placing(s, k + 1, offsets[s[k].inst := offset], free', h', pool', s[k].startPos)
  {
    hide UniformOk, Tracked, Counted, Safe, Partition;
    forall x | x in h && x.sizeWords > 0 ensures Apart(offset, s[k].sizeWords, x.offsetWords, x.sizeWords) {
      FreeIsApart(free, h, pool, offset, s[k].sizeWords, x);
    }
    SafeStep(s, k, offsets, h, pool, offset, pool');
    TrackedStep(s, k, offsets, h, offset);
    assert s[..k + 1][..k] == s[..k];
  }

  // ----- optimality

  lemma {:induction false} LiveCountPrefix(s: seq<AllocaObject>, k: nat, t: nat)
    requires k <= |s|
    ensures LiveCount(s[..k], t) <= LiveCount(s, t)
    decreases |s|
  {
    if k < |s| {
      LiveCountPrefix(s[..|s| - 1], k, t);
      assert s[..|s| - 1][..k] == s[..k];
    } else {
      assert s[..k] == s;
    }
  }

  lemma {:induction false} ObjsAreLive(s: seq<AllocaObject>, k: nat, t: nat)
    requires k <= |s| && forall i :: 0 <= i < k ==> s[i].startPos <= t
    ensures ObjCount(s[..k], t) == LiveCount(s[..k], t)
    decreases k
  {
    if k > 0 {
      assert s[..k][..k - 1] == s[..k - 1];
      ObjsAreLive(s, k - 1, t);
    }
  }

  lemma {:induction false} AllAtEnd(h: seq<ActiveBlock>, t: nat, z: nat)
    requires forall x :: x in h ==> x.endPos >= t && x.sizeWords == z
    ensures EndCount(h, t) == |h| && ActiveWords(h) == z * |h|
    decreases |h|
  {
    if |h| > 0 {
      AllAtEnd(h[1..], t, z);
      assert z * |h| == z + z * (|h| - 1);
    }
  }

  /** With one block size the pool only grows when every block is active and
      belongs to an object live at the new one's start. */
  lemma GrowAtPeak(s: seq<AllocaObject>, k: nat, offsets: Offsets, free: seq<FreeBlock>, h: seq<ActiveBlock>, pool: nat, z: nat)
    requires SortedByKey(s) && k < |s| && s[k].sizeWords > 0
    requires Placing(s, k, offsets, free, h, pool, s[k].startPos)
    requires forall x :: x in h ==> x.endPos >= s[k].startPos
    requires forall i :: 0 <= i < |free| ==> free[i].sizeWords < s[k].sizeWords
    ensures UniformOk(s, free, PushHeap(h, ActiveBlock(s[k].endPos, pool, s[k].sizeWords)), pool + s[k].sizeWords, z)
  {
    if Intervals(s) && UniformSize(s, z) {
      hide Blocks, Safe, Tracked, Counted, Intervals, UniformSize, LiveCount;
      assert UniformOk(s, free, h, pool, z);
      var o := s[k];
      LiveAtGrowth(s, k, offsets, free, h, pool, z);
      MulMono(z, |h| + 1, LiveCount(s, o.startPos));
      assert pool + z == z * (|h| + 1);
      PlacingParts(s, k, offsets, free, h, pool, o.startPos);
      assert PeakAt(s, z, pool + z);
    }
  }

  lemma LiveAtGrowth(s: seq<AllocaObject>, k: nat, offsets: Offsets, free: seq<FreeBlock>, h: seq<ActiveBlock>, pool: nat, z: nat)
    requires SortedByKey(s) && Intervals(s) && UniformSize(s, z) && k < |s| && s[k].sizeWords > 0
    requires Placing(s, k, offsets, free, h, pool, s[k].startPos) && AllOfSize(free, h, z)
    requires forall x :: x in h ==> x.endPos >= s[k].startPos
    requires forall i :: 0 <= i < |free| ==> free[i].sizeWords < s[k].sizeWords
    ensures s[k].sizeWords == z && |free| == 0 && pool == z * |h|
    ensures |h| + 1 <= LiveCount(s, s[k].startPos)
  {
    hide Partition, Safe, Tracked, UniformOk;
    var o := s[k];
    AllAtEnd(h, o.startPos, z);
    assert EndCount(h, o.startPos) == ObjCount(s[..k], o.startPos);
    assert forall i :: 0 <= i < k ==> KeyLe(s[i], s[k]);
    ObjsAreLive(s, k, o.startPos);
    assert s[..k + 1][..k] == s[..k];
    LiveCountPrefix(s, k + 1, o.startPos);
  }

  lemma MulMono(z: nat, a: nat, b: nat)
    requires a <= b
    ensures z * a <= z * b
  {
  }

  lemma UniformTake(s: seq<AllocaObject>, k: nat, free: seq<FreeBlock>, h: seq<ActiveBlock>, pool: nat, i: nat, z: nat)
    requires k < |s| && i < |free| && Heap(h) && UniformOk(s, free, h, pool, z) && s[k].sizeWords > 0
    requires free[i].sizeWords == s[k].sizeWords
    ensures UniformOk(s, SwapRemove(free, i), PushHeap(h, ActiveBlock(s[k].endPos, free[i].offsetWords, s[k].sizeWords)), pool, z)
  {
  }

  /** With one block size no block is ever split. */
  lemma UniformSplit(s: seq<AllocaObject>, k: nat, free: seq<FreeBlock>, h: seq<ActiveBlock>, pool: nat, i: nat, z: nat, free': seq<FreeBlock>, h': seq<ActiveBlock>)
    requires k < |s| && i < |free| && UniformOk(s, free, h, pool, z) && s[k].sizeWords > 0
    requires free[i].sizeWords > s[k].sizeWords
    ensures UniformOk(s, free', h', pool, z)
  {
  }

  ghost function Words(s: seq<AllocaObject>, offsets: Offsets, t: nat): set<int>
    requires forall i :: 0 <= i < |s| ==> s[i].inst in offsets
  {
    if |s| == 0 then {} else
      var o := s[|s| - 1];
      Words(s[..|s| - 1], offsets, t) + (if Live(o, t) then Range(offsets[o.inst], o.sizeWords) else {})
  }

  ghost function Range(offset: nat, size: nat): (r: set<int>)
    ensures forall w :: w in r <==> offset <= w < offset + size
  {
    if size == 0 then {} else Range(offset, size - 1) + {offset + size - 1}
  }

  lemma {:induction false} RangeSize(offset: nat, size: nat)
    ensures |Range(offset, size)| == size
    decreases size
  {
    if size > 0 {
      RangeSize(offset, size - 1);
    }
  }

  lemma {:induction false} WordsAre(s: seq<AllocaObject>, offsets: Offsets, t: nat, w: int)
    requires forall i :: 0 <= i < |s| ==> s[i].inst in offsets
    ensures w in Words(s, offsets, t) <==>
            exists i :: 0 <= i < |s| && Live(s[i], t) && Holds(offsets[s[i].inst], s[i].sizeWords, w)
    decreases |s|
  {
    if |s| > 0 {
      var n := |s| - 1;
      WordsAre(s[..n], offsets, t, w);
      if exists i :: 0 <= i < |s| && Live(s[i], t) && Holds(offsets[s[i].inst], s[i].sizeWords, w) {
        var i :| 0 <= i < |s| && Live(s[i], t) && Holds(offsets[s[i].inst], s[i].sizeWords, w);
        if i < n { assert s[..n][i] == s[i]; }
      }
    }
  }

  /** The live words are that many different words. */
  lemma {:induction false} WordsCounted(s: seq<AllocaObject>, offsets: Offsets, pool: nat, t: nat)
    requires Safe(s, offsets, pool)
    ensures forall i :: 0 <= i < |s| ==> s[i].inst in offsets
    ensures |Words(s, offsets, t)| == LiveWords(s, t)
    decreases |s|
  {
    forall i | 0 <= i < |s| ensures s[i].inst in offsets { assert PlacedInPool(offsets, pool, s[i]); }
    hide PairSafe, PlacedInPool;
    if |s| > 0 {
      var n := |s| - 1;
      var o := s[n];
      SafePrefix(s, offsets, pool);
      WordsCounted(s[..n], offsets, pool, t);
      RangeSize(offsets[o.inst], o.sizeWords);
      if Live(o, t) {
        var before, range := Words(s[..n], offsets, t), Range(offsets[o.inst], o.sizeWords);
        forall w | w in before ensures w !in range {
          LiveWordsApart(s, offsets, pool, t, w);
        }
        assert before * range == {};
        assert |before + range| == |before| + |range|;
      }
    }
  }

  lemma LiveWordsApart(s: seq<AllocaObject>, offsets: Offsets, pool: nat, t: nat, w: int)
    requires |s| > 0 && Safe(s, offsets, pool) && Live(s[|s| - 1], t)
    requires forall i :: 0 <= i < |s| ==> s[i].inst in offsets
    requires w in Words(s[..|s| - 1], offsets, t)
    ensures w !in Range(offsets[s[|s| - 1].inst], s[|s| - 1].sizeWords)
  {
    var n := |s| - 1;
    WordsAre(s[..n], offsets, t, w);
    var i :| 0 <= i < n && Live(s[..n][i], t) && Holds(offsets[s[..n][i].inst], s[..n][i].sizeWords, w);
    assert PairSafe(offsets, s[i], s[n]);
    assert Live(s[i], t) && Live(s[n], t);
  }

  lemma SafePrefix(s: seq<AllocaObject>, offsets: Offsets, pool: nat)
    requires Safe(s, offsets, pool) && |s| > 0
    ensures Safe(s[..|s| - 1], offsets, pool)
  {
    var p := s[..|s| - 1];
    forall i | 0 <= i < |p| ensures PlacedInPool(offsets, pool, p[i]) { assert PlacedInPool(offsets, pool, s[i]); }
    forall i, j | 0 <= i < j < |p| ensures PairSafe(offsets, p[i], p[j]) { assert PairSafe(offsets, s[i], s[j]); }
  }

  /** No placement can use a smaller pool than the words live at one position. */
  lemma PeakFits(s: seq<AllocaObject>, offsets: Offsets, pool: nat, t: nat)
    requires Safe(s, offsets, pool)
    ensures LiveWords(s, t) <= pool
  {
    WordsCounted(s, offsets, pool, t);
    forall w | w in Words(s, offsets, t) ensures w in Range(0, pool) {
      WordsAre(s, offsets, t, w);
      var i :| 0 <= i < |s| && Live(s[i], t) && Holds(offsets[s[i].inst], s[i].sizeWords, w);
      assert PlacedInPool(offsets, pool, s[i]);
    }
    RangeSize(0, pool);
    WordSetSize(Words(s, offsets, t), Range(0, pool));
  }

  lemma WordSetSize(a: set<int>, b: set<int>)
    requires a <= b
    ensures |a| <= |b|
  {
    assert a + (b - a) == b;
    assert |b| == |a| + |b - a|;
  }

  lemma {:induction false} UniformWords(s: seq<AllocaObject>, z: nat, t: nat)
    requires UniformSize(s, z)
    ensures LiveWords(s, t) == z * LiveCount(s, t)
    decreases |s|
  {
    if |s| > 0 {
      assert UniformSize(s[..|s| - 1], z);
      UniformWords(s[..|s| - 1], z, t);
      var c := LiveCount(s[..|s| - 1], t);
      assert z * (c + 1) == z * c + z;
    }
  }

  ghost predicate AtLeastPeak(s: seq<AllocaObject>, pool: nat) {
    forall t :: LiveWords(s, t) <= pool
  }

  /** The pool is the block size times the largest number of objects live together. */
  ghost predicate UniformExact(s: seq<AllocaObject>, z: nat, pool: nat) {
    && (forall t :: z * LiveCount(s, t) <= pool)
    && (pool == 0 || exists t :: pool == z * LiveCount(s, t))
  }

  /** With one nonzero size the pool is exactly as large as it has to be. */
  lemma UniformOptimal(s: seq<AllocaObject>, offsets: Offsets, pool: nat, z: nat)
    requires Safe(s, offsets, pool) && UniformSize(s, z) && PeakAt(s, z, pool)
    ensures UniformExact(s, z, pool)
  {
    forall t ensures z * LiveCount(s, t) <= pool {
      UniformWords(s, z, t);
      PeakFits(s, offsets, pool, t);
    }
    if pool != 0 {
      var t :| pool <= z * LiveCount(s, t);
      assert z * LiveCount(s, t) <= pool;
    }
  }

  // ----- the algorithm

  predicate Fits(free: seq<FreeBlock>, i: nat, size: nat)
    requires i < |free|
  {
    free[i].sizeWords >= size
  }

  /** The first smallest free block that is large enough. */
  ghost predicate Best(free: seq<FreeBlock>, b: nat, size: nat) {
    && b < |free| && Fits(free, b, size)
    && forall i :: 0 <= i < |free| && Fits(free, i, size) ==>
         free[b].sizeWords < free[i].sizeWords || (free[b].sizeWords == free[i].sizeWords && b <= i)
  }

  /** The first smallest free block that is large enough, if there is one. */
  method BestFit(free: seq<FreeBlock>, size: nat) returns (best: Option<nat>)
    ensures best.None? ==> forall i :: 0 <= i < |free| ==> !Fits(free, i, size)
    ensures best.Some? ==> Best(free, best.value, size)
  {
    best := None;
    var idx := 0;
    while idx < |free|
      invariant 0 <= idx <= |free|
      invariant best.None? ==> forall i :: 0 <= i < idx ==> !Fits(free, i, size)
      invariant best.Some? ==> best.value < idx && Fits(free, best.value, size)
      invariant best.Some? ==> forall i :: 0 <= i < idx && Fits(free, i, size) ==>
                  free[best.value].sizeWords < free[i].sizeWords || (free[best.value].sizeWords == free[i].sizeWords && best.value <= i)
    {
      if free[idx].sizeWords >= size {
        if best.None? || free[best.value].sizeWords > free[idx].sizeWords {
          best := Some(idx);
        }
      }
      idx := idx + 1;
    }
  }

  method SortInPlace(objects: array<AllocaObject>)
    modifies objects
    ensures objects[..] == Sorted(old(objects[..]))
  {
    var sorted := Sorted(objects[..]);
    var i := 0;
    while i < objects.Length
      invariant 0 <= i <= objects.Length && objects[..i] == sorted[..i]
    {
      objects[i] := sorted[i];
      i := i + 1;
    }
    assert objects[..] == objects[..i];
  }

  /** Frees the blocks whose objects ended before `thr`. */
  method ExpireBefore(thr: nat, free0: seq<FreeBlock>, heap0: seq<ActiveBlock>, ghost s: seq<AllocaObject>, ghost k: nat, ghost offsets: Offsets, ghost pool: nat)
    returns (free: seq<FreeBlock>, heap: seq<ActiveBlock>)
    requires k <= |s| && Placing(s, k, offsets, free0, heap0, pool, thr) && Ranges(s, k, offsets, free0, heap0, pool)
    ensures Placing(s, k, offsets, free, heap, pool, thr) && Ranges(s, k, offsets, free, heap, pool)
    ensures forall x :: x in heap ==> x.endPos >= thr
  {
    hide Placing, Ranges;
    free, heap := free0, heap0;
    while |heap| > 0 && heap[0].endPos < thr
      invariant Placing(s, k, offsets, free, heap, pool, thr) && Ranges(s, k, offsets, free, heap, pool)
      decreases |heap|
    {
      ExpireRanges(s, k, offsets, free, heap, pool);
      ExpireStep(s, k, offsets, free, heap, pool, thr);
      free := free + [FreeBlock(heap[0].offsetWords, heap[0].sizeWords)];
      heap := heap[1..];
    }
    HeapEnds(s, k, offsets, free, heap, pool, thr);
  }

  lemma HeapEnds(s: seq<AllocaObject>, k: nat, offsets: Offsets, free: seq<FreeBlock>, h: seq<ActiveBlock>, pool: nat, thr: nat)
    requires k <= |s| && Placing(s, k, offsets, free, h, pool, thr)
    requires |h| > 0 ==> h[0].endPos >= thr
    ensures forall x :: x in h ==> x.endPos >= thr
  {
    hide Safe, Tracked, Counted, Partition, UniformOk;
    assert forall i :: 0 < i < |h| ==> TupleLe(h[0], h[i]);
  }

  /** Finds room for object `k`, in the best fitting free block or else at the
      end of the pool; nothing if the pool would outgrow 32 bits. */
  method Place(s: seq<AllocaObject>, k: nat, free0: seq<FreeBlock>, heap0: seq<ActiveBlock>, pool0: nat, ghost offsets: Offsets)
    returns (r: Option<nat>, free: seq<FreeBlock>, heap: seq<ActiveBlock>, pool: nat)
    requires SortedByKey(s) && DistinctInsts(s) && k < |s| && s[k].sizeWords > 0
    requires Placing(s, k, offsets, free0, heap0, pool0, s[k].startPos)
    requires Ranges(s, k, offsets, free0, heap0, pool0)
    requires forall x :: x in heap0 ==> x.endPos >= s[k].startPos
    ensures r.Some? ==> Placed(free0, s[k].sizeWords, pool0, r.value, pool)
    ensures r.Some? ==> Placing(s, k + 1, offsets[s[k].inst := r.value], free, heap, pool, s[k].startPos)
    ensures r.Some? ==> Ranges(s, k + 1, offsets[s[k].inst := r.value], free, heap, pool)
    ensures r.Some? && pool0 <= U32_MAX ==> pool <= U32_MAX
    ensures r.None? ==> pool0 + s[k].sizeWords > U32_MAX && forall i :: 0 <= i < |free0| ==> !Fits(free0, i, s[k].sizeWords)
  {
    hide Placing, UniformOk, Positive, Blocks, Ranges;
    var o := s[k];
    free, heap, pool := free0, heap0, pool0;
    PlacingParts(s, k, offsets, free0, heap0, pool0, o.startPos);
    var best := BestFit(free, o.sizeWords);
    var offset;
    if best.Some? {
      var i := best.value;
      var block := free[i];
      offset := block.offsetWords;
      ghost var h' := PushHeap(heap0, ActiveBlock(o.endPos, offset, o.sizeWords));
      FreeInPool(free0, heap0, pool0, i);
      if block.sizeWords == o.sizeWords {
        TakeWhole(free0, heap0, pool0, i, o.endPos);
        free := SwapRemove(free, i);
        SwapRemoved(free0, i);
        PositiveTake(free0, heap0, i, ActiveBlock(o.endPos, offset, o.sizeWords));
        forall z ensures UniformOk(s, free, h', pool, z) { UniformTake(s, k, free0, heap0, pool0, i, z); }
      } else {
        TakeFront(free0, heap0, pool0, i, o.endPos, o.sizeWords);
        free := free[i := FreeBlock(block.offsetWords + o.sizeWords, block.sizeWords - o.sizeWords)];
        PositiveSplit(free0, heap0, i, free[i], ActiveBlock(o.endPos, offset, o.sizeWords));
        SplitKeeps(free0, i, free[i]);
        forall z ensures UniformOk(s, free, h', pool, z) { UniformSplit(s, k, free0, heap0, pool0, i, z, free, h'); }
      }
    } else {
      if pool + o.sizeWords > U32_MAX { return None, free, heap, pool; }
      offset := pool;
      forall i | 0 <= i < |free0| ensures free0[i].sizeWords < o.sizeWords { assert !Fits(free0, i, o.sizeWords); }
      Grow(free0, heap0, pool0, o.endPos, o.sizeWords);
      pool := pool + o.sizeWords;
      PositiveGrow(free0, heap0, ActiveBlock(o.endPos, offset, o.sizeWords));
      forall z ensures UniformOk(s, free, PushHeap(heap0, ActiveBlock(o.endPos, offset, o.sizeWords)), pool, z) {
        GrowAtPeak(s, k, offsets, free0, heap0, pool0, z);
      }
    }
    PlaceStep(s, k, offsets, free0, heap0, pool0, offset, free, pool);
    heap := PushHeap(heap, ActiveBlock(o.endPos, offset, o.sizeWords));
    RangesStep(s, k, offsets, free0, heap0, pool0, offset, free, heap, pool);
    r := Some(offset);
  }

  lemma PlacingParts(s: seq<AllocaObject>, k: nat, offsets: Offsets, free: seq<FreeBlock>, h: seq<ActiveBlock>, pool: nat, thr: nat)
    requires k <= |s| && Placing(s, k, offsets, free, h, pool, thr)
    ensures Blocks(free, h, pool) && Positive(free, h) && Heap(h)
    ensures forall i :: 0 <= i < |free| ==> free[i].sizeWords > 0
    ensures forall z {:trigger UniformOk(s, free, h, pool, z)} :: UniformOk(s, free, h, pool, z)
    ensures Safe(s[..k], offsets, pool) && pool <= TotalWords(s[..k])
  {
  }

  lemma SplitKeeps(free: seq<FreeBlock>, i: nat, b: FreeBlock)
    requires i < |free|
    ensures forall c :: c in free ==> c in free[i := b] || c == free[i]
    ensures forall c :: c in free[i := b] ==> c in free || c == b
  {
    forall c | c in free ensures c in free[i := b] || c == free[i] {
      var j :| 0 <= j < |free| && free[j] == c;
      assert j != i ==> free[i := b][j] == c;
    }
  }

  lemma ZeroIsThrifty(s: seq<AllocaObject>, offsets: Offsets, k: nat)
    requires k < |s| && s[k].sizeWords == 0
    ensures Thrifty(s, offsets, k)
  {
  }

  lemma PositiveTake(free: seq<FreeBlock>, h: seq<ActiveBlock>, i: nat, x: ActiveBlock)
    requires Positive(free, h) && i < |free| && Heap(h) && x.sizeWords > 0
    ensures Positive(SwapRemove(free, i), PushHeap(h, x))
  {
  }

  lemma PositiveSplit(free: seq<FreeBlock>, h: seq<ActiveBlock>, i: nat, b: FreeBlock, x: ActiveBlock)
    requires Positive(free, h) && i < |free| && Heap(h) && x.sizeWords > 0 && b.sizeWords > 0
    ensures Positive(free[i := b], PushHeap(h, x))
  {
  }

  lemma PositiveGrow(free: seq<FreeBlock>, h: seq<ActiveBlock>, x: ActiveBlock)
    requires Positive(free, h) && Heap(h) && x.sizeWords > 0
    ensures Positive(free, PushHeap(h, x))
  {
  }

  lemma SwapRemoved(free: seq<FreeBlock>, i: nat)
    requires i < |free|
    ensures forall b :: b in free ==> b in SwapRemove(free, i) || b == free[i]
    ensures forall b :: b in SwapRemove(free, i) ==> b in free
  {
    var r := SwapRemove(free, i);
    forall b | b in free ensures b in r || b == free[i] {
      var j :| 0 <= j < |free| && free[j] == b;
      assert j < |free| - 1 && j != i ==> r[j] == b;
      assert j == |free| - 1 && j != i ==> r[i] == b;
    }
  }

  /** Sorts the objects and places them; nothing if the pool outgrows 32 bits. */
  method ColorAllocas(objects: array<AllocaObject>) returns (r: Option<(Offsets, nat)>)
    requires DistinctInsts(objects[..])
    modifies objects
    ensures SortedByKey(objects[..]) && multiset(objects[..]) == multiset(old(objects[..]))
    ensures r.Some? ==> Safe(objects[..], r.value.0, r.value.1)
    ensures r.Some? ==> AtLeastPeak(objects[..], r.value.1)
    ensures r.Some? && Intervals(objects[..]) ==>
              forall z :: UniformSize(objects[..], z) ==> UniformExact(objects[..], z, r.value.1)
    ensures r.Some? ==> r.value.1 <= U32_MAX && AllThrifty(objects[..], objects.Length, r.value.0)
    ensures r.None? ==> TotalWords(objects[..]) > U32_MAX
  {
    hide Placing, Sorted, Safe, UniformExact, Intervals, UniformSize, LiveWords, LiveCount, Ranges, Thrifty, Placed, DistinctInsts, Blocks, Positive;
    ghost var before := objects[..];
    SortInPlace(objects);
    var s := objects[..];
    SortedDistinct(before);
    SortedPermutes(before);
    var offsets: Offsets := map[];
    var heap: seq<ActiveBlock> := [];
    var free: seq<FreeBlock> := [];
    var pool: nat := 0;
    ghost var thr: nat := 0;
    StartPlacing(s);
    assert Ranges(s, 0, offsets, free, heap, pool) by { StartRanges(s); }
    var k := 0;
    while k < |s|
      invariant 0 <= k <= |s| && objects[..] == s
      invariant Placing(s, k, offsets, free, heap, pool, thr) && Ranges(s, k, offsets, free, heap, pool)
      invariant pool <= U32_MAX && AllThrifty(s, k, offsets)
      invariant k < |s| ==> thr <= s[k].startPos
    {
      var obj := s[k];
      RaiseThreshold(s, k, offsets, free, heap, pool, thr, obj.startPos);
      free, heap := ExpireBefore(obj.startPos, free, heap, s, k, offsets, pool);
      thr := obj.startPos;
      if obj.sizeWords == 0 {
        ZeroStep(s, k, offsets, free, heap, pool);
        RangesStep(s, k, offsets, free, heap, pool, 0, free, heap, pool);
        ZeroIsThrifty(s, offsets[obj.inst := 0], k);
        AllThriftyStay(s, k, offsets, 0);
        offsets := offsets[obj.inst := 0];
      } else {
        ghost var pool0, free0, heap0 := pool, free, heap;
        PlacingParts(s, k, offsets, free, heap, pool, thr);
        var offset;
        offset, free, heap, pool := Place(s, k, free, heap, pool, offsets);
        if offset.None? {
          PartialTotal(s, k);
          return None;
        }
        ThriftyNow(s, k, offsets, free0, heap0, pool0, offset.value, pool);
        AllThriftyStay(s, k, offsets, offset.value);
        offsets := offsets[obj.inst := offset.value];
      }
      assert k + 1 < |s| ==> KeyLe(s[k], s[k + 1]);
      k := k + 1;
    }
    assert s[..k] == s;
    PlacingParts(s, k, offsets, free, heap, pool, thr);
    forall t ensures LiveWords(s, t) <= pool { PeakFits(s, offsets, pool, t); }
    forall z | Intervals(s) && UniformSize(s, z) ensures UniformExact(s, z, pool) {
      assert UniformOk(s, free, heap, pool, z);
      UniformOptimal(s, offsets, pool, z);
    }
    r := Some((offsets, pool));
  }

  /** The sort has one result only: objects with different instructions never tie. */
  lemma {:induction false} SortedIsUnique(s: seq<AllocaObject>, t: seq<AllocaObject>)
    requires SortedByKey(s) && SortedByKey(t) && multiset(s) == multiset(t) && DistinctInsts(s)
    ensures s == t
    decreases |s|
  {
    hide KeyLe, SortedByKey, DistinctInsts;
    assert |s| == |multiset(s)| == |multiset(t)| == |t|;
    if s != [] {
      var (x, y) := (s[0], t[0]);
      assert y in multiset(s) && x in multiset(t);
      FirstIsLeast(s, y);
      FirstIsLeast(t, x);
      var block := ActiveBlock(0, 0, 0);
      KeysAreOrders(x, y, x, block, block, block);
      assert x == y by { SameInst(s, x, y); }
      SameRest(s, t);
      RestSorted(s);
      RestSorted(t);
      SortedIsUnique(s[1..], t[1..]);
    }
  }

  lemma SameRest(s: seq<AllocaObject>, t: seq<AllocaObject>)
    requires s != [] && t != [] && s[0] == t[0] && multiset(s) == multiset(t)
    ensures multiset(s[1..]) == multiset(t[1..])
  {
    assert s == [s[0]] + s[1..] && t == [s[0]] + t[1..];
    assert multiset(s[1..]) == multiset(s) - multiset{s[0]} && multiset(t[1..]) == multiset(t) - multiset{s[0]};
  }

  lemma FirstIsLeast(s: seq<AllocaObject>, y: AllocaObject)
    requires SortedByKey(s) && y in s
    ensures KeyLe(s[0], y)
  {
  }

  lemma SameInst(s: seq<AllocaObject>, x: AllocaObject, y: AllocaObject)
    requires DistinctInsts(s) && x in s && y in s && x.inst == y.inst
    ensures x == y
  {
  }

  lemma RestSorted(s: seq<AllocaObject>)
    requires s != [] && SortedByKey(s)
    ensures SortedByKey(s[1..]) && (DistinctInsts(s) ==> DistinctInsts(s[1..]))
  {
  }

  lemma {:induction false} PartialTotal(s: seq<AllocaObject>, k: nat)
    requires k < |s|
    ensures TotalWords(s[..k]) + s[k].sizeWords <= TotalWords(s)
    decreases |s|
  {
    var n := |s| - 1;
    if k < n {
      PartialTotal(s[..n], k);
      assert s[..n][..k] == s[..k];
    }
  }

  lemma {:induction false} InsertDistinct(s: seq<AllocaObject>, x: AllocaObject)
    requires SortedByKey(s) && DistinctInsts(s) && forall i :: 0 <= i < |s| ==> s[i].inst != x.inst
    ensures DistinctInsts(Insert(s, x))
    decreases |s|
  {
    if |s| > 0 && !KeyLe(s[|s| - 1], x) {
      var k := |s| - 1;
      var r := Insert(s[..k], x);
      InsertDistinct(s[..k], x);
      forall i | 0 <= i < |r| ensures r[i].inst != s[k].inst {
        assert r[i] in r;
      }
    }
  }

  lemma {:induction false} SortedDistinct(s: seq<AllocaObject>)
    requires DistinctInsts(s)
    ensures DistinctInsts(Sorted(s)) && SortedByKey(Sorted(s))
    decreases |s|
  {
    if |s| > 0 {
      var k := |s| - 1;
      var r := Sorted(s[..k]);
      SortedDistinct(s[..k]);
      forall i | 0 <= i < |r| ensures r[i].inst != s[k].inst {
        assert r[i] in r;
      }
      InsertDistinct(r, s[k]);
    }
  }
}
