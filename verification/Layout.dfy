/**
 The layout of a function (crates/ir/src/layout.rs): a doubly linked list of
 blocks and, in each block, a doubly linked list of instructions, all kept in
 tables indexed by block and by instruction.  Every operation is an insertion
 into or a removal from the sequence the lists stand for.
 */
module Layouts {
  import opened Options

  type BlockId = nat
  type InstId = nat

  /** The `prev` and `next` fields of a node. */
  datatype Links = Links(prev: Option<nat>, next: Option<nat>)

  /** The first and the last element of a list. */
  datatype Ends = Ends(first: Option<nat>, last: Option<nat>)

  const NO_LINKS := Links(None, None)
  const NO_ENDS := Ends(None, None)

  function LinksAt(m: map<nat, Links>, x: nat): Links { if x in m then m[x] else NO_LINKS }

  function EndsAt(m: map<nat, Ends>, x: nat): Ends { if x in m then m[x] else NO_ENDS }

  // ----- a list in a table of links

  function At(s: seq<nat>, k: int): Option<nat> { if 0 <= k < |s| then Some(s[k]) else None }

  function EndsOf(s: seq<nat>): Ends { Ends(At(s, 0), At(s, |s| - 1)) }

  predicate LinkedAt(m: map<nat, Links>, s: seq<nat>, k: int)
    requires 0 <= k < |s|
  {
    LinksAt(m, s[k]) == Links(At(s, k - 1), At(s, k + 1))
  }

  /** `m` and `ends` hold the list `s`. */
  ghost predicate Chained(m: map<nat, Links>, ends: Ends, s: seq<nat>) {
    && NoDup(s) && ends == EndsOf(s)
    && (forall k {:trigger LinkedAt(m, s, k)} :: 0 <= k < |s| ==> LinkedAt(m, s, k))
  }

  function SetNext(m: map<nat, Links>, x: Option<nat>, y: Option<nat>): map<nat, Links> {
    if x.Some? then m[x.value := Links(LinksAt(m, x.value).prev, y)] else m
  }

  function SetPrev(m: map<nat, Links>, x: Option<nat>, y: Option<nat>): map<nat, Links> {
    if x.Some? then m[x.value := Links(y, LinksAt(m, x.value).next)] else m
  }

  /** `x` between two neighbours. */
  function Spliced(m: map<nat, Links>, x: nat, prev: Option<nat>, next: Option<nat>): map<nat, Links> {
    SetPrev(SetNext(m, prev, Some(x)), next, Some(x))[x := Links(prev, next)]
  }

  /** `x` taken out from between its neighbours. */
  function Unspliced(m: map<nat, Links>, x: nat): map<nat, Links> {
    var l := LinksAt(m, x);
    SetPrev(SetNext(m, l.prev, l.next), l.next, l.prev)[x := NO_LINKS]
  }

  function Inserted(s: seq<nat>, k: nat, x: nat): seq<nat>
    requires k <= |s|
  {
    s[..k] + [x] + s[k..]
  }

  function Removed(s: seq<nat>, k: nat): seq<nat>
    requires k < |s|
  {
    s[..k] + s[k + 1..]
  }

  ghost predicate SameOutside(m: map<nat, Links>, n: map<nat, Links>, s: seq<nat>) {
    forall y {:trigger LinksAt(n, y)} :: y !in s ==> LinksAt(n, y) == LinksAt(m, y)
  }

  lemma ChainedAt(m: map<nat, Links>, ends: Ends, s: seq<nat>, k: nat)
    requires Chained(m, ends, s) && k < |s|
    ensures LinkedAt(m, s, k) && ends == EndsOf(s) && NoDup(s)
  {
  }

  lemma ChainedEnds(m: map<nat, Links>, ends: Ends, s: seq<nat>)
    requires Chained(m, ends, s)
    ensures ends == EndsOf(s)
  {
  }

  lemma SplicedLast(m: map<nat, Links>, x: nat, prev: Option<nat>)
    ensures Spliced(m, x, prev, None) == SetNext(m, prev, Some(x))[x := Links(prev, None)]
  {
  }

  lemma SplicedFirst(m: map<nat, Links>, x: nat, next: Option<nat>)
    ensures Spliced(m, x, None, next) == SetPrev(m, next, Some(x))[x := Links(None, next)]
  {
  }

  lemma RemovedLength(s: seq<nat>, k: nat)
    requires k < |s|
    ensures |Removed(s, k)| == |s| - 1
  {
  }

  lemma SplicedLinks(m: map<nat, Links>, s: seq<nat>, k: nat, x: nat, y: nat)
    requires NoDup(s) && k <= |s| && x !in s
    ensures var n := Spliced(m, x, At(s, k - 1), At(s, k));
      LinksAt(n, y) == if y == x then Links(At(s, k - 1), At(s, k))
                       else Links(if Some(y) == At(s, k) then Some(x) else LinksAt(m, y).prev,
                                  if Some(y) == At(s, k - 1) then Some(x) else LinksAt(m, y).next)
  {
  }

  /** The two neighbours can be told of `x` in either order. */
  lemma SetsCommute(m: map<nat, Links>, s: seq<nat>, k: nat, x: nat)
    requires NoDup(s) && k <= |s|
    ensures SetNext(SetPrev(m, At(s, k), Some(x)), At(s, k - 1), Some(x)) == SetPrev(SetNext(m, At(s, k - 1), Some(x)), At(s, k), Some(x))
  {
  }

  lemma SplicedChained(m: map<nat, Links>, ends: Ends, s: seq<nat>, k: nat, x: nat)
    requires Chained(m, ends, s) && k <= |s| && x !in s
    ensures var n := Spliced(m, x, At(s, k - 1), At(s, k));
      Chained(n, EndsOf(Inserted(s, k, x)), Inserted(s, k, x)) && SameOutside(m, n, Inserted(s, k, x))
  {
    hide Spliced;
    var t, n := Inserted(s, k, x), Spliced(m, x, At(s, k - 1), At(s, k));
    forall j | 0 <= j < |t| ensures LinkedAt(n, t, j) {
      SplicedLinks(m, s, k, x, t[j]);
      if j < k { assert LinkedAt(m, s, j); }
      if j > k { assert LinkedAt(m, s, j - 1); }
    }
    forall y | y !in t ensures LinksAt(n, y) == LinksAt(m, y) {
      SplicedLinks(m, s, k, x, y);
      assert forall j :: 0 <= j < |s| ==> s[j] == t[if j < k then j else j + 1];
    }
  }

  lemma UnsplicedLinks(m: map<nat, Links>, s: seq<nat>, k: nat, y: nat)
    requires NoDup(s) && k < |s| && LinkedAt(m, s, k)
    ensures var n := Unspliced(m, s[k]);
      LinksAt(n, y) == if y == s[k] then NO_LINKS
                       else Links(if Some(y) == At(s, k + 1) then At(s, k - 1) else LinksAt(m, y).prev,
                                  if Some(y) == At(s, k - 1) then At(s, k + 1) else LinksAt(m, y).next)
  {
  }

  lemma UnsplicedChained(m: map<nat, Links>, ends: Ends, s: seq<nat>, k: nat)
    requires Chained(m, ends, s) && k < |s|
    ensures var n := Unspliced(m, s[k]);
      && Chained(n, EndsOf(Removed(s, k)), Removed(s, k)) && SameOutside(m, n, s) && LinksAt(n, s[k]) == NO_LINKS
  {
    hide Unspliced;
    var t, n := Removed(s, k), Unspliced(m, s[k]);
    assert LinkedAt(m, s, k);
    UnsplicedLinks(m, s, k, s[k]);
    forall j | 0 <= j < |t| ensures LinkedAt(n, t, j) {
      UnsplicedLinks(m, s, k, t[j]);
      if j < k { assert LinkedAt(m, s, j); } else { assert LinkedAt(m, s, j + 1); }
    }
    forall y | y !in s ensures LinksAt(n, y) == LinksAt(m, y) { UnsplicedLinks(m, s, k, y); }
  }

  /** A list is untouched where its own links are. */
  lemma ChainedElsewhere(m: map<nat, Links>, n: map<nat, Links>, ends: Ends, s: seq<nat>, t: seq<nat>)
    requires Chained(m, ends, s) && SameOutside(m, n, t) && forall y :: y in s ==> y !in t
    ensures Chained(n, ends, s)
  {
    forall j | 0 <= j < |s| ensures LinkedAt(n, s, j) { assert LinkedAt(m, s, j) && s[j] !in t; }
  }

  function IndexOf(s: seq<nat>, x: nat): (k: nat)
    requires x in s
    ensures k < |s| && s[k] == x
  {
    if s[0] == x then 0 else 1 + IndexOf(s[1..], x)
  }

  // ----- the layout

  class Layout {
    var blockLinks: map<BlockId, Links>
    var blockEnds: map<BlockId, Ends>
    var instLinks: map<InstId, Links>
    var instBlock: map<InstId, BlockId>
    var entryBlock: Option<BlockId>
    var lastBlock: Option<BlockId>
    ghost var order: seq<BlockId>
    ghost var lists: map<BlockId, seq<InstId>>

    ghost predicate Valid()
      reads this
    {
      && Chained(blockLinks, Ends(entryBlock, lastBlock), order)
      && LayoutOk(order, lists, blockLinks, blockEnds, instLinks, instBlock)
    }

    constructor ()
      ensures Valid() && order == [] && lists == map[]
    {
      blockLinks, blockEnds, instLinks, instBlock := map[], map[], map[], map[];
      entryBlock, lastBlock := None, None;
      order, lists := [], map[];
    }

    method IsBlockInserted(block: BlockId) returns (r: bool)
      requires Valid()
      ensures r <==> block in order
    {
      r := entryBlock == Some(block) || LinksAt(blockLinks, block) != NO_LINKS || EndsAt(blockEnds, block) != NO_ENDS;
      if block in order {
        var k: nat :| k < |order| && order[k] == block;
        assert LinkedAt(blockLinks, order, k);
      }
    }

    method IsInstInserted(inst: InstId) returns (r: bool)
      requires Valid()
      ensures r <==> exists b :: Placed(lists, inst, b)
    {
      r := inst in instBlock || LinksAt(instLinks, inst) != NO_LINKS;
      if inst in instBlock { assert Placed(lists, inst, instBlock[inst]); }
    }

    /** `first_inst_of`, `last_inst_of`, `next_inst_of` and the rest, off the lists. */
    method Neighbours(inst: InstId) returns (block: BlockId, links: Links)
      requires Valid() && exists b :: Placed(lists, inst, b)
      ensures Placed(lists, inst, block)
      ensures var k := IndexOf(lists[block], inst); links == Links(At(lists[block], k - 1), At(lists[block], k + 1))
    {
      ghost var b :| Placed(lists, inst, b);
      block, links := instBlock[inst], LinksAt(instLinks, inst);
      assert ListOk(lists, blockEnds, instLinks, block);
      assert LinkedAt(instLinks, lists[block], IndexOf(lists[block], inst));
    }

    method EndsOfBlock(block: BlockId) returns (ends: Ends)
      requires Valid() && block in order
      ensures ends == EndsOf(lists[block])
    {
      ends := EndsAt(blockEnds, block);
      assert ListOk(lists, blockEnds, instLinks, block);
    }

    /** `iter_block`: the blocks met by following `next` from the entry. */
    method Blocks() returns (bs: seq<BlockId>)
      requires Valid()
      ensures bs == order
    {
      var next := entryBlock;
      bs := [];
      while next.Some?
        invariant |bs| <= |order| && bs == order[..|bs|] && next == At(order, |bs|)
        decreases |order| - |bs|
      {
        assert LinkedAt(blockLinks, order, |bs|);
        bs := bs + [next.value];
        next := LinksAt(blockLinks, next.value).next;
      }
    }

    /** `iter_inst`: the instructions met by following `next` from the first. */
    method InstsIn(block: BlockId) returns (insts: seq<InstId>)
      requires Valid() && block in order
      ensures insts == lists[block]
    {
      assert ListOk(lists, blockEnds, instLinks, block);
      var next := EndsAt(blockEnds, block).first;
      ghost var list := lists[block];
      insts := [];
      while next.Some?
        invariant |insts| <= |list| && insts == list[..|insts|] && next == At(list, |insts|)
        decreases |list| - |insts|
      {
        assert LinkedAt(instLinks, list, |insts|);
        insts := insts + [next.value];
        next := LinksAt(instLinks, next.value).next;
      }
    }

    // ----- blocks

    method AppendBlock(block: BlockId)
      requires Valid() && block !in order
      modifies this
      ensures Valid() && order == old(order) + [block] && lists == old(lists)[block := []]
    {
      hide ListsOk, InstsOk, SetNext, SetPrev, BlocksOk;
      ghost var k: nat := |order|;
      BlockInserted(order, lists, blockLinks, blockEnds, instLinks, instBlock, Ends(entryBlock, lastBlock), k, block);
      ghost var links := blockLinks;
      var prev := lastBlock;
      blockLinks := SetNext(blockLinks, prev, Some(block));
      if prev.None? { entryBlock := Some(block); }
      blockLinks, blockEnds := blockLinks[block := Links(prev, None)], blockEnds[block := NO_ENDS];
      lastBlock := Some(block);
      SplicedLast(links, block, At(order, k - 1));
      assert blockLinks == Spliced(links, block, At(order, k - 1), At(order, k));
      assert Inserted(order, k, block) == order + [block];
      order, lists := Inserted(order, k, block), lists[block := []];
    }

    method InsertBlockBefore(block: BlockId, before: BlockId)
      requires Valid() && block !in order && before in order
      modifies this
      ensures Valid() && order == Inserted(old(order), IndexOf(old(order), before), block) && lists == old(lists)[block := []]
    {
      hide ListsOk, InstsOk, IndexOf, SetNext, SetPrev, BlocksOk, Chained;
      ghost var k: nat := IndexOf(order, before);
      BlockInserted(order, lists, blockLinks, blockEnds, instLinks, instBlock, Ends(entryBlock, lastBlock), k, block);
      ChainedAt(blockLinks, Ends(entryBlock, lastBlock), order, k);
      ghost var links := blockLinks;
      var prev := LinksAt(blockLinks, before).prev;
      blockLinks := SetNext(blockLinks, prev, Some(block));
      if prev.None? { entryBlock := Some(block); }
      blockLinks := SetPrev(blockLinks, Some(before), Some(block));
      blockLinks, blockEnds := blockLinks[block := Links(prev, Some(before))], blockEnds[block := NO_ENDS];
      assert blockLinks == Spliced(links, block, At(order, k - 1), At(order, k));
      order, lists := Inserted(order, k, block), lists[block := []];
    }

    method InsertBlockAfter(block: BlockId, after: BlockId)
      requires Valid() && block !in order && after in order
      modifies this
      ensures Valid() && order == Inserted(old(order), IndexOf(old(order), after) + 1, block) && lists == old(lists)[block := []]
    {
      hide ListsOk, InstsOk, IndexOf, SetNext, SetPrev, BlocksOk, Chained;
      ghost var k: nat := IndexOf(order, after) + 1;
      BlockInserted(order, lists, blockLinks, blockEnds, instLinks, instBlock, Ends(entryBlock, lastBlock), k, block);
      ChainedAt(blockLinks, Ends(entryBlock, lastBlock), order, k - 1);
      ghost var links := blockLinks;
      var next := LinksAt(blockLinks, after).next;
      blockLinks := SetPrev(blockLinks, next, Some(block));
      if next.None? { lastBlock := Some(block); }
      blockLinks := SetNext(blockLinks, Some(after), Some(block));
      blockLinks, blockEnds := blockLinks[block := Links(Some(after), next)], blockEnds[block := NO_ENDS];
      SetsCommute(links, order, k, block);
      order, lists := Inserted(order, k, block), lists[block := []];
    }

    /** The callers empty the block first (crates/ir/src/func_cursor.rs:97-115). */
    method RemoveBlock(block: BlockId)
      requires Valid() && block in order && lists[block] == []
      modifies this
      ensures Valid() && order == Removed(old(order), IndexOf(old(order), block)) && lists == old(lists) - {block}
    {
      hide ListsOk, InstsOk, IndexOf, SetNext, SetPrev, BlocksOk, Chained;
      ghost var k: nat := IndexOf(order, block);
      BlockRemoved(order, lists, blockLinks, blockEnds, instLinks, instBlock, Ends(entryBlock, lastBlock), k);
      ChainedAt(blockLinks, Ends(entryBlock, lastBlock), order, k);
      ghost var before := blockLinks;
      var links := LinksAt(blockLinks, block);
      blockLinks := SetNext(blockLinks, links.prev, links.next);
      blockLinks := SetPrev(blockLinks, links.next, links.prev);
      if links.next.None? { lastBlock := links.prev; }
      if links.prev.None? { entryBlock := links.next; }
      blockLinks, blockEnds := blockLinks[block := NO_LINKS], blockEnds[block := NO_ENDS];
      assert blockLinks == Unspliced(before, block);
      order, lists := Removed(order, k), lists - {block};
    }

    // ----- instructions

    method AppendInst(inst: InstId, block: BlockId)
      requires Valid() && block in order && forall b :: !Placed(lists, inst, b)
      modifies this
      ensures Valid() && order == old(order) && lists == old(lists)[block := old(lists)[block] + [inst]]
    {
      hide InstsOk, ListsOk, BlocksOk, Chained, SetNext, SetPrev, LayoutOk;
      ListKnown(order, lists, blockLinks, blockEnds, instLinks, instBlock, block);
      ghost var (list, before, ends) := (lists[block], instLinks, blockEnds);
      ghost var k: nat := |list|;
      InstInserted(order, lists, blockLinks, blockEnds, instLinks, instBlock, block, k, inst);
      var last := EndsAt(blockEnds, block).last;
      instLinks := SetNext(instLinks, last, Some(inst));
      if last.None? { blockEnds := blockEnds[block := Ends(Some(inst), EndsAt(blockEnds, block).last)]; }
      blockEnds := blockEnds[block := Ends(EndsAt(blockEnds, block).first, Some(inst))];
      instLinks, instBlock := instLinks[inst := Links(last, None)], instBlock[inst := block];
      SplicedLast(before, inst, At(list, k - 1));
      assert instLinks == Spliced(before, inst, At(list, k - 1), At(list, k));
      assert Inserted(list, k, inst) == list + [inst];
      assert blockEnds == ends[block := EndsOf(Inserted(list, k, inst))];
      lists := lists[block := Inserted(list, k, inst)];
    }

    method PrependInst(inst: InstId, block: BlockId)
      requires Valid() && block in order && forall b :: !Placed(lists, inst, b)
      modifies this
      ensures Valid() && order == old(order) && lists == old(lists)[block := [inst] + old(lists)[block]]
    {
      hide InstsOk, ListsOk, BlocksOk, Chained, SetNext, SetPrev, LayoutOk;
      ListKnown(order, lists, blockLinks, blockEnds, instLinks, instBlock, block);
      ghost var (list, before, ends) := (lists[block], instLinks, blockEnds);
      InstInserted(order, lists, blockLinks, blockEnds, instLinks, instBlock, block, 0, inst);
      var first := EndsAt(blockEnds, block).first;
      instLinks := SetPrev(instLinks, first, Some(inst));
      if first.None? { blockEnds := blockEnds[block := Ends(EndsAt(blockEnds, block).first, Some(inst))]; }
      blockEnds := blockEnds[block := Ends(Some(inst), EndsAt(blockEnds, block).last)];
      instLinks, instBlock := instLinks[inst := Links(None, first)], instBlock[inst := block];
      SplicedFirst(before, inst, At(list, 0));
      assert instLinks == Spliced(before, inst, At(list, -1), At(list, 0));
      assert Inserted(list, 0, inst) == [inst] + list;
      assert blockEnds == ends[block := EndsOf(Inserted(list, 0, inst))];
      lists := lists[block := Inserted(list, 0, inst)];
    }

    method InsertInstBefore(inst: InstId, before: InstId, ghost block: BlockId)
      requires Valid() && Placed(lists, before, block) && forall b :: !Placed(lists, inst, b)
      modifies this
      ensures Valid() && order == old(order)
      ensures lists == old(lists)[block := Inserted(old(lists)[block], IndexOf(old(lists)[block], before), inst)]
    {
      hide InstsOk, ListsOk, BlocksOk, Chained, SetNext, SetPrev, IndexOf, LayoutOk;
      ghost var (list, links, ends) := (lists[block], instLinks, blockEnds);
      ghost var k: nat := IndexOf(list, before);
      InstInserted(order, lists, blockLinks, blockEnds, instLinks, instBlock, block, k, inst);
      InstHere(order, lists, blockLinks, blockEnds, instLinks, instBlock, block, k);
      var home, prev := instBlock[before], LinksAt(instLinks, before).prev;
      instLinks := SetNext(instLinks, prev, Some(inst));
      if prev.None? { blockEnds := blockEnds[home := Ends(Some(inst), EndsAt(blockEnds, home).last)]; }
      instLinks := SetPrev(instLinks, Some(before), Some(inst));
      instLinks, instBlock := instLinks[inst := Links(prev, Some(before))], instBlock[inst := home];
      assert blockEnds == ends[block := EndsOf(Inserted(list, k, inst))];
      lists := lists[block := Inserted(list, k, inst)];
    }

    method InsertInstAfter(inst: InstId, after: InstId, ghost block: BlockId)
      requires Valid() && Placed(lists, after, block) && forall b :: !Placed(lists, inst, b)
      modifies this
      ensures Valid() && order == old(order)
      ensures lists == old(lists)[block := Inserted(old(lists)[block], IndexOf(old(lists)[block], after) + 1, inst)]
    {
      hide InstsOk, ListsOk, BlocksOk, Chained, SetNext, SetPrev, IndexOf, LayoutOk;
      ghost var (list, links, ends) := (lists[block], instLinks, blockEnds);
      ghost var k: nat := IndexOf(list, after);
      InstInserted(order, lists, blockLinks, blockEnds, instLinks, instBlock, block, k + 1, inst);
      InstHere(order, lists, blockLinks, blockEnds, instLinks, instBlock, block, k);
      SetsCommute(links, list, k + 1, inst);
      var home, next := instBlock[after], LinksAt(instLinks, after).next;
      instLinks := SetPrev(instLinks, next, Some(inst));
      if next.None? { blockEnds := blockEnds[home := Ends(EndsAt(blockEnds, home).first, Some(inst))]; }
      instLinks := SetNext(instLinks, Some(after), Some(inst));
      instLinks, instBlock := instLinks[inst := Links(Some(after), next)], instBlock[inst := home];
      assert blockEnds == ends[block := EndsOf(Inserted(list, k + 1, inst))];
      lists := lists[block := Inserted(list, k + 1, inst)];
    }

    method RemoveInst(inst: InstId, ghost block: BlockId)
      requires Valid() && Placed(lists, inst, block)
      modifies this
      ensures Valid() && order == old(order)
      ensures lists == old(lists)[block := Removed(old(lists)[block], IndexOf(old(lists)[block], inst))]
    {
      hide InstsOk, ListsOk, BlocksOk, Chained, SetNext, SetPrev, IndexOf, LayoutOk;
      ghost var (list, ends) := (lists[block], blockEnds);
      ghost var k: nat := IndexOf(list, inst);
      InstRemoved(order, lists, blockLinks, blockEnds, instLinks, instBlock, block, k);
      InstHere(order, lists, blockLinks, blockEnds, instLinks, instBlock, block, k);
      var home, links := instBlock[inst], LinksAt(instLinks, inst);
      instLinks := SetNext(instLinks, links.prev, links.next);
      instLinks := SetPrev(instLinks, links.next, links.prev);
      if links.next.None? { blockEnds := blockEnds[home := Ends(EndsAt(blockEnds, home).first, links.prev)]; }
      if links.prev.None? { blockEnds := blockEnds[home := Ends(links.next, EndsAt(blockEnds, home).last)]; }
      instLinks, instBlock := instLinks[inst := NO_LINKS], instBlock - {inst};
      assert blockEnds == ends[block := EndsOf(Removed(list, k))];
      lists := lists[block := Removed(list, k)];
    }

    /** Emptying a block and then removing it, as the cursor does
        (crates/ir/src/func_cursor.rs:97-115). */
    method EraseBlock(block: BlockId)
      requires Valid() && block in order
      modifies this
      ensures Valid() && order == Removed(old(order), IndexOf(old(order), block)) && lists == old(lists) - {block}
    {
      hide InstsOk, ListsOk, BlocksOk, Chained, LayoutOk, Removed;
      ListKnown(order, lists, blockLinks, blockEnds, instLinks, instBlock, block);
      var ends := EndsOfBlock(block);
      while ends.first.Some?
        invariant Valid() && order == old(order) && block in lists && ends == EndsOf(lists[block])
        invariant lists == old(lists)[block := lists[block]]
        decreases |lists[block]|
      {
        assert Placed(lists, ends.first.value, block);
        ghost var before := lists;
        RemoveInst(ends.first.value, block);
        RemovedLength(before[block], IndexOf(before[block], ends.first.value));
        ends := EndsOfBlock(block);
      }
      RemoveBlock(block);
    }
  }

  ghost predicate BlocksOk(order: seq<BlockId>, lists: map<BlockId, seq<InstId>>, links: map<BlockId, Links>, ends: map<BlockId, Ends>) {
    && (forall b :: b in lists <==> b in order)
    && (forall b {:trigger LinksAt(links, b)} {:trigger EndsAt(ends, b)} :: b !in order ==> LinksAt(links, b) == NO_LINKS && EndsAt(ends, b) == NO_ENDS)
  }

  ghost predicate ListOk(lists: map<BlockId, seq<InstId>>, ends: map<BlockId, Ends>, links: map<InstId, Links>, b: BlockId)
    requires b in lists
  {
    Chained(links, EndsAt(ends, b), lists[b])
  }

  ghost predicate ListsOk(lists: map<BlockId, seq<InstId>>, ends: map<BlockId, Ends>, links: map<InstId, Links>) {
    forall b {:trigger ListOk(lists, ends, links, b)} :: b in lists ==> ListOk(lists, ends, links, b)
  }

  predicate Placed(lists: map<BlockId, seq<InstId>>, i: InstId, b: BlockId) {
    b in lists && i in lists[b]
  }

  /** The block recorded for an instruction is the one whose list has it. */
  ghost predicate InstsOk(lists: map<BlockId, seq<InstId>>, links: map<InstId, Links>, block: map<InstId, BlockId>) {
    && (forall i, b {:trigger Placed(lists, i, b)} :: Placed(lists, i, b) <==> i in block && block[i] == b)
    && (forall i {:trigger LinksAt(links, i)} :: i !in block ==> LinksAt(links, i) == NO_LINKS)
  }

  // ----- the block list

  lemma BlockInserted(order: seq<BlockId>, lists: map<BlockId, seq<InstId>>, links: map<BlockId, Links>, ends: map<BlockId, Ends>,
      instLinks: map<InstId, Links>, instBlock: map<InstId, BlockId>, e: Ends, k: nat, block: BlockId)
    requires Chained(links, e, order) && BlocksOk(order, lists, links, ends) && ListsOk(lists, ends, instLinks) && InstsOk(lists, instLinks, instBlock)
    requires block !in order && k <= |order|
    ensures var n := Spliced(links, block, At(order, k - 1), At(order, k)); var t := Inserted(order, k, block);
      && Chained(n, EndsOf(t), t) && BlocksOk(t, lists[block := []], n, ends[block := NO_ENDS])
    ensures ListsOk(lists[block := []], ends[block := NO_ENDS], instLinks) && InstsOk(lists[block := []], instLinks, instBlock)
  {
    hide Chained, Spliced, ListsOk, InstsOk;
    SplicedChained(links, e, order, k, block);
    InsertedMembers(order, k, block);
    EmptyListAdded(lists, ends, instLinks, instBlock, block);
  }

  lemma InsertedMembers(s: seq<nat>, k: nat, x: nat)
    requires k <= |s|
    ensures forall y :: y in Inserted(s, k, x) <==> y in s || y == x
  {
    assert s == s[..k] + s[k..];
  }

  lemma EmptyListAdded(lists: map<BlockId, seq<InstId>>, ends: map<BlockId, Ends>, instLinks: map<InstId, Links>, instBlock: map<InstId, BlockId>, block: BlockId)
    requires ListsOk(lists, ends, instLinks) && InstsOk(lists, instLinks, instBlock) && block !in lists
    ensures ListsOk(lists[block := []], ends[block := NO_ENDS], instLinks) && InstsOk(lists[block := []], instLinks, instBlock)
  {
    assert Chained(instLinks, NO_ENDS, []);
    hide Chained;
    var (w, d) := (lists[block := []], ends[block := NO_ENDS]);
    forall b: BlockId | b in w ensures ListOk(w, d, instLinks, b) {
      if b != block { assert ListOk(lists, ends, instLinks, b); }
    }
    forall i: InstId, b: BlockId ensures Placed(w, i, b) <==> i in instBlock && instBlock[i] == b {
      assert Placed(w, i, b) <==> Placed(lists, i, b);
    }
  }

  lemma BlockRemoved(order: seq<BlockId>, lists: map<BlockId, seq<InstId>>, links: map<BlockId, Links>, ends: map<BlockId, Ends>,
      instLinks: map<InstId, Links>, instBlock: map<InstId, BlockId>, e: Ends, k: nat)
    requires Chained(links, e, order) && BlocksOk(order, lists, links, ends) && ListsOk(lists, ends, instLinks) && InstsOk(lists, instLinks, instBlock)
    requires k < |order| && lists[order[k]] == []
    ensures var n := Unspliced(links, order[k]); var t := Removed(order, k);
      && Chained(n, EndsOf(t), t) && BlocksOk(t, lists - {order[k]}, n, ends[order[k] := NO_ENDS])
    ensures ListsOk(lists - {order[k]}, ends[order[k] := NO_ENDS], instLinks) && InstsOk(lists - {order[k]}, instLinks, instBlock)
  {
    UnsplicedChained(links, e, order, k);
    var (t, w, d) := (Removed(order, k), lists - {order[k]}, ends[order[k] := NO_ENDS]);
    assert forall b :: b in t <==> b in order && b != order[k] by { RemovedMembers(order, k); }
    hide Chained, Unspliced;
    forall b: BlockId | b in w ensures ListOk(w, d, instLinks, b) {
      assert ListOk(lists, ends, instLinks, b);
      assert w[b] == lists[b] && EndsAt(d, b) == EndsAt(ends, b);
      assert Chained(instLinks, EndsAt(d, b), w[b]);
    }
    forall i, b ensures Placed(w, i, b) <==> i in instBlock && instBlock[i] == b {
      assert Placed(w, i, b) <==> Placed(lists, i, b);
    }
  }

  lemma RemovedMembers(s: seq<nat>, k: nat)
    requires NoDup(s) && k < |s|
    ensures forall x :: x in Removed(s, k) <==> x in s && x != s[k]
  {
    var t := Removed(s, k);
    forall x ensures x in t <==> x in s && x != s[k] {
      if x in s && x != s[k] {
        var j :| 0 <= j < |s| && s[j] == x;
        assert t[if j < k then j else j - 1] == x;
      }
    }
  }

  // ----- the instruction lists

  ghost predicate LayoutOk(order: seq<BlockId>, lists: map<BlockId, seq<InstId>>, links: map<BlockId, Links>, ends: map<BlockId, Ends>,
      instLinks: map<InstId, Links>, instBlock: map<InstId, BlockId>)
  {
    BlocksOk(order, lists, links, ends) && ListsOk(lists, ends, instLinks) && InstsOk(lists, instLinks, instBlock)
  }

  lemma ListKnown(order: seq<BlockId>, lists: map<BlockId, seq<InstId>>, links: map<BlockId, Links>, ends: map<BlockId, Ends>,
      instLinks: map<InstId, Links>, instBlock: map<InstId, BlockId>, block: BlockId)
    requires LayoutOk(order, lists, links, ends, instLinks, instBlock) && block in order
    ensures block in lists
  {
  }

  lemma PlacedIs(lists: map<BlockId, seq<InstId>>, links: map<InstId, Links>, instBlock: map<InstId, BlockId>, i: InstId, b: BlockId)
    requires InstsOk(lists, links, instBlock) && b in lists && i in lists[b]
    ensures Placed(lists, i, b) && i in instBlock && instBlock[i] == b
  {
    assert Placed(lists, i, b);
  }

  lemma InstHere(order: seq<BlockId>, lists: map<BlockId, seq<InstId>>, links: map<BlockId, Links>, ends: map<BlockId, Ends>,
      instLinks: map<InstId, Links>, instBlock: map<InstId, BlockId>, block: BlockId, k: nat)
    requires LayoutOk(order, lists, links, ends, instLinks, instBlock) && block in lists && k < |lists[block]|
    ensures var (i, list) := (lists[block][k], lists[block]);
      && i in instBlock && instBlock[i] == block && LinksAt(instLinks, i) == Links(At(list, k - 1), At(list, k + 1))
      && EndsAt(ends, block) == EndsOf(list) && NoDup(list)
  {
    hide BlocksOk;
    assert ListOk(lists, ends, instLinks, block) && LinkedAt(instLinks, lists[block], k);
    assert Placed(lists, lists[block][k], block);
  }

  /** Replacing the list of one block, its links changing nowhere else. */
  lemma ListReplaced(order: seq<BlockId>, lists: map<BlockId, seq<InstId>>, links: map<BlockId, Links>, ends: map<BlockId, Ends>,
      instLinks: map<InstId, Links>, instBlock: map<InstId, BlockId>, block: BlockId, scope: seq<InstId>,
      list: seq<InstId>, newLinks: map<InstId, Links>, newBlock: map<InstId, BlockId>)
    requires LayoutOk(order, lists, links, ends, instLinks, instBlock) && block in lists
    requires Chained(newLinks, EndsOf(list), list) && SameOutside(instLinks, newLinks, scope)
    requires forall i :: i in lists[block] ==> i in scope
    requires forall i :: i in scope ==> Placed(lists, i, block) || forall b :: !Placed(lists, i, b)
    requires forall i :: i in list ==> i in scope
    requires forall i :: i in scope ==> (if i in list then i in newBlock && newBlock[i] == block else i !in newBlock && LinksAt(newLinks, i) == NO_LINKS)
    requires forall i :: i !in scope ==> (i in newBlock <==> i in instBlock) && (i in newBlock ==> newBlock[i] == instBlock[i])
    ensures LayoutOk(order, lists[block := list], links, ends[block := EndsOf(list)], newLinks, newBlock)
  {
    hide Chained;
    var (w, d) := (lists[block := list], ends[block := EndsOf(list)]);
    forall b | b in w ensures ListOk(w, d, newLinks, b) {
      if b != block {
        assert ListOk(lists, ends, instLinks, b);
        forall i | i in lists[b] ensures i !in scope {
          assert Placed(lists, i, b);
          SingleHome(lists, instLinks, instBlock, i, b, block);
        }
        ChainedElsewhere(instLinks, newLinks, EndsAt(ends, b), lists[b], scope);
      }
    }
    forall i, b ensures Placed(w, i, b) <==> i in newBlock && newBlock[i] == b {
      assert Placed(lists, i, b) <==> i in instBlock && instBlock[i] == b;
      assert Placed(lists, i, block) <==> i in instBlock && instBlock[i] == block;
    }
  }

  lemma SingleHome(lists: map<BlockId, seq<InstId>>, links: map<InstId, Links>, instBlock: map<InstId, BlockId>, i: InstId, b: BlockId, c: BlockId)
    requires InstsOk(lists, links, instBlock) && Placed(lists, i, b) && b != c
    ensures !Placed(lists, i, c)
  {
  }

  lemma InstInserted(order: seq<BlockId>, lists: map<BlockId, seq<InstId>>, links: map<BlockId, Links>, ends: map<BlockId, Ends>,
      instLinks: map<InstId, Links>, instBlock: map<InstId, BlockId>, block: BlockId, k: nat, inst: InstId)
    requires LayoutOk(order, lists, links, ends, instLinks, instBlock) && block in lists && k <= |lists[block]|
    requires forall b :: !Placed(lists, inst, b)
    ensures EndsAt(ends, block) == EndsOf(lists[block])
    ensures var (s, t) := (lists[block], Inserted(lists[block], k, inst)); var n := Spliced(instLinks, inst, At(s, k - 1), At(s, k));
      LayoutOk(order, lists[block := t], links, ends[block := EndsOf(t)], n, instBlock[inst := block])
  {
    hide Chained, Spliced, InstsOk;
    var (s, t) := (lists[block], Inserted(lists[block], k, inst));
    var n := Spliced(instLinks, inst, At(s, k - 1), At(s, k));
    assert ListOk(lists, ends, instLinks, block);
    ChainedEnds(instLinks, EndsAt(ends, block), s);
    assert inst !in s by { assert !Placed(lists, inst, block); }
    SplicedChained(instLinks, EndsAt(ends, block), s, k, inst);
    assert forall i :: i in t <==> i in s || i == inst by { assert s == s[..k] + s[k..]; }
    forall i | i in s ensures Placed(lists, i, block) && i in instBlock && instBlock[i] == block { PlacedIs(lists, instLinks, instBlock, i, block); }
    hide ListsOk, BlocksOk, LayoutOk;
    ListReplaced(order, lists, links, ends, instLinks, instBlock, block, t, t, n, instBlock[inst := block]);
  }

  lemma InstRemoved(order: seq<BlockId>, lists: map<BlockId, seq<InstId>>, links: map<BlockId, Links>, ends: map<BlockId, Ends>,
      instLinks: map<InstId, Links>, instBlock: map<InstId, BlockId>, block: BlockId, k: nat)
    requires LayoutOk(order, lists, links, ends, instLinks, instBlock) && block in lists && k < |lists[block]|
    ensures var (s, t) := (lists[block], Removed(lists[block], k)); var n := Unspliced(instLinks, s[k]);
      LayoutOk(order, lists[block := t], links, ends[block := EndsOf(t)], n, instBlock - {s[k]})
  {
    hide Unspliced, InstsOk;
    var (s, t) := (lists[block], Removed(lists[block], k));
    var n := Unspliced(instLinks, s[k]);
    assert ListOk(lists, ends, instLinks, block);
    UnsplicedChained(instLinks, EndsAt(ends, block), s, k);
    RemovedMembers(s, k);
    hide Chained;
    forall i | i in s ensures Placed(lists, i, block) && i in instBlock && instBlock[i] == block { PlacedIs(lists, instLinks, instBlock, i, block); }
    hide ListsOk, BlocksOk, LayoutOk;
    ListReplaced(order, lists, links, ends, instLinks, instBlock, block, s, t, n, instBlock - {s[k]});
  }
}
