/** The freelist used by one thread at a time: the `_unsafe` forms, reservation, and destruction. */
module FreelistSequential {
  import opened TaggedPtr
  import opened NodeList

  /** A fresh node as the system allocator hands it out: an address and whatever bits are there. */
  datatype Block = Block(at: Ptr, bits: Node)

  ghost predicate FreshBlock(heap: Heap, block: Block) {
    block.at != NULL && block.at !in heap
  }

  /** Blocks that the system allocator can hand out one after the other. */
  ghost predicate FreshBlocks(heap: Heap, blocks: seq<Block>) {
    && (forall i :: 0 <= i < |blocks| ==> FreshBlock(heap, blocks[i]))
    && (forall i, j :: 0 <= i < j < |blocks| ==> blocks[i].at != blocks[j].at)
  }

  ghost function Addresses(blocks: seq<Block>): set<Ptr> {
    set i | 0 <= i < |blocks| :: blocks[i].at
  }

  lemma AddressesSnoc(blocks: seq<Block>, i: nat)
    requires i < |blocks|
    ensures Addresses(blocks[..i + 1]) == Addresses(blocks[..i]) + {blocks[i].at}
    ensures (forall j, k :: 0 <= j < k < |blocks| ==> blocks[j].at != blocks[k].at) ==>
            blocks[i].at !in Addresses(blocks[..i])
  {
  }

  class FreelistStack {
    const caching: bool
    /** All memory obtained from the system allocator and not yet returned. */
    var heap: Heap
    var pool: Tagged
    ghost var free: seq<Ptr>

    ghost predicate Valid()
      reads this
    {
      NULL !in heap && IsList(heap, pool.ptr, free)
    }

    constructor (caching: bool)
      ensures Valid() && this.caching == caching && heap == map[] && free == [] && pool == Tagged(NULL, 0)
    {
      this.caching := caching;
      heap := map[];
      pool := Tagged(NULL, 0);
      free := [];
    }

    method AllocateUnsafe(block: Block) returns (n: Ptr)
      requires Valid() && (free == [] && caching ==> FreshBlock(heap, block))
      modifies this
      ensures Valid()
      ensures old(free) != [] ==>
                n == old(free)[0] && free == old(free)[1..] && heap == old(heap) && pool.tag == old(pool.tag) + 1
      ensures old(free) == [] && caching ==>
              n == block.at && heap == old(heap)[n := block.bits] && free == [] && pool == old(pool)
      ensures old(free) == [] && !caching ==> n == NULL && heap == old(heap) && free == [] && pool == old(pool)
    {
      var oldPool := pool;
      if oldPool.ptr == NULL {
        if caching {
          heap := heap[block.at := block.bits];
          return block.at;
        }
        return NULL;
      }
      ListPop(heap, pool.ptr, free);
      pool := Tagged(heap[oldPool.ptr].next.ptr, oldPool.tag + 1);
      free := free[1..];
      return oldPool.ptr;
    }

    method DeallocateUnsafe(n: Ptr)
      requires Valid() && n in heap && n !in free
      modifies this
      ensures Valid() && free == [n] + old(free)
      ensures heap == SetNext(old(heap), n, Tagged(old(pool).ptr, old(heap)[n].next.tag))
      ensures pool == Tagged(n, old(pool).tag)
    {
      var oldPool := pool;
      heap := SetNext(heap, n, Tagged(oldPool.ptr, heap[n].next.tag));
      ListPush(old(heap), heap, oldPool.ptr, free, n);
      pool := Tagged(n, oldPool.tag);
      free := [n] + free;
    }

    /** The concurrent `deallocate` while no other thread is active: `flakes` is how often the weak
        compare-exchange fails although the cell matches. */
    method Deallocate(n: Ptr, flakes: nat)
      requires Valid() && n in heap && n !in free
      modifies this
      ensures Valid() && free == [n] + old(free)
      ensures heap == SetNext(old(heap), n, Tagged(old(pool).ptr, old(heap)[n].next.tag))
      ensures pool == Tagged(n, old(pool).tag)
    {
      var oldPool, left := pool, flakes;
      while true
        invariant pool == old(pool) && free == old(free) && oldPool == pool
        invariant heap == old(heap) || heap == SetNext(old(heap), n, Tagged(pool.ptr, old(heap)[n].next.tag))
        decreases left
      {
        heap := SetNext(heap, n, Tagged(oldPool.ptr, heap[n].next.tag));
        if left == 0 {
          ListPush(old(heap), heap, oldPool.ptr, free, n);
          pool := Tagged(n, oldPool.tag);
          free := [n] + free;
          return;
        }
        left, oldPool := left - 1, pool;
      }
    }

    method AddBlock(block: Block)
      requires Valid() && FreshBlock(heap, block)
      modifies this
      ensures Valid() && pool.tag == old(pool.tag) && free == [block.at] + old(free)
      ensures heap.Keys == old(heap).Keys + {block.at} && forall x :: x in old(heap) ==> heap[x] == old(heap)[x]
    {
      ListFrame(heap, heap[block.at := block.bits], pool.ptr, free);
      assert block.at !in free;
      heap := heap[block.at := block.bits];
      DeallocateUnsafe(block.at);
    }

    method ReserveUnsafe(blocks: seq<Block>)
      requires Valid() && FreshBlocks(heap, blocks)
      modifies this
      ensures Valid() && pool.tag == old(pool.tag)
      ensures heap.Keys == old(heap).Keys + Addresses(blocks)
      ensures Elements(free) == Elements(old(free)) + Addresses(blocks)
      ensures |free| == |old(free)| + |blocks|
      ensures forall x :: x in old(heap) ==> heap[x] == old(heap)[x]
    {
      assert Addresses(blocks[..0]) == {};
      hide Elements, IsList, Addresses, FreshBlock, FreshBlocks;
      var i := 0;
      while i != |blocks|
        invariant 0 <= i <= |blocks| && Valid() && pool.tag == old(pool.tag)
        invariant heap.Keys == old(heap).Keys + Addresses(blocks[..i])
        invariant Elements(free) == Elements(old(free)) + Addresses(blocks[..i])
        invariant |free| == |old(free)| + i
        invariant forall x :: x in old(heap) ==> heap[x] == old(heap)[x]
      {
        NextIsFresh(old(heap), heap, blocks, i);
        ElementsOf(blocks[i].at, free);
        AddBlock(blocks[i]);
        i := i + 1;
      }
      assert blocks[..i] == blocks;
    }

    /** `~freelist_stack`: walk the list, reading each link before the node goes back to the system.
        The memory returned is the list, each node once; nothing returned is read again. */
    method Destroy() returns (released: seq<Ptr>)
      requires Valid()
      modifies this
      ensures released == old(free) && Distinct(released)
      ensures heap.Keys == old(heap).Keys - Elements(released)
    {
      assert Distinct(free);
      hide IsList, Distinct, Elements;
      released := [];
      NothingReleased(heap);
      var current := pool;
      ghost var rest := free;
      while current.ptr != NULL
        invariant released + rest == old(free)
        invariant IsList(heap, current.ptr, rest)
        invariant heap.Keys == old(heap).Keys - Elements(released)
        decreases |rest|
      {
        ReleaseNode(heap, current.ptr, rest, released, old(heap).Keys);
        var n := current.ptr;
        current := heap[n].next;
        heap := heap - {n};
        released, rest := released + [n], rest[1..];
      }
      EndOfList(heap, current.ptr, rest);
    }
  }

  lemma NothingReleased(heap: Heap)
    ensures heap.Keys == heap.Keys - Elements([])
  {
  }

  lemma EndOfList(heap: Heap, first: Ptr, xs: seq<Ptr>)
    requires IsList(heap, first, xs)
    ensures first == NULL <==> xs == []
  {
  }

  lemma OthersKeepLinks(heap: Heap, n: Ptr, xs: seq<Ptr>)
    requires n !in xs
    ensures SameLinks(heap, heap - {n}, xs)
  {
  }

  /** Returning the first node of the list to the system leaves a list of the others. */
  lemma ReleaseNode(heap: Heap, n: Ptr, rest: seq<Ptr>, released: seq<Ptr>, keys: set<Ptr>)
    requires IsList(heap, n, rest) && n != NULL && heap.Keys == keys - Elements(released)
    ensures n in heap && rest != [] && IsList(heap - {n}, heap[n].next.ptr, rest[1..])
    ensures released + rest == (released + [n]) + rest[1..]
    ensures (heap - {n}).Keys == keys - Elements(released + [n])
  {
    hide IsList, SameLinks, Elements, Distinct;
    EndOfList(heap, n, rest);
    ListPop(heap, n, rest);
    OthersKeepLinks(heap, n, rest[1..]);
    ListFrame(heap, heap - {n}, heap[n].next.ptr, rest[1..]);
    ElementsOf(n, released);
  }

  /** A block that is still to come is not in use yet. */
  lemma NextIsFresh(heap0: Heap, heap: Heap, blocks: seq<Block>, i: nat)
    requires FreshBlocks(heap0, blocks) && i < |blocks| && heap.Keys == heap0.Keys + Addresses(blocks[..i])
    ensures FreshBlock(heap, blocks[i])
    ensures Addresses(blocks[..i + 1]) == Addresses(blocks[..i]) + {blocks[i].at}
  {
    AddressesSnoc(blocks, i);
    hide Addresses;
  }
}
