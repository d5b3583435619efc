/** The stack used by one thread at a time: construction, the `_unsafe` operations, destruction. */
module StackSequential {
  import opened TaggedPtr
  import opened NodeList
  import opened FreelistSequential
  import opened StackMachine
  import opened StackSafety
  import opened StackSpec
  import opened StackRuns

  /** Stack and freelist share no node and account for all memory but `held`. */
  ghost predicate StackShape(heap: Heap, free: seq<Ptr>, tos: Tagged, items: seq<Ptr>, held: set<Ptr>) {
    && IsList(heap, tos.ptr, items)
    && (forall x :: x in items ==> x !in free && x !in held)
    && (forall x :: x in free ==> x in heap && x !in held)
    && (forall x :: x in held ==> x in heap)
    && (forall x :: x in heap ==> x in items || x in free || x in held)
  }

  ghost function RestingGhost(heap: Heap, free: seq<Ptr>, items: seq<Ptr>): Ghost {
    Ghost(items, free, map x | x in heap :: if x in items then In(Tos) else In(Pool), {}, {})
  }

  /** The sequential representation is exactly the concurrent invariant with nobody inside. */
  lemma RestingInv(s: State, free: seq<Ptr>, items: seq<Ptr>)
    requires s.threads == map[] && NULL !in s.heap && IsList(s.heap, s.pool.ptr, free)
    requires StackShape(s.heap, free, s.tos, items, {})
    ensures Inv(s, RestingGhost(s.heap, free, items))
  {
  }

  lemma InvResting(s: State, g: Ghost)
    requires Inv(s, g) && s.threads == map[]
    ensures NULL !in s.heap && IsList(s.heap, s.pool.ptr, g.free)
    ensures StackShape(s.heap, g.free, s.tos, g.items, {})
  {
    forall x | x in s.heap
      ensures x in g.items || x in g.free
    {
      PlaceKinds(g.place[x]);
    }
  }

  lemma ItemsListed(heap: Heap, free: seq<Ptr>, tos: Tagged, items: seq<Ptr>, held: set<Ptr>)
    requires StackShape(heap, free, tos, items, held)
    ensures Allocated(heap, items)
    ensures tos.ptr == NULL <==> |items| == 0
  {
  }

  /** Putting a held node, whose link has been set, on top. */
  lemma PushShape(heap: Heap, heap': Heap, free: seq<Ptr>, tos: Tagged, items: seq<Ptr>, n: Ptr)
    requires StackShape(heap, free, tos, items, {n}) && n in heap && n != NULL
    requires heap' == SetNext(heap, n, Tagged(tos.ptr, heap[n].next.tag))
    ensures StackShape(heap', free, Tagged(n, tos.tag), [n] + items, {})
    ensures Allocated(heap, items) && Allocated(heap', [n] + items)
    ensures Values(heap', [n] + items) == [heap[n].data] + Values(heap, items)
    ensures SameLinks(heap, heap', free)
  {
    ItemsListed(heap, free, tos, items, {n});
    ListPush(heap, heap', tos.ptr, items, n);
    ValuesCons(heap, heap', n, items);
  }

  /** Taking the top node off. */
  lemma PopShape(heap: Heap, free: seq<Ptr>, tos: Tagged, items: seq<Ptr>)
    requires StackShape(heap, free, tos, items, {}) && tos.ptr != NULL
    ensures |items| > 0 && tos.ptr == items[0] && tos.ptr in heap
    ensures Allocated(heap, items) && Allocated(heap, items[1..])
    ensures StackShape(heap, free, Tagged(heap[tos.ptr].next.ptr, tos.tag + 1), items[1..], {tos.ptr})
    ensures Values(heap, items) != [] && Values(heap, items)[0] == heap[tos.ptr].data
    ensures Values(heap, items[1..]) == Values(heap, items)[1..]
  {
    ItemsListed(heap, free, tos, items, {});
    ListPop(heap, tos.ptr, items);
    ValuesDrop(heap, heap, items);
  }

  lemma ReleaseShape(heap: Heap, heap': Heap, free: seq<Ptr>, tos: Tagged, items: seq<Ptr>, n: Ptr, link: Tagged)
    requires StackShape(heap, free, tos, items, {n}) && n in heap && heap' == SetNext(heap, n, link)
    ensures StackShape(heap', [n] + free, tos, items, {})
    ensures Allocated(heap, items) && Allocated(heap', items) && Values(heap', items) == Values(heap, items)
  {
    ItemsListed(heap, free, tos, items, {n});
    ListFrame(heap, heap', tos.ptr, items);
    ValuesFrame(heap, heap', items);
  }

  lemma ConstructShape(heap: Heap, heap': Heap, free: seq<Ptr>, free': seq<Ptr>, tos: Tagged, items: seq<Ptr>, n: Ptr)
    requires StackShape(heap, free, tos, items, {}) && n != NULL && n !in items && n !in free'
    requires heap'.Keys == heap.Keys + {n} && forall x :: x in heap && x != n ==> heap'[x] == heap[x]
    requires forall x :: x != n ==> (x in free <==> x in free')
    ensures StackShape(heap', free', tos, items, {n})
    ensures Allocated(heap, items) && Allocated(heap', items) && Values(heap', items) == Values(heap, items)
  {
  }

  lemma Unlisted(heap: Heap, free: seq<Ptr>, tos: Tagged, items: seq<Ptr>, n: Ptr)
    requires StackShape(heap, free, tos, items, {}) && Distinct(free)
    requires n !in heap || (free != [] && n == free[0])
    ensures n !in items && n !in (if free == [] then [] else free[1..])
  {
  }

  class Stack {
    const store: FreelistStack
    var tos: Tagged
    ghost var items: seq<Ptr>

    ghost predicate Valid()
      reads this, store
    {
      store.Valid() && StackShape(store.heap, store.free, tos, items, {})
    }

    /** The abstract contents, top first. */
    ghost function Contents(): seq<Value>
      requires Valid()
      reads this, store
    {
      ItemsListed(store.heap, store.free, tos, items, {});
      Values(store.heap, items)
    }

    ghost function Snapshot(): State
      reads this, store
    {
      State(store.caching, store.heap, store.pool, tos, map[])
    }

    /** `stack(n)`: an empty stack with n spare nodes. */
    constructor (caching: bool, blocks: seq<Block>)
      requires FreshBlocks(map[], blocks)
      ensures Valid() && fresh(store) && Contents() == [] && store.caching == caching
      ensures Initial(Snapshot(), store.free)
      ensures store.heap.Keys == Addresses(blocks) && |store.free| == |blocks|
    {
      var pool := new FreelistStack(caching);
      pool.ReserveUnsafe(blocks);
      assert forall x :: x in pool.heap ==> x in Elements(pool.free);
      assert forall x :: x in pool.free ==> x in Elements(pool.free);
      store := pool;
      tos := Tagged(NULL, 0);
      items := [];
    }

    /** `pool.construct_unsafe(v)`: a node that holds `v`. */
    method ConstructUnsafe(v: Value, block: Block) returns (n: Ptr)
      requires Valid() && (store.free == [] && store.caching ==> FreshBlock(store.heap, block))
      modifies store
      ensures n == NULL <==> old(store.free) == [] && !store.caching
      ensures n == NULL ==> Valid() && Contents() == old(Contents()) && store.heap == old(store.heap)
      ensures n != NULL ==>
                && store.Valid() && StackShape(store.heap, store.free, tos, items, {n})
                && Allocated(store.heap, items) && Values(store.heap, items) == old(Contents())
                && n in store.heap && store.heap[n].data == v
      ensures store.heap.Keys == old(store.heap).Keys +
              if old(store.free) == [] && store.caching then {block.at} else {}
    {
      ghost var heap, free := store.heap, store.free;
      n := store.AllocateUnsafe(block);
      if n != NULL {
        Unlisted(heap, free, tos, items, n);
        ghost var heap1 := store.heap;
        store.heap := SetData(store.heap, n, v);
        ListFrame(heap1, store.heap, store.pool.ptr, store.free);
        ConstructShape(heap, store.heap, free, store.free, tos, items, n);
      }
    }

    method PushUnsafe(v: Value, block: Block) returns (ok: bool)
      requires Valid() && (store.free == [] && store.caching ==> FreshBlock(store.heap, block))
      modifies this, store
      ensures Valid()
      ensures ok <==> old(store.free) != [] || store.caching
      ensures Contents() == if ok then [v] + old(Contents()) else old(Contents())
      ensures store.heap.Keys == old(store.heap).Keys +
              if old(store.free) == [] && store.caching then {block.at} else {}
    {
      var n := ConstructUnsafe(v, block);
      if n == NULL {
        return false;
      }
      PushNode(n);
      return true;
    }

    /** `set_ptr` and the store to `tos`. */
    method PushNode(n: Ptr)
      requires store.Valid() && StackShape(store.heap, store.free, tos, items, {n}) && n in store.heap && n != NULL
      requires Allocated(store.heap, items)
      modifies this, store
      ensures Valid() && Contents() == [old(store.heap)[n].data] + Values(old(store.heap), old(items))
      ensures store.heap.Keys == old(store.heap).Keys
    {
      ghost var heap := store.heap;
      store.heap := SetNext(store.heap, n, Tagged(tos.ptr, store.heap[n].next.tag));
      PushShape(heap, store.heap, store.free, tos, items, n);
      ListFrame(heap, store.heap, store.pool.ptr, store.free);
      tos := Tagged(n, tos.tag);
      items := [n] + items;
    }

    method PopUnsafe(ret0: Value) returns (ok: bool, ret: Value)
      requires Valid()
      modifies this, store
      ensures Valid()
      ensures ok <==> old(Contents()) != []
      ensures ok ==> ret == old(Contents())[0] && Contents() == old(Contents())[1..]
      ensures !ok ==> ret == ret0 && Contents() == []
      ensures store.heap.Keys == old(store.heap).Keys
    {
      ret := ret0;
      var seen := tos;
      ItemsListed(store.heap, store.free, tos, items, {});
      if seen.ptr == NULL {
        return false, ret;
      }
      PopShape(store.heap, store.free, tos, items);
      tos := Tagged(store.heap[seen.ptr].next.ptr, seen.tag + 1);
      items := items[1..];
      ret := store.heap[seen.ptr].data;
      ghost var heap, link := store.heap, Tagged(store.pool.ptr, store.heap[seen.ptr].next.tag);
      ReleaseShape(heap, SetNext(heap, seen.ptr, link), store.free, tos, items, seen.ptr, link);
      store.DeallocateUnsafe(seen.ptr);
      return true, ret;
    }

    method Empty() returns (r: bool)
      requires Valid()
      ensures r <==> Contents() == []
    {
      ItemsListed(store.heap, store.free, tos, items, {});
      r := tos.ptr == NULL;
    }

    /** `~stack` and then `~freelist_stack`: drain, and return all memory to the system. Every node
        ever obtained and not yet returned is returned exactly once. */
    method Destroy() returns (released: seq<Ptr>)
      requires Valid()
      modifies this, store
      ensures Distinct(released) && Elements(released) == old(store.heap).Keys && store.heap == map[]
    {
      ghost var keys := store.heap.Keys;
      var empty := Empty();
      if !empty {
        var more, dummy := PopUnsafe(store.heap[tos.ptr].data);
        while more
          invariant Valid() && store.heap.Keys == keys && (!more ==> Contents() == [])
          decreases more, |Contents()|
        {
          more, dummy := PopUnsafe(dummy);
        }
      }
      assert Elements(store.free) == keys;
      released := store.Destroy();
    }
  }

  /** An object is a state of the machine in which nobody is working, with the same contents. */
  lemma SnapshotIsResting(f: Stack)
    requires f.Valid()
    ensures var g := RestingGhost(f.store.heap, f.store.free, f.items);
            Inv(f.Snapshot(), g) && Allocated(f.store.heap, g.items) && Abs(f.Snapshot(), g).items == f.Contents()
  {
  }

  /** The two kinds of use may alternate, as for the fifo. */
  lemma MixedUse(f: Stack, states: seq<State>, moves: seq<Move>, k: nat)
    requires f.Valid() && IsRun(Unbounded, states, moves) && states[0] == f.Snapshot() && k <= |moves|
    ensures var g := Companion(states, moves, RestingGhost(f.store.heap, f.store.free, f.items), k); var s := states[k];
            Inv(s, g) && (s.threads == map[] ==>
              && NULL !in s.heap && IsList(s.heap, s.pool.ptr, g.free)
              && StackShape(s.heap, g.free, s.tos, g.items, {}))
  {
    SnapshotIsResting(f);
    var g := RestingGhost(f.store.heap, f.store.free, f.items);
    hide Inv, StackShape, IsList;
    RunKeepsInv(states, moves, g, k);
    if states[k].threads == map[] {
      InvResting(states[k], Companion(states, moves, g, k));
    }
  }
}
