/** The fifo used by one thread at a time: construction, the `_unsafe` operations, destruction. Its
    representation invariant is the invariant of the concurrent machine with nobody inside, so the
    two kinds of use can alternate. */
module FifoSequential {
  import opened TaggedPtr
  import opened NodeList
  import opened FreelistSequential
  import opened FifoMachine
  import opened FifoInvariant
  import opened FifoSpec
  import opened FifoRuns

  /** Queue chain and freelist share no node and, with the nodes `held` outside both, account for all
      memory. The tail is the last node or the last but one. */
  ghost predicate QueueShape(heap: Heap, free: seq<Ptr>, head: Tagged, tail: Tagged, chain: seq<Ptr>, held: set<Ptr>) {
    var k := |chain|;
    && IsList(heap, head.ptr, chain) && k > 0
    && (|| (tail.ptr == chain[k - 1] && tail.tag == head.tag + k - 1)
        || (k > 1 && tail.ptr == chain[k - 2] && tail.tag == head.tag + k - 2))
    && (forall x :: x in chain ==> x !in free && x !in held)
    && (forall x :: x in free ==> x in heap && x !in held)
    && (forall x :: x in held ==> x in heap)
    && (forall x :: x in heap ==> x in chain || x in free || x in held)
  }

  /** The companion of a state that nobody is working on. */
  ghost function RestingGhost(heap: Heap, free: seq<Ptr>, chain: seq<Ptr>): Ghost {
    Ghost(chain, free, map x | x in heap :: if x in chain then Queued else Free, 0, {}, {})
  }

  /** A sequential representation whose tail is not behind is a resting state of the machine. */
  lemma RestingInv(s: State, free: seq<Ptr>, chain: seq<Ptr>)
    requires s.threads == map[] && NULL !in s.heap && IsList(s.heap, s.pool.ptr, free)
    requires QueueShape(s.heap, free, s.head, s.tail, chain, {}) && s.tail.ptr == chain[|chain| - 1]
    ensures Inv(s, RestingGhost(s.heap, free, chain))
  {
    assert Distinct(chain);
    assert forall x :: x in chain ==> x in s.heap;
  }

  /** And every resting state of the machine is such a representation. */
  lemma InvResting(s: State, g: Ghost)
    requires Inv(s, g) && s.threads == map[]
    ensures NULL !in s.heap && IsList(s.heap, s.pool.ptr, g.free)
    ensures QueueShape(s.heap, g.free, s.head, s.tail, g.chain, {}) && s.tail.ptr == g.chain[|g.chain| - 1]
  {
    hide Local;
  }

  lemma TailFacts(heap: Heap, free: seq<Ptr>, head: Tagged, tail: Tagged, chain: seq<Ptr>, held: set<Ptr>)
    requires QueueShape(heap, free, head, tail, chain, held)
    ensures tail.ptr in heap && head.ptr in heap && head.ptr == chain[0]
    ensures heap[head.ptr].next.ptr == LinkTo(chain, 1)
    ensures heap[tail.ptr].next.ptr == NULL ==> tail.ptr == chain[|chain| - 1] && tail.tag == head.tag + |chain| - 1
    ensures heap[tail.ptr].next.ptr != NULL ==>
              var k := |chain|;
              k > 1 && tail.ptr == chain[k - 2] && tail.tag == head.tag + k - 2
              && heap[tail.ptr].next.ptr == chain[k - 1]
    ensures tail.ptr in chain && chain[|chain| - 1] in chain
    ensures Allocated(heap, Rest(chain))
  {
    ListLast(heap, head.ptr, chain, tail.ptr);
    forall x | x in Rest(chain)
      ensures x in chain
    {
    }
  }

  /** Linking a held node behind the last one appends its value. */
  lemma LinkShape(heap: Heap, heap': Heap, free: seq<Ptr>, head: Tagged, tail: Tagged, chain: seq<Ptr>, n: Ptr,
                  link: Tagged)
    requires QueueShape(heap, free, head, tail, chain, {n}) && heap[n].next.ptr == NULL && n != NULL
    requires tail.ptr in heap && heap[tail.ptr].next.ptr == NULL
    requires heap' == SetNext(heap, tail.ptr, link) && link.ptr == n
    ensures QueueShape(heap', free, head, Tagged(n, tail.tag + 1), chain + [n], {})
    ensures Allocated(heap, Rest(chain)) && Allocated(heap', Rest(chain + [n]))
    ensures Values(heap', Rest(chain + [n])) == Values(heap, Rest(chain)) + [heap[n].data]
    ensures SameLinks(heap, heap', free)
  {
    TailFacts(heap, free, head, tail, chain, {n});
    assert chain[|chain| - 1] !in chain[..|chain| - 1];
    ListAppend(heap, heap', head.ptr, chain, n);
    QueueAppend(heap, heap', chain, n);
  }

  /** Dropping the node in front removes the first value. */
  lemma UnlinkShape(heap: Heap, free: seq<Ptr>, head: Tagged, tail: Tagged, chain: seq<Ptr>)
    requires QueueShape(heap, free, head, tail, chain, {}) && tail.ptr != head.ptr
    ensures |chain| > 1 && chain[1] in heap && Allocated(heap, Rest(chain)) && Allocated(heap, Rest(chain[1..]))
    ensures QueueShape(heap, free, Tagged(chain[1], head.tag + 1), tail, chain[1..], {head.ptr})
    ensures Values(heap, Rest(chain)) != [] && Values(heap, Rest(chain))[0] == heap[chain[1]].data
    ensures Values(heap, Rest(chain[1..])) == Values(heap, Rest(chain))[1..]
  {
    TailFacts(heap, free, head, tail, chain, {});
    ListPop(heap, head.ptr, chain);
    QueueDrop(heap, heap, chain);
  }

  /** Rewriting the link of a held node, and handing the node to the freelist, leaves the queue. */
  lemma ReleaseShape(heap: Heap, heap': Heap, free: seq<Ptr>, head: Tagged, tail: Tagged, chain: seq<Ptr>, n: Ptr,
                     link: Tagged)
    requires QueueShape(heap, free, head, tail, chain, {n}) && n in heap && heap' == SetNext(heap, n, link)
    ensures QueueShape(heap', [n] + free, head, tail, chain, {})
    ensures Allocated(heap, Rest(chain)) && Allocated(heap', Rest(chain))
    ensures Values(heap', Rest(chain)) == Values(heap, Rest(chain))
  {
    TailFacts(heap, free, head, tail, chain, {n});
    ListFrame(heap, heap', head.ptr, chain);
    QueueFrame(heap, heap', chain);
  }

  /** Taking a node off the freelist, or from the system, and constructing it leaves the queue. */
  lemma ConstructShape(heap: Heap, heap': Heap, free: seq<Ptr>, free': seq<Ptr>, head: Tagged, tail: Tagged,
                       chain: seq<Ptr>, n: Ptr)
    requires QueueShape(heap, free, head, tail, chain, {}) && n != NULL && n !in chain && n !in free'
    requires heap'.Keys == heap.Keys + {n} && forall x :: x in heap && x != n ==> heap'[x] == heap[x]
    requires forall x :: x != n ==> (x in free <==> x in free')
    ensures QueueShape(heap', free', head, tail, chain, {n})
    ensures Allocated(heap, Rest(chain)) && Allocated(heap', Rest(chain))
    ensures Values(heap', Rest(chain)) == Values(heap, Rest(chain))
  {
    TailFacts(heap, free, head, tail, chain, {});
    ListFrame(heap, heap', head.ptr, chain);
    QueueFrame(heap, heap', chain);
  }

  /** `reserve_unsafe(n + 1)` followed by the construction of the dummy node. */
  method Prepare(caching: bool, blocks: seq<Block>) returns (pool: FreelistStack, n: Ptr)
    requires |blocks| > 0 && FreshBlocks(map[], blocks)
    ensures fresh(pool) && pool.Valid() && pool.caching == caching
    ensures pool.heap.Keys == Addresses(blocks) && |pool.free| == |blocks| - 1
    ensures n in pool.heap && n !in pool.free && pool.heap[n].next == Tagged(NULL, 0)
    ensures forall x :: x in pool.heap <==> x == n || x in pool.free
  {
    pool := new FreelistStack(caching);
    pool.ReserveUnsafe(blocks);
    ghost var free := pool.free;
    ListPop(pool.heap, pool.pool.ptr, free);
    assert forall x :: x in pool.heap <==> x in Elements(free);
    n := pool.AllocateUnsafe(blocks[0]);
    ListFrame(pool.heap, SetNext(pool.heap, n, Tagged(NULL, 0)), pool.pool.ptr, pool.free);
    pool.heap := SetNext(pool.heap, n, Tagged(NULL, 0));
  }

  lemma DummyShape(heap: Heap, free: seq<Ptr>, n: Ptr)
    requires n in heap && n !in free && heap[n].next == Tagged(NULL, 0) && NULL !in heap
    requires forall x :: x in heap <==> x == n || x in free
    ensures QueueShape(heap, free, Tagged(n, 0), Tagged(n, 0), [n], {})
    ensures Allocated(heap, Rest([n])) && Values(heap, Rest([n])) == []
  {
  }

  class Fifo {
    const store: FreelistStack
    var head: Tagged
    var tail: Tagged
    ghost var chain: seq<Ptr>

    ghost predicate Valid()
      reads this, store
    {
      store.Valid() && QueueShape(store.heap, store.free, head, tail, chain, {})
    }

    /** The tail is the last node. */
    ghost predicate Settled()
      reads this
    {
      |chain| > 0 && tail.ptr == chain[|chain| - 1]
    }

    /** The abstract contents. */
    ghost function Queue(): seq<Value>
      requires Valid()
      reads this, store
    {
      TailFacts(store.heap, store.free, head, tail, chain, {});
      Values(store.heap, Rest(chain))
    }

    /** This object as a state of the concurrent machine with nobody inside an operation. */
    ghost function Snapshot(): State
      reads this, store
    {
      State(store.caching, store.heap, store.pool, head, tail, map[])
    }

    /** `fifo(n)`: reserve n + 1 nodes, the dummy is one of them. */
    constructor (caching: bool, blocks: seq<Block>)
      requires |blocks| > 0 && FreshBlocks(map[], blocks)
      ensures Valid() && Settled() && fresh(store) && Queue() == [] && store.caching == caching
      ensures Initial(Snapshot(), store.free)
      ensures store.heap.Keys == Addresses(blocks) && |store.free| == |blocks| - 1
    {
      var pool, n := Prepare(caching, blocks);
      DummyShape(pool.heap, pool.free, n);
      store := pool;
      head, tail := Tagged(n, 0), Tagged(n, 0);
      chain := [n];
      new;
      hide IsList, QueueShape;
    }

    /** `empty()`; exact when the tail is not behind. */
    method Empty() returns (r: bool)
      requires Valid()
      ensures r <==> head.ptr == tail.ptr
      ensures Queue() == [] ==> r
      ensures Settled() ==> (r <==> Queue() == [])
    {
      TailFacts(store.heap, store.free, head, tail, chain, {});
      r := head.ptr == tail.ptr;
    }

    /** The constructor of a node, run in place: it stores the value and a null link whose tag is one above
        the tag that the memory already has. */
    method Construct(n: Ptr, v: Value)
      requires store.Valid() && n in store.heap && n !in store.free
      modifies store
      ensures store.Valid() && store.free == old(store.free) && store.pool == old(store.pool)
      ensures store.heap.Keys == old(store.heap).Keys
      ensures forall x :: x in store.heap && x != n ==> store.heap[x] == old(store.heap)[x]
      ensures store.heap[n] == Node(Tagged(NULL, old(store.heap)[n].next.tag + 1), v)
    {
      store.heap := SetData(store.heap, n, v);
      store.heap := SetNext(store.heap, n, Tagged(NULL, store.heap[n].next.tag + 1));
      ListFrame(old(store.heap), store.heap, store.pool.ptr, store.free);
    }

    /** `pool.construct_unsafe(t)`: a node that holds `v`, ends in null, and whose link's tag is one
        above what it was. */
    method ConstructUnsafe(v: Value, block: Block) returns (n: Ptr)
      requires Valid() && (store.free == [] && store.caching ==> FreshBlock(store.heap, block))
      modifies store
      ensures n == NULL <==> old(store.free) == [] && !store.caching
      ensures n == NULL ==> Valid() && Queue() == old(Queue()) && store.heap == old(store.heap)
      ensures n != NULL ==>
                && store.Valid() && QueueShape(store.heap, store.free, head, tail, chain, {n})
                && Allocated(store.heap, Rest(chain)) && Values(store.heap, Rest(chain)) == old(Queue())
                && n in store.heap && store.heap[n].next.ptr == NULL && store.heap[n].data == v
                && store.heap.Keys == old(store.heap).Keys + {n}
                && (old(store.free) == [] ==> n == block.at && store.free == [])
                && (old(store.free) != [] ==> old(store.free) == [n] + store.free)
                && (n in old(store.heap) ==> store.heap[n].next.tag == old(store.heap)[n].next.tag + 1)
    {
      ghost var heap, free := store.heap, store.free;
      n := store.AllocateUnsafe(block);
      if n != NULL {
        assert n !in store.free && n !in chain by {
          Unlisted(heap, free, head, tail, chain, n);
        }
        hide QueueShape, IsList, Values, Allocated;
        Construct(n, v);
        ConstructShape(heap, store.heap, free, store.free, head, tail, chain, n);
      }
    }

    method EnqueueUnsafe(v: Value, block: Block) returns (ok: bool)
      requires Valid() && (store.free == [] && store.caching ==> FreshBlock(store.heap, block))
      modifies this, store
      ensures Valid()
      ensures ok <==> old(store.free) != [] || store.caching
      ensures ok ==> Settled() && Queue() == old(Queue()) + [v]
      ensures !ok ==> Queue() == old(Queue()) && head == old(head) && tail == old(tail) && store.heap == old(store.heap)
      ensures store.heap.Keys == old(store.heap).Keys +
              if old(store.free) == [] && store.caching then {block.at} else {}
    {
      var n := ConstructUnsafe(v, block);
      if n == NULL {
        return false;
      }
      hide QueueShape, IsList, Values, Allocated;
      LinkLast(n);
      return true;
    }

    /** The loop of `enqueue_unsafe`: move the tail to the last node if need be, then link the constructed node. */
    method LinkLast(n: Ptr)
      requires store.Valid() && QueueShape(store.heap, store.free, head, tail, chain, {n})
      requires n in store.heap && n != NULL && store.heap[n].next.ptr == NULL && Allocated(store.heap, Rest(chain))
      modifies this, store
      ensures Valid() && Settled() && Queue() == Values(old(store.heap), Rest(old(chain))) + [old(store.heap)[n].data]
      ensures store.heap.Keys == old(store.heap).Keys && store.free == old(store.free)
    {
      hide QueueShape, IsList, Values, Allocated;
      ghost var heap, free := store.heap, store.free;
      while true
        invariant store.heap == heap && store.free == free && store.Valid()
        invariant QueueShape(heap, free, head, tail, chain, {n}) && chain == old(chain)
        decreases if tail.ptr in heap && heap[tail.ptr].next.ptr == NULL then 0 else 1
      {
        TailFacts(heap, free, head, tail, chain, {n});
        var seenTail := tail;
        var next := store.heap[seenTail.ptr].next;
        if next.ptr == NULL {
          StoreLink(n, next);
          return;
        } else {
          HelpShape(heap, free, head, tail, chain, {n});
          tail := Tagged(next.ptr, seenTail.tag + 1);
        }
      }
    }

    /** The two stores that link a constructed node behind the last one. */
    method StoreLink(n: Ptr, next: Tagged)
      requires store.Valid() && QueueShape(store.heap, store.free, head, tail, chain, {n})
      requires n in store.heap && n != NULL && store.heap[n].next.ptr == NULL
      requires tail.ptr in store.heap && store.heap[tail.ptr].next == next && next.ptr == NULL
      requires Allocated(store.heap, Rest(chain))
      modifies this, store
      ensures Valid() && Settled() && Queue() == Values(old(store.heap), Rest(old(chain))) + [old(store.heap)[n].data]
      ensures store.heap.Keys == old(store.heap).Keys && store.free == old(store.free)
    {
      hide QueueShape, IsList, Values, Allocated;
      ghost var heap := store.heap;
      store.heap := SetNext(store.heap, tail.ptr, Tagged(n, next.tag + 1));
      LinkShape(heap, store.heap, store.free, head, tail, chain, n, Tagged(n, next.tag + 1));
      ListFrame(heap, store.heap, store.pool.ptr, store.free);
      tail := Tagged(n, tail.tag + 1);
      chain := chain + [n];
    }

    /** `ret` is the out-parameter; it keeps its value when the queue is empty. */
    method DequeueUnsafe(ret0: Value) returns (ok: bool, ret: Value)
      requires Valid()
      modifies this, store
      ensures Valid() && (old(Settled()) ==> Settled())
      ensures ok <==> old(Queue()) != []
      ensures ok ==> ret == old(Queue())[0] && Queue() == old(Queue())[1..]
      ensures !ok ==> ret == ret0 && Queue() == []
      ensures store.heap.Keys == old(store.heap).Keys
    {
      ret := ret0;
      while true
        invariant store.heap == old(store.heap) && store.free == old(store.free) && store.pool == old(store.pool)
        invariant head == old(head) && chain == old(chain) && Valid() && (old(Settled()) ==> Settled())
        decreases if tail.ptr in store.heap && store.heap[tail.ptr].next.ptr == NULL then 0 else 1
      {
        TailFacts(store.heap, store.free, head, tail, chain, {});
        var seenHead, seenTail := head, tail;
        var next := store.heap[seenHead.ptr].next;
        if seenHead.ptr == seenTail.ptr {
          if next.ptr == NULL {
            return false, ret;
          }
          HelpShape(store.heap, store.free, head, tail, chain, {});
          hide QueueShape, IsList;
          tail := Tagged(next.ptr, seenTail.tag + 1);
        } else {
          UnlinkShape(store.heap, store.free, head, tail, chain);
          if next.ptr == NULL {
            assert false; // the code would continue its loop here
          }
          hide QueueShape, IsList;
          ret := store.heap[next.ptr].data;
          DropHead(next.ptr);
          return true, ret;
        }
      }
    }

    /** The head moves to `p` and the node left behind goes to the freelist. */
    method DropHead(p: Ptr)
      requires Valid() && |chain| > 1 && p == chain[1] && tail.ptr != head.ptr
      modifies this, store
      ensures Valid() && Queue() == Values(old(store.heap), Rest(old(chain)))[1..] && tail == old(tail)
      ensures chain == old(chain)[1..] && store.heap.Keys == old(store.heap).Keys
    {
      var n := head.ptr;
      ghost var heap, link := store.heap, Tagged(store.pool.ptr, store.heap[n].next.tag);
      UnlinkShape(heap, store.free, head, tail, chain);
      head := Tagged(p, head.tag + 1);
      chain := chain[1..];
      ReleaseShape(heap, SetNext(heap, n, link), store.free, head, tail, chain, n, link);
      assert n !in store.free;
      hide QueueShape, Values;
      store.DeallocateUnsafe(n);
    }

    method ReserveUnsafe(blocks: seq<Block>)
      requires Valid() && FreshBlocks(store.heap, blocks)
      modifies store
      ensures Valid() && Queue() == old(Queue())
      ensures store.heap.Keys == old(store.heap).Keys + Addresses(blocks)
    {
      ghost var heap, free := store.heap, store.free;
      store.ReserveUnsafe(blocks);
      ReserveShape(heap, store.heap, free, store.free, head, tail, chain, Addresses(blocks));
    }

    /** `~fifo` and then `~freelist_stack`: drain, free the dummy, return all memory to the system.
        Every node ever obtained and not yet returned is returned exactly once. */
    method Destroy(flakes: nat) returns (released: seq<Ptr>)
      requires Valid() && Settled()
      modifies this, store
      ensures Distinct(released) && Elements(released) == old(store.heap).Keys && store.heap == map[]
    {
      ghost var keys := store.heap.Keys;
      var empty := Empty();
      if !empty {
        var more, dummy := DequeueUnsafe(store.heap[head.ptr].data);
        while more
          invariant Valid() && store.heap.Keys == keys && (!more ==> Queue() == [])
          decreases more, |Queue()|
        {
          more, dummy := DequeueUnsafe(dummy);
        }
      }
      DrainedShape(store.heap, store.free, head, tail, chain);
      store.Deallocate(head.ptr, flakes);
      hide QueueShape;
      assert Elements(store.free) == keys;
      released := store.Destroy();
    }
  }

  /** An object whose tail is not behind is a state of the machine in which nobody is working, with the
      same contents. */
  lemma SnapshotIsResting(f: Fifo)
    requires f.Valid() && f.Settled()
    ensures var g := RestingGhost(f.store.heap, f.store.free, f.chain);
            Inv(f.Snapshot(), g) && Allocated(f.store.heap, Rest(g.chain)) && Abs(f.Snapshot(), g).queue == f.Queue()
  {
    RestingInv(f.Snapshot(), f.store.free, f.chain);
    TailFacts(f.store.heap, f.store.free, f.head, f.tail, f.chain, {});
    hide Inv, QueueShape, Values;
  }

  /** The two kinds of use may alternate: a concurrent run that starts from an object satisfies the
      invariant throughout, and whenever nobody is working the representation of the object is back. */
  lemma MixedUse(f: Fifo, states: seq<State>, moves: seq<Move>, k: nat)
    requires f.Valid() && f.Settled() && IsRun(Unbounded, states, moves) && states[0] == f.Snapshot() && k <= |moves|
    ensures var g := Companion(states, moves, RestingGhost(f.store.heap, f.store.free, f.chain), k); var s := states[k];
            Inv(s, g) && (s.threads == map[] ==>
              && NULL !in s.heap && IsList(s.heap, s.pool.ptr, g.free)
              && QueueShape(s.heap, g.free, s.head, s.tail, g.chain, {}) && s.tail.ptr == g.chain[|g.chain| - 1])
  {
    SnapshotIsResting(f);
    var g := RestingGhost(f.store.heap, f.store.free, f.chain);
    hide Inv, QueueShape, IsList;
    RunKeepsInv(states, moves, g, k);
    if states[k].threads == map[] {
      InvResting(states[k], Companion(states, moves, g, k));
    }
  }

  lemma ReserveShape(heap: Heap, heap': Heap, free: seq<Ptr>, free': seq<Ptr>, head: Tagged, tail: Tagged,
                     chain: seq<Ptr>, added: set<Ptr>)
    requires QueueShape(heap, free, head, tail, chain, {}) && added !! heap.Keys
    requires heap'.Keys == heap.Keys + added && Elements(free') == Elements(free) + added
    requires forall x :: x in heap ==> x in free || heap'[x] == heap[x]
    ensures QueueShape(heap', free', head, tail, chain, {})
    ensures Allocated(heap, Rest(chain)) && Allocated(heap', Rest(chain))
    ensures Values(heap', Rest(chain)) == Values(heap, Rest(chain))
  {
  }

  /** An empty queue is its dummy alone. */
  lemma DrainedShape(heap: Heap, free: seq<Ptr>, head: Tagged, tail: Tagged, chain: seq<Ptr>)
    requires QueueShape(heap, free, head, tail, chain, {}) && |chain| == 1
    ensures head.ptr in heap && head.ptr !in free
    ensures heap.Keys == Elements([head.ptr] + free)
  {
  }

  /** Moving the tail that is behind to the last node. */
  lemma HelpShape(heap: Heap, free: seq<Ptr>, head: Tagged, tail: Tagged, chain: seq<Ptr>, held: set<Ptr>)
    requires QueueShape(heap, free, head, tail, chain, held) && tail.ptr in heap && heap[tail.ptr].next.ptr != NULL
    ensures var tail' := Tagged(heap[tail.ptr].next.ptr, tail.tag + 1);
            && QueueShape(heap, free, head, tail', chain, held)
            && tail'.ptr == chain[|chain| - 1] && tail'.ptr in heap && heap[tail'.ptr].next.ptr == NULL
  {
    TailFacts(heap, free, head, tail, chain, held);
    ListLast(heap, head.ptr, chain, chain[|chain| - 1]);
  }

  lemma Unlisted(heap: Heap, free: seq<Ptr>, head: Tagged, tail: Tagged, chain: seq<Ptr>, n: Ptr)
    requires QueueShape(heap, free, head, tail, chain, {}) && Distinct(free)
    requires n !in heap || (free != [] && n == free[0])
    ensures n !in chain && n !in (if free == [] then [] else free[1..])
  {
  }
}
