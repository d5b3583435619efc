/** Consequences of the invariant that the code's comments and documentation promise: who owns a
    node, where the tail is, why stale compare-exchanges fail, what quiescence means. */
module FifoTheorems {
  import opened TaggedPtr
  import opened NodeList
  import opened Freelist
  import opened FifoMachine
  import opened FifoInvariant
  import opened FifoSafety
  import opened FifoSpec
  import opened FifoRuns

  // ---- Ownership ----

  /** Every allocated node is in exactly one of: the queue, the freelist, the hands of one thread.
      What a thread holds is allocated, and no two threads hold the same node. */
  ghost predicate Partitioned(s: State, chain: seq<Ptr>, free: seq<Ptr>) {
    && (forall x :: x in chain ==> x in s.heap && x !in free)
    && (forall x :: x in free ==> x in s.heap)
    && (forall t :: t in s.threads && Holds(s.threads[t]) != NULL ==>
                      var x := Holds(s.threads[t]); x in s.heap && x !in chain && x !in free)
    && (forall t, u :: t in s.threads && u in s.threads && t != u && Holds(s.threads[t]) != NULL ==>
                         Holds(s.threads[t]) != Holds(s.threads[u]))
    && (forall x :: x in s.heap ==> x in chain || x in free || exists t :: t in s.threads && Holds(s.threads[t]) == x)
  }

  lemma NodesArePartitioned(s: State, g: Ghost)
    requires Inv(s, g)
    ensures Partitioned(s, g.chain, g.free)
  {
    forall t | t in s.threads && Holds(s.threads[t]) != NULL
      ensures HoldsNode(s, g, t, Holds(s.threads[t]))
    {
      AtLocal(s, g, t, s.threads[t]);
    }
    hide Holds, Local;
    forall x | x in s.heap
      ensures x in g.chain || x in g.free || exists t :: t in s.threads && Holds(s.threads[t]) == x
    {
      if g.place[x].Held? {
        assert g.place[x].holder in s.threads;
      }
    }
  }

  /** With nobody inside an operation, queue (with its dummy) and freelist account for all memory. */
  lemma QuiescentAccounting(s: State, g: Ghost)
    requires Inv(s, g) && s.threads == map[]
    ensures s.heap.Keys == Elements(g.chain) + Elements(g.free)
    ensures |s.heap| == |g.chain| + |g.free|
  {
    NodesArePartitioned(s, g);
    assert Distinct(g.chain) && Distinct(g.free);
    hide Inv, Holds, Distinct;
    DistinctSize(g.chain);
    DistinctSize(g.free);
    var a, b := Elements(g.chain), Elements(g.free);
    assert a * b == {};
    assert s.heap.Keys == a + b;
    assert |s.heap.Keys| == |a| + |b|;
  }

  /** Memory is never returned while the fifo lives, and only `Allocate` moves obtain any. */
  lemma {:induction false} MemoryOnlyGrows(states: seq<State>, moves: seq<Move>, k: nat)
    requires IsRun(Unbounded, states, moves) && k <= |moves|
    ensures states[0].heap.Keys <= states[k].heap.Keys && states[k].caching == states[0].caching
    ensures (forall i :: 0 <= i < k ==> !moves[i].a.Allocate?) ==> states[k].heap.Keys == states[0].heap.Keys
  {
    if k > 0 {
      MemoryOnlyGrows(states, moves, k - 1);
      assert CanMove(Unbounded, states[k - 1], moves[k - 1], states[k]);
      KeysEffect(states[k - 1], moves[k - 1].t, moves[k - 1].a);
      hide Next;
    }
  }

  lemma KeysEffect(s: State, t: Tid, a: Action)
    requires Enabled(s, t, a) && (a.Internal? ==> Safe(s, s.threads[t]))
    ensures var s' := Next(Unbounded, s, t, a);
            && s'.caching == s.caching
            && s'.heap.Keys == if a.Allocate? then s.heap.Keys + {a.block} else s.heap.Keys
  {
  }

  /** A static freelist never allocates outside `reserve`: after `fifo(n)`, runs in which nobody
      reserves use the same n + 1 nodes forever. */
  lemma StaticTotal(states: seq<State>, moves: seq<Move>, k: nat)
    requires IsRun(Unbounded, states, moves) && k <= |moves|
    requires !states[0].caching && states[0].threads == map[]
    requires forall i :: 0 <= i < |moves| ==> !moves[i].a.InvokeReserve?
    ensures states[k].heap.Keys == states[0].heap.Keys
  {
    forall i | 0 <= i < k
      ensures !moves[i].a.Allocate?
    {
      NobodyReserves(states, moves, i);
      MemoryOnlyGrows(states, moves, i);
      assert CanMove(Unbounded, states[i], moves[i], states[i + 1]);
      assert !Reserving(states[i], moves[i].t);
      hide Next;
    }
    MemoryOnlyGrows(states, moves, k);
  }

  ghost predicate Reserving(s: State, t: Tid) {
    t in s.threads && (s.threads[t].ResAlloc? || s.threads[t].ResFree?)
  }

  lemma {:induction false} NobodyReserves(states: seq<State>, moves: seq<Move>, k: nat)
    requires IsRun(Unbounded, states, moves) && k <= |moves| && states[0].threads == map[]
    requires forall i :: 0 <= i < |moves| ==> !moves[i].a.InvokeReserve?
    ensures forall t :: !Reserving(states[k], t)
  {
    if k > 0 {
      NobodyReserves(states, moves, k - 1);
      var s, t, a := states[k - 1], moves[k - 1].t, moves[k - 1].a;
      assert CanMove(Unbounded, s, moves[k - 1], states[k]);
      assert !Reserving(s, t);
      StaysOut(s, t, a);
      hide Next;
      forall u
        ensures !Reserving(states[k], u)
      {
        assert u != t ==> !Reserving(s, u);
      }
    }
  }

  lemma StaysOut(s: State, t: Tid, a: Action)
    requires Enabled(s, t, a) && (a.Internal? ==> Safe(s, s.threads[t])) && !a.InvokeReserve? && !Reserving(s, t)
    ensures !Reserving(Next(Unbounded, s, t, a), t) && OthersKept(s, Next(Unbounded, s, t, a), t)
  {
  }

  // ---- Why stale compare-exchanges fail ----

  /** A link compare-exchange that finds its expected value acts on the last node of the queue, which
      the tail points to; on a node that was dequeued, freed, reused or relinked it fails. */
  lemma LinkHitsTheLastNode(s: State, g: Ghost, t: Tid)
    requires Inv(s, g) && t in s.threads && s.threads[t].EnqLink?
    ensures var pc := s.threads[t];
            && pc.tail.ptr in s.heap
            && (s.heap[pc.tail.ptr].next == pc.next ==> s.tail == pc.tail && pc.tail.ptr == g.chain[|g.chain| - 1])
  {
    AtLocal(s, g, t, s.threads[t]);
    AnchorsHold(s, g);
    hide Inv, Shape;
  }

  /** A head compare-exchange that finds its expected value removes the node in front, installs its
      successor, and that node is not the one the tail points to. */
  lemma HeadSwingIsExact(s: State, g: Ghost, t: Tid)
    requires Inv(s, g) && t in s.threads && s.threads[t].DeqSwing? && s.threads[t].head == s.head
    ensures var pc := s.threads[t];
            |g.chain| > 1 && pc.head.ptr == g.chain[0] && pc.next.ptr == g.chain[1] && s.tail.ptr != pc.head.ptr
  {
    AtLocal(s, g, t, s.threads[t]);
    AnchorsHold(s, g);
    hide Inv, Shape;
  }

  /** `allocate` installs the true successor of the node it takes, and the node it takes is held by
      nobody: the same node is never handed out twice without a `deallocate` in between. */
  lemma AllocateIsExact(s: State, g: Ghost, t: Tid, v: Value, seen: Tagged, succ: Ptr)
    requires At(s, g, t, EnqAlloc(v, SwingPool(seen, succ))) && s.pool == seen
    ensures |g.free| > 0 && seen.ptr == g.free[0] && succ == LinkTo(g.free, 1)
    ensures forall u :: u in s.threads ==> Holds(s.threads[u]) != seen.ptr
  {
    AtLocal(s, g, t, s.threads[t]);
    PopIsExact(s.heap, s.pool, g.free, seen, succ);
    assert seen.ptr in g.free;
    NodesArePartitioned(s, g);
    hide Inv, Shape, Local, Holds;
    assert succ == LinkTo(g.free[1..], 0);
  }

  /** The check marked in the code as not part of the published algorithm never fires: once head is
      confirmed and differs from tail, the loaded link is not null. */
  lemma DefensiveCheckIsDead(s: State, g: Ghost, t: Tid)
    requires Inv(s, g) && t in s.threads && s.threads[t].DeqRecheck?
    ensures var pc := s.threads[t]; pc.head == s.head && pc.head.ptr != pc.tail.ptr ==> pc.next.ptr != NULL
  {
    var pc := s.threads[t];
    StepDeqRecheck(s, g, t, pc.ret, pc.head, pc.tail, pc.next);
  }

  /** Nobody gets stuck: a thread inside an operation always has a next step, which touches only
      allocated memory. */
  lemma AlwaysCanMove(s: State, g: Ghost, t: Tid, block: Ptr, bits: Node)
    requires Inv(s, g) && t in s.threads && block != NULL && block !in s.heap
    ensures Safe(s, s.threads[t])
    ensures || Enabled(s, t, Internal(false))
            || Enabled(s, t, Allocate(block, bits))
            || (s.threads[t].Done? && Enabled(s, t, Return(s.threads[t].result)))
  {
    LocalIsSafe(s, g, t);
    SomeMove(s, t, block, bits);
    hide *;
  }

  lemma SomeMove(s: State, t: Tid, block: Ptr, bits: Node)
    requires t in s.threads && block != NULL && block !in s.heap
    ensures || Enabled(s, t, Internal(false))
            || Enabled(s, t, Allocate(block, bits))
            || (s.threads[t].Done? && Enabled(s, t, Return(s.threads[t].result)))
  {
  }

  // ---- The tags of links ----

  /** Which steps write the link of `x`. */
  lemma LinkEffect(s: State, t: Tid, a: Action, x: Ptr)
    requires Enabled(s, t, a) && (a.Internal? ==> Safe(s, s.threads[t])) && x in s.heap
    ensures x in Next(Unbounded, s, t, a).heap
    ensures var now := Next(Unbounded, s, t, a).heap[x].next;
            || now == s.heap[x].next
            || (Links(s, t, a) && x == s.threads[t].tail.ptr && now.tag == s.heap[x].next.tag + 1)
            || (t in s.threads && s.threads[t].EnqInitNext? && x == s.threads[t].n && now.tag == s.threads[t].tag + 1)
            || (t in s.threads && RelinksFree(s.threads[t]) && x == s.threads[t].n && now.tag == s.threads[t].free.tag)
  {
  }

  predicate RelinksFree(pc: Pc) {
    (pc.DeqFree? || pc.ResFree?) && pc.free.WriteLink?
  }

  /** A thread that writes links knows the tag it overwrites. */
  lemma WriterKnowsTag(s: State, g: Ghost, t: Tid)
    requires Inv(s, g) && t in s.threads
    ensures var pc := s.threads[t];
            && (pc.EnqInitNext? ==> pc.n in s.heap && s.heap[pc.n].next.tag == pc.tag && pc.n !in g.chain)
            && (RelinksFree(pc) ==> pc.n in s.heap && s.heap[pc.n].next.tag == pc.free.tag && pc.n !in g.chain)
  {
    AtLocal(s, g, t, s.threads[t]);
    assert PlaceOk(s, g);
    hide Inv, Shape, HeadAndTail, NextSeen, LinkGuard, TailLags, AllocLocal, SavedTail, SavedHead;
  }

  /** No step lowers the tag of any node's link: not linking, not freeing, not constructing. */
  lemma LinkTagsRise(s: State, g: Ghost, t: Tid, a: Action, x: Ptr)
    requires Inv(s, g) && Enabled(s, t, a) && (a.Internal? ==> Safe(s, s.threads[t])) && x in s.heap
    ensures x in Next(Unbounded, s, t, a).heap && s.heap[x].next.tag <= Next(Unbounded, s, t, a).heap[x].next.tag
  {
    LinkEffect(s, t, a, x);
    if t in s.threads {
      WriterKnowsTag(s, g, t);
    }
    hide Inv, Next;
  }

  /** `x` is the last node of the queue and carries `link`, or its link's tag has passed that one. */
  ghost predicate LastOrPassed(s: State, g: Ghost, x: Ptr, link: Tagged) {
    && x in s.heap
    && (link.tag < s.heap[x].next.tag || (|g.chain| > 0 && x == g.chain[|g.chain| - 1] && s.heap[x].next == link))
  }

  lemma LastOrPassedStep(s: State, g: Ghost, t: Tid, a: Action, x: Ptr, link: Tagged)
    requires Inv(s, g) && Enabled(s, t, a) && (a.Internal? ==> Safe(s, s.threads[t])) && LastOrPassed(s, g, x, link)
    ensures LastOrPassed(Next(Unbounded, s, t, a), GhostNext(s, g, t, a), x, link)
  {
    hide Inv, GhostNext;
    LinkTagsRise(s, g, t, a, x);
    LinkEffect(s, t, a, x);
    ChainEffect(s, g, t, a);
    if t in s.threads {
      WriterKnowsTag(s, g, t);
    }
    if Links(s, t, a) {
      LinkHitsTheLastNode(s, g, t);
    }
    if Unlinks(s, t, a) {
      HeadSwingIsExact(s, g, t);
    }
  }

  /** Over whole runs: a (null, tag) link read from the last node of the queue is never seen in that
      node again once the node is not the last one any more, wherever the node goes meanwhile. */
  lemma {:induction false} NullLinkNeverComesBack(states: seq<State>, moves: seq<Move>, g: Ghost, i: nat, j: nat,
                                                  x: Ptr, link: Tagged)
    requires IsRun(Unbounded, states, moves) && Inv(states[0], g) && i <= j <= |moves|
    requires LastOrPassed(states[i], Companion(states, moves, g, i), x, link)
    ensures LastOrPassed(states[j], Companion(states, moves, g, j), x, link)
    decreases j
  {
    hide Inv, LastOrPassed;
    if i < j {
      NullLinkNeverComesBack(states, moves, g, i, j - 1, x, link);
      RunKeepsInv(states, moves, g, j - 1);
      assert CanMove(Unbounded, states[j - 1], moves[j - 1], states[j]);
      LastOrPassedStep(states[j - 1], Companion(states, moves, g, j - 1), moves[j - 1].t, moves[j - 1].a, x, link);
    }
  }

  // ---- Quiescence ----

  /** The tail is the last or the last but one node of the queue, always. */
  lemma TailIsClose(s: State, g: Ghost)
    requires Inv(s, g)
    ensures var k := |g.chain|;
            k > 0 && s.head.ptr == g.chain[0]
            && (s.tail.ptr == g.chain[k - 1] || (k > 1 && s.tail.ptr == g.chain[k - 2]))
  {
    hide Local, PlaceOk;
  }

  /** `empty()` is exact when no operation is in progress. */
  lemma EmptyIsExact(s: State, g: Ghost)
    requires Inv(s, g) && s.threads == map[]
    ensures Allocated(s.heap, Rest(g.chain))
    ensures s.head.ptr == s.tail.ptr <==> Abs(s, g).queue == []
    ensures s.tail.ptr == g.chain[|g.chain| - 1] && s.tail.tag - s.head.tag == |Abs(s, g).queue|
  {
    ShapeAllocated(s, g);
    hide Local, PlaceOk;
  }

  // ---- Every state of every run ----

  /** In every state that a run from the constructed fifo reaches the nodes are partitioned, the tail is the last node
      of the queue or the last but one, and with nobody inside an operation `empty` is exact. */
  lemma ReachableStates(states: seq<State>, moves: seq<Move>, free: seq<Ptr>, k: nat)
    requires IsRun(Unbounded, states, moves) && Initial(states[0], free) && k <= |moves|
    ensures var s, g := states[k], Companion(states, moves, InitialGhost(states[0], free), k); var n := |g.chain|;
            && Partitioned(s, g.chain, g.free)
            && IsList(s.heap, s.head.ptr, g.chain) && IsList(s.heap, s.pool.ptr, g.free)
            && n > 0 && (s.tail.ptr == g.chain[n - 1] || (n > 1 && s.tail.ptr == g.chain[n - 2]))
            && Allocated(s.heap, Rest(g.chain))
            && (s.threads == map[] ==>
                  && (s.head.ptr == s.tail.ptr <==> Abs(s, g).queue == [])
                  && s.heap.Keys == Elements(g.chain) + Elements(g.free) && |s.heap| == n + |g.free|)
  {
    InitialInv(states[0], free);
    hide Inv, Initial, IsRun, Partitioned, Abs, IsList;
    RunKeepsInv(states, moves, InitialGhost(states[0], free), k);
    ReachableState(states[k], Companion(states, moves, InitialGhost(states[0], free), k));
  }

  lemma ReachableState(s: State, g: Ghost)
    requires Inv(s, g)
    ensures Partitioned(s, g.chain, g.free) && IsList(s.heap, s.head.ptr, g.chain) && IsList(s.heap, s.pool.ptr, g.free)
    ensures var n := |g.chain|;
            n > 0 && (s.tail.ptr == g.chain[n - 1] || (n > 1 && s.tail.ptr == g.chain[n - 2]))
    ensures Allocated(s.heap, Rest(g.chain))
    ensures s.threads == map[] ==>
              && (s.head.ptr == s.tail.ptr <==> Abs(s, g).queue == [])
              && s.heap.Keys == Elements(g.chain) + Elements(g.free) && |s.heap| == |g.chain| + |g.free|
  {
    assert Shape(s, g);
    ShapeAllocated(s, g);
    hide Local, PlaceOk, TailOk, IsList, Partitioned, Abs;
    assert IsList(s.heap, s.head.ptr, g.chain) && IsList(s.heap, s.pool.ptr, g.free);
    hide Inv, Shape;
    NodesArePartitioned(s, g);
    TailIsClose(s, g);
    if s.threads == map[] {
      EmptyIsExact(s, g);
      QuiescentAccounting(s, g);
    }
  }
}
