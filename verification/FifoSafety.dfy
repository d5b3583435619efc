/** Every atomic step of the concurrent fifo keeps the invariant. The steps fall into a few kinds by
    what they do to shared memory; each kind has one lemma about the shared shape and about what the
    other threads rely on, and each program point one lemma about the thread that moves. */
module FifoSafety {
  import opened TaggedPtr
  import opened NodeList
  import opened Freelist
  import opened FifoMachine
  import opened FifoInvariant

  /** How the companion of a state follows a step. */
  ghost function GhostAdvance(s: State, g: Ghost, t: Tid, spurious: bool): Ghost
    requires t in s.threads && Safe(s, s.threads[t])
  {
    match s.threads[t]
    case EnqAlloc(_, LoadPool) => if |g.free| == 0 then g.(sawDry := g.sawDry + {t}) else g
    case EnqAlloc(_, SwingPool(seen, _)) =>
      if s.pool == seen && !spurious then g.(free := Rest(g.free), place := g.place[seen.ptr := Held(t)])
      else if |g.free| == 0 then g.(sawDry := g.sawDry + {t})
      else g
    case EnqLink(_, n, tail, next) =>
      if s.heap[tail.ptr].next == next && !spurious then
        g.(chain := g.chain + [n], place := g.place[n := Queued], linker := t)
      else g
    case DeqLoadNext(_, _, _) => SeesQueue(g, t)
    case DeqSwing(_, head, _, _) =>
      if s.head == head && !spurious then g.(chain := Rest(g.chain), place := g.place[head.ptr := Held(t)])
      else g
    case DeqFree(_, n, PushPool(seen)) => GhostPush(s, g, n, seen, spurious)
    case ResFree(_, n, PushPool(seen)) => GhostPush(s, g, n, seen, spurious)
    case _ => g
  }

  /** `sawEmpty` tells what the thread's latest load of `head->next` has found. */
  ghost function SeesQueue(g: Ghost, t: Tid): Ghost {
    g.(sawEmpty := if |g.chain| == 1 then g.sawEmpty + {t} else g.sawEmpty - {t})
  }

  ghost function GhostPush(s: State, g: Ghost, n: Ptr, seen: Tagged, spurious: bool): Ghost {
    if s.pool == seen && !spurious then g.(free := [n] + g.free, place := g.place[n := Free]) else g
  }

  ghost function GhostNext(s: State, g: Ghost, t: Tid, a: Action): Ghost
    requires Enabled(s, t, a)
    requires a.Internal? ==> Safe(s, s.threads[t])
  {
    match a
    case InvokeEnqueue(_) => g.(sawDry := g.sawDry - {t})
    case InvokeDequeue(_) => g.(sawEmpty := g.sawEmpty - {t})
    case InvokeReserve(_) => g
    case Internal(spurious) => GhostAdvance(s, g, t, spurious)
    case Allocate(block, _) => g.(place := g.place[block := Held(t)])
    case Return(_) => g
  }

  // ---- Kinds of steps ----

  /** `t` is not the thread that everybody waits for to swing the tail. */
  ghost predicate NotLinker(s: State, t: Tid) {
    t in s.threads && s.threads[t].EnqSwing? ==> s.threads[t].tail != s.tail
  }

  /** Only the program counter of `t` changes, and perhaps what `t` has observed. */
  ghost predicate QuietStep(s: State, g: Ghost, s': State, g': Ghost, t: Tid) {
    && s' == s.(threads := s'.threads)
    && g' == g.(sawEmpty := g'.sawEmpty, sawDry := g'.sawDry)
    && OthersKept(s, s', t)
    && (forall u :: u != t ==> (u in g.sawEmpty <==> u in g'.sawEmpty) && (u in g.sawDry <==> u in g'.sawDry))
  }

  /** Whatever node is marked as held by `t` is the one `t` holds. */
  ghost predicate HolderOk(s: State, g: Ghost, t: Tid) {
    forall x :: x in g.place && g.place[x] == Held(t) ==> t in s.threads && Holds(s.threads[t]) == x
  }

  predicate HoldsNothing(s: State, t: Tid) {
    t in s.threads ==> Holds(s.threads[t]) == NULL
  }

  lemma HolderFromPlace(s: State, g: Ghost, t: Tid)
    requires PlaceOk(s, g)
    ensures HolderOk(s, g, t)
    ensures HoldsNothing(s, t) ==> forall x :: x in g.place ==> g.place[x] != Held(t)
  {
  }

  /** The nodes the shared pointers reach first are allocated and not in the freelist. */
  ghost predicate Anchors(s: State, g: Ghost) {
    && s.head.ptr in s.heap && s.head.ptr in g.chain
    && s.tail.ptr in s.heap && s.tail.ptr in g.chain
    && (s.heap[s.head.ptr].next.ptr != NULL ==>
          s.heap[s.head.ptr].next.ptr in s.heap && s.heap[s.head.ptr].next.ptr in g.chain)
  }

  lemma AnchorsHold(s: State, g: Ghost)
    requires Shape(s, g)
    ensures Anchors(s, g)
    ensures s.head.ptr == g.chain[0]
    ensures s.heap[s.tail.ptr].next.ptr == NULL ==>
              s.tail.ptr == g.chain[|g.chain| - 1] && s.tail.tag == s.head.tag + |g.chain| - 1
    ensures s.heap[s.tail.ptr].next.ptr != NULL ==>
              var k, p := |g.chain|, s.heap[s.tail.ptr].next.ptr;
              k > 1 && s.tail.ptr == g.chain[k - 2] && s.tail.tag == s.head.tag + k - 2
              && p == g.chain[k - 1] && p != s.head.ptr
    ensures s.heap[s.head.ptr].next.ptr == LinkTo(g.chain, 1)
  {
    assert g.chain[0] in g.chain;
    ListLast(s.heap, s.head.ptr, g.chain, s.tail.ptr);
  }

  /** Bookkeeping of places: only node `n` changes place, and only thread `t` what it holds. */
  lemma MovePlace(s: State, g: Ghost, s': State, g': Ghost, t: Tid, n: Ptr, p: Place)
    requires PlaceOk(s, g) && s'.heap.Keys == s.heap.Keys + {n} && n != NULL && g'.place == g.place[n := p]
    requires forall x :: x != n ==> (x in g'.chain <==> x in g.chain) && (x in g'.free <==> x in g.free)
    requires (p == Queued <==> n in g'.chain) && (p == Free <==> n in g'.free)
    requires OthersKept(s, s', t) && HolderOk(s', g', t) && (p.Held? ==> p.holder == t)
    ensures PlaceOk(s', g')
  {
    forall x | x in g'.place && g'.place[x].Held?
      ensures g'.place[x].holder in s'.threads && Holds(s'.threads[g'.place[x].holder]) == x
    {
      if g'.place[x].holder != t {
        assert x in g.place && g.place[x] == g'.place[x];
      }
    }
    hide Holds;
  }

  /** Steps that leave head and tail alone and change at most the node `n`, which is private to `t`
      or was not allocated, disturb nobody, if they respect the freelist's top cell. */
  lemma PrivateRely(s: State, g: Ghost, s': State, g': Ghost, t: Tid, n: Ptr)
    requires Anchors(s, g) && PlaceOk(s, g) && s'.head == s.head && s'.tail == s.tail
    requires n in s.heap ==> n in s'.heap && (s'.heap[n] == s.heap[n] ||
                              (g.place[n] == Held(t) && s.heap[n].next.tag <= s'.heap[n].next.tag))
    requires forall x :: x in s.heap && x != n ==> x in s'.heap && s'.heap[x] == s.heap[x]
    requires forall x :: x in g.place && x != n ==> x in g'.place && g'.place[x] == g.place[x]
    requires n in g.place ==> g.place[n] == Free || g.place[n] == Held(t)
    requires TopRely(s.heap, s.pool, g.free, s'.heap, s'.pool, g'.free)
    requires g'.sawEmpty == g.sawEmpty && g'.sawDry == g.sawDry
    ensures Rely(s, g, s', g', t)
  {
  }

  lemma TailKept(s: State, g: Ghost, s': State, g': Ghost, t: Tid)
    requires TailOk(s, g) && s'.head == s.head && s'.tail == s.tail && g'.chain == g.chain && g'.linker == g.linker
    requires OthersKept(s, s', t) && NotLinker(s, t)
    ensures TailOk(s', g')
  {
  }

  // ---- The shared shape and the others' ground, kind by kind ----

  /** A quiet step by a thread that justifies its own next program point keeps everything. */
  lemma Quiet(s: State, g: Ghost, s': State, g': Ghost, t: Tid)
    requires Inv(s, g) && QuietStep(s, g, s', g', t) && NotLinker(s, t) && HolderOk(s', g', t)
    requires t in s'.threads ==> Local(s', g', t, s'.threads[t])
    ensures Inv(s', g')
  {
    AnchorsHold(s, g);
    QuietShape(s, g, s', g', t);
    QuietRely(s, g, s', g', t);
    hide Rely;
    hide Shape;
    hide Local;
    hide HolderOk;
    Assemble(s, g, s', g', t);
  }

  lemma QuietShape(s: State, g: Ghost, s': State, g': Ghost, t: Tid)
    requires Shape(s, g) && QuietStep(s, g, s', g', t) && NotLinker(s, t) && HolderOk(s', g', t)
    ensures Shape(s', g')
  {
  }

  lemma QuietRely(s: State, g: Ghost, s': State, g': Ghost, t: Tid)
    requires Anchors(s, g) && QuietStep(s, g, s', g', t)
    ensures Rely(s, g, s', g', t)
  {
  }

  /** `t` rewrites a node that it holds, never lowering the tag of the node's link. */
  lemma WritePrivate(s: State, g: Ghost, t: Tid, n: Ptr, node: Node, pc: Pc)
    requires Shape(s, g) && HoldsNode(s, g, t, n) && s.heap[n].next.tag <= node.next.tag && NotLinker(s, t)
    requires Holds(pc) == n && HolderOk(s, g, t)
    ensures var s' := Go(s.(heap := s.heap[n := node]), t, pc);
            Shape(s', g) && Rely(s, g, s', g, t)
  {
    hide IsList;
    hide PlaceOk;
    hide Rely;
    hide Holds;
    hide TailOk;
    var s' := Go(s.(heap := s.heap[n := node]), t, pc);
    AnchorsHold(s, g);
    ListsAreNotHeld(s, g, n);
    ListFrame(s.heap, s'.heap, s.head.ptr, g.chain);
    ListFrame(s.heap, s'.heap, s.pool.ptr, g.free);
    MovePlace(s, g, s', g, t, n, g.place[n]);
    PrivateRely(s, g, s', g, t, n);
    TailKept(s, g, s', g, t);
  }

  /** A node that a thread holds is in neither list. */
  lemma ListsAreNotHeld(s: State, g: Ghost, n: Ptr)
    requires PlaceOk(s, g) && n in g.place && g.place[n].Held?
    ensures n !in g.chain && n !in g.free
  {
  }

  /** `t` takes the first node off the freelist. */
  lemma TakeNode(s: State, g: Ghost, t: Tid, succ: Ptr, pc: Pc)
    requires Shape(s, g) && NotLinker(s, t) && HoldsNothing(s, t)
    requires SuccessorRead(s.heap, s.pool, g.free, s.pool, succ) && Holds(pc) == s.pool.ptr
    ensures var s' := Go(s.(pool := Tagged(succ, s.pool.tag + 1)), t, pc);
            var g' := g.(free := Rest(g.free), place := g.place[s.pool.ptr := Held(t)]);
            Shape(s', g') && Rely(s, g, s', g', t)
  {
    hide IsList;
    hide PlaceOk;
    hide Rely;
    hide Holds;
    hide TailOk;
    var s' := Go(s.(pool := Tagged(succ, s.pool.tag + 1)), t, pc);
    var n := s.pool.ptr;
    var g' := g.(free := Rest(g.free), place := g.place[n := Held(t)]);
    AnchorsHold(s, g);
    PopIsExact(s.heap, s.pool, g.free, s.pool, succ);
    FreeIsNotQueued(s, g, n);
    HolderFromPlace(s, g, t);
    MovePlace(s, g, s', g', t, n, Held(t));
    PrivateRely(s, g, s', g', t, n);
    TailKept(s, g, s', g', t);
  }

  /** `t` receives a fresh node from the system allocator. */
  lemma TakeBlock(s: State, g: Ghost, t: Tid, n: Ptr, bits: Node, pc: Pc)
    requires Shape(s, g) && NotLinker(s, t) && HoldsNothing(s, t)
    requires n != NULL && n !in s.heap && Holds(pc) == n
    ensures var s' := Go(s.(heap := s.heap[n := bits]), t, pc);
            var g' := g.(place := g.place[n := Held(t)]);
            Shape(s', g') && Rely(s, g, s', g', t)
  {
    hide IsList;
    hide PlaceOk;
    hide Rely;
    hide Holds;
    hide TailOk;
    var s' := Go(s.(heap := s.heap[n := bits]), t, pc);
    var g' := g.(place := g.place[n := Held(t)]);
    AnchorsHold(s, g);
    ListedIsAllocated(s, g, n);
    ListFrame(s.heap, s'.heap, s.head.ptr, g.chain);
    ListFrame(s.heap, s'.heap, s.pool.ptr, g.free);
    HolderFromPlace(s, g, t);
    MovePlace(s, g, s', g', t, n, Held(t));
    PrivateRely(s, g, s', g', t, n);
    TailKept(s, g, s', g', t);
  }

  /** `t` puts its node on the freelist. */
  lemma GiveNode(s: State, g: Ghost, t: Tid, n: Ptr, pc: Pc)
    requires Shape(s, g) && NotLinker(s, t) && HoldsNode(s, g, t, n) && HolderOk(s, g, t)
    requires s.heap[n].next.ptr == s.pool.ptr && Holds(pc) == NULL
    ensures var s' := Go(s.(pool := Tagged(n, s.pool.tag)), t, pc);
            var g' := g.(free := [n] + g.free, place := g.place[n := Free]);
            Shape(s', g') && Rely(s, g, s', g', t)
  {
    hide IsList;
    hide PlaceOk;
    hide Rely;
    hide Holds;
    hide TailOk;
    var s' := Go(s.(pool := Tagged(n, s.pool.tag)), t, pc);
    var g' := g.(free := [n] + g.free, place := g.place[n := Free]);
    AnchorsHold(s, g);
    ListsAreNotHeld(s, g, n);
    ListPush(s.heap, s.heap, s.pool.ptr, g.free, n);
    MovePlace(s, g, s', g', t, n, Free);
    PrivateRely(s, g, s', g', t, n);
    TailKept(s, g, s', g', t);
  }

  /** `t` links its node behind the last one. */
  lemma LinkNode(s: State, g: Ghost, t: Tid, n: Ptr)
    requires Shape(s, g) && NotLinker(s, t) && HoldsNode(s, g, t, n) && HolderOk(s, g, t)
    requires s.tail.ptr in s.heap && s.heap[s.tail.ptr].next.ptr == NULL && s.heap[n].next.ptr == NULL
    ensures var link := Tagged(n, s.heap[s.tail.ptr].next.tag + 1);
            var s' := Go(s.(heap := SetNext(s.heap, s.tail.ptr, link)), t, EnqSwing(n, s.tail));
            var g' := g.(chain := g.chain + [n], place := g.place[n := Queued], linker := t);
            Shape(s', g') && Rely(s, g, s', g', t)
  {
    hide IsList;
    hide PlaceOk;
    hide Rely;
    hide Holds;
    var link := Tagged(n, s.heap[s.tail.ptr].next.tag + 1);
    var s' := Go(s.(heap := SetNext(s.heap, s.tail.ptr, link)), t, EnqSwing(n, s.tail));
    var g' := g.(chain := g.chain + [n], place := g.place[n := Queued], linker := t);
    AnchorsHold(s, g);
    ListsAreNotHeld(s, g, n);
    LinkLists(s, g, s'.heap, n);
    MovePlace(s, g, s', g', t, n, Queued);
    LinkRely(s, g, s', g', t, n);
  }

  lemma LinkLists(s: State, g: Ghost, heap': Heap, n: Ptr)
    requires Shape(s, g) && n !in g.chain && n != NULL && n in s.heap && s.heap[n].next.ptr == NULL
    requires s.tail.ptr in s.heap && s.heap[s.tail.ptr].next.ptr == NULL
    requires heap'.Keys == s.heap.Keys && heap'[s.tail.ptr].next.ptr == n
    requires forall x :: x in s.heap && x != s.tail.ptr ==> heap'[x] == s.heap[x]
    ensures IsList(heap', s.head.ptr, g.chain + [n]) && IsList(heap', s.pool.ptr, g.free)
  {
    AnchorsHold(s, g);
    var k := |g.chain|;
    assert g.chain[k - 1] !in g.chain[..k - 1];
    ListAppend(s.heap, heap', s.head.ptr, g.chain, n);
    QueuedPlace(s, g, s.tail.ptr);
    ListFrame(s.heap, heap', s.pool.ptr, g.free);
  }

  lemma LinkRely(s: State, g: Ghost, s': State, g': Ghost, t: Tid, n: Ptr)
    requires Anchors(s, g) && PlaceOk(s, g) && HoldsNode(s, g, t, n) && s.heap[s.tail.ptr].next.ptr == NULL
    requires s'.heap == SetNext(s.heap, s.tail.ptr, Tagged(n, s.heap[s.tail.ptr].next.tag + 1))
    requires s' == s.(heap := s'.heap, threads := s'.threads)
    requires g' == g.(chain := g'.chain, place := g.place[n := Queued], linker := g'.linker)
    ensures Rely(s, g, s', g', t)
  {
    QueuedPlace(s, g, s.tail.ptr);
    hide PlaceOk;
  }

  /** The tail moves on to the node behind it. */
  lemma MoveTail(s: State, g: Ghost, t: Tid, p: Ptr, pc: Pc)
    requires Shape(s, g) && t in s.threads && Holds(pc) == Holds(s.threads[t])
    requires s.tail.ptr in s.heap && s.heap[s.tail.ptr].next.ptr == p && p != NULL
    ensures var s' := Go(s.(tail := Tagged(p, s.tail.tag + 1)), t, pc);
            Shape(s', g) && Rely(s, g, s', g, t)
  {
    hide IsList;
    hide PlaceOk;
    hide Rely;
    hide Holds;
    var s' := Go(s.(tail := Tagged(p, s.tail.tag + 1)), t, pc);
    AnchorsHold(s, g);
    QueuedPlace(s, g, s.head.ptr);
    HolderFromPlace(s, g, t);
    assert g.place == g.place[s.head.ptr := Queued];
    MovePlace(s, g, s', g, t, s.head.ptr, Queued);
    TailMoveRely(s, g, s', t);
  }

  lemma TailMoveRely(s: State, g: Ghost, s': State, t: Tid)
    requires Anchors(s, g) && s.heap[s.tail.ptr].next.ptr != NULL && s'.tail.ptr != s.head.ptr
    requires s' == s.(tail := s'.tail, threads := s'.threads) && s.tail.tag < s'.tail.tag
    ensures Rely(s, g, s', g, t)
  {
  }

  /** The head moves on to the node behind it; `t` keeps the node left behind. */
  lemma MoveHead(s: State, g: Ghost, t: Tid, p: Ptr, pc: Pc)
    requires Shape(s, g) && NotLinker(s, t) && HoldsNothing(s, t) && Holds(pc) == s.head.ptr
    requires s.head.ptr in s.heap && s.heap[s.head.ptr].next.ptr == p && p != NULL && s.tail.ptr != s.head.ptr
    ensures var s' := Go(s.(head := Tagged(p, s.head.tag + 1)), t, pc);
            var g' := g.(chain := Rest(g.chain), place := g.place[s.head.ptr := Held(t)]);
            Shape(s', g') && Rely(s, g, s', g', t)
  {
    hide IsList;
    hide PlaceOk;
    hide Rely;
    hide Holds;
    var n := s.head.ptr;
    var s' := Go(s.(head := Tagged(p, s.head.tag + 1)), t, pc);
    var g' := g.(chain := Rest(g.chain), place := g.place[n := Held(t)]);
    AnchorsHold(s, g);
    ListPop(s.heap, n, g.chain);
    QueuedPlace(s, g, n);
    HolderFromPlace(s, g, t);
    MovePlace(s, g, s', g', t, n, Held(t));
    HeadMoveRely(s, g, s', g', t);
  }

  lemma HeadMoveRely(s: State, g: Ghost, s': State, g': Ghost, t: Tid)
    requires Anchors(s, g) && PlaceOk(s, g) && s.head.tag < s'.head.tag
    requires s' == s.(head := s'.head, threads := s'.threads)
    requires g' == g.(chain := g'.chain, place := g.place[s.head.ptr := Held(t)])
    ensures Rely(s, g, s', g', t)
  {
  }

  lemma QueuedPlace(s: State, g: Ghost, x: Ptr)
    requires PlaceOk(s, g) && x in g.chain && x in s.heap
    ensures x in g.place && g.place[x] == Queued && x !in g.free && x != NULL
  {
  }

  lemma FreeIsNotQueued(s: State, g: Ghost, x: Ptr)
    requires PlaceOk(s, g) && x in g.free && x in s.heap
    ensures x in g.place && g.place[x] == Free && x !in g.chain && x != NULL
  {
  }

  lemma ListedIsAllocated(s: State, g: Ghost, x: Ptr)
    requires Shape(s, g) && x !in s.heap
    ensures x !in g.chain && x !in g.free && x !in g.place
  {
  }

  // ---- The steps ----

  /** Local knowledge does not depend on program counters. */
  lemma LocalGo(s: State, s': State, g: Ghost, t: Tid, pc: Pc)
    requires s' == s.(threads := s'.threads) && Local(s, g, t, pc)
    ensures Local(s', g, t, pc)
  {
  }

  /** A thread whose step is quiet needs to justify only its own next program point. */
  lemma QuietGo(s: State, g: Ghost, g': Ghost, t: Tid, pc: Pc)
    requires Inv(s, g) && t in s.threads && NotLinker(s, t)
    requires QuietStep(s, g, Go(s, t, pc), g', t) && Local(s, g', t, pc)
    requires Holds(pc) == Holds(s.threads[t])
    ensures Inv(Go(s, t, pc), g')
  {
    LocalGo(s, Go(s, t, pc), g', t, pc);
    hide Local;
    HolderFromPlace(s, g, t);
    Quiet(s, g, Go(s, t, pc), g', t);
  }

  /** What a reader of head, tail and links sees. */
  lemma ReadFacts(s: State, g: Ghost)
    requires Shape(s, g)
    ensures s.head.ptr in s.heap && s.tail.ptr in s.heap && s.head.ptr != NULL
    ensures s.heap[s.head.ptr].next.ptr == NULL <==> |g.chain| == 1
    ensures s.heap[s.head.ptr].next.ptr != NULL ==> s.heap[s.head.ptr].next.ptr in s.heap
    ensures s.tail.ptr != s.head.ptr ==> s.heap[s.head.ptr].next.ptr != NULL
  {
    AnchorsHold(s, g);
  }

  /** `t` is at `pc`, and the invariant holds. */
  ghost predicate At(s: State, g: Ghost, t: Tid, pc: Pc) {
    Inv(s, g) && t in s.threads && s.threads[t] == pc
  }

  lemma HolderFromShape(s: State, g: Ghost, t: Tid)
    requires Shape(s, g)
    ensures HolderOk(s, g, t)
    ensures HoldsNothing(s, t) ==> forall x :: x in g.place ==> g.place[x] != Held(t)
  {
  }

  lemma AtLocal(s: State, g: Ghost, t: Tid, pc: Pc)
    requires At(s, g, t, pc)
    ensures Local(s, g, t, pc) && Shape(s, g)
  {
  }

  lemma StepEnqReadTag(s: State, g: Ghost, t: Tid, v: Value, n: Ptr)
    requires At(s, g, t, EnqReadTag(v, n)) && n in s.heap
    ensures Inv(Go(s, t, EnqInitNext(v, n, s.heap[n].next.tag)), g)
  {
    hide Inv, Shape, Rely;
    AtLocal(s, g, t, EnqReadTag(v, n));
    ReadFacts(s, g);
    QuietGo(s, g, g, t, EnqInitNext(v, n, s.heap[n].next.tag));
  }

  lemma StepEnqLoadTail(s: State, g: Ghost, t: Tid, v: Value, n: Ptr)
    requires At(s, g, t, EnqLoadTail(v, n))
    ensures Inv(Go(s, t, EnqLoadNext(v, n, s.tail)), g)
  {
    hide Inv, Shape, Rely;
    AtLocal(s, g, t, EnqLoadTail(v, n));
    ReadFacts(s, g);
    QuietGo(s, g, g, t, EnqLoadNext(v, n, s.tail));
  }

  lemma StepEnqLoadNext(s: State, g: Ghost, t: Tid, v: Value, n: Ptr, tail: Tagged)
    requires At(s, g, t, EnqLoadNext(v, n, tail)) && tail.ptr in s.heap
    ensures Inv(Go(s, t, EnqRecheck(v, n, tail, s.heap[tail.ptr].next)), g)
  {
    hide Inv, Shape, Rely;
    AtLocal(s, g, t, EnqLoadNext(v, n, tail));
    ReadFacts(s, g);
    QuietGo(s, g, g, t, EnqRecheck(v, n, tail, s.heap[tail.ptr].next));
  }

  lemma StepEnqRecheck(s: State, g: Ghost, t: Tid, v: Value, n: Ptr, tail: Tagged, next: Tagged)
    requires At(s, g, t, EnqRecheck(v, n, tail, next))
    ensures tail != s.tail ==> Inv(Go(s, t, EnqLoadTail(v, n)), g)
    ensures tail == s.tail && next.ptr == NULL ==> Inv(Go(s, t, EnqLink(v, n, tail, next)), g)
    ensures tail == s.tail && next.ptr != NULL ==> Inv(Go(s, t, EnqHelp(v, n, tail, next)), g)
  {
    hide Inv, Shape, Rely;
    AtLocal(s, g, t, EnqRecheck(v, n, tail, next));
    if tail != s.tail {
      QuietGo(s, g, g, t, EnqLoadTail(v, n));
    } else if next.ptr == NULL {
      QuietGo(s, g, g, t, EnqLink(v, n, tail, next));
    } else {
      QuietGo(s, g, g, t, EnqHelp(v, n, tail, next));
    }
  }

  lemma StepDeqLoadHead(s: State, g: Ghost, t: Tid, ret: Value)
    requires At(s, g, t, DeqLoadHead(ret))
    ensures Inv(Go(s, t, DeqLoadTail(ret, s.head)), g)
  {
    hide Inv, Shape, Rely;
    AtLocal(s, g, t, DeqLoadHead(ret));
    ReadFacts(s, g);
    QuietGo(s, g, g, t, DeqLoadTail(ret, s.head));
  }

  lemma StepDeqLoadTail(s: State, g: Ghost, t: Tid, ret: Value, head: Tagged)
    requires At(s, g, t, DeqLoadTail(ret, head))
    ensures Inv(Go(s, t, DeqLoadNext(ret, head, s.tail)), g)
  {
    hide Inv, Shape, Rely;
    AtLocal(s, g, t, DeqLoadTail(ret, head));
    ReadFacts(s, g);
    QuietGo(s, g, g, t, DeqLoadNext(ret, head, s.tail));
  }

  lemma StepDeqLoadNext(s: State, g: Ghost, t: Tid, ret: Value, head: Tagged, tail: Tagged)
    requires At(s, g, t, DeqLoadNext(ret, head, tail)) && head.ptr in s.heap
    ensures Inv(Go(s, t, DeqRecheck(ret, head, tail, s.heap[head.ptr].next)), SeesQueue(g, t))
  {
    hide Inv, Shape, Rely;
    AtLocal(s, g, t, DeqLoadNext(ret, head, tail));
    ReadFacts(s, g);
    QuietGo(s, g, SeesQueue(g, t), t, DeqRecheck(ret, head, tail, s.heap[head.ptr].next));
  }

  lemma StepDeqRecheck(s: State, g: Ghost, t: Tid, ret: Value, head: Tagged, tail: Tagged, next: Tagged)
    requires At(s, g, t, DeqRecheck(ret, head, tail, next))
    ensures head != s.head ==> Inv(Go(s, t, DeqLoadHead(ret)), g)
    ensures head == s.head && head.ptr == tail.ptr && next.ptr == NULL ==> Inv(Go(s, t, Done(Dequeued(false, ret))), g)
    ensures head == s.head && head.ptr == tail.ptr && next.ptr != NULL ==> Inv(Go(s, t, DeqHelp(ret, tail, next)), g)
    ensures head == s.head && head.ptr != tail.ptr ==> next.ptr != NULL
    ensures head == s.head && head.ptr != tail.ptr ==> Inv(Go(s, t, DeqRead(ret, head, tail, next)), g)
  {
    hide Inv, Shape, Rely;
    AtLocal(s, g, t, DeqRecheck(ret, head, tail, next));
    ReadFacts(s, g);
    if head != s.head {
      QuietGo(s, g, g, t, DeqLoadHead(ret));
    } else if head.ptr != tail.ptr {
      QuietGo(s, g, g, t, DeqRead(ret, head, tail, next));
    } else if next.ptr == NULL {
      QuietGo(s, g, g, t, Done(Dequeued(false, ret)));
    } else {
      QuietGo(s, g, g, t, DeqHelp(ret, tail, next));
    }
  }

  lemma StepDeqRead(s: State, g: Ghost, t: Tid, ret: Value, head: Tagged, tail: Tagged, next: Tagged)
    requires At(s, g, t, DeqRead(ret, head, tail, next)) && next.ptr in s.heap
    ensures Inv(Go(s, t, DeqSwing(s.heap[next.ptr].data, head, tail, next)), g)
  {
    hide Inv, Shape, Rely;
    AtLocal(s, g, t, DeqRead(ret, head, tail, next));
    ReadFacts(s, g);
    QuietGo(s, g, g, t, DeqSwing(s.heap[next.ptr].data, head, tail, next));
  }

  /** A step that is not quiet: its kind has given the shape and the others' ground. */
  lemma Conclude(s: State, g: Ghost, s': State, g': Ghost, t: Tid)
    requires Inv(s, g) && Shape(s', g') && Rely(s, g, s', g', t) && OthersKept(s, s', t)
    requires t in s'.threads && Local(s', g', t, s'.threads[t])
    ensures Inv(s', g')
  {
    hide Inv, Shape, Rely;
    hide Local;
    Assemble(s, g, s', g', t);
  }

  lemma StepWrite(s: State, g: Ghost, t: Tid, n: Ptr, node: Node, pc: Pc)
    requires Inv(s, g) && Shape(s, g) && t in s.threads && !s.threads[t].EnqSwing?
    requires HoldsNode(s, g, t, n) && s.heap[n].next.tag <= node.next.tag && Holds(pc) == n
    requires Local(Go(s.(heap := s.heap[n := node]), t, pc), g, t, pc)
    ensures Inv(Go(s.(heap := s.heap[n := node]), t, pc), g)
  {
    hide Inv, Shape, Rely;
    hide Local;
    HolderFromShape(s, g, t);
    WritePrivate(s, g, t, n, node, pc);
    Conclude(s, g, Go(s.(heap := s.heap[n := node]), t, pc), g, t);
  }

  lemma StepEnqInitData(s: State, g: Ghost, t: Tid, v: Value, n: Ptr)
    requires At(s, g, t, EnqInitData(v, n)) && n in s.heap
    ensures Inv(Go(s.(heap := SetData(s.heap, n, v)), t, EnqReadTag(v, n)), g)
  {
    hide Inv, Shape, Rely;
    AtLocal(s, g, t, EnqInitData(v, n));
    StepWrite(s, g, t, n, s.heap[n].(data := v), EnqReadTag(v, n));
  }

  /** The constructor raises the tag of the link it clears. */
  lemma StepEnqInitNext(s: State, g: Ghost, t: Tid, v: Value, n: Ptr, tag: nat)
    requires At(s, g, t, EnqInitNext(v, n, tag)) && n in s.heap
    ensures Inv(Go(s.(heap := SetNext(s.heap, n, Tagged(NULL, tag + 1))), t, EnqLoadTail(v, n)), g)
  {
    hide Inv, Shape, Rely;
    AtLocal(s, g, t, EnqInitNext(v, n, tag));
    StepWrite(s, g, t, n, s.heap[n].(next := Tagged(NULL, tag + 1)), EnqLoadTail(v, n));
  }

  lemma StepEnqLink(s: State, g: Ghost, t: Tid, v: Value, n: Ptr, tail: Tagged, next: Tagged)
    requires At(s, g, t, EnqLink(v, n, tail, next)) && tail.ptr in s.heap
    ensures Inv(Go(s, t, EnqLoadTail(v, n)), g)
    ensures s.heap[tail.ptr].next == next ==>
              var g' := g.(chain := g.chain + [n], place := g.place[n := Queued], linker := t);
              Inv(Go(s.(heap := SetNext(s.heap, tail.ptr, Tagged(n, next.tag + 1))), t, EnqSwing(n, tail)), g')
  {
    hide Inv, Shape, Rely;
    AtLocal(s, g, t, EnqLink(v, n, tail, next));
    QuietGo(s, g, g, t, EnqLoadTail(v, n));
    if s.heap[tail.ptr].next == next {
      HolderFromShape(s, g, t);
      LinkNode(s, g, t, n);
      var s' := Go(s.(heap := SetNext(s.heap, tail.ptr, Tagged(n, next.tag + 1))), t, EnqSwing(n, tail));
      var g' := g.(chain := g.chain + [n], place := g.place[n := Queued], linker := t);
      Conclude(s, g, s', g', t);
    }
  }

  /** Swinging the tail, by the thread that linked or by a helper. */
  lemma StepSwingTail(s: State, g: Ghost, t: Tid, tail: Tagged, p: Ptr, pc: Pc)
    requires Inv(s, g) && Shape(s, g) && t in s.threads && TailLags(s, tail, p) && Holds(pc) == Holds(s.threads[t])
    requires s.threads[t].EnqSwing? ==> s.threads[t].tail == tail
    requires Local(s, g, t, pc) && Local(SwingTail(Unbounded, s, tail, p), g, t, pc)
    ensures Inv(Go(SwingTail(Unbounded, s, tail, p), t, pc), g)
  {
    hide Inv, Shape, Rely;
    if s.tail == tail {
      MoveTail(s, g, t, p, pc);
      LocalGo(SwingTail(Unbounded, s, tail, p), Go(SwingTail(Unbounded, s, tail, p), t, pc), g, t, pc);
      hide Local;
      Conclude(s, g, Go(SwingTail(Unbounded, s, tail, p), t, pc), g, t);
    } else {
      hide Local;
      QuietGo(s, g, g, t, pc);
    }
  }

  lemma StepEnqSwing(s: State, g: Ghost, t: Tid, n: Ptr, tail: Tagged)
    requires At(s, g, t, EnqSwing(n, tail))
    ensures Inv(Go(SwingTail(Unbounded, s, tail, n), t, Done(Enqueued(true))), g)
  {
    hide Inv, Shape, Rely;
    AtLocal(s, g, t, EnqSwing(n, tail));
    StepSwingTail(s, g, t, tail, n, Done(Enqueued(true)));
  }

  lemma StepEnqHelp(s: State, g: Ghost, t: Tid, v: Value, n: Ptr, tail: Tagged, next: Tagged)
    requires At(s, g, t, EnqHelp(v, n, tail, next))
    ensures Inv(Go(SwingTail(Unbounded, s, tail, next.ptr), t, EnqLoadTail(v, n)), g)
  {
    hide Inv, Shape, Rely;
    AtLocal(s, g, t, EnqHelp(v, n, tail, next));
    StepSwingTail(s, g, t, tail, next.ptr, EnqLoadTail(v, n));
  }

  lemma StepDeqHelp(s: State, g: Ghost, t: Tid, ret: Value, tail: Tagged, next: Tagged)
    requires At(s, g, t, DeqHelp(ret, tail, next))
    ensures Inv(Go(SwingTail(Unbounded, s, tail, next.ptr), t, DeqLoadHead(ret)), g)
  {
    hide Inv, Shape, Rely;
    AtLocal(s, g, t, DeqHelp(ret, tail, next));
    StepSwingTail(s, g, t, tail, next.ptr, DeqLoadHead(ret));
  }

  lemma StepDeqSwing(s: State, g: Ghost, t: Tid, ret: Value, head: Tagged, tail: Tagged, next: Tagged)
    requires At(s, g, t, DeqSwing(ret, head, tail, next))
    ensures Inv(Go(s, t, DeqLoadHead(ret)), g)
    ensures s.head == head ==>
              var g' := g.(chain := Rest(g.chain), place := g.place[head.ptr := Held(t)]);
              Inv(Go(s.(head := Tagged(next.ptr, head.tag + 1)), t, DeqFree(ret, head.ptr, LoadPoolForPush)), g')
  {
    hide Inv, Shape, Rely;
    AtLocal(s, g, t, DeqSwing(ret, head, tail, next));
    QuietGo(s, g, g, t, DeqLoadHead(ret));
    if s.head == head {
      var pc := DeqFree(ret, head.ptr, LoadPoolForPush);
      ReadFacts(s, g);
      MoveHead(s, g, t, next.ptr, pc);
      var s' := Go(s.(head := Tagged(next.ptr, head.tag + 1)), t, pc);
      var g' := g.(chain := Rest(g.chain), place := g.place[head.ptr := Held(t)]);
      Conclude(s, g, s', g', t);
    }
  }

  /** What a reader of the pool sees. */
  lemma PoolFacts(s: State, g: Ghost)
    requires Shape(s, g)
    ensures s.pool.ptr == NULL <==> |g.free| == 0
    ensures s.pool.ptr != NULL ==> s.pool.ptr in g.free && s.pool.ptr in s.heap
  {
    assert |g.free| > 0 ==> g.free[0] in g.free;
  }

  /** Loading the pool, at first or by a failed compare-exchange. */
  lemma StepLoadPool(s: State, g: Ghost, t: Tid, v: Value, alloc: AllocPc)
    requires At(s, g, t, EnqAlloc(v, alloc))
    ensures var pc := EnqAlloc(v, ReadSuccessor(s.pool));
            if |g.free| == 0 then Inv(Go(s, t, pc), g.(sawDry := g.sawDry + {t})) else Inv(Go(s, t, pc), g)
  {
    hide Inv, Shape, Rely;
    AtLocal(s, g, t, EnqAlloc(v, alloc));
    PoolFacts(s, g);
    var pc := EnqAlloc(v, ReadSuccessor(s.pool));
    if |g.free| == 0 {
      QuietGo(s, g, g.(sawDry := g.sawDry + {t}), t, pc);
    } else {
      QuietGo(s, g, g, t, pc);
    }
  }

  lemma StepReadSuccessor(s: State, g: Ghost, t: Tid, v: Value, seen: Tagged)
    requires At(s, g, t, EnqAlloc(v, ReadSuccessor(seen)))
    ensures seen.ptr == NULL ==> Inv(Go(s, t, Done(Enqueued(false))), g)
    ensures seen.ptr != NULL ==>
              seen.ptr in s.heap && Inv(Go(s, t, EnqAlloc(v, SwingPool(seen, s.heap[seen.ptr].next.ptr))), g)
  {
    hide Inv, Shape, Rely;
    AtLocal(s, g, t, EnqAlloc(v, ReadSuccessor(seen)));
    if seen.ptr == NULL {
      QuietGo(s, g, g, t, Done(Enqueued(false)));
    } else {
      QuietGo(s, g, g, t, EnqAlloc(v, SwingPool(seen, s.heap[seen.ptr].next.ptr)));
    }
  }

  lemma StepTakeNode(s: State, g: Ghost, t: Tid, v: Value, succ: Ptr)
    requires At(s, g, t, EnqAlloc(v, SwingPool(s.pool, succ)))
    ensures var g' := g.(free := Rest(g.free), place := g.place[s.pool.ptr := Held(t)]);
            Inv(Go(s.(pool := Tagged(succ, s.pool.tag + 1)), t, EnqInitData(v, s.pool.ptr)), g')
  {
    hide Inv, Shape, Rely;
    AtLocal(s, g, t, EnqAlloc(v, SwingPool(s.pool, succ)));
    TakeNode(s, g, t, succ, EnqInitData(v, s.pool.ptr));
    var s' := Go(s.(pool := Tagged(succ, s.pool.tag + 1)), t, EnqInitData(v, s.pool.ptr));
    Conclude(s, g, s', g.(free := Rest(g.free), place := g.place[s.pool.ptr := Held(t)]), t);
  }

  /** A thread inside `deallocate(n)`, called by dequeue or by reserve. */
  predicate Freeing(pc: Pc, n: Ptr, free: FreePc) {
    (pc.DeqFree? || pc.ResFree?) && pc.n == n && pc.free == free
  }

  lemma FreeingLocal(s: State, g: Ghost, t: Tid, pc: Pc, n: Ptr, free: FreePc)
    requires Freeing(pc, n, free)
    ensures Local(s, g, t, pc) <==> FreeLocal(s, g, t, n, free)
    ensures Holds(pc) == n
  {
  }

  lemma StepFreeReads(s: State, g: Ghost, t: Tid, n: Ptr, free: FreePc, free': FreePc, pc: Pc)
    requires Inv(s, g) && t in s.threads && Freeing(s.threads[t], n, free) && Freeing(pc, n, free')
    requires n in s.heap
    requires match free
             case WriteLink(_, _) => false
             case ReadLinkTag(seen) => free' == WriteLink(seen, s.heap[n].next.tag)
             case _ => free' == ReadLinkTag(s.pool)
    ensures Inv(Go(s, t, pc), g)
  {
    AtLocal(s, g, t, s.threads[t]);
    hide Inv, Shape, Rely, Local, Holds;
    FreeingLocal(s, g, t, s.threads[t], n, free);
    FreeingLocal(s, g, t, pc, n, free');
    QuietGo(s, g, g, t, pc);
  }

  /** `set_ptr` keeps the tag of the link that it overwrites. */
  lemma StepFreeWrite(s: State, g: Ghost, t: Tid, n: Ptr, seen: Tagged, tag: nat, pc: Pc)
    requires Inv(s, g) && t in s.threads && Freeing(s.threads[t], n, WriteLink(seen, tag))
    requires Freeing(pc, n, PushPool(seen))
    requires n in s.heap
    ensures Inv(Go(s.(heap := SetNext(s.heap, n, Tagged(seen.ptr, tag))), t, pc), g)
  {
    AtLocal(s, g, t, s.threads[t]);
    hide Inv, Shape, Rely, Local, Holds;
    FreeingLocal(s, g, t, s.threads[t], n, WriteLink(seen, tag));
    var s' := Go(s.(heap := SetNext(s.heap, n, Tagged(seen.ptr, tag))), t, pc);
    FreeingLocal(s', g, t, pc, n, PushPool(seen));
    StepWrite(s, g, t, n, s.heap[n].(next := Tagged(seen.ptr, tag)), pc);
  }

  lemma AfterFree(s: State, g: Ghost, t: Tid, pc: Pc)
    requires pc.ResAlloc? || (pc.Done? && pc.result.Dequeued? && pc.result.ok)
    ensures Local(s, g, t, pc) && Holds(pc) == NULL
  {
  }

  lemma StepFreePush(s: State, g: Ghost, t: Tid, n: Ptr, pc: Pc)
    requires Inv(s, g) && t in s.threads && Freeing(s.threads[t], n, PushPool(s.pool))
    requires pc.ResAlloc? || (pc.Done? && pc.result.Dequeued? && pc.result.ok)
    ensures var g' := g.(free := [n] + g.free, place := g.place[n := Free]);
            Inv(Go(s.(pool := Tagged(n, s.pool.tag)), t, pc), g')
  {
    AtLocal(s, g, t, s.threads[t]);
    var s', g' := Go(s.(pool := Tagged(n, s.pool.tag)), t, pc), g.(free := [n] + g.free, place := g.place[n := Free]);
    FreeingLocal(s, g, t, s.threads[t], n, PushPool(s.pool));
    assert HoldsNode(s, g, t, n) && s.heap[n].next.ptr == s.pool.ptr && NotLinker(s, t) && OthersKept(s, s', t);
    AfterFree(s', g', t, pc);
    HolderFromShape(s, g, t);
    hide *;
    GiveNode(s, g, t, n, pc);
    Conclude(s, g, s', g', t);
  }

  lemma StepResAlloc(s: State, g: Ghost, t: Tid, count: nat)
    requires At(s, g, t, ResAlloc(count))
    ensures Inv(Go(s, t, Done(Reserved)), g)
  {
    hide Inv, Shape, Rely;
    QuietGo(s, g, g, t, Done(Reserved));
  }

  /** A fresh node arrives: arbitrary bits, owned by the thread that asked. */
  lemma BlockLocal(s: State, g: Ghost, t: Tid, n: Ptr, pc: Pc)
    requires HoldsNode(s, g, t, n) && ((pc.EnqInitData? && pc.n == n) || Freeing(pc, n, LoadPoolForPush))
    ensures Local(s, g, t, pc) && Holds(pc) == n
  {
  }

  lemma StepAllocate(s: State, g: Ghost, t: Tid, n: Ptr, bits: Node, pc: Pc)
    requires Inv(s, g) && t in s.threads && (s.threads[t].EnqAlloc? || s.threads[t].ResAlloc?)
    requires n != NULL && n !in s.heap && ((pc.EnqInitData? && pc.n == n) || Freeing(pc, n, LoadPoolForPush))
    ensures Inv(Go(s.(heap := s.heap[n := bits]), t, pc), g.(place := g.place[n := Held(t)]))
  {
    hide Inv, Shape, Local, Freeing;
    AtLocal(s, g, t, s.threads[t]);
    var s', g' := Go(s.(heap := s.heap[n := bits]), t, pc), g.(place := g.place[n := Held(t)]);
    assert HoldsNode(s', g', t, n) && HoldsNothing(s, t) && NotLinker(s, t);
    hide *;
    BlockLocal(s', g', t, n, pc);
    TakeBlock(s, g, t, n, bits, pc);
    Conclude(s, g, s', g', t);
  }

  lemma StepInvoke(s: State, g: Ghost, t: Tid, a: Action)
    requires Inv(s, g) && Enabled(s, t, a) && (a.InvokeEnqueue? || a.InvokeDequeue? || a.InvokeReserve?)
    ensures Inv(Next(Unbounded, s, t, a), GhostNext(s, g, t, a))
  {
    hide Shape;
    var s', g' := Next(Unbounded, s, t, a), GhostNext(s, g, t, a);
    HolderFromShape(s, g, t);
    hide Inv;
    Quiet(s, g, s', g', t);
  }

  lemma StepReturn(s: State, g: Ghost, t: Tid, a: Action)
    requires Inv(s, g) && Enabled(s, t, a) && a.Return?
    ensures Inv(Next(Unbounded, s, t, a), GhostNext(s, g, t, a))
  {
    hide Shape;
    HolderFromShape(s, g, t);
    hide Inv;
    Quiet(s, g, Next(Unbounded, s, t, a), g, t);
  }

  /** The inductive step: every atomic access of every thread keeps the invariant, and no access
      touches memory that is not allocated. */
  lemma StepKeepsInv(s: State, g: Ghost, t: Tid, a: Action)
    requires Inv(s, g) && Enabled(s, t, a)
    ensures a.Internal? ==> Safe(s, s.threads[t])
    ensures Inv(Next(Unbounded, s, t, a), GhostNext(s, g, t, a))
  {
    hide Inv;
    match a
    case InvokeEnqueue(_) => StepInvoke(s, g, t, a);
    case InvokeDequeue(_) => StepInvoke(s, g, t, a);
    case InvokeReserve(_) => StepInvoke(s, g, t, a);
    case Return(_) => StepReturn(s, g, t, a);
    case Allocate(block, bits) => StepAllocate(s, g, t, block, bits, Next(Unbounded, s, t, a).threads[t]);
    case Internal(spurious) =>
      LocalIsSafe(s, g, t);
      StepInternal(s, g, t, spurious);
  }

  lemma StepInternal(s: State, g: Ghost, t: Tid, spurious: bool)
    requires Inv(s, g) && Enabled(s, t, Internal(spurious)) && Safe(s, s.threads[t])
    ensures Inv(Advance(Unbounded, s, t, spurious), GhostAdvance(s, g, t, spurious))
  {
    hide Inv;
    match s.threads[t]
    case EnqAlloc(v, LoadPool) => StepLoadPool(s, g, t, v, LoadPool);
    case EnqAlloc(v, ReadSuccessor(seen)) => StepReadSuccessor(s, g, t, v, seen);
    case EnqAlloc(v, SwingPool(seen, succ)) =>
      if s.pool == seen && !spurious {
        StepTakeNode(s, g, t, v, succ);
      } else {
        StepLoadPool(s, g, t, v, SwingPool(seen, succ));
      }
    case EnqInitData(v, n) => StepEnqInitData(s, g, t, v, n);
    case EnqReadTag(v, n) => StepEnqReadTag(s, g, t, v, n);
    case EnqInitNext(v, n, tag) => StepEnqInitNext(s, g, t, v, n, tag);
    case EnqLoadTail(v, n) => StepEnqLoadTail(s, g, t, v, n);
    case EnqLoadNext(v, n, tail) => StepEnqLoadNext(s, g, t, v, n, tail);
    case EnqRecheck(v, n, tail, next) => StepEnqRecheck(s, g, t, v, n, tail, next);
    case EnqLink(v, n, tail, next) => StepEnqLink(s, g, t, v, n, tail, next);
    case EnqSwing(n, tail) => StepEnqSwing(s, g, t, n, tail);
    case EnqHelp(v, n, tail, next) => StepEnqHelp(s, g, t, v, n, tail, next);
    case DeqLoadHead(ret) => StepDeqLoadHead(s, g, t, ret);
    case DeqLoadTail(ret, head) => StepDeqLoadTail(s, g, t, ret, head);
    case DeqLoadNext(ret, head, tail) => StepDeqLoadNext(s, g, t, ret, head, tail);
    case DeqRecheck(ret, head, tail, next) => StepDeqRecheck(s, g, t, ret, head, tail, next);
    case DeqHelp(ret, tail, next) => StepDeqHelp(s, g, t, ret, tail, next);
    case DeqRead(ret, head, tail, next) => StepDeqRead(s, g, t, ret, head, tail, next);
    case DeqSwing(ret, head, tail, next) => StepDeqSwing(s, g, t, ret, head, tail, next);
    case DeqFree(_, n, free) => StepFree(s, g, t, n, free, spurious);
    case ResAlloc(count) => StepResAlloc(s, g, t, count);
    case ResFree(_, n, free) => StepFree(s, g, t, n, free, spurious);
  }

  lemma StepFree(s: State, g: Ghost, t: Tid, n: Ptr, free: FreePc, spurious: bool)
    requires Inv(s, g) && Enabled(s, t, Internal(spurious)) && Safe(s, s.threads[t]) && Freeing(s.threads[t], n, free)
    ensures Inv(Advance(Unbounded, s, t, spurious), GhostAdvance(s, g, t, spurious))
  {
    hide Inv;
    var pc := Advance(Unbounded, s, t, spurious).threads[t];
    match free
    case LoadPoolForPush => StepFreeReads(s, g, t, n, free, ReadLinkTag(s.pool), pc);
    case ReadLinkTag(seen) => StepFreeReads(s, g, t, n, free, WriteLink(seen, s.heap[n].next.tag), pc);
    case WriteLink(seen, tag) => StepFreeWrite(s, g, t, n, seen, tag, pc);
    case PushPool(seen) =>
      if s.pool == seen && !spurious {
        StepFreePush(s, g, t, n, pc);
      } else {
        StepFreeReads(s, g, t, n, free, ReadLinkTag(s.pool), pc);
      }
  }
}
