/** The fifo on compressed pointers: tags are stored in 16 bits and wrap around. As long as no cell's
    tag moves 2^16 times between a thread's load of the cell and the comparison with what it loaded,
    the machine with 16-bit tags is the machine with unbounded tags seen through truncation. */
module FifoTags {
  import opened TaggedPtr
  import opened NodeList
  import opened Freelist
  import opened FreelistTags
  import opened FifoMachine
  import opened FifoInvariant
  import opened FifoSafety
  import opened FifoSpec
  import opened FifoRuns

  // ---- Truncation ----

  function WrapPc(pc: Pc): Pc {
    match pc
    case EnqAlloc(v, alloc) => EnqAlloc(v, WrapAlloc(alloc))
    case EnqInitData(_, _) => pc
    case EnqReadTag(_, _) => pc
    case EnqInitNext(v, n, tag) => EnqInitNext(v, n, tag % TAG_LIMIT)
    case EnqLoadTail(_, _) => pc
    case EnqLoadNext(v, n, tail) => EnqLoadNext(v, n, Wrap(tail))
    case EnqRecheck(v, n, tail, next) => EnqRecheck(v, n, Wrap(tail), Wrap(next))
    case EnqLink(v, n, tail, next) => EnqLink(v, n, Wrap(tail), Wrap(next))
    case EnqSwing(n, tail) => EnqSwing(n, Wrap(tail))
    case EnqHelp(v, n, tail, next) => EnqHelp(v, n, Wrap(tail), Wrap(next))
    case DeqLoadHead(_) => pc
    case DeqLoadTail(ret, head) => DeqLoadTail(ret, Wrap(head))
    case DeqLoadNext(ret, head, tail) => DeqLoadNext(ret, Wrap(head), Wrap(tail))
    case DeqRecheck(ret, head, tail, next) => DeqRecheck(ret, Wrap(head), Wrap(tail), Wrap(next))
    case DeqHelp(ret, tail, next) => DeqHelp(ret, Wrap(tail), Wrap(next))
    case DeqRead(ret, head, tail, next) => DeqRead(ret, Wrap(head), Wrap(tail), Wrap(next))
    case DeqSwing(ret, head, tail, next) => DeqSwing(ret, Wrap(head), Wrap(tail), Wrap(next))
    case DeqFree(ret, n, free) => DeqFree(ret, n, WrapFree(free))
    case ResAlloc(_) => pc
    case ResFree(count, n, free) => ResFree(count, n, WrapFree(free))
    case Done(_) => pc
  }

  function WrapThreads(threads: map<Tid, Pc>): map<Tid, Pc> {
    map t | t in threads :: WrapPc(threads[t])
  }

  function WrapState(s: State): State {
    State(s.caching, WrapHeap(s.heap), Wrap(s.pool), Wrap(s.head), Wrap(s.tail), WrapThreads(s.threads))
  }

  // ---- The window ----

  /** The loaded value and the cell that the next step of a thread at `pc` compares; twice the same
      value when the step compares nothing. */
  function Compared(s: State, pc: Pc): (Tagged, Tagged)
    requires Safe(s, pc)
  {
    match pc
    case EnqAlloc(_, SwingPool(seen, _)) => (seen, s.pool)
    case EnqRecheck(_, _, tail, _) => (tail, s.tail)
    case EnqLink(_, _, tail, next) => (next, s.heap[tail.ptr].next)
    case EnqSwing(_, tail) => (tail, s.tail)
    case EnqHelp(_, _, tail, _) => (tail, s.tail)
    case DeqRecheck(_, head, _, _) => (head, s.head)
    case DeqHelp(_, tail, _) => (tail, s.tail)
    case DeqSwing(_, head, _, _) => (head, s.head)
    case DeqFree(_, _, PushPool(seen)) => (seen, s.pool)
    case ResFree(_, _, PushPool(seen)) => (seen, s.pool)
    case _ => (s.head, s.head)
  }

  /** What the window asks of a move: fewer than 2^16 increments since the load of what it compares,
      and fresh memory whose tag field is a 16-bit value. */
  predicate MoveInWindow(s: State, m: Move) {
    && (m.a.Internal? && m.t in s.threads && Safe(s, s.threads[m.t]) ==>
          var c := Compared(s, s.threads[m.t]); InWindow(c.0, c.1))
    && (m.a.Allocate? ==> m.a.bits.next.tag < TAG_LIMIT)
  }

  /** What a thread loaded from a cell never carries a later tag than the cell does. */
  lemma ComparedInOrder(s: State, g: Ghost, t: Tid)
    requires Inv(s, g) && t in s.threads && Safe(s, s.threads[t])
    ensures var c := Compared(s, s.threads[t]); c.0.tag <= c.1.tag
  {
    AtLocal(s, g, t, s.threads[t]);
    hide Inv, Shape;
  }

  // ---- One step ----

  lemma WrapGo(s: State, t: Tid, pc: Pc)
    ensures WrapState(Go(s, t, pc)) == Go(WrapState(s), t, WrapPc(pc))
  {
  }

  /** The truncated machine answers the comparison of this step as the unbounded one does. */
  predicate SameAnswer(s: State, pc: Pc)
    requires Safe(s, pc)
  {
    var c := Compared(s, pc);
    Wrap(c.0) == Wrap(c.1) <==> c.0 == c.1
  }

  lemma WrapSafe(s: State, pc: Pc)
    requires Safe(s, pc)
    ensures Safe(WrapState(s), WrapPc(pc))
  {
  }

  lemma WrapEnabled(s: State, t: Tid, a: Action)
    ensures Enabled(s, t, a) <==> Enabled(WrapState(s), t, a)
  {
  }

  lemma WrapAllocate(s: State, t: Tid, spurious: bool)
    requires Enabled(s, t, Internal(spurious)) && Safe(s, s.threads[t]) && SameAnswer(s, s.threads[t])
    requires Enabled(WrapState(s), t, Internal(spurious)) && Safe(WrapState(s), WrapState(s).threads[t])
    requires s.threads[t].EnqAlloc?
    ensures Advance(Bits16, WrapState(s), t, spurious) == WrapState(Advance(Unbounded, s, t, spurious))
  {
    var s' := Advance(Unbounded, s, t, spurious);
    WrapGo(s.(heap := s'.heap, pool := s'.pool, head := s'.head, tail := s'.tail), t, s'.threads[t]);
    WrapAllocAdvance(s.heap, s.pool, s.threads[t].alloc, spurious);
    hide AllocAdvance, WrapHeap, WrapAlloc;
  }

  lemma WrapDeqFree(s: State, t: Tid, spurious: bool)
    requires Enabled(s, t, Internal(spurious)) && Safe(s, s.threads[t]) && SameAnswer(s, s.threads[t])
    requires Enabled(WrapState(s), t, Internal(spurious)) && Safe(WrapState(s), WrapState(s).threads[t])
    requires s.threads[t].DeqFree?
    ensures Advance(Bits16, WrapState(s), t, spurious) == WrapState(Advance(Unbounded, s, t, spurious))
  {
    var s' := Advance(Unbounded, s, t, spurious);
    WrapGo(s.(heap := s'.heap, pool := s'.pool, head := s'.head, tail := s'.tail), t, s'.threads[t]);
    WrapFreeAdvance(s.heap, s.pool, s.threads[t].n, s.threads[t].free, spurious);
    hide FreeAdvance, WrapHeap, WrapFree;
  }

  lemma WrapResFree(s: State, t: Tid, spurious: bool)
    requires Enabled(s, t, Internal(spurious)) && Safe(s, s.threads[t]) && SameAnswer(s, s.threads[t])
    requires Enabled(WrapState(s), t, Internal(spurious)) && Safe(WrapState(s), WrapState(s).threads[t])
    requires s.threads[t].ResFree?
    ensures Advance(Bits16, WrapState(s), t, spurious) == WrapState(Advance(Unbounded, s, t, spurious))
  {
    var s' := Advance(Unbounded, s, t, spurious);
    WrapGo(s.(heap := s'.heap, pool := s'.pool, head := s'.head, tail := s'.tail), t, s'.threads[t]);
    WrapFreeAdvance(s.heap, s.pool, s.threads[t].n, s.threads[t].free, spurious);
    hide FreeAdvance, WrapHeap, WrapFree;
  }

  lemma WrapInitData(s: State, t: Tid, spurious: bool, v: Value, n: Ptr)
    requires Enabled(s, t, Internal(spurious)) && Safe(s, s.threads[t]) && SameAnswer(s, s.threads[t])
    requires Enabled(WrapState(s), t, Internal(spurious)) && Safe(WrapState(s), WrapState(s).threads[t])
    requires s.threads[t] == EnqInitData(v, n)
    ensures Advance(Bits16, WrapState(s), t, spurious) == WrapState(Advance(Unbounded, s, t, spurious))
  {
    var s' := Advance(Unbounded, s, t, spurious);
    WrapGo(s.(heap := s'.heap, pool := s'.pool, head := s'.head, tail := s'.tail), t, s'.threads[t]);
    WrapSetHeap(s.heap, n, s'.heap[n]);
    hide WrapHeap;
  }

  lemma WrapReadTag(s: State, t: Tid, spurious: bool, v: Value, n: Ptr)
    requires Enabled(s, t, Internal(spurious)) && Safe(s, s.threads[t]) && SameAnswer(s, s.threads[t])
    requires Enabled(WrapState(s), t, Internal(spurious)) && Safe(WrapState(s), WrapState(s).threads[t])
    requires s.threads[t] == EnqReadTag(v, n)
    ensures Advance(Bits16, WrapState(s), t, spurious) == WrapState(Advance(Unbounded, s, t, spurious))
  {
    var s' := Advance(Unbounded, s, t, spurious);
    WrapGo(s.(heap := s'.heap, pool := s'.pool, head := s'.head, tail := s'.tail), t, s'.threads[t]);
  }

  lemma WrapInitNext(s: State, t: Tid, spurious: bool, v: Value, n: Ptr, tag: nat)
    requires Enabled(s, t, Internal(spurious)) && Safe(s, s.threads[t]) && SameAnswer(s, s.threads[t])
    requires Enabled(WrapState(s), t, Internal(spurious)) && Safe(WrapState(s), WrapState(s).threads[t])
    requires s.threads[t] == EnqInitNext(v, n, tag)
    ensures Advance(Bits16, WrapState(s), t, spurious) == WrapState(Advance(Unbounded, s, t, spurious))
  {
    var s' := Advance(Unbounded, s, t, spurious);
    WrapGo(s.(heap := s'.heap, pool := s'.pool, head := s'.head, tail := s'.tail), t, s'.threads[t]);
    WrapSetHeap(s.heap, n, s'.heap[n]);
    hide WrapHeap;
  }

  lemma WrapLinks(s: State, t: Tid, spurious: bool, v: Value, n: Ptr, tail: Tagged, next: Tagged)
    requires Enabled(s, t, Internal(spurious)) && Safe(s, s.threads[t]) && SameAnswer(s, s.threads[t])
    requires Enabled(WrapState(s), t, Internal(spurious)) && Safe(WrapState(s), WrapState(s).threads[t])
    requires s.threads[t] == EnqLink(v, n, tail, next) && s.heap[tail.ptr].next == next && !spurious
    ensures Advance(Bits16, WrapState(s), t, spurious) == WrapState(Advance(Unbounded, s, t, spurious))
  {
    var heap' := SetNext(s.heap, tail.ptr, Tagged(n, NextTag(Unbounded, next.tag)));
    WrapGo(s.(heap := heap'), t, EnqSwing(n, tail));
    WrapSetHeap(s.heap, tail.ptr, heap'[tail.ptr]);
    assert WrapHeap(s.heap)[tail.ptr] == WrapNode(s.heap[tail.ptr]);
    hide WrapHeap, WrapThreads;
  }

  lemma WrapLinkLost(s: State, t: Tid, spurious: bool, v: Value, n: Ptr, tail: Tagged, next: Tagged)
    requires Enabled(s, t, Internal(spurious)) && Safe(s, s.threads[t]) && SameAnswer(s, s.threads[t])
    requires Enabled(WrapState(s), t, Internal(spurious)) && Safe(WrapState(s), WrapState(s).threads[t])
    requires s.threads[t] == EnqLink(v, n, tail, next) && (s.heap[tail.ptr].next != next || spurious)
    ensures Advance(Bits16, WrapState(s), t, spurious) == WrapState(Advance(Unbounded, s, t, spurious))
  {
    WrapGo(s, t, EnqLoadTail(v, n));
    assert WrapHeap(s.heap)[tail.ptr] == WrapNode(s.heap[tail.ptr]);
    hide WrapHeap, WrapThreads;
  }

  lemma WrapLink(s: State, t: Tid, spurious: bool, v: Value, n: Ptr, tail: Tagged, next: Tagged)
    requires Enabled(s, t, Internal(spurious)) && Safe(s, s.threads[t]) && SameAnswer(s, s.threads[t])
    requires Enabled(WrapState(s), t, Internal(spurious)) && Safe(WrapState(s), WrapState(s).threads[t])
    requires s.threads[t] == EnqLink(v, n, tail, next)
    ensures Advance(Bits16, WrapState(s), t, spurious) == WrapState(Advance(Unbounded, s, t, spurious))
  {
    hide SameAnswer, Advance, WrapState;
    if s.heap[tail.ptr].next == next && !spurious {
      WrapLinks(s, t, spurious, v, n, tail, next);
    } else {
      WrapLinkLost(s, t, spurious, v, n, tail, next);
    }
  }

  lemma WrapEnqLoads(s: State, t: Tid, spurious: bool)
    requires Enabled(s, t, Internal(spurious)) && Safe(s, s.threads[t]) && SameAnswer(s, s.threads[t])
    requires Enabled(WrapState(s), t, Internal(spurious)) && Safe(WrapState(s), WrapState(s).threads[t])
    requires s.threads[t].EnqLoadTail? || s.threads[t].EnqLoadNext? || s.threads[t].ResAlloc?
    ensures Advance(Bits16, WrapState(s), t, spurious) == WrapState(Advance(Unbounded, s, t, spurious))
  {
    var s' := Advance(Unbounded, s, t, spurious);
    WrapGo(s.(heap := s'.heap, pool := s'.pool, head := s'.head, tail := s'.tail), t, s'.threads[t]);
  }

  lemma WrapDeqLoads(s: State, t: Tid, spurious: bool)
    requires Enabled(s, t, Internal(spurious)) && Safe(s, s.threads[t]) && SameAnswer(s, s.threads[t])
    requires Enabled(WrapState(s), t, Internal(spurious)) && Safe(WrapState(s), WrapState(s).threads[t])
    requires s.threads[t].DeqLoadHead? || s.threads[t].DeqLoadTail?
    ensures Advance(Bits16, WrapState(s), t, spurious) == WrapState(Advance(Unbounded, s, t, spurious))
  {
    var s' := Advance(Unbounded, s, t, spurious);
    WrapGo(s.(heap := s'.heap, pool := s'.pool, head := s'.head, tail := s'.tail), t, s'.threads[t]);
  }

  lemma WrapDeqLoadNext(s: State, t: Tid, spurious: bool, ret: Value, head: Tagged, tail: Tagged)
    requires Enabled(s, t, Internal(spurious)) && Safe(s, s.threads[t]) && SameAnswer(s, s.threads[t])
    requires Enabled(WrapState(s), t, Internal(spurious)) && Safe(WrapState(s), WrapState(s).threads[t])
    requires s.threads[t] == DeqLoadNext(ret, head, tail)
    ensures Advance(Bits16, WrapState(s), t, spurious) == WrapState(Advance(Unbounded, s, t, spurious))
  {
    var s' := Advance(Unbounded, s, t, spurious);
    WrapGo(s.(heap := s'.heap, pool := s'.pool, head := s'.head, tail := s'.tail), t, s'.threads[t]);
  }

  lemma WrapDeqRead(s: State, t: Tid, spurious: bool, ret: Value, head: Tagged, tail: Tagged, next: Tagged)
    requires Enabled(s, t, Internal(spurious)) && Safe(s, s.threads[t]) && SameAnswer(s, s.threads[t])
    requires Enabled(WrapState(s), t, Internal(spurious)) && Safe(WrapState(s), WrapState(s).threads[t])
    requires s.threads[t] == DeqRead(ret, head, tail, next)
    ensures Advance(Bits16, WrapState(s), t, spurious) == WrapState(Advance(Unbounded, s, t, spurious))
  {
    var s' := Advance(Unbounded, s, t, spurious);
    WrapGo(s.(heap := s'.heap, pool := s'.pool, head := s'.head, tail := s'.tail), t, s'.threads[t]);
  }

  lemma WrapEnqRecheck(s: State, t: Tid, spurious: bool)
    requires Enabled(s, t, Internal(spurious)) && Safe(s, s.threads[t]) && SameAnswer(s, s.threads[t])
    requires Enabled(WrapState(s), t, Internal(spurious)) && Safe(WrapState(s), WrapState(s).threads[t])
    requires s.threads[t].EnqRecheck?
    ensures Advance(Bits16, WrapState(s), t, spurious) == WrapState(Advance(Unbounded, s, t, spurious))
  {
    var s' := Advance(Unbounded, s, t, spurious);
    WrapGo(s.(heap := s'.heap, pool := s'.pool, head := s'.head, tail := s'.tail), t, s'.threads[t]);
  }

  lemma WrapDeqRecheck(s: State, t: Tid, spurious: bool)
    requires Enabled(s, t, Internal(spurious)) && Safe(s, s.threads[t]) && SameAnswer(s, s.threads[t])
    requires Enabled(WrapState(s), t, Internal(spurious)) && Safe(WrapState(s), WrapState(s).threads[t])
    requires s.threads[t].DeqRecheck?
    ensures Advance(Bits16, WrapState(s), t, spurious) == WrapState(Advance(Unbounded, s, t, spurious))
  {
    var s' := Advance(Unbounded, s, t, spurious);
    WrapGo(s.(heap := s'.heap, pool := s'.pool, head := s'.head, tail := s'.tail), t, s'.threads[t]);
  }

  lemma WrapEnqSwing(s: State, t: Tid, spurious: bool, n: Ptr, tail: Tagged)
    requires Enabled(s, t, Internal(spurious)) && Safe(s, s.threads[t]) && SameAnswer(s, s.threads[t])
    requires Enabled(WrapState(s), t, Internal(spurious)) && Safe(WrapState(s), WrapState(s).threads[t])
    requires s.threads[t] == EnqSwing(n, tail)
    ensures Advance(Bits16, WrapState(s), t, spurious) == WrapState(Advance(Unbounded, s, t, spurious))
  {
    var s' := Advance(Unbounded, s, t, spurious);
    WrapGo(s.(heap := s'.heap, pool := s'.pool, head := s'.head, tail := s'.tail), t, s'.threads[t]);
  }

  lemma WrapEnqHelp(s: State, t: Tid, spurious: bool, v: Value, n: Ptr, tail: Tagged, next: Tagged)
    requires Enabled(s, t, Internal(spurious)) && Safe(s, s.threads[t]) && SameAnswer(s, s.threads[t])
    requires Enabled(WrapState(s), t, Internal(spurious)) && Safe(WrapState(s), WrapState(s).threads[t])
    requires s.threads[t] == EnqHelp(v, n, tail, next)
    ensures Advance(Bits16, WrapState(s), t, spurious) == WrapState(Advance(Unbounded, s, t, spurious))
  {
    var s' := Advance(Unbounded, s, t, spurious);
    WrapGo(s.(heap := s'.heap, pool := s'.pool, head := s'.head, tail := s'.tail), t, s'.threads[t]);
  }

  lemma WrapDeqHelp(s: State, t: Tid, spurious: bool, ret: Value, tail: Tagged, next: Tagged)
    requires Enabled(s, t, Internal(spurious)) && Safe(s, s.threads[t]) && SameAnswer(s, s.threads[t])
    requires Enabled(WrapState(s), t, Internal(spurious)) && Safe(WrapState(s), WrapState(s).threads[t])
    requires s.threads[t] == DeqHelp(ret, tail, next)
    ensures Advance(Bits16, WrapState(s), t, spurious) == WrapState(Advance(Unbounded, s, t, spurious))
  {
    var s' := Advance(Unbounded, s, t, spurious);
    WrapGo(s.(heap := s'.heap, pool := s'.pool, head := s'.head, tail := s'.tail), t, s'.threads[t]);
  }

  lemma WrapHeadSwings(s: State, t: Tid, ret: Value, tail: Tagged, next: Tagged)
    requires Enabled(s, t, Internal(false)) && Safe(s, s.threads[t])
    requires Enabled(WrapState(s), t, Internal(false)) && Safe(WrapState(s), WrapState(s).threads[t])
    requires s.threads[t] == DeqSwing(ret, s.head, tail, next)
    ensures Advance(Bits16, WrapState(s), t, false) == WrapState(Advance(Unbounded, s, t, false))
  {
    WrapGo(s.(head := Tagged(next.ptr, s.head.tag + 1)), t, DeqFree(ret, s.head.ptr, LoadPoolForPush));
    WrapNext(s.head, next.ptr);
    hide WrapHeap;
  }

  lemma WrapHeadSwing(s: State, t: Tid, spurious: bool, ret: Value, head: Tagged, tail: Tagged, next: Tagged)
    requires Enabled(s, t, Internal(spurious)) && Safe(s, s.threads[t]) && SameAnswer(s, s.threads[t])
    requires Enabled(WrapState(s), t, Internal(spurious)) && Safe(WrapState(s), WrapState(s).threads[t])
    requires s.threads[t] == DeqSwing(ret, head, tail, next)
    ensures Advance(Bits16, WrapState(s), t, spurious) == WrapState(Advance(Unbounded, s, t, spurious))
  {
    if head == s.head && !spurious {
      WrapHeadSwings(s, t, ret, tail, next);
    } else {
      WrapGo(s, t, DeqLoadHead(ret));
      hide WrapHeap;
    }
  }

  /** Truncation commutes with every atomic step whose comparison stays inside the window. */
  lemma WrapAdvance(s: State, t: Tid, spurious: bool)
    requires Enabled(s, t, Internal(spurious)) && Safe(s, s.threads[t]) && SameAnswer(s, s.threads[t])
    ensures Enabled(WrapState(s), t, Internal(spurious)) && Safe(WrapState(s), WrapState(s).threads[t])
    ensures Advance(Bits16, WrapState(s), t, spurious) == WrapState(Advance(Unbounded, s, t, spurious))
  {
    WrapSafe(s, s.threads[t]);
    WrapEnabled(s, t, Internal(spurious));
    hide Advance, WrapState, SameAnswer, Safe;
    match s.threads[t]
    case EnqAlloc(_, _) => WrapAllocate(s, t, spurious);
    case EnqInitData(v, n) => WrapInitData(s, t, spurious, v, n);
    case EnqReadTag(v, n) => WrapReadTag(s, t, spurious, v, n);
    case EnqInitNext(v, n, tag) => WrapInitNext(s, t, spurious, v, n, tag);
    case EnqLoadTail(_, _) => WrapEnqLoads(s, t, spurious);
    case EnqLoadNext(_, _, _) => WrapEnqLoads(s, t, spurious);
    case EnqRecheck(_, _, _, _) => WrapEnqRecheck(s, t, spurious);
    case EnqLink(v, n, tail, next) => WrapLink(s, t, spurious, v, n, tail, next);
    case EnqSwing(n, tail) => WrapEnqSwing(s, t, spurious, n, tail);
    case EnqHelp(v, n, tail, next) => WrapEnqHelp(s, t, spurious, v, n, tail, next);
    case DeqHelp(ret, tail, next) => WrapDeqHelp(s, t, spurious, ret, tail, next);
    case DeqRecheck(_, _, _, _) => WrapDeqRecheck(s, t, spurious);
    case DeqSwing(ret, head, tail, next) => WrapHeadSwing(s, t, spurious, ret, head, tail, next);
    case DeqFree(_, _, _) => WrapDeqFree(s, t, spurious);
    case ResFree(_, _, _) => WrapResFree(s, t, spurious);
    case ResAlloc(_) => WrapEnqLoads(s, t, spurious);
    case DeqLoadHead(_) => WrapDeqLoads(s, t, spurious);
    case DeqLoadTail(_, _) => WrapDeqLoads(s, t, spurious);
    case DeqLoadNext(ret, head, tail) => WrapDeqLoadNext(s, t, spurious, ret, head, tail);
    case DeqRead(ret, head, tail, next) => WrapDeqRead(s, t, spurious, ret, head, tail, next);
  }

  lemma WrapAllocated(s: State, t: Tid, a: Action)
    requires Enabled(s, t, a) && Enabled(WrapState(s), t, a) && a.Allocate? && a.bits.next.tag < TAG_LIMIT
    ensures Next(Bits16, WrapState(s), t, a) == WrapState(Next(Unbounded, s, t, a))
  {
    var s' := Next(Unbounded, s, t, a);
    WrapSetHeap(s.heap, a.block, a.bits);
    WrapGo(s.(heap := s'.heap), t, s'.threads[t]);
    hide WrapHeap;
  }

  lemma WrapCalls(s: State, t: Tid, a: Action)
    requires Enabled(s, t, a) && Enabled(WrapState(s), t, a) && !a.Internal? && !a.Allocate?
    ensures Next(Bits16, WrapState(s), t, a) == WrapState(Next(Unbounded, s, t, a))
  {
    var s' := Next(Unbounded, s, t, a);
    if a.Return? {
      assert WrapThreads(s.threads - {t}) == WrapThreads(s.threads) - {t};
    } else {
      WrapGo(s, t, s'.threads[t]);
    }
  }

  /** The same for calls, returns and fresh memory. */
  lemma WrapOuter(s: State, t: Tid, a: Action)
    requires Enabled(s, t, a) && !a.Internal? && (a.Allocate? ==> a.bits.next.tag < TAG_LIMIT)
    ensures Enabled(WrapState(s), t, a)
    ensures Next(Bits16, WrapState(s), t, a) == WrapState(Next(Unbounded, s, t, a))
  {
    WrapEnabled(s, t, a);
    hide Next, WrapState, Enabled;
    if a.Allocate? {
      WrapAllocated(s, t, a);
    } else {
      WrapCalls(s, t, a);
    }
  }

  lemma WrapMove(s: State, g: Ghost, m: Move, s': State)
    requires Inv(s, g) && CanMove(Unbounded, s, m, s') && MoveInWindow(s, m)
    ensures CanMove(Bits16, WrapState(s), m, WrapState(s'))
  {
    if m.a.Internal? {
      ComparedInOrder(s, g, m.t);
      var c := Compared(s, s.threads[m.t]);
      WrapCompare(c.0, c.1);
      hide Inv, Compared, Safe, Advance;
      WrapAdvance(s, m.t, m.a.spurious);
    } else {
      hide Inv;
      WrapOuter(s, m.t, m.a);
    }
  }

  // ---- Whole runs ----

  /** `us` is an unbounded run by the first moves of `moves`, and `states` is what truncation shows. */
  ghost predicate Shadows(us: seq<State>, states: seq<State>, moves: seq<Move>) {
    && 0 < |us| <= |moves| + 1 && |states| == |moves| + 1
    && IsRun(Unbounded, us, moves[..|us| - 1])
    && forall i :: 0 <= i < |us| ==> states[i] == WrapState(us[i])
  }

  /** Every run of the 16-bit machine is the truncation of an unbounded run, up to its end or to the
      first move that leaves the window. */
  lemma {:induction false} Bits16RunIsShadowed(states: seq<State>, moves: seq<Move>, u0: State, g: Ghost, k: nat)
    returns (us: seq<State>)
    requires IsRun(Bits16, states, moves) && states[0] == WrapState(u0) && Inv(u0, g) && k <= |moves|
    ensures Shadows(us, states, moves) && us[0] == u0
    ensures |us| == k + 1 || (|us| <= k && !MoveInWindow(us[|us| - 1], moves[|us| - 1]))
  {
    hide Inv, WrapState, MoveInWindow;
    if k == 0 {
      us := [u0];
    } else {
      us := Bits16RunIsShadowed(states, moves, u0, g, k - 1);
      if |us| == k && MoveInWindow(us[k - 1], moves[k - 1]) {
        var u := ShadowMove(states, moves, us, g, k);
        assert moves[..k][..k - 1] == moves[..k - 1];
        us := us + [u];
      }
    }
  }

  lemma ShadowMove(states: seq<State>, moves: seq<Move>, us: seq<State>, g: Ghost, k: nat) returns (u: State)
    requires IsRun(Bits16, states, moves) && 0 < k <= |moves| && |us| == k && Shadows(us, states, moves)
    requires Inv(us[0], g) && MoveInWindow(us[k - 1], moves[k - 1])
    ensures CanMove(Unbounded, us[k - 1], moves[k - 1], u) && states[k] == WrapState(u)
  {
    hide Inv, MoveInWindow;
    RunKeepsInv(us, moves[..k - 1], g, k - 1);
    var s, h, m := us[k - 1], Companion(us, moves[..k - 1], g, k - 1), moves[k - 1];
    assert CanMove(Bits16, states[k - 1], m, states[k]);
    WrapEnabled(s, m.t, m.a);
    if m.a.Internal? {
      LocalIsSafe(s, h, m.t);
    }
    u := Next(Unbounded, s, m.t, m.a);
    WrapMove(s, h, m, u);
  }

  /** If no move leaves the window, the shadow reaches to the end. */
  lemma WholeShadow(states: seq<State>, moves: seq<Move>, u0: State, g: Ghost) returns (us: seq<State>)
    requires IsRun(Bits16, states, moves) && states[0] == WrapState(u0) && Inv(u0, g)
    requires forall us :: Shadows(us, states, moves) && us[0] == u0 && |us| <= |moves| ==>
               MoveInWindow(us[|us| - 1], moves[|us| - 1])
    ensures IsRun(Unbounded, us, moves) && us[0] == u0 && forall i :: 0 <= i < |us| ==> states[i] == WrapState(us[i])
  {
    hide Inv, WrapState, MoveInWindow;
    us := Bits16RunIsShadowed(states, moves, u0, g, |moves|);
    assert moves[..|moves|] == moves;
  }

  /** The 16-bit fifo is linearizable over every run that stays inside the window: the run is the truncation of
      an unbounded run with the same moves. */
  lemma Bits16RunRefines(states: seq<State>, moves: seq<Move>, u0: State, free: seq<Ptr>) returns (us: seq<State>)
    requires IsRun(Bits16, states, moves) && states[0] == WrapState(u0) && Initial(u0, free)
    requires forall us :: Shadows(us, states, moves) && us[0] == u0 && |us| <= |moves| ==>
               MoveInWindow(us[|us| - 1], moves[|us| - 1])
    ensures IsRun(Unbounded, us, moves) && us[0] == u0 && forall i :: 0 <= i < |us| ==> states[i] == WrapState(us[i])
    ensures exists specs :: SpecRun(specs, moves) && specs[0] == Spec(u0.caching, [], |free|, map[])
  {
    InitialInv(u0, free);
    hide Inv, Initial, WrapState, MoveInWindow, Shadows, SpecStep, IsRun;
    us := WholeShadow(states, moves, u0, InitialGhost(u0, free));
    RunRefines(us, moves, free);
  }
}
