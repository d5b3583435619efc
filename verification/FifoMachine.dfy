/** The concurrent fifo together with its freelist, as a machine whose every transition is one
    atomic access to shared memory made by one thread. Any number of threads may be inside an
    operation; `threads` maps each of them to its program counter and local variables. */
module FifoMachine {
  import opened TaggedPtr
  import opened NodeList
  import opened Freelist

  type Tid = nat

  /** What an operation returns; a dequeue also leaves `ret` in its out-parameter either way. */
  datatype Result =
    | Enqueued(ok: bool)
    | Dequeued(ok: bool, ret: Value)
    | Reserved

  /** Program counters with the live locals: names follow the variables of the code. */
  datatype Pc =
    // enqueue(v): construct a node, then the link loop
    | EnqAlloc(v: Value, alloc: AllocPc)
    | EnqInitData(v: Value, n: Ptr)
    | EnqReadTag(v: Value, n: Ptr)
    | EnqInitNext(v: Value, n: Ptr, tag: nat)
    | EnqLoadTail(v: Value, n: Ptr)
    | EnqLoadNext(v: Value, n: Ptr, tail: Tagged)
    | EnqRecheck(v: Value, n: Ptr, tail: Tagged, next: Tagged)
    | EnqLink(v: Value, n: Ptr, tail: Tagged, next: Tagged)
    | EnqSwing(n: Ptr, tail: Tagged)
    | EnqHelp(v: Value, n: Ptr, tail: Tagged, next: Tagged)
    // dequeue(ret)
    | DeqLoadHead(ret: Value)
    | DeqLoadTail(ret: Value, head: Tagged)
    | DeqLoadNext(ret: Value, head: Tagged, tail: Tagged)
    | DeqRecheck(ret: Value, head: Tagged, tail: Tagged, next: Tagged)
    | DeqHelp(ret: Value, tail: Tagged, next: Tagged)
    | DeqRead(ret: Value, head: Tagged, tail: Tagged, next: Tagged)
    | DeqSwing(ret: Value, head: Tagged, tail: Tagged, next: Tagged)
    | DeqFree(ret: Value, n: Ptr, free: FreePc)
    // reserve(count)
    | ResAlloc(count: nat)
    | ResFree(count: nat, n: Ptr, free: FreePc)
    // finished, result not yet handed to the caller
    | Done(result: Result)

  datatype State = State(
    caching: bool,
    heap: Heap,
    pool: Tagged,
    head: Tagged,
    tail: Tagged,
    threads: map<Tid, Pc>)

  /** What a thread does next. `Internal` is the next atomic access of its operation; `spurious`
      makes a weak compare-exchange fail although the cell matches. `Allocate` is the system
      allocator handing out fresh memory with arbitrary contents. */
  datatype Action =
    | InvokeEnqueue(v: Value)
    | InvokeDequeue(ret: Value)
    | InvokeReserve(count: nat)
    | Internal(spurious: bool)
    | Allocate(block: Ptr, bits: Node)
    | Return(result: Result)

  /** The operation waits for the system allocator. */
  predicate WantsMemory(s: State, pc: Pc) {
    match pc
    case EnqAlloc(_, ReadSuccessor(seen)) => s.caching && seen.ptr == NULL
    case ResAlloc(count) => count > 0
    case _ => false
  }

  predicate Enabled(s: State, t: Tid, a: Action) {
    match a
    case InvokeEnqueue(_) => t !in s.threads
    case InvokeDequeue(_) => t !in s.threads
    case InvokeReserve(_) => t !in s.threads
    case Internal(_) => t in s.threads && !s.threads[t].Done? && !WantsMemory(s, s.threads[t])
    case Allocate(block, _) => t in s.threads && WantsMemory(s, s.threads[t]) && block != NULL && block !in s.heap
    case Return(result) => t in s.threads && s.threads[t] == Done(result)
  }

  /** The next access of a thread at `pc` touches only allocated memory. */
  predicate Safe(s: State, pc: Pc) {
    match pc
    case EnqAlloc(_, alloc) => AllocSafe(s.heap, alloc)
    case EnqInitData(_, n) => n in s.heap
    case EnqReadTag(_, n) => n in s.heap
    case EnqInitNext(_, n, _) => n in s.heap
    case EnqLoadNext(_, _, tail) => tail.ptr in s.heap
    case EnqLink(_, _, tail, _) => tail.ptr in s.heap
    case DeqLoadNext(_, head, _) => head.ptr in s.heap
    case DeqRead(_, _, _, next) => next.ptr in s.heap
    case DeqFree(_, n, _) => n in s.heap
    case ResFree(_, n, _) => n in s.heap
    case _ => true
  }

  function Go(s: State, t: Tid, pc: Pc): State {
    s.(threads := s.threads[t := pc])
  }

  /** `cell.compare_exchange_strong(seen, Tagged(p, seen.tag + 1))` on the tail. */
  function SwingTail(width: Width, s: State, seen: Tagged, p: Ptr): State {
    if s.tail == seen then s.(tail := Tagged(p, NextTag(width, seen.tag))) else s
  }

  /** One atomic access by thread `t`. */
  function Advance(width: Width, s: State, t: Tid, spurious: bool): State
    requires Enabled(s, t, Internal(spurious)) && Safe(s, s.threads[t])
  {
    match s.threads[t]
    case EnqAlloc(v, alloc) =>
      var r := AllocAdvance(width, s.heap, s.pool, alloc, spurious);
      Go(s.(pool := r.pool), t,
         match r.outcome
         case Searching(pc) => EnqAlloc(v, pc)
         case Obtained(n) => EnqInitData(v, n)
         case Dry => Done(Enqueued(false)))
    case EnqInitData(v, n) => Go(s.(heap := SetData(s.heap, n, v)), t, EnqReadTag(v, n))
    case EnqReadTag(v, n) => Go(s, t, EnqInitNext(v, n, s.heap[n].next.tag))
    case EnqInitNext(v, n, tag) =>
      Go(s.(heap := SetNext(s.heap, n, Tagged(NULL, NextTag(width, tag)))), t, EnqLoadTail(v, n))
    case EnqLoadTail(v, n) => Go(s, t, EnqLoadNext(v, n, s.tail))
    case EnqLoadNext(v, n, tail) => Go(s, t, EnqRecheck(v, n, tail, s.heap[tail.ptr].next))
    case EnqRecheck(v, n, tail, next) =>
      Go(s, t,
         if tail != s.tail then EnqLoadTail(v, n)
         else if next.ptr == NULL then EnqLink(v, n, tail, next)
         else EnqHelp(v, n, tail, next))
    case EnqLink(v, n, tail, next) =>
      if s.heap[tail.ptr].next == next && !spurious then
        Go(s.(heap := SetNext(s.heap, tail.ptr, Tagged(n, NextTag(width, next.tag)))), t, EnqSwing(n, tail))
      else
        Go(s, t, EnqLoadTail(v, n))
    case EnqSwing(n, tail) => Go(SwingTail(width, s, tail, n), t, Done(Enqueued(true)))
    case EnqHelp(v, n, tail, next) => Go(SwingTail(width, s, tail, next.ptr), t, EnqLoadTail(v, n))
    case DeqLoadHead(ret) => Go(s, t, DeqLoadTail(ret, s.head))
    case DeqLoadTail(ret, head) => Go(s, t, DeqLoadNext(ret, head, s.tail))
    case DeqLoadNext(ret, head, tail) => Go(s, t, DeqRecheck(ret, head, tail, s.heap[head.ptr].next))
    case DeqRecheck(ret, head, tail, next) =>
      Go(s, t,
         if head != s.head then DeqLoadHead(ret)
         else if head.ptr == tail.ptr then
           if next.ptr == NULL then Done(Dequeued(false, ret)) else DeqHelp(ret, tail, next)
         else if next.ptr == NULL then DeqLoadHead(ret)
         else DeqRead(ret, head, tail, next))
    case DeqHelp(ret, tail, next) => Go(SwingTail(width, s, tail, next.ptr), t, DeqLoadHead(ret))
    case DeqRead(_, head, tail, next) => Go(s, t, DeqSwing(s.heap[next.ptr].data, head, tail, next))
    case DeqSwing(ret, head, _, next) =>
      if s.head == head && !spurious then
        Go(s.(head := Tagged(next.ptr, NextTag(width, head.tag))), t, DeqFree(ret, head.ptr, LoadPoolForPush))
      else
        Go(s, t, DeqLoadHead(ret))
    case DeqFree(ret, n, free) =>
      var r := FreeAdvance(s.heap, s.pool, n, free, spurious);
      Go(s.(heap := r.heap, pool := r.pool), t,
         match r.outcome
         case Returning(pc) => DeqFree(ret, n, pc)
         case Returned => Done(Dequeued(true, ret)))
    case ResAlloc(_) => Go(s, t, Done(Reserved))
    case ResFree(count, n, free) =>
      var r := FreeAdvance(s.heap, s.pool, n, free, spurious);
      Go(s.(heap := r.heap, pool := r.pool), t,
         match r.outcome
         case Returning(pc) => ResFree(count, n, pc)
         case Returned => ResAlloc(count))
  }

  /** The transition function of the machine. */
  function Next(width: Width, s: State, t: Tid, a: Action): State
    requires Enabled(s, t, a)
    requires a.Internal? ==> Safe(s, s.threads[t])
  {
    match a
    case InvokeEnqueue(v) => Go(s, t, EnqAlloc(v, LoadPool))
    case InvokeDequeue(ret) => Go(s, t, DeqLoadHead(ret))
    case InvokeReserve(count) => Go(s, t, ResAlloc(count))
    case Internal(spurious) => Advance(width, s, t, spurious)
    case Allocate(block, bits) =>
      Go(s.(heap := s.heap[block := bits]), t,
         match s.threads[t]
         case EnqAlloc(v, _) => EnqInitData(v, block)
         case ResAlloc(count) => ResFree(if count > 0 then count - 1 else 0, block, LoadPoolForPush)
         case pc => pc)
    case Return(_) => s.(threads := s.threads - {t})
  }
}
