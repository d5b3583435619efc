/** The concurrent stack over its freelist, one atomic access per transition. `push` and `pop` treat
    the cell `tos` exactly as `deallocate` and `allocate` treat the freelist's `pool`: push keeps the
    tag, pop increments it. The sub-machines of Freelist therefore serve both cells. */
module StackMachine {
  import opened TaggedPtr
  import opened NodeList
  import opened Freelist

  type Tid = nat

  datatype Result =
    | Pushed(ok: bool)
    | Popped(ok: bool, ret: Value)
    | Reserved

  datatype Pc =
    // push(v): construct a node, then link it to `tos`
    | PushAlloc(v: Value, take: AllocPc)
    | PushInit(v: Value, n: Ptr)
    | PushLink(v: Value, n: Ptr, give: FreePc)
    // pop(ret): take a node off `tos`, read it, free it
    | PopTake(ret: Value, take: AllocPc)
    | PopRead(ret: Value, n: Ptr)
    | PopFree(ret: Value, n: Ptr, give: FreePc)
    // reserve(count)
    | ResAlloc(count: nat)
    | ResFree(count: nat, n: Ptr, give: FreePc)
    | Done(result: Result)

  datatype State = State(caching: bool, heap: Heap, pool: Tagged, tos: Tagged, threads: map<Tid, Pc>)

  datatype Action =
    | InvokePush(v: Value)
    | InvokePop(ret: Value)
    | InvokeReserve(count: nat)
    | Internal(spurious: bool)
    | Allocate(block: Ptr, bits: Node)
    | Return(result: Result)

  predicate WantsMemory(s: State, pc: Pc) {
    match pc
    case PushAlloc(_, ReadSuccessor(seen)) => s.caching && seen.ptr == NULL
    case ResAlloc(count) => count > 0
    case _ => false
  }

  predicate Enabled(s: State, t: Tid, a: Action) {
    match a
    case InvokePush(_) => t !in s.threads
    case InvokePop(_) => t !in s.threads
    case InvokeReserve(_) => t !in s.threads
    case Internal(_) => t in s.threads && !s.threads[t].Done? && !WantsMemory(s, s.threads[t])
    case Allocate(block, _) => t in s.threads && WantsMemory(s, s.threads[t]) && block != NULL && block !in s.heap
    case Return(result) => t in s.threads && s.threads[t] == Done(result)
  }

  predicate Safe(s: State, pc: Pc) {
    match pc
    case PushAlloc(_, take) => AllocSafe(s.heap, take)
    case PopTake(_, take) => AllocSafe(s.heap, take)
    case PushInit(_, n) => n in s.heap
    case PushLink(_, n, _) => n in s.heap
    case PopRead(_, n) => n in s.heap
    case PopFree(_, n, _) => n in s.heap
    case ResFree(_, n, _) => n in s.heap
    case _ => true
  }

  function Go(s: State, t: Tid, pc: Pc): State {
    s.(threads := s.threads[t := pc])
  }

  /** One atomic access by thread `t`. */
  function Advance(width: Width, s: State, t: Tid, spurious: bool): State
    requires Enabled(s, t, Internal(spurious)) && Safe(s, s.threads[t])
  {
    match s.threads[t]
    case PushAlloc(v, take) =>
      var r := AllocAdvance(width, s.heap, s.pool, take, spurious);
      Go(s.(pool := r.pool), t,
         match r.outcome
         case Searching(pc) => PushAlloc(v, pc)
         case Obtained(n) => PushInit(v, n)
         case Dry => Done(Pushed(false)))
    case PushInit(v, n) => Go(s.(heap := SetData(s.heap, n, v)), t, PushLink(v, n, LoadPoolForPush))
    case PushLink(v, n, give) =>
      var r := FreeAdvance(s.heap, s.tos, n, give, spurious);
      Go(s.(heap := r.heap, tos := r.pool), t,
         match r.outcome
         case Returning(pc) => PushLink(v, n, pc)
         case Returned => Done(Pushed(true)))
    case PopTake(ret, take) =>
      var r := AllocAdvance(width, s.heap, s.tos, take, spurious);
      Go(s.(tos := r.pool), t,
         match r.outcome
         case Searching(pc) => PopTake(ret, pc)
         case Obtained(n) => PopRead(ret, n)
         case Dry => Done(Popped(false, ret)))
    case PopRead(_, n) => Go(s, t, PopFree(s.heap[n].data, n, LoadPoolForPush))
    case PopFree(ret, n, give) =>
      var r := FreeAdvance(s.heap, s.pool, n, give, spurious);
      Go(s.(heap := r.heap, pool := r.pool), t,
         match r.outcome
         case Returning(pc) => PopFree(ret, n, pc)
         case Returned => Done(Popped(true, ret)))
    case ResAlloc(_) => Go(s, t, Done(Reserved))
    case ResFree(count, n, give) =>
      var r := FreeAdvance(s.heap, s.pool, n, give, spurious);
      Go(s.(heap := r.heap, pool := r.pool), t,
         match r.outcome
         case Returning(pc) => ResFree(count, n, pc)
         case Returned => ResAlloc(count))
  }

  function Next(width: Width, s: State, t: Tid, a: Action): State
    requires Enabled(s, t, a)
    requires a.Internal? ==> Safe(s, s.threads[t])
  {
    match a
    case InvokePush(v) => Go(s, t, PushAlloc(v, LoadPool))
    case InvokePop(ret) => Go(s, t, PopTake(ret, LoadPool))
    case InvokeReserve(count) => Go(s, t, ResAlloc(count))
    case Internal(spurious) => Advance(width, s, t, spurious)
    case Allocate(block, bits) =>
      Go(s.(heap := s.heap[block := bits]), t,
         match s.threads[t]
         case PushAlloc(v, _) => PushInit(v, block)
         case ResAlloc(count) => ResFree(if count > 0 then count - 1 else 0, block, LoadPoolForPush)
         case pc => pc)
    case Return(_) => s.(threads := s.threads - {t})
  }
}
