/** The abstract fifo, and the proof that every run of the concurrent machine is one of its runs.
    An operation of the abstract fifo takes effect at one instant between its call and its return. */
module FifoSpec {
  import opened TaggedPtr
  import opened NodeList
  import opened Freelist
  import opened FifoMachine
  import opened FifoInvariant
  import opened FifoSafety

  /** An operation in progress. An enqueue first takes one spare node (or gets a new one), then links it; a
      dequeue that has removed a value still owes its node. `sawDry` records that no node was spare at an
      instant since the call, `sawEmpty` what the latest look at the queue has found. */
  datatype Op =
    | Enqueuing(v: Value, sawDry: bool)
    | Linking(v: Value)
    | EnqueueDone
    | EnqueueRefused
    | Dequeuing(sawEmpty: bool)
    | DequeueDone(v: Value)
    | DequeueFreed(v: Value)
    | DequeueRefused
    | Reserving(count: nat, holding: bool)

  /** The abstract fifo: its values in order, how many spare nodes it has, the pending operations. */
  datatype Spec = Spec(caching: bool, queue: seq<Value>, spare: nat, ops: map<Tid, Op>)

  function Become(p: Spec, t: Tid, op: Op): Spec {
    p.(ops := p.ops[t := op])
  }

  /** The effect, if any, of one internal step of the operation of `t`. */
  ghost predicate SpecInternal(p: Spec, t: Tid, p': Spec) {
    && t in p.ops
    && (|| p' == p
        || match p.ops[t]
           case Enqueuing(v, sawDry) =>
             || (p.spare > 0 && p' == Become(p.(spare := p.spare - 1), t, Linking(v)))
             || (p.spare == 0 && p' == Become(p, t, Enqueuing(v, true)))
             || (sawDry && !p.caching && p' == Become(p, t, EnqueueRefused))
           case Linking(v) => p' == Become(p.(queue := p.queue + [v]), t, EnqueueDone)
           case Dequeuing(sawEmpty) =>
             || (p.queue != [] && p' == Become(p.(queue := p.queue[1..]), t, DequeueDone(p.queue[0])))
             || p' == Become(p, t, Dequeuing(p.queue == []))
             || (sawEmpty && p' == Become(p, t, DequeueRefused))
           case DequeueDone(v) => p' == Become(p.(spare := p.spare + 1), t, DequeueFreed(v))
           case Reserving(count, holding) =>
             holding && p' == Become(p.(spare := p.spare + 1), t, Reserving(count, false))
           case _ => false)
  }

  predicate Answers(op: Op, result: Result) {
    match result
    case Enqueued(ok) => op == if ok then EnqueueDone else EnqueueRefused
    case Dequeued(ok, ret) => op == if ok then DequeueFreed(ret) else DequeueRefused
    case Reserved => op == Reserving(0, false)
  }

  /** A node from the system allocator: for an enqueue of a caching fifo that has found no spare one, and
      for each node to reserve. */
  ghost predicate SpecAllocates(p: Spec, t: Tid, p': Spec) {
    && t in p.ops
    && match p.ops[t]
       case Enqueuing(v, sawDry) => sawDry && p.caching && p' == Become(p, t, Linking(v))
       case Reserving(count, holding) => count > 0 && !holding && p' == Become(p, t, Reserving(count - 1, true))
       case _ => false
  }

  /** The transitions of the abstract fifo, with the same calls and returns as the machine's. */
  ghost predicate SpecStep(p: Spec, t: Tid, a: Action, p': Spec) {
    match a
    case InvokeEnqueue(v) => t !in p.ops && p' == Become(p, t, Enqueuing(v, false))
    case InvokeDequeue(_) => t !in p.ops && p' == Become(p, t, Dequeuing(false))
    case InvokeReserve(count) => t !in p.ops && p' == Become(p, t, Reserving(count, false))
    case Internal(_) => SpecInternal(p, t, p')
    case Allocate(_, _) => SpecAllocates(p, t, p')
    case Return(result) => t in p.ops && Answers(p.ops[t], result) && p' == p.(ops := p.ops - {t})
  }

  // ---- The abstraction function ----

  function OpOf(g: Ghost, t: Tid, pc: Pc): Op {
    match pc
    case EnqAlloc(v, _) => Enqueuing(v, t in g.sawDry)
    case EnqInitData(v, _) => Linking(v)
    case EnqReadTag(v, _) => Linking(v)
    case EnqInitNext(v, _, _) => Linking(v)
    case EnqLoadTail(v, _) => Linking(v)
    case EnqLoadNext(v, _, _) => Linking(v)
    case EnqRecheck(v, _, _, _) => Linking(v)
    case EnqLink(v, _, _, _) => Linking(v)
    case EnqHelp(v, _, _, _) => Linking(v)
    case EnqSwing(_, _) => EnqueueDone
    case DeqFree(ret, _, _) => DequeueDone(ret)
    case ResAlloc(count) => Reserving(count, false)
    case ResFree(count, _, _) => Reserving(count, true)
    case Done(Enqueued(ok)) => if ok then EnqueueDone else EnqueueRefused
    case Done(Dequeued(ok, ret)) => if ok then DequeueFreed(ret) else DequeueRefused
    case Done(Reserved) => Reserving(0, false)
    case _ => Dequeuing(t in g.sawEmpty)
  }

  ghost function Ops(s: State, g: Ghost): map<Tid, Op> {
    map t | t in s.threads :: OpOf(g, t, s.threads[t])
  }

  /** The abstract state: the values behind the dummy node, in chain order. */
  ghost function Abs(s: State, g: Ghost): Spec
    requires Allocated(s.heap, Rest(g.chain))
  {
    Spec(s.caching, Values(s.heap, Rest(g.chain)), |g.free|, Ops(s, g))
  }

  lemma ShapeAllocated(s: State, g: Ghost)
    requires Shape(s, g)
    ensures Allocated(s.heap, Rest(g.chain)) && |g.chain| > 0
  {
    forall x | x in Rest(g.chain)
      ensures x in s.heap
    {
      assert x in g.chain;
    }
  }

  // ---- What each step does to the queue ----

  /** Exactly the successful link appends. */
  predicate Links(s: State, t: Tid, a: Action) {
    a.Internal? && t in s.threads && s.threads[t].EnqLink? && !a.spurious
    && var pc := s.threads[t]; pc.tail.ptr in s.heap && s.heap[pc.tail.ptr].next == pc.next
  }

  /** Exactly the successful head compare-exchange removes. */
  predicate Unlinks(s: State, t: Tid, a: Action) {
    a.Internal? && t in s.threads && s.threads[t].DeqSwing? && !a.spurious && s.threads[t].head == s.head
  }

  /** How the abstract queue moves: the link step appends the enqueuer's value, the head step removes
      the front, which is the value that the dequeuer has read, and every other step leaves it. */
  ghost predicate QueueMoves(s: State, t: Tid, a: Action, queue: seq<Value>, queue': seq<Value>) {
    if Links(s, t, a) then queue' == queue + [s.threads[t].v]
    else if Unlinks(s, t, a) then queue != [] && queue[0] == s.threads[t].ret && queue' == queue[1..]
    else queue' == queue
  }

  /** The queue's values are those behind the dummy, which comes first in the chain. */
  lemma QueueFrame(heap: Heap, heap': Heap, chain: seq<Ptr>)
    requires SameData(heap, heap', chain)
    ensures Allocated(heap, Rest(chain)) && Allocated(heap', Rest(chain))
    ensures Values(heap', Rest(chain)) == Values(heap, Rest(chain))
  {
  }

  lemma QueueAppend(heap: Heap, heap': Heap, chain: seq<Ptr>, n: Ptr)
    requires SameData(heap, heap', chain) && |chain| > 0 && n in heap'
    ensures Allocated(heap, Rest(chain)) && Allocated(heap', Rest(chain + [n]))
    ensures Values(heap', Rest(chain + [n])) == Values(heap, Rest(chain)) + [heap'[n].data]
  {
  }

  lemma QueueDrop(heap: Heap, heap': Heap, chain: seq<Ptr>)
    requires SameData(heap, heap', chain) && |chain| > 1
    ensures Allocated(heap, Rest(chain)) && Allocated(heap', Rest(Rest(chain))) && chain[1] in heap
    ensures var queue := Values(heap, Rest(chain));
            queue != [] && queue[0] == heap[chain[1]].data && Values(heap', Rest(Rest(chain))) == queue[1..]
  {
  }

  /** Only the constructor writes data, and only into its own node. */
  lemma HeapEffect(s: State, t: Tid, a: Action)
    requires Enabled(s, t, a) && (a.Internal? ==> Safe(s, s.threads[t]))
    ensures var heap' := Next(Unbounded, s, t, a).heap;
            && s.heap.Keys <= heap'.Keys
            && forall x :: x in s.heap ==>
                 heap'[x].data == s.heap[x].data || (t in s.threads && s.threads[t].EnqInitData? && x == s.threads[t].n)
  {
    if a.Internal? && (s.threads[t].DeqFree? || s.threads[t].ResFree?) {
      var pc := s.threads[t];
      var heap' := FreeAdvance(s.heap, s.pool, pc.n, pc.free, a.spurious).heap;
      assert forall x :: x in s.heap ==> x in heap' && heap'[x].data == s.heap[x].data;
    }
  }

  lemma ChainEffect(s: State, g: Ghost, t: Tid, a: Action)
    requires Enabled(s, t, a) && (a.Internal? ==> Safe(s, s.threads[t]))
    ensures var chain' := GhostNext(s, g, t, a).chain;
            if Links(s, t, a) then chain' == g.chain + [s.threads[t].n]
            else if Unlinks(s, t, a) then chain' == Rest(g.chain)
            else chain' == g.chain
  {
  }

  /** Data of queued nodes is never written. */
  lemma QueuedDataKept(s: State, g: Ghost, t: Tid, a: Action)
    requires Inv(s, g) && Enabled(s, t, a) && (a.Internal? ==> Safe(s, s.threads[t]))
    ensures |g.chain| > 0 && SameData(s.heap, Next(Unbounded, s, t, a).heap, g.chain)
  {
    HeapEffect(s, t, a);
    if t in s.threads && s.threads[t].EnqInitData? {
      AtLocal(s, g, t, s.threads[t]);
      ListsAreNotHeld(s, g, s.threads[t].n);
    }
    hide Local, Next, IsList, TailOk;
    ShapeAllocated(s, g);
  }

  /** What a linking (an unlinking) thread knows of the node it links (unlinks). */
  lemma LinkedValue(s: State, g: Ghost, t: Tid, a: Action)
    requires Inv(s, g) && Enabled(s, t, a)
    ensures Links(s, t, a) ==> s.threads[t].n in s.heap && s.heap[s.threads[t].n].data == s.threads[t].v
    ensures Unlinks(s, t, a) ==> |g.chain| > 1 && g.chain[1] in s.heap && s.heap[g.chain[1]].data == s.threads[t].ret
  {
    if Links(s, t, a) || Unlinks(s, t, a) {
      AtLocal(s, g, t, s.threads[t]);
      AnchorsHold(s, g);
      hide Inv, Shape;
    }
  }

  /** Only the link step appends, and it appends the enqueuer's value; only the head step removes,
      and the value read before it is the front of the queue; every other step leaves the queue. */
  lemma QueueEffect(s: State, g: Ghost, t: Tid, a: Action)
    requires Inv(s, g) && Enabled(s, t, a) && (a.Internal? ==> Safe(s, s.threads[t]))
    ensures var s', g' := Next(Unbounded, s, t, a), GhostNext(s, g, t, a);
            && Allocated(s.heap, Rest(g.chain)) && Allocated(s'.heap, Rest(g'.chain))
            && |g.chain| > 0
            && QueueMoves(s, t, a, Values(s.heap, Rest(g.chain)), Values(s'.heap, Rest(g'.chain)))
  {
    var s', g' := Next(Unbounded, s, t, a), GhostNext(s, g, t, a);
    QueuedDataKept(s, g, t, a);
    ChainEffect(s, g, t, a);
    LinkedValue(s, g, t, a);
    HeapEffect(s, t, a);
    hide Inv, Next, GhostNext, SameData, Values, Allocated, Rest;
    if Links(s, t, a) {
      QueueAppend(s.heap, s'.heap, g.chain, s.threads[t].n);
    } else if Unlinks(s, t, a) {
      QueueDrop(s.heap, s'.heap, g.chain);
    } else {
      QueueFrame(s.heap, s'.heap, g.chain);
    }
  }

  // ---- The simulation ----

  /** How the abstract operation of `t` and the number of spare nodes move in an internal step. */
  ghost predicate OpMoves(s: State, g: Ghost, g': Ghost, t: Tid, a: Action, op: Op, op': Op) {
    if Links(s, t, a) then op == Linking(s.threads[t].v) && op' == EnqueueDone && g'.free == g.free
    else if Unlinks(s, t, a) then op.Dequeuing? && op' == DequeueDone(s.threads[t].ret) && g'.free == g.free
    else
      || (op' == op && g'.free == g.free)
      || (op.Enqueuing? && op' == Linking(op.v) && |g.free| > 0 && |g'.free| == |g.free| - 1)
      || (op.Enqueuing? && |g.free| == 0 && op' == Enqueuing(op.v, true) && g'.free == g.free)
      || (op.Enqueuing? && op.sawDry && !s.caching && op' == EnqueueRefused && g'.free == g.free)
      || (op.Dequeuing? && op' == Dequeuing(|g.chain| == 1) && g'.free == g.free)
      || (op.Dequeuing? && op.sawEmpty && op' == DequeueRefused && g'.free == g.free)
      || (op.DequeueDone? && op' == DequeueFreed(op.v) && |g'.free| == |g.free| + 1)
      || (op.Reserving? && op.holding && op' == Reserving(op.count, false) && |g'.free| == |g.free| + 1)
  }

  /** The step of `t` from `s` to `s'`, with the companions before and after. */
  ghost predicate InternalStep(s: State, g: Ghost, s': State, g': Ghost, t: Tid, a: Action) {
    && Enabled(s, t, a) && a.Internal? && Safe(s, s.threads[t])
    && s' == Advance(Unbounded, s, t, a.spurious) && g' == GhostAdvance(s, g, t, a.spurious)
    && t in s'.threads
  }

  /** When `t` is about to answer false, it has seen the reason. */
  ghost predicate Justified(s: State, g: Ghost, t: Tid) {
    t in s.threads &&
    match s.threads[t]
    case EnqAlloc(_, ReadSuccessor(seen)) => seen.ptr == NULL ==> t in g.sawDry
    case DeqRecheck(_, head, _, next) => head == s.head && next.ptr == NULL ==> t in g.sawEmpty
    case _ => true
  }

  lemma RefusalJustified(s: State, g: Ghost, t: Tid)
    requires Inv(s, g) && t in s.threads
    ensures Justified(s, g, t)
  {
    AtLocal(s, g, t, s.threads[t]);
    hide Inv, Shape, HeadAndTail, TopRead;
  }

  lemma SwingPoolOp(s: State, g: Ghost, s': State, g': Ghost, t: Tid, a: Action, v: Value, seen: Tagged, succ: Ptr)
    requires Inv(s, g) && InternalStep(s, g, s', g', t, a)
    requires s.threads[t] == EnqAlloc(v, SwingPool(seen, succ))
    ensures OpMoves(s, g, g', t, a, OpOf(g, t, s.threads[t]), OpOf(g', t, s'.threads[t]))
  {
    AtLocal(s, g, t, EnqAlloc(v, SwingPool(seen, succ)));
    PoolFacts(s, g);
    hide Inv, Shape;
  }

  lemma FreeOp(s: State, g: Ghost, s': State, g': Ghost, t: Tid, a: Action)
    requires InternalStep(s, g, s', g', t, a) && (s.threads[t].DeqFree? || s.threads[t].ResFree?)
    ensures OpMoves(s, g, g', t, a, OpOf(g, t, s.threads[t]), OpOf(g', t, s'.threads[t]))
  {
  }

  lemma EnqOp(s: State, g: Ghost, s': State, g': Ghost, t: Tid, a: Action)
    requires InternalStep(s, g, s', g', t, a) && Justified(s, g, t)
    requires OpOf(g, t, s.threads[t]).Enqueuing? || OpOf(g, t, s.threads[t]).Linking?
    requires !(s.threads[t].EnqAlloc? && s.threads[t].alloc.SwingPool?)
    ensures OpMoves(s, g, g', t, a, OpOf(g, t, s.threads[t]), OpOf(g', t, s'.threads[t]))
  {
  }

  lemma DeqOp(s: State, g: Ghost, s': State, g': Ghost, t: Tid, a: Action)
    requires InternalStep(s, g, s', g', t, a) && Justified(s, g, t)
    requires OpOf(g, t, s.threads[t]).Dequeuing?
    ensures OpMoves(s, g, g', t, a, OpOf(g, t, s.threads[t]), OpOf(g', t, s'.threads[t]))
  {
  }

  lemma OpEffect(s: State, g: Ghost, s': State, g': Ghost, t: Tid, a: Action)
    requires Inv(s, g) && InternalStep(s, g, s', g', t, a)
    ensures OpMoves(s, g, g', t, a, OpOf(g, t, s.threads[t]), OpOf(g', t, s'.threads[t]))
  {
    assert t in s.threads && t in s'.threads;
    RefusalJustified(s, g, t);
    hide Inv, OpMoves, InternalStep, Justified;
    var pc := s.threads[t];
    match pc
    case EnqAlloc(v, SwingPool(seen, succ)) => SwingPoolOp(s, g, s', g', t, a, v, seen, succ);
    case DeqFree(_, _, _) => FreeOp(s, g, s', g', t, a);
    case ResFree(_, _, _) => FreeOp(s, g, s', g', t, a);
    case _ =>
      if OpOf(g, t, pc).Enqueuing? || OpOf(g, t, pc).Linking? {
        EnqOp(s, g, s', g', t, a);
      } else if OpOf(g, t, pc).Dequeuing? {
        DeqOp(s, g, s', g', t, a);
      } else {
        SettledOp(s, g, s', g', t, a);
      }
  }

  lemma SettledOp(s: State, g: Ghost, s': State, g': Ghost, t: Tid, a: Action)
    requires InternalStep(s, g, s', g', t, a) && (s.threads[t].EnqSwing? || s.threads[t].ResAlloc?)
    ensures OpMoves(s, g, g', t, a, OpOf(g, t, s.threads[t]), OpOf(g', t, s'.threads[t]))
  {
  }

  /** Nothing but `t`'s own operation changes in the abstract map of operations. */
  lemma OpsEffect(s: State, g: Ghost, s': State, g': Ghost, t: Tid)
    requires OthersKept(s, s', t)
    requires forall u :: u != t ==> (u in g.sawEmpty <==> u in g'.sawEmpty) && (u in g.sawDry <==> u in g'.sawDry)
    ensures t in s'.threads ==> Ops(s', g') == Ops(s, g)[t := OpOf(g', t, s'.threads[t])]
    ensures t !in s'.threads ==> Ops(s', g') == Ops(s, g) - {t}
  {
  }

  lemma OthersEffect(s: State, g: Ghost, t: Tid, a: Action)
    requires Enabled(s, t, a) && (a.Internal? ==> Safe(s, s.threads[t]))
    ensures var s', g' := Next(Unbounded, s, t, a), GhostNext(s, g, t, a);
            && OthersKept(s, s', t) && s'.caching == s.caching
            && (t in s'.threads <==> !a.Return?)
            && forall u :: u != t ==> (u in g.sawEmpty <==> u in g'.sawEmpty) && (u in g.sawDry <==> u in g'.sawDry)
  {
  }

  /** Every atomic step of the machine is a step of the abstract fifo, or leaves it unchanged. */
  lemma StepRefines(s: State, g: Ghost, t: Tid, a: Action)
    requires Inv(s, g) && Enabled(s, t, a) && (a.Internal? ==> Safe(s, s.threads[t]))
    ensures var s', g' := Next(Unbounded, s, t, a), GhostNext(s, g, t, a);
            && Allocated(s.heap, Rest(g.chain)) && Allocated(s'.heap, Rest(g'.chain))
            && SpecStep(Abs(s, g), t, a, Abs(s', g'))
  {
    var s', g' := Next(Unbounded, s, t, a), GhostNext(s, g, t, a);
    QueueEffect(s, g, t, a);
    OthersEffect(s, g, t, a);
    OpsEffect(s, g, s', g', t);
    if a.Internal? {
      InternalRefines(s, g, s', g', t, a);
    } else {
      if a.Allocate? {
        RefusalJustified(s, g, t);
      }
      hide Inv, Next, GhostNext;
      OuterRefines(s, g, s', g', t, a);
    }
  }

  lemma InternalRefines(s: State, g: Ghost, s': State, g': Ghost, t: Tid, a: Action)
    requires Inv(s, g) && InternalStep(s, g, s', g', t, a) && s'.caching == s.caching
    requires Allocated(s.heap, Rest(g.chain)) && Allocated(s'.heap, Rest(g'.chain)) && |g.chain| > 0
    requires Ops(s', g') == Ops(s, g)[t := OpOf(g', t, s'.threads[t])]
    requires QueueMoves(s, t, a, Values(s.heap, Rest(g.chain)), Values(s'.heap, Rest(g'.chain)))
    ensures SpecStep(Abs(s, g), t, a, Abs(s', g'))
  {
    OpEffect(s, g, s', g', t, a);
    PendingOp(s, g, t);
    hide Inv, Advance, GhostAdvance, OpMoves, QueueMoves, SpecInternal, OpOf, Ops, Values, Rest, Allocated;
    MoveIsSpecStep(s, g, g', t, a, Abs(s, g), Abs(s', g'), OpOf(g, t, s.threads[t]), OpOf(g', t, s'.threads[t]));
  }

  lemma PendingOp(s: State, g: Ghost, t: Tid)
    requires Allocated(s.heap, Rest(g.chain)) && |g.chain| > 0 && t in s.threads
    ensures var p, op := Abs(s, g), OpOf(g, t, s.threads[t]);
            t in p.ops && p.ops[t] == op && p == Become(p, t, op) && |p.queue| == |g.chain| - 1
  {
    var p, op := Abs(s, g), OpOf(g, t, s.threads[t]);
    hide OpOf;
    assert p.ops[t := op] == p.ops;
  }

  lemma MoveIsSpecStep(s: State, g: Ghost, g': Ghost, t: Tid, a: Action, p: Spec, p': Spec, op: Op, op': Op)
    requires OpMoves(s, g, g', t, a, op, op') && QueueMoves(s, t, a, p.queue, p'.queue)
    requires t in p.ops && p.ops[t] == op && p == Become(p, t, op) && p'.ops == p.ops[t := op']
    requires p.spare == |g.free| && p'.spare == |g'.free| && p.caching == p'.caching == s.caching
    requires |p.queue| == |g.chain| - 1
    ensures SpecInternal(p, t, p')
  {
  }

  lemma ReturnRefines(s: State, g: Ghost, s': State, g': Ghost, t: Tid, a: Action)
    requires Enabled(s, t, a) && a.Return? && s' == Next(Unbounded, s, t, a) && g' == GhostNext(s, g, t, a)
    requires Allocated(s.heap, Rest(g.chain)) && Allocated(s'.heap, Rest(g'.chain))
    requires t !in s'.threads ==> Ops(s', g') == Ops(s, g) - {t}
    requires QueueMoves(s, t, a, Values(s.heap, Rest(g.chain)), Values(s'.heap, Rest(g'.chain)))
    ensures SpecStep(Abs(s, g), t, a, Abs(s', g'))
  {
  }

  lemma AllocateRefines(s: State, g: Ghost, s': State, g': Ghost, t: Tid, a: Action)
    requires Enabled(s, t, a) && a.Allocate? && s' == Next(Unbounded, s, t, a) && g' == GhostNext(s, g, t, a)
    requires Justified(s, g, t)
    requires Allocated(s.heap, Rest(g.chain)) && Allocated(s'.heap, Rest(g'.chain))
    requires Ops(s', g') == Ops(s, g)[t := OpOf(g', t, s'.threads[t])]
    requires QueueMoves(s, t, a, Values(s.heap, Rest(g.chain)), Values(s'.heap, Rest(g'.chain)))
    ensures SpecStep(Abs(s, g), t, a, Abs(s', g'))
  {
    hide Values, Rest, Allocated;
    assert Ops(s, g)[t] == OpOf(g, t, s.threads[t]);
  }

  lemma InvokeRefines(s: State, g: Ghost, s': State, g': Ghost, t: Tid, a: Action)
    requires Enabled(s, t, a) && !a.Internal? && !a.Allocate? && !a.Return?
    requires s' == Next(Unbounded, s, t, a) && g' == GhostNext(s, g, t, a)
    requires Allocated(s.heap, Rest(g.chain)) && Allocated(s'.heap, Rest(g'.chain))
    requires Ops(s', g') == Ops(s, g)[t := OpOf(g', t, s'.threads[t])]
    requires QueueMoves(s, t, a, Values(s.heap, Rest(g.chain)), Values(s'.heap, Rest(g'.chain)))
    ensures SpecStep(Abs(s, g), t, a, Abs(s', g'))
  {
    hide Values, Rest, Allocated;
  }

  lemma OuterRefines(s: State, g: Ghost, s': State, g': Ghost, t: Tid, a: Action)
    requires Enabled(s, t, a) && !a.Internal? && s' == Next(Unbounded, s, t, a) && g' == GhostNext(s, g, t, a)
    requires a.Allocate? ==> Justified(s, g, t)
    requires t in s'.threads <==> !a.Return?
    requires Allocated(s.heap, Rest(g.chain)) && Allocated(s'.heap, Rest(g'.chain))
    requires t in s'.threads ==> Ops(s', g') == Ops(s, g)[t := OpOf(g', t, s'.threads[t])]
    requires t !in s'.threads ==> Ops(s', g') == Ops(s, g) - {t}
    requires QueueMoves(s, t, a, Values(s.heap, Rest(g.chain)), Values(s'.heap, Rest(g'.chain)))
    ensures SpecStep(Abs(s, g), t, a, Abs(s', g'))
  {
    hide Values, Rest, Allocated, SpecStep, Next, GhostNext, QueueMoves, Justified;
    match a
    case Return(_) => ReturnRefines(s, g, s', g', t, a);
    case Allocate(_, _) => AllocateRefines(s, g, s', g', t, a);
    case _ => InvokeRefines(s, g, s', g', t, a);
  }
}
