/** The abstract stack, and the proof that every run of the concurrent machine is one of its runs. */
module StackSpec {
  import opened TaggedPtr
  import opened NodeList
  import opened Freelist
  import opened StackMachine
  import opened StackSafety

  /** An operation in progress. A push first takes one spare node (or gets a new one), then links it; a pop
      that has removed a value still owes its node. `sawDry` and `sawEmpty` record that no node was spare, or
      the stack empty, at an instant since the call. */
  datatype Op =
    | Pushing(v: Value, sawDry: bool)
    | Linking(v: Value)
    | PushDone
    | PushRefused
    | Popping(sawEmpty: bool)
    | PopDone(v: Value)
    | PopFreed(v: Value)
    | PopRefused
    | Reserving(count: nat, holding: bool)

  /** The abstract stack, top first, the number of spare nodes, and the pending operations. */
  datatype Spec = Spec(caching: bool, items: seq<Value>, spare: nat, ops: map<Tid, Op>)

  function Become(p: Spec, t: Tid, op: Op): Spec {
    p.(ops := p.ops[t := op])
  }

  ghost predicate SpecInternal(p: Spec, t: Tid, p': Spec) {
    && t in p.ops
    && (|| p' == p
        || match p.ops[t]
           case Pushing(v, sawDry) =>
             || (p.spare > 0 && p' == Become(p.(spare := p.spare - 1), t, Linking(v)))
             || (p.spare == 0 && p' == Become(p, t, Pushing(v, true)))
             || (sawDry && !p.caching && p' == Become(p, t, PushRefused))
           case Linking(v) => p' == Become(p.(items := [v] + p.items), t, PushDone)
           case Popping(sawEmpty) =>
             || (p.items != [] && p' == Become(p.(items := p.items[1..]), t, PopDone(p.items[0])))
             || (p.items == [] && p' == Become(p, t, Popping(true)))
             || (sawEmpty && p' == Become(p, t, PopRefused))
           case PopDone(v) => p' == Become(p.(spare := p.spare + 1), t, PopFreed(v))
           case Reserving(count, holding) =>
             holding && p' == Become(p.(spare := p.spare + 1), t, Reserving(count, false))
           case _ => false)
  }

  predicate Answers(op: Op, result: Result) {
    match result
    case Pushed(ok) => op == if ok then PushDone else PushRefused
    case Popped(ok, ret) => op == if ok then PopFreed(ret) else PopRefused
    case Reserved => op == Reserving(0, false)
  }

  /** A node from the system allocator: for a push of a caching stack that has found no spare one, and for
      each node to reserve. */
  ghost predicate SpecAllocates(p: Spec, t: Tid, p': Spec) {
    && t in p.ops
    && match p.ops[t]
       case Pushing(v, sawDry) => sawDry && p.caching && p' == Become(p, t, Linking(v))
       case Reserving(count, holding) => count > 0 && !holding && p' == Become(p, t, Reserving(count - 1, true))
       case _ => false
  }

  ghost predicate SpecStep(p: Spec, t: Tid, a: Action, p': Spec) {
    match a
    case InvokePush(v) => t !in p.ops && p' == Become(p, t, Pushing(v, false))
    case InvokePop(_) => t !in p.ops && p' == Become(p, t, Popping(false))
    case InvokeReserve(count) => t !in p.ops && p' == Become(p, t, Reserving(count, false))
    case Internal(_) => SpecInternal(p, t, p')
    case Allocate(_, _) => SpecAllocates(p, t, p')
    case Return(result) => t in p.ops && Answers(p.ops[t], result) && p' == p.(ops := p.ops - {t})
  }

  // ---- The abstraction function ----

  ghost function OpOf(heap: Heap, g: Ghost, t: Tid, pc: Pc): Op {
    match pc
    case PushAlloc(v, _) => Pushing(v, t in g.sawDry)
    case PushInit(v, _) => Linking(v)
    case PushLink(v, _, _) => Linking(v)
    case PopTake(_, _) => Popping(t in g.sawEmpty)
    case PopRead(_, n) => if n in heap then PopDone(heap[n].data) else PopRefused
    case PopFree(ret, _, _) => PopDone(ret)
    case ResAlloc(count) => Reserving(count, false)
    case ResFree(count, _, _) => Reserving(count, true)
    case Done(Pushed(ok)) => if ok then PushDone else PushRefused
    case Done(Popped(ok, ret)) => if ok then PopFreed(ret) else PopRefused
    case Done(Reserved) => Reserving(0, false)
  }

  ghost function Ops(s: State, g: Ghost): map<Tid, Op> {
    map t | t in s.threads :: OpOf(s.heap, g, t, s.threads[t])
  }

  ghost function Abs(s: State, g: Ghost): Spec
    requires Allocated(s.heap, g.items)
  {
    Spec(s.caching, Values(s.heap, g.items), |g.free|, Ops(s, g))
  }

  // ---- What each step does to the stack ----

  predicate Pushes(s: State, t: Tid, a: Action) {
    a.Internal? && !a.spurious && t in s.threads && s.threads[t].PushLink? && s.threads[t].give == PushPool(s.tos)
  }

  predicate Pops(s: State, t: Tid, a: Action) {
    a.Internal? && !a.spurious && t in s.threads && s.threads[t].PopTake? &&
    s.threads[t].take.SwingPool? && s.threads[t].take.seen == s.tos
  }

  ghost predicate ItemsMove(s: State, t: Tid, a: Action, items: seq<Value>, items': seq<Value>) {
    if Pushes(s, t, a) then items' == [s.threads[t].v] + items
    else if Pops(s, t, a) then
      s.tos.ptr in s.heap && items != [] && items[0] == s.heap[s.tos.ptr].data && items' == items[1..]
    else items' == items
  }

  /** Only the constructor writes data, and only into its own node. */
  lemma HeapEffect(s: State, t: Tid, a: Action)
    requires Enabled(s, t, a) && (a.Internal? ==> Safe(s, s.threads[t]))
    ensures var heap' := Next(Unbounded, s, t, a).heap;
            && s.heap.Keys <= heap'.Keys
            && forall x :: x in s.heap ==>
                 heap'[x].data == s.heap[x].data || (t in s.threads && s.threads[t].PushInit? && x == s.threads[t].n)
  {
  }

  lemma ListEffect(s: State, g: Ghost, t: Tid, a: Action)
    requires Enabled(s, t, a) && (a.Internal? ==> Safe(s, s.threads[t]))
    ensures var items' := GhostNext(s, g, t, a).items;
            if Pushes(s, t, a) then items' == [s.threads[t].n] + g.items
            else if Pops(s, t, a) then items' == Rest(g.items)
            else items' == g.items
  {
  }

  lemma StackedDataKept(s: State, g: Ghost, t: Tid, a: Action)
    requires Inv(s, g) && Enabled(s, t, a) && (a.Internal? ==> Safe(s, s.threads[t]))
    ensures SameData(s.heap, Next(Unbounded, s, t, a).heap, g.items)
  {
    HeapEffect(s, t, a);
    assert Shape(s, g);
    if t in s.threads && s.threads[t].PushInit? {
      AtLocal(s, g, t, s.threads[t]);
      PlaceOf(s, g, Tos, s.threads[t].n);
    }
    forall x | x in g.items
      ensures x in s.heap
    {
    }
    hide Inv, IsList, Next, PlaceOk;
  }

  lemma MovedNode(s: State, g: Ghost, t: Tid, a: Action)
    requires Inv(s, g) && Enabled(s, t, a)
    ensures Pushes(s, t, a) ==> s.threads[t].n in s.heap && s.heap[s.threads[t].n].data == s.threads[t].v
    ensures Pops(s, t, a) ==> |g.items| > 0 && s.tos.ptr == g.items[0] && s.tos.ptr in s.heap
  {
  }

  /** Only a successful push step puts a value on top, the pusher's; only a successful pop step
      removes the top; every other step leaves the stack. */
  lemma StackEffect(s: State, g: Ghost, t: Tid, a: Action)
    requires Inv(s, g) && Enabled(s, t, a) && (a.Internal? ==> Safe(s, s.threads[t]))
    ensures var s', g' := Next(Unbounded, s, t, a), GhostNext(s, g, t, a);
            && Allocated(s.heap, g.items) && Allocated(s'.heap, g'.items)
            && ItemsMove(s, t, a, Values(s.heap, g.items), Values(s'.heap, g'.items))
  {
    var s' := Next(Unbounded, s, t, a);
    StackedDataKept(s, g, t, a);
    ListEffect(s, g, t, a);
    MovedNode(s, g, t, a);
    HeapEffect(s, t, a);
    hide Inv, Next, GhostNext, SameData, Values, Allocated;
    if Pushes(s, t, a) {
      ValuesCons(s.heap, s'.heap, s.threads[t].n, g.items);
    } else if Pops(s, t, a) {
      ValuesDrop(s.heap, s'.heap, g.items);
    } else {
      ValuesFrame(s.heap, s'.heap, g.items);
    }
  }

  // ---- The simulation ----

  ghost predicate OpMoves(s: State, g: Ghost, g': Ghost, t: Tid, a: Action, op: Op, op': Op) {
    if Pushes(s, t, a) then op == Linking(s.threads[t].v) && op' == PushDone && g'.free == g.free
    else if Pops(s, t, a) then
      s.tos.ptr in s.heap && op.Popping? && op' == PopDone(s.heap[s.tos.ptr].data) && g'.free == g.free
    else
      || (op' == op && g'.free == g.free)
      || (op.Pushing? && op' == Linking(op.v) && |g.free| > 0 && |g'.free| == |g.free| - 1)
      || (op.Pushing? && |g.free| == 0 && op' == Pushing(op.v, true) && g'.free == g.free)
      || (op.Pushing? && op.sawDry && !s.caching && op' == PushRefused && g'.free == g.free)
      || (op.Popping? && |g.items| == 0 && op' == Popping(true) && g'.free == g.free)
      || (op.Popping? && op.sawEmpty && op' == PopRefused && g'.free == g.free)
      || (op.PopDone? && op' == PopFreed(op.v) && |g'.free| == |g.free| + 1)
      || (op.Reserving? && op.holding && op' == Reserving(op.count, false) && |g'.free| == |g.free| + 1)
  }

  ghost predicate InternalStep(s: State, g: Ghost, s': State, g': Ghost, t: Tid, a: Action) {
    && Enabled(s, t, a) && a.Internal? && Safe(s, s.threads[t])
    && s' == Advance(Unbounded, s, t, a.spurious) && g' == GhostAdvance(s, g, t, a.spurious)
    && t in s'.threads
  }

  /** What a thread must know for its abstract operation to move: the reason of a refusal, and that
      the list it takes from is not empty. */
  ghost predicate Justified(s: State, g: Ghost, t: Tid) {
    t in s.threads &&
    match s.threads[t]
    case PushAlloc(_, ReadSuccessor(seen)) => seen.ptr == NULL ==> t in g.sawDry
    case PushAlloc(_, SwingPool(seen, _)) => seen == s.pool ==> |g.free| > 0
    case PopTake(_, ReadSuccessor(seen)) => seen.ptr == NULL ==> t in g.sawEmpty
    case PopTake(_, SwingPool(seen, _)) => seen == s.tos ==> |g.items| > 0 && seen.ptr in s.heap
    case _ => true
  }

  lemma KnowsReason(s: State, g: Ghost, t: Tid)
    requires Inv(s, g) && t in s.threads
    ensures Justified(s, g, t)
  {
  }

  lemma PushOp(s: State, g: Ghost, s': State, g': Ghost, t: Tid, a: Action)
    requires InternalStep(s, g, s', g', t, a) && Justified(s, g, t)
    requires s.threads[t].PushAlloc? || s.threads[t].PushInit? || s.threads[t].PushLink?
    ensures OpMoves(s, g, g', t, a, OpOf(s.heap, g, t, s.threads[t]), OpOf(s'.heap, g', t, s'.threads[t]))
  {
  }

  lemma PopOp(s: State, g: Ghost, s': State, g': Ghost, t: Tid, a: Action)
    requires InternalStep(s, g, s', g', t, a) && Justified(s, g, t)
    requires s.threads[t].PopTake? || s.threads[t].PopRead?
    ensures OpMoves(s, g, g', t, a, OpOf(s.heap, g, t, s.threads[t]), OpOf(s'.heap, g', t, s'.threads[t]))
  {
  }

  lemma FreeOp(s: State, g: Ghost, s': State, g': Ghost, t: Tid, a: Action)
    requires InternalStep(s, g, s', g', t, a)
    requires s.threads[t].PopFree? || s.threads[t].ResFree? || s.threads[t].ResAlloc?
    ensures OpMoves(s, g, g', t, a, OpOf(s.heap, g, t, s.threads[t]), OpOf(s'.heap, g', t, s'.threads[t]))
  {
  }

  lemma OpEffect(s: State, g: Ghost, s': State, g': Ghost, t: Tid, a: Action)
    requires Inv(s, g) && InternalStep(s, g, s', g', t, a)
    ensures OpMoves(s, g, g', t, a, OpOf(s.heap, g, t, s.threads[t]), OpOf(s'.heap, g', t, s'.threads[t]))
  {
    assert t in s.threads;
    KnowsReason(s, g, t);
    hide Inv, OpMoves, Advance, GhostAdvance, Justified;
    var pc := s.threads[t];
    if pc.PushAlloc? || pc.PushInit? || pc.PushLink? {
      PushOp(s, g, s', g', t, a);
    } else if pc.PopTake? || pc.PopRead? {
      PopOp(s, g, s', g', t, a);
    } else {
      FreeOp(s, g, s', g', t, a);
    }
  }

  /** Others: their observations and the nodes they hold are as before. */
  lemma OthersEffect(s: State, g: Ghost, t: Tid, a: Action)
    requires Enabled(s, t, a) && (a.Internal? ==> Safe(s, s.threads[t]))
    ensures var s', g' := Next(Unbounded, s, t, a), GhostNext(s, g, t, a);
            && OthersKept(s, s', t) && s'.caching == s.caching
            && (t in s'.threads <==> !a.Return?)
            && (forall u :: u != t ==> (u in g.sawEmpty <==> u in g'.sawEmpty) && (u in g.sawDry <==> u in g'.sawDry))
            && (!a.Internal? ==> g'.free == g.free)
  {
  }

  /** The nodes that others hold keep their data. */
  lemma HeldDataKept(s: State, g: Ghost, t: Tid, a: Action, u: Tid)
    requires Inv(s, g) && Enabled(s, t, a) && (a.Internal? ==> Safe(s, s.threads[t]))
    requires u != t && u in s.threads && s.threads[u].PopRead?
    ensures var n, heap' := s.threads[u].n, Next(Unbounded, s, t, a).heap;
            n in s.heap && n in heap' && heap'[n].data == s.heap[n].data
  {
    HeapEffect(s, t, a);
    AtLocal(s, g, u, s.threads[u]);
    if t in s.threads {
      AtLocal(s, g, t, s.threads[t]);
    }
    hide Inv, Shape, Next;
  }

  lemma OpKept(s: State, g: Ghost, t: Tid, a: Action, u: Tid)
    requires Inv(s, g) && Enabled(s, t, a) && (a.Internal? ==> Safe(s, s.threads[t])) && u != t && u in s.threads
    ensures OpOf(Next(Unbounded, s, t, a).heap, GhostNext(s, g, t, a), u, s.threads[u]) ==
            OpOf(s.heap, g, u, s.threads[u])
  {
    OthersEffect(s, g, t, a);
    if s.threads[u].PopRead? {
      HeldDataKept(s, g, t, a, u);
    }
    hide Inv, Next, GhostNext;
  }

  lemma OpsEffect(s: State, g: Ghost, s': State, g': Ghost, t: Tid, a: Action)
    requires Inv(s, g) && Enabled(s, t, a) && (a.Internal? ==> Safe(s, s.threads[t]))
    requires s' == Next(Unbounded, s, t, a) && g' == GhostNext(s, g, t, a) && OthersKept(s, s', t)
    ensures t in s'.threads ==> Ops(s', g') == Ops(s, g)[t := OpOf(s'.heap, g', t, s'.threads[t])]
    ensures t !in s'.threads ==> Ops(s', g') == Ops(s, g) - {t}
  {
    hide Inv, Next, GhostNext, OpOf, Enabled, Safe;
    forall u | u in s.threads && u != t
      ensures OpOf(s'.heap, g', u, s.threads[u]) == OpOf(s.heap, g, u, s.threads[u])
    {
      OpKept(s, g, t, a, u);
    }
  }

  lemma MoveIsSpecStep(s: State, g: Ghost, g': Ghost, t: Tid, a: Action, p: Spec, p': Spec, op: Op, op': Op)
    requires OpMoves(s, g, g', t, a, op, op') && ItemsMove(s, t, a, p.items, p'.items)
    requires t in p.ops && p.ops[t] == op && p == Become(p, t, op) && p'.ops == p.ops[t := op']
    requires p.spare == |g.free| && p'.spare == |g'.free| && p.caching == p'.caching == s.caching
    requires |p.items| == |g.items|
    ensures SpecInternal(p, t, p')
  {
  }

  lemma InternalRefines(s: State, g: Ghost, s': State, g': Ghost, t: Tid, a: Action)
    requires Inv(s, g) && InternalStep(s, g, s', g', t, a) && s'.caching == s.caching
    requires Allocated(s.heap, g.items) && Allocated(s'.heap, g'.items)
    requires Ops(s', g') == Ops(s, g)[t := OpOf(s'.heap, g', t, s'.threads[t])]
    requires ItemsMove(s, t, a, Values(s.heap, g.items), Values(s'.heap, g'.items))
    ensures SpecStep(Abs(s, g), t, a, Abs(s', g'))
  {
    OpEffect(s, g, s', g', t, a);
    hide Inv, Advance, GhostAdvance, OpMoves, ItemsMove, SpecInternal, OpOf;
    var p, op, op' := Abs(s, g), OpOf(s.heap, g, t, s.threads[t]), OpOf(s'.heap, g', t, s'.threads[t]);
    assert p.ops[t] == op && p == Become(p, t, op);
    MoveIsSpecStep(s, g, g', t, a, p, Abs(s', g'), op, op');
  }

  lemma ReturnRefines(s: State, g: Ghost, s': State, g': Ghost, t: Tid, a: Action)
    requires Enabled(s, t, a) && a.Return?
    requires s' == Next(Unbounded, s, t, a) && g' == GhostNext(s, g, t, a)
    requires Allocated(s.heap, g.items) && Allocated(s'.heap, g'.items)
    requires Ops(s', g') == Ops(s, g) - {t}
    requires ItemsMove(s, t, a, Values(s.heap, g.items), Values(s'.heap, g'.items))
    ensures SpecStep(Abs(s, g), t, a, Abs(s', g'))
  {
    hide Values, Allocated;
    assert Ops(s, g)[t] == OpOf(s.heap, g, t, s.threads[t]);
  }

  lemma AllocateRefines(s: State, g: Ghost, s': State, g': Ghost, t: Tid, a: Action)
    requires Enabled(s, t, a) && a.Allocate? && Justified(s, g, t)
    requires s' == Next(Unbounded, s, t, a) && g' == GhostNext(s, g, t, a)
    requires Allocated(s.heap, g.items) && Allocated(s'.heap, g'.items)
    requires Ops(s', g') == Ops(s, g)[t := OpOf(s'.heap, g', t, s'.threads[t])]
    requires ItemsMove(s, t, a, Values(s.heap, g.items), Values(s'.heap, g'.items))
    ensures SpecStep(Abs(s, g), t, a, Abs(s', g'))
  {
    hide Values, Allocated;
    assert Ops(s, g)[t] == OpOf(s.heap, g, t, s.threads[t]);
  }

  lemma InvokeRefines(s: State, g: Ghost, s': State, g': Ghost, t: Tid, a: Action)
    requires Enabled(s, t, a) && !a.Internal? && !a.Allocate? && !a.Return?
    requires s' == Next(Unbounded, s, t, a) && g' == GhostNext(s, g, t, a)
    requires Allocated(s.heap, g.items) && Allocated(s'.heap, g'.items)
    requires Ops(s', g') == Ops(s, g)[t := OpOf(s'.heap, g', t, s'.threads[t])]
    requires ItemsMove(s, t, a, Values(s.heap, g.items), Values(s'.heap, g'.items))
    ensures SpecStep(Abs(s, g), t, a, Abs(s', g'))
  {
    hide Values, Allocated;
  }

  lemma OuterRefines(s: State, g: Ghost, s': State, g': Ghost, t: Tid, a: Action)
    requires Enabled(s, t, a) && !a.Internal?
    requires (a.Allocate? ==> Justified(s, g, t)) && (t in s'.threads <==> !a.Return?)
    requires s' == Next(Unbounded, s, t, a) && g' == GhostNext(s, g, t, a)
    requires Allocated(s.heap, g.items) && Allocated(s'.heap, g'.items)
    requires t in s'.threads ==> Ops(s', g') == Ops(s, g)[t := OpOf(s'.heap, g', t, s'.threads[t])]
    requires t !in s'.threads ==> Ops(s', g') == Ops(s, g) - {t}
    requires ItemsMove(s, t, a, Values(s.heap, g.items), Values(s'.heap, g'.items))
    ensures SpecStep(Abs(s, g), t, a, Abs(s', g'))
  {
    hide Values, Allocated, SpecStep, Next, GhostNext, ItemsMove, Justified;
    match a
    case Return(_) => ReturnRefines(s, g, s', g', t, a);
    case Allocate(_, _) => AllocateRefines(s, g, s', g', t, a);
    case _ => InvokeRefines(s, g, s', g', t, a);
  }

  /** Every atomic step of the machine is a step of the abstract stack, or leaves it unchanged. */
  lemma StepRefines(s: State, g: Ghost, t: Tid, a: Action)
    requires Inv(s, g) && Enabled(s, t, a) && (a.Internal? ==> Safe(s, s.threads[t]))
    ensures var s', g' := Next(Unbounded, s, t, a), GhostNext(s, g, t, a);
            && Allocated(s.heap, g.items) && Allocated(s'.heap, g'.items)
            && SpecStep(Abs(s, g), t, a, Abs(s', g'))
  {
    var s', g' := Next(Unbounded, s, t, a), GhostNext(s, g, t, a);
    StackEffect(s, g, t, a);
    OthersEffect(s, g, t, a);
    OpsEffect(s, g, s', g', t, a);
    hide Inv, Values, Ops, ItemsMove;
    if a.Internal? {
      InternalRefines(s, g, s', g', t, a);
    } else {
      if a.Allocate? {
        KnowsReason(s, g, t);
      }
      hide Next, GhostNext;
      OuterRefines(s, g, s', g', t, a);
    }
  }
}
