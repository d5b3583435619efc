/** Whole runs of the concurrent fifo: any number of threads, any interleaving, any spurious
    failures. The theorems here are about every state that such a run reaches. */
module FifoRuns {
  import opened TaggedPtr
  import opened NodeList
  import opened FifoMachine
  import opened FifoInvariant
  import opened FifoSafety
  import opened FifoSpec

  datatype Move = Move(t: Tid, a: Action)

  ghost predicate CanMove(width: Width, s: State, m: Move, s': State) {
    && Enabled(s, m.t, m.a)
    && (m.a.Internal? ==> Safe(s, s.threads[m.t]))
    && s' == Next(width, s, m.t, m.a)
  }

  ghost predicate IsRun(width: Width, states: seq<State>, moves: seq<Move>) {
    && |states| == |moves| + 1
    && forall i :: 0 <= i < |moves| ==> CanMove(width, states[i], moves[i], states[i + 1])
  }

  // ---- The state that the constructor leaves ----

  /** A dummy node with a null link and tag 0, the other nodes in the freelist, nobody inside. */
  ghost predicate Initial(s: State, free: seq<Ptr>) {
    && s.threads == map[]
    && s.head == s.tail && s.head.tag == 0 && NULL !in s.heap
    && s.head.ptr in s.heap && s.heap[s.head.ptr].next == Tagged(NULL, 0)
    && IsList(s.heap, s.pool.ptr, free)
    && s.head.ptr !in free
    && s.heap.Keys == {s.head.ptr} + Elements(free)
  }

  ghost function InitialGhost(s: State, free: seq<Ptr>): Ghost {
    Ghost([s.head.ptr], free, map x | x in s.heap :: if x == s.head.ptr then Queued else Free, 0, {}, {})
  }

  lemma InitialInv(s: State, free: seq<Ptr>)
    requires Initial(s, free)
    ensures Inv(s, InitialGhost(s, free))
    ensures Allocated(s.heap, Rest(InitialGhost(s, free).chain)) && Abs(s, InitialGhost(s, free)).queue == []
  {
    forall x | x in free
      ensures x in s.heap
    {
    }
  }

  // ---- Invariance ----

  /** The companion after the first `k` moves of a run that starts with companion `g`. */
  ghost function Companion(states: seq<State>, moves: seq<Move>, g: Ghost, k: nat): Ghost
    requires IsRun(Unbounded, states, moves) && k <= |moves|
  {
    if k == 0 then g
    else
      assert CanMove(Unbounded, states[k - 1], moves[k - 1], states[k]);
      GhostNext(states[k - 1], Companion(states, moves, g, k - 1), moves[k - 1].t, moves[k - 1].a)
  }

  lemma {:induction false} RunKeepsInv(states: seq<State>, moves: seq<Move>, g: Ghost, k: nat)
    requires IsRun(Unbounded, states, moves) && Inv(states[0], g) && k <= |moves|
    ensures Inv(states[k], Companion(states, moves, g, k))
  {
    hide Inv;
    if k > 0 {
      RunKeepsInv(states, moves, g, k - 1);
      assert CanMove(Unbounded, states[k - 1], moves[k - 1], states[k]);
      StepKeepsInv(states[k - 1], Companion(states, moves, g, k - 1), moves[k - 1].t, moves[k - 1].a);
    }
  }

  // ---- Refinement ----

  ghost predicate SpecRun(specs: seq<Spec>, moves: seq<Move>) {
    && |specs| == |moves| + 1
    && forall i :: 0 <= i < |moves| ==> SpecStep(specs[i], moves[i].t, moves[i].a, specs[i + 1])
  }

  ghost function AbsAt(states: seq<State>, moves: seq<Move>, g: Ghost, k: nat): Spec
    requires IsRun(Unbounded, states, moves) && k <= |moves| && Inv(states[0], g)
  {
    RunAllocated(states, moves, g, k);
    Abs(states[k], Companion(states, moves, g, k))
  }

  lemma RunAllocated(states: seq<State>, moves: seq<Move>, g: Ghost, k: nat)
    requires IsRun(Unbounded, states, moves) && Inv(states[0], g) && k <= |moves|
    ensures Allocated(states[k].heap, Rest(Companion(states, moves, g, k).chain))
  {
    RunKeepsInv(states, moves, g, k);
    hide Local;
    ShapeAllocated(states[k], Companion(states, moves, g, k));
  }

  lemma AbsMoves(states: seq<State>, moves: seq<Move>, g: Ghost, k: nat)
    requires IsRun(Unbounded, states, moves) && Inv(states[0], g) && k < |moves|
    ensures SpecStep(AbsAt(states, moves, g, k), moves[k].t, moves[k].a, AbsAt(states, moves, g, k + 1))
  {
    RunKeepsInv(states, moves, g, k);
    assert CanMove(Unbounded, states[k], moves[k], states[k + 1]);
    hide Inv, SpecStep, Abs;
    StepRefines(states[k], Companion(states, moves, g, k), moves[k].t, moves[k].a);
  }

  /** `specs` is the sequence of the abstract states of the run. */
  ghost predicate Abstracts(states: seq<State>, moves: seq<Move>, g: Ghost, specs: seq<Spec>)
    requires IsRun(Unbounded, states, moves) && Inv(states[0], g)
  {
    |specs| == |moves| + 1 && forall k :: 0 <= k <= |moves| ==> specs[k] == AbsAt(states, moves, g, k)
  }

  lemma SpecsOf(states: seq<State>, moves: seq<Move>, g: Ghost) returns (specs: seq<Spec>)
    requires IsRun(Unbounded, states, moves) && Inv(states[0], g)
    ensures SpecRun(specs, moves) && Abstracts(states, moves, g, specs)
  {
    hide Inv, IsRun, AbsAt, SpecStep;
    specs := seq(|moves| + 1, k requires 0 <= k <= |moves| => AbsAt(states, moves, g, k));
    forall i | 0 <= i < |moves|
      ensures SpecStep(specs[i], moves[i].t, moves[i].a, specs[i + 1])
    {
      AbsMoves(states, moves, g, i);
    }
  }

  /** Linearizability: in every run from the constructed fifo the abstract states form a run of the abstract
      fifo, with the same calls, returns and results, in which each operation takes effect at one of its own
      steps and takes or gives back at most one spare node. */
  lemma RunRefines(states: seq<State>, moves: seq<Move>, free: seq<Ptr>)
    requires IsRun(Unbounded, states, moves) && Initial(states[0], free)
    ensures Inv(states[0], InitialGhost(states[0], free))
    ensures exists specs ::
              && SpecRun(specs, moves) && specs[0] == Spec(states[0].caching, [], |free|, map[])
              && Abstracts(states, moves, InitialGhost(states[0], free), specs)
  {
    InitialInv(states[0], free);
    var g := InitialGhost(states[0], free);
    assert AbsAt(states, moves, g, 0) == Spec(states[0].caching, [], |free|, map[]);
    hide Inv, IsRun, AbsAt, Initial;
    var specs := SpecsOf(states, moves, g);
    assert SpecRun(specs, moves) && specs[0] == AbsAt(states, moves, g, 0);
  }

  // ---- Refusals ----

  /** Between move `i` and move `k` thread `t` is inside one call, made by move `i`. */
  ghost predicate OneCall(moves: seq<Move>, t: Tid, i: nat, k: nat) {
    && i < k <= |moves| && moves[i].t == t
    && (moves[i].a.InvokeEnqueue? || moves[i].a.InvokeDequeue? || moves[i].a.InvokeReserve?)
    && forall j :: i < j < k && moves[j].t == t ==> !moves[j].a.Return?
  }

  /** The move is a step of `t` inside `allocate` that finds the freelist empty. */
  predicate FindsDry(s: State, m: Move, t: Tid) {
    m.t == t && m.a.Internal? && t in s.threads && s.threads[t].EnqAlloc? && s.pool.ptr == NULL
  }

  /** The move is the load of `head->next` by `t`. */
  predicate LooksAtQueue(s: State, m: Move, t: Tid) {
    m.t == t && m.a.Internal? && t in s.threads && s.threads[t].DeqLoadNext?
  }

  lemma NothingSpare(s: State, g: Ghost)
    requires Inv(s, g)
    ensures |g.free| == 0 <==> s.pool.ptr == NULL
    ensures Allocated(s.heap, Rest(g.chain)) && (|g.chain| == 1 <==> Abs(s, g).queue == [])
  {
    hide Local, PlaceOk;
    ShapeAllocated(s, g);
  }

  /** What a move of the call says about `sawDry`. */
  lemma DryMove(s: State, g: Ghost, m: Move, s': State, t: Tid)
    requires CanMove(Unbounded, s, m, s') && t in s.threads && !(m.t == t && m.a.Return?)
    requires |g.free| == 0 <==> s.pool.ptr == NULL
    ensures t in GhostNext(s, g, m.t, m.a).sawDry ==> t in g.sawDry || FindsDry(s, m, t)
  {
  }

  lemma RefusalMove(s: State, g: Ghost, m: Move, s': State, t: Tid)
    requires CanMove(Unbounded, s, m, s') && t in s.threads && !(m.t == t && m.a.Return?)
    ensures t in s'.threads && s'.caching == s.caching
    ensures s'.threads[t] == Done(Enqueued(false)) ==> s.threads[t] == s'.threads[t] || !s.caching
  {
    OthersEffect(s, g, m.t, m.a);
    if m.t == t && m.a.Internal? {
      OwnRefusal(s, t, m.a.spurious);
      hide Advance;
    } else if m.t != t {
      hide Next;
    }
  }

  lemma OwnRefusal(s: State, t: Tid, spurious: bool)
    requires t in s.threads && !s.threads[t].Done? && Safe(s, s.threads[t]) && Enabled(s, t, Internal(spurious))
    ensures t in Advance(Unbounded, s, t, spurious).threads
    ensures Advance(Unbounded, s, t, spurious).threads[t] == Done(Enqueued(false)) ==> !s.caching
  {
  }

  lemma EmptyMove(s: State, g: Ghost, m: Move, s': State, t: Tid)
    requires CanMove(Unbounded, s, m, s') && t in s.threads && !(m.t == t && m.a.Return?)
    ensures t in s'.threads
    ensures if LooksAtQueue(s, m, t) then t in GhostNext(s, g, m.t, m.a).sawEmpty <==> |g.chain| == 1
            else t in GhostNext(s, g, m.t, m.a).sawEmpty ==> t in g.sawEmpty
  {
  }

  lemma CallBegins(s: State, g: Ghost, m: Move, s': State)
    requires CanMove(Unbounded, s, m, s')
    ensures m.a.InvokeEnqueue? ==>
              && m.t in s'.threads && s'.threads[m.t].EnqAlloc? && m.t !in GhostNext(s, g, m.t, m.a).sawDry
    ensures m.a.InvokeDequeue? ==> m.t in s'.threads && m.t !in GhostNext(s, g, m.t, m.a).sawEmpty
  {
  }

  lemma {:induction false} DrynessDates(states: seq<State>, moves: seq<Move>, g: Ghost, t: Tid, i: nat, k: nat)
    requires IsRun(Unbounded, states, moves) && Inv(states[0], g)
    requires OneCall(moves, t, i, k) && moves[i].a.InvokeEnqueue?
    ensures t in states[k].threads
    ensures states[k].threads[t] == Done(Enqueued(false)) ==> !states[k].caching
    ensures t in Companion(states, moves, g, k).sawDry ==>
              exists j: nat :: i < j < k && FindsDry(states[j], moves[j], t)
  {
    hide Inv, FindsDry, CanMove, GhostNext, Abs;
    assert CanMove(Unbounded, states[k - 1], moves[k - 1], states[k]);
    var s, h := states[k - 1], Companion(states, moves, g, k - 1);
    if k > i + 1 {
      DrynessDates(states, moves, g, t, i, k - 1);
      RunKeepsInv(states, moves, g, k - 1);
      NothingSpare(s, h);
      DryMove(s, h, moves[k - 1], states[k], t);
      RefusalMove(s, h, moves[k - 1], states[k], t);
    } else {
      CallBegins(s, h, moves[k - 1], states[k]);
    }
  }

  lemma {:induction false} EmptinessDates(states: seq<State>, moves: seq<Move>, g: Ghost, t: Tid, i: nat, k: nat)
    requires IsRun(Unbounded, states, moves) && Inv(states[0], g)
    requires OneCall(moves, t, i, k) && moves[i].a.InvokeDequeue?
    ensures t in states[k].threads
    ensures t in Companion(states, moves, g, k).sawEmpty ==> LastLookWasEmpty(states, moves, g, t, i, k)
  {
    hide Inv, LooksAtQueue, CanMove, GhostNext, LastLookWasEmpty;
    assert CanMove(Unbounded, states[k - 1], moves[k - 1], states[k]);
    var s, h := states[k - 1], Companion(states, moves, g, k - 1);
    if k > i + 1 {
      EmptinessDates(states, moves, g, t, i, k - 1);
      RunKeepsInv(states, moves, g, k - 1);
      NothingSpare(s, h);
      assert AbsAt(states, moves, g, k - 1) == Abs(s, h);
      EmptyMove(s, h, moves[k - 1], states[k], t);
      LastLookMoves(states, moves, g, t, i, k - 1);
    } else {
      CallBegins(s, h, moves[k - 1], states[k]);
    }
  }

  lemma LastLookMoves(states: seq<State>, moves: seq<Move>, g: Ghost, t: Tid, i: nat, k: nat)
    requires IsRun(Unbounded, states, moves) && Inv(states[0], g) && i < k < |moves|
    ensures LooksAtQueue(states[k], moves[k], t) && AbsAt(states, moves, g, k).queue == [] ==>
              LastLookWasEmpty(states, moves, g, t, i, k + 1)
    ensures !LooksAtQueue(states[k], moves[k], t) && LastLookWasEmpty(states, moves, g, t, i, k) ==>
              LastLookWasEmpty(states, moves, g, t, i, k + 1)
  {
    hide Inv, LooksAtQueue, IsRun, AbsAt;
  }

  /** The last load of `head->next` by `t` between moves `i` and `k` was made while the queue was empty. */
  ghost predicate LastLookWasEmpty(states: seq<State>, moves: seq<Move>, g: Ghost, t: Tid, i: nat, k: nat)
    requires IsRun(Unbounded, states, moves) && Inv(states[0], g) && k <= |moves|
  {
    exists j: nat :: i < j < k && LooksAtQueue(states[j], moves[j], t) && AbsAt(states, moves, g, j).queue == []
                     && forall j' :: j < j' < k ==> !LooksAtQueue(states[j'], moves[j'], t)
  }

  lemma RefusalIsNoted(s: State, g: Ghost, t: Tid)
    requires Inv(s, g) && t in s.threads
    ensures s.threads[t] == Done(Enqueued(false)) ==> t in g.sawDry
    ensures s.threads[t].Done? && s.threads[t].result.Dequeued? && !s.threads[t].result.ok ==> t in g.sawEmpty
  {
    AtLocal(s, g, t, s.threads[t]);
    hide Inv, Shape;
  }

  /** An enqueue answers false only with a static freelist, and only if a load of `pool` inside the call has
      found it null. */
  lemma EnqueueRefusalIsTrue(states: seq<State>, moves: seq<Move>, free: seq<Ptr>, t: Tid, i: nat, k: nat)
    requires IsRun(Unbounded, states, moves) && Initial(states[0], free) && OneCall(moves, t, i, k) && k < |moves|
    requires moves[i].a.InvokeEnqueue? && moves[k] == Move(t, Return(Enqueued(false)))
    ensures !states[k].caching && exists j: nat :: i < j < k && FindsDry(states[j], moves[j], t)
  {
    InitialInv(states[0], free);
    var g := InitialGhost(states[0], free);
    hide Inv, Initial;
    assert CanMove(Unbounded, states[k], moves[k], states[k + 1]);
    DrynessDates(states, moves, g, t, i, k);
    RunKeepsInv(states, moves, g, k);
    RefusalIsNoted(states[k], Companion(states, moves, g, k), t);
  }

  /** A dequeue answers false only if the queue was empty at its last load of `head->next`. */
  lemma DequeueRefusalIsTrue(states: seq<State>, moves: seq<Move>, free: seq<Ptr>, t: Tid, i: nat, k: nat, ret: Value)
    requires IsRun(Unbounded, states, moves) && Initial(states[0], free) && OneCall(moves, t, i, k) && k < |moves|
    requires moves[i].a.InvokeDequeue? && moves[k] == Move(t, Return(Dequeued(false, ret)))
    ensures Inv(states[0], InitialGhost(states[0], free))
    ensures LastLookWasEmpty(states, moves, InitialGhost(states[0], free), t, i, k)
  {
    InitialInv(states[0], free);
    var g := InitialGhost(states[0], free);
    hide Inv, Initial, LastLookWasEmpty;
    assert CanMove(Unbounded, states[k], moves[k], states[k + 1]);
    EmptinessDates(states, moves, g, t, i, k);
    RunKeepsInv(states, moves, g, k);
    RefusalIsNoted(states[k], Companion(states, moves, g, k), t);
  }

  ghost predicate WasEmpty(specs: seq<Spec>, i: nat, k: nat) {
    exists j: nat :: i < j <= k && j < |specs| && specs[j].queue == []
  }

  ghost predicate WasDry(specs: seq<Spec>, i: nat, k: nat) {
    exists j: nat :: i < j <= k && j < |specs| && specs[j].spare == 0
  }

  /** The abstract fifo by itself refuses a removal only if it was empty, and an insertion only if no spare
      node was left and none may be allocated, at an instant of that call. */
  lemma {:induction false} RefusalsAreTrue(specs: seq<Spec>, moves: seq<Move>, t: Tid, i: nat, k: nat)
    requires SpecRun(specs, moves) && OneCall(moves, t, i, k)
    ensures t in specs[k].ops && specs[k].caching == specs[i].caching
    ensures specs[k].ops[t].DequeueRefused? ==> WasEmpty(specs, i, k)
    ensures specs[k].ops[t].Dequeuing? && specs[k].ops[t].sawEmpty ==> WasEmpty(specs, i, k)
    ensures specs[k].ops[t].EnqueueRefused? ==> WasDry(specs, i, k) && !specs[k].caching
    ensures specs[k].ops[t].Enqueuing? && specs[k].ops[t].sawDry ==> WasDry(specs, i, k)
  {
    assert SpecStep(specs[k - 1], moves[k - 1].t, moves[k - 1].a, specs[k]);
    if k > i + 1 {
      RefusalsAreTrue(specs, moves, t, i, k - 1);
    }
  }

  // ---- First in, first out ----

  /** The values appended, and the values removed, by the first `k` moves of a run. */
  ghost function Appended(states: seq<State>, moves: seq<Move>, k: nat): seq<Value>
    requires IsRun(Unbounded, states, moves) && k <= |moves|
  {
    if k == 0 then []
    else
      var s, m := states[k - 1], moves[k - 1];
      if Links(s, m.t, m.a) then Appended(states, moves, k - 1) + [s.threads[m.t].v] else Appended(states, moves, k - 1)
  }

  ghost function Removed(states: seq<State>, moves: seq<Move>, k: nat): seq<Value>
    requires IsRun(Unbounded, states, moves) && k <= |moves|
  {
    if k == 0 then []
    else
      var s, m := states[k - 1], moves[k - 1];
      if Unlinks(s, m.t, m.a) then Removed(states, moves, k - 1) + [s.threads[m.t].ret]
      else Removed(states, moves, k - 1)
  }

  /** Conservation and order: at any point of any run, what was in the queue at the start followed by
      what was linked is what was removed followed by what is in the queue. */
  lemma {:induction false} RunIsFifo(states: seq<State>, moves: seq<Move>, g: Ghost, k: nat)
    requires IsRun(Unbounded, states, moves) && Inv(states[0], g) && k <= |moves|
    ensures AbsAt(states, moves, g, 0).queue + Appended(states, moves, k) ==
            Removed(states, moves, k) + AbsAt(states, moves, g, k).queue
  {
    hide Inv, AbsAt;
    if k > 0 {
      RunIsFifo(states, moves, g, k - 1);
      QueueAt(states, moves, g, k - 1);
      var queue, queue' := AbsAt(states, moves, g, k - 1).queue, AbsAt(states, moves, g, k).queue;
      var s, m := states[k - 1], moves[k - 1];
      if Links(s, m.t, m.a) {
        SnocBoth(AbsAt(states, moves, g, 0).queue, Appended(states, moves, k - 1), Removed(states, moves, k - 1),
                 queue, s.threads[m.t].v);
      } else if Unlinks(s, m.t, m.a) {
        assert queue == [s.threads[m.t].ret] + queue';
        Shift(Removed(states, moves, k - 1), s.threads[m.t].ret, queue');
      }
    }
  }

  /** From the constructed fifo: the values that were linked are, in order, those that were removed and
      then those that are still inside. */
  lemma FirstInFirstOut(states: seq<State>, moves: seq<Move>, free: seq<Ptr>, k: nat)
    requires IsRun(Unbounded, states, moves) && Initial(states[0], free) && k <= |moves|
    ensures var g := InitialGhost(states[0], free);
            && Inv(states[0], g)
            && Appended(states, moves, k) == Removed(states, moves, k) + AbsAt(states, moves, g, k).queue
  {
    InitialInv(states[0], free);
    hide Inv, Initial, IsRun, Appended, Removed;
    var g := InitialGhost(states[0], free);
    RunIsFifo(states, moves, g, k);
    assert AbsAt(states, moves, g, 0).queue == [];
    assert [] + Appended(states, moves, k) == Appended(states, moves, k);
  }

  lemma SnocBoth(a: seq<Value>, b: seq<Value>, c: seq<Value>, d: seq<Value>, v: Value)
    requires a + b == c + d
    ensures a + (b + [v]) == c + (d + [v])
  {
    assert a + (b + [v]) == (a + b) + [v];
  }

  lemma Shift(c: seq<Value>, v: Value, d: seq<Value>)
    ensures (c + [v]) + d == c + ([v] + d)
  {
  }

  lemma QueueAt(states: seq<State>, moves: seq<Move>, g: Ghost, k: nat)
    requires IsRun(Unbounded, states, moves) && Inv(states[0], g) && k < |moves|
    ensures QueueMoves(states[k], moves[k].t, moves[k].a,
                       AbsAt(states, moves, g, k).queue, AbsAt(states, moves, g, k + 1).queue)
  {
    hide Inv, QueueMoves, Values;
    RunKeepsInv(states, moves, g, k);
    assert CanMove(Unbounded, states[k], moves[k], states[k + 1]);
    QueueEffect(states[k], Companion(states, moves, g, k), moves[k].t, moves[k].a);
  }
}
