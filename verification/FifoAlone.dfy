/** A call of the fifo while nobody else moves. The others may have been stopped anywhere inside their own operations,
    also between linking a node and swinging the tail: the call ends after a constant number of steps, with the answer
    that the contents at its beginning call for. */
module FifoAlone {
  import opened TaggedPtr
  import opened NodeList
  import opened FifoMachine
  import opened FifoInvariant
  import opened FifoSpec
  import opened FifoRuns
  import opened FifoProgress

  /** Move `i` is a call by `u`; the moves after it up to `k` are steps of this call, without spurious failures. */
  ghost predicate Alone(moves: seq<Move>, u: Tid, i: nat, k: nat) {
    && OneCall(moves, u, i, k)
    && forall j :: i < j < k ==> moves[j].t == u && moves[j].a != Internal(true)
  }

  // ---- The number of steps ----

  /** The operation is past the step that can send it back. */
  predicate Committed(pc: Pc) {
    pc.EnqSwing? || pc.DeqFree? || pc.ResAlloc? || pc.ResFree? || pc.Done?
  }

  lemma CommitMoves(s: State, u: Tid, m: Move, s': State)
    requires CanMove(Unbounded, s, m, s') && m.t == u && !m.a.Return? && m.a != Internal(true)
    ensures u in s'.threads && !FailsSpuriously(s, u, m) && !PoolFailsSpuriously(s, u, m)
    ensures Committed(s'.threads[u]) ==> !Retries(s, u, m, s')
    ensures !Committed(s'.threads[u]) ==>
              !Links(s, u, m.a) && !Unlinks(s, u, m.a) && (u in s.threads ==> !Committed(s.threads[u]))
  {
  }

  /** In the freelist nothing sends the thread back, and in its own loop no value is linked or removed before it commits
      itself. */
  lemma {:induction false} NothingHappens(states: seq<State>, moves: seq<Move>, u: Tid, i: nat, k: nat)
    requires IsRun(Unbounded, states, moves) && Alone(moves, u, i, k)
    ensures u in states[k].threads && PoolStale(states[k], u) == 0
    ensures PoolRetryCount(states, moves, u, k) == PoolRetryCount(states, moves, u, i)
    ensures SpuriousCount(states, moves, u, k) == SpuriousCount(states, moves, u, i)
    ensures StepCount(moves, u, k) - StepCount(moves, u, i) == k - i - 1
    ensures !Committed(states[k].threads[u]) ==>
              && Appended(states, moves, k) == Appended(states, moves, i)
              && Removed(states, moves, k) == Removed(states, moves, i)
  {
    hide CanMove, PoolRetries, Links, Unlinks, Committed, FailsSpuriously, PoolFailsSpuriously, PoolStale;
    var s, m := states[k - 1], moves[k - 1];
    LastMove(states, moves, u, i, k);
    OwnMovePays(s, u, m, states[k]);
    CommitMoves(s, u, m, states[k]);
    CallsComeFromOutside(s, m, states[k]);
    if k == i + 1 {
      NotStaleOutside(s, u);
    } else {
      NothingHappens(states, moves, u, i, k - 1);
    }
  }

  /** The last move of a call that has come so far. */
  lemma LastMove(states: seq<State>, moves: seq<Move>, u: Tid, i: nat, k: nat)
    requires IsRun(Unbounded, states, moves) && Alone(moves, u, i, k)
    ensures i < k <= |moves| < |states| && u !in states[i].threads
    ensures CanMove(Unbounded, states[k - 1], moves[k - 1], states[k])
    ensures moves[k - 1].t == u && !moves[k - 1].a.Return? && moves[k - 1].a != Internal(true)
    ensures k > i + 1 ==> Alone(moves, u, i, k - 1)
  {
    CallFacts(states, moves, u, i, k);
    assert CanMove(Unbounded, states[k - 1], moves[k - 1], states[k]);
    hide CanMove, IsRun;
  }

  lemma NotStaleOutside(s: State, u: Tid)
    requires u !in s.threads
    ensures PoolStale(s, u) == 0
  {
  }

  /** The thread is sent back at most once, to swing a tail that another thread has left behind. */
  lemma {:induction false} OneRetry(states: seq<State>, moves: seq<Move>, g: Ghost, u: Tid, i: nat, k: nat)
    requires IsRun(Unbounded, states, moves) && Inv(states[0], g) && Alone(moves, u, i, k)
    ensures u in states[k].threads
    ensures RetryCount(states, moves, u, k) - RetryCount(states, moves, u, i) <= 1
    decreases k
  {
    hide *;
    LastMove(states, moves, u, i, k);
    NothingHappens(states, moves, u, i, k);
    if !Committed(states[k].threads[u]) {
      OneRetryBefore(states, moves, g, u, i, k);
    } else {
      NoRetryNow(states, moves, u, k);
      if k > i + 1 {
        OneRetry(states, moves, g, u, i, k - 1);
      }
    }
  }

  lemma NoRetryNow(states: seq<State>, moves: seq<Move>, u: Tid, k: nat)
    requires IsRun(Unbounded, states, moves) && 0 < k <= |moves| && moves[k - 1].t == u
    requires CanMove(Unbounded, states[k - 1], moves[k - 1], states[k])
    requires !moves[k - 1].a.Return? && moves[k - 1].a != Internal(true)
    requires u in states[k].threads && Committed(states[k].threads[u])
    ensures RetryCount(states, moves, u, k) == RetryCount(states, moves, u, k - 1)
  {
    CommitMoves(states[k - 1], u, moves[k - 1], states[k]);
    hide CanMove, Committed, Retries;
  }

  lemma OneRetryBefore(states: seq<State>, moves: seq<Move>, g: Ghost, u: Tid, i: nat, k: nat)
    requires IsRun(Unbounded, states, moves) && Inv(states[0], g) && i <= k <= |moves| && u !in states[i].threads
    requires SpuriousCount(states, moves, u, k) == SpuriousCount(states, moves, u, i)
    requires |Appended(states, moves, k)| == |Appended(states, moves, i)|
    requires |Removed(states, moves, k)| == |Removed(states, moves, i)|
    ensures RetryCount(states, moves, u, k) - RetryCount(states, moves, u, i) <= 1
  {
    RetriesAreBounded(states, moves, g, u, i, k);
    hide RetryCount, Inv, IsRun;
  }

  /** Alone, a call has its result after the steps that it needs and at most six more: an `enqueue` after 17, a
      `dequeue` after 16. */
  lemma AloneEnds(states: seq<State>, moves: seq<Move>, g: Ghost, u: Tid, i: nat, k: nat)
    requires IsRun(Unbounded, states, moves) && Inv(states[0], g) && Alone(moves, u, i, k)
    ensures u in states[k].threads
    ensures k - i - 1 + (if states[k].threads[u].Done? then 0 else 1) <= Needed(moves[i].a) + 6
  {
    assert OneCall(moves, u, i, k);
    hide *;
    LastMove(states, moves, u, i, k);
    OneRetry(states, moves, g, u, i, k);
    NothingHappens(states, moves, u, i, k);
    StepsAreRetries(states, moves, u, i, k);
    StepsLeftUntilDone(states[k].threads[u]);
  }

  // ---- The answer ----

  /** How far an operation has come that began in the abstract state `p0` and had no company. */
  predicate SoFar(p0: Spec, p: Spec, op: Op, a: Action) {
    var served := p0.spare > 0 || p0.caching;
    var taken := if p0.spare > 0 then p0.spare - 1 else 0;
    match a
    case InvokeEnqueue(v) =>
      (match op
       case Enqueuing(v', sawDry) => v' == v && p.queue == p0.queue && p.spare == p0.spare && (sawDry ==> p0.spare == 0)
       case Linking(v') => v' == v && p.queue == p0.queue && p.spare == taken && served
       case EnqueueDone => p.queue == p0.queue + [v] && p.spare == taken && served
       case EnqueueRefused => p.queue == p0.queue && p.spare == p0.spare && !served
       case _ => false)
    case InvokeDequeue(_) =>
      (match op
       case Dequeuing(sawEmpty) => p.queue == p0.queue && p.spare == p0.spare && (sawEmpty ==> p0.queue == [])
       case DequeueDone(v) => p0.queue == [v] + p.queue && p.spare == p0.spare
       case DequeueFreed(v) => p0.queue == [v] + p.queue && p.spare == p0.spare + 1
       case DequeueRefused => p0.queue == p.queue == [] && p.spare == p0.spare
       case _ => false)
    case InvokeReserve(count) =>
      op.Reserving? && p.queue == p0.queue && p.spare + op.count + (if op.holding then 1 else 0) == p0.spare + count
    case _ => true
  }

  lemma SoFarMoves(p0: Spec, p: Spec, u: Tid, a: Action, p': Spec, call: Action)
    requires u in p.ops && SoFar(p0, p, p.ops[u], call) && p.caching == p0.caching
    requires SpecStep(p, u, a, p') && (a.Internal? || a.Allocate?)
    ensures u in p'.ops && SoFar(p0, p', p'.ops[u], call) && p'.caching == p0.caching
  {
  }

  lemma {:induction false} SoFarHolds(specs: seq<Spec>, moves: seq<Move>, u: Tid, i: nat, k: nat)
    requires SpecRun(specs, moves) && Alone(moves, u, i, k)
    ensures u in specs[k].ops && SoFar(specs[i], specs[k], specs[k].ops[u], moves[i].a)
    ensures specs[k].caching == specs[i].caching
  {
    assert SpecStep(specs[k - 1], moves[k - 1].t, moves[k - 1].a, specs[k]);
    if k > i + 1 {
      SoFarHolds(specs, moves, u, i, k - 1);
      var a := moves[k - 1].a;
      assert !a.InvokeEnqueue? && !a.InvokeDequeue? && !a.InvokeReserve?;
      hide SpecStep, SoFar, OneCall;
      SoFarMoves(specs[i], specs[k - 1], u, a, specs[k], moves[i].a);
    }
  }

  /** The answer of a call that was alone, and what it leaves: `enqueue` answers false if and only if the pool was null
      and the freelist static, `dequeue` if and only if the queue was empty. */
  ghost predicate RightAnswer(s: State, p: Spec, p': Spec, call: Action, result: Result) {
    match call
    case InvokeEnqueue(v) =>
      if s.pool.ptr == NULL && !s.caching then
        result == Enqueued(false) && p'.queue == p.queue && p'.spare == p.spare
      else
        result == Enqueued(true) && p'.queue == p.queue + [v] && p'.spare == if p.spare > 0 then p.spare - 1 else 0
    case InvokeDequeue(_) =>
      if p.queue == [] then result.Dequeued? && !result.ok && p'.queue == [] && p'.spare == p.spare
      else result == Dequeued(true, p.queue[0]) && p'.queue == p.queue[1..] && p'.spare == p.spare + 1
    case InvokeReserve(count) => result == Reserved && p'.queue == p.queue && p'.spare == p.spare + count
    case _ => true
  }

  lemma AloneAnswers(states: seq<State>, moves: seq<Move>, free: seq<Ptr>, u: Tid, i: nat, k: nat)
    requires IsRun(Unbounded, states, moves) && Initial(states[0], free) && Alone(moves, u, i, k)
    ensures u in states[k].threads && Inv(states[0], InitialGhost(states[0], free))
    ensures var g := InitialGhost(states[0], free);
            states[k].threads[u].Done? ==>
              RightAnswer(states[i], AbsAt(states, moves, g, i), AbsAt(states, moves, g, k),
                          moves[i].a, states[k].threads[u].result)
  {
    InitialInv(states[0], free);
    var g := InitialGhost(states[0], free);
    LastMove(states, moves, u, i, k);
    NothingHappens(states, moves, u, i, k);
    AbstractFacts(states, moves, g, i, u);
    AbstractFacts(states, moves, g, k, u);
    hide *;
    var specs := SpecsOf(states, moves, g);
    SoFarHolds(specs, moves, u, i, k);
    SpecsAt(states, moves, g, specs, i);
    SpecsAt(states, moves, g, specs, k);
    if states[k].threads[u].Done? {
      AnswerOf(states[i], specs[i], specs[k], moves[i].a, states[k].threads[u].result, specs[k].ops[u]);
    }
  }

  lemma SpecsAt(states: seq<State>, moves: seq<Move>, g: Ghost, specs: seq<Spec>, k: nat)
    requires IsRun(Unbounded, states, moves) && Inv(states[0], g) && Abstracts(states, moves, g, specs) && k <= |moves|
    ensures k < |specs| && specs[k] == AbsAt(states, moves, g, k)
  {
    hide Inv, IsRun, AbsAt;
  }

  /** The abstract state of a run beside its state of the machine. */
  lemma AbstractFacts(states: seq<State>, moves: seq<Move>, g: Ghost, k: nat, u: Tid)
    requires IsRun(Unbounded, states, moves) && Inv(states[0], g) && k <= |moves|
    ensures var s, p := states[k], AbsAt(states, moves, g, k);
            && p.caching == s.caching && (p.spare == 0 <==> s.pool.ptr == NULL) && (u in s.threads <==> u in p.ops)
            && (u in s.threads && s.threads[u].Done? ==> Answers(p.ops[u], s.threads[u].result))
  {
    RunKeepsInv(states, moves, g, k);
    RunAllocated(states, moves, g, k);
    NothingSpare(states[k], Companion(states, moves, g, k));
    AbsFacts(states[k], Companion(states, moves, g, k), u);
    assert AbsAt(states, moves, g, k) == Abs(states[k], Companion(states, moves, g, k)) by {
      hide Inv, IsRun, Abs, Companion, Allocated, Rest;
    }
    hide *;
  }

  lemma AbsFacts(s: State, g: Ghost, u: Tid)
    requires Allocated(s.heap, Rest(g.chain))
    ensures var p := Abs(s, g);
            && p.caching == s.caching && p.spare == |g.free| && (u in s.threads <==> u in p.ops)
            && (u in s.threads && s.threads[u].Done? ==> Answers(p.ops[u], s.threads[u].result))
  {
    hide Allocated, Rest, Values;
  }

  lemma AnswerOf(s: State, p: Spec, p': Spec, call: Action, result: Result, op: Op)
    requires SoFar(p, p', op, call) && Answers(op, result)
    requires s.caching == p.caching && (p.spare == 0 <==> s.pool.ptr == NULL)
    ensures RightAnswer(s, p, p', call, result)
  {
  }

  // ---- There is such a run ----

  /** From every state in which the invariant holds, whatever the others are in the middle of, a call that is made has a
      run of its own steps to its end. The system allocator hands out `bits`. */
  lemma CallReturns(s: State, g: Ghost, u: Tid, call: Action, bits: Node) returns (states: seq<State>, moves: seq<Move>)
    requires Inv(s, g) && u !in s.threads && (call.InvokeEnqueue? || call.InvokeDequeue? || call.InvokeReserve?)
    ensures IsRun(Unbounded, states, moves) && states[0] == s && Alone(moves, u, 0, |moves|) && moves[0].a == call
    ensures u in states[|moves|].threads && states[|moves|].threads[u].Done?
  {
    var s' := Next(Unbounded, s, u, call);
    assert CanMove(Unbounded, s, Move(u, call), s');
    states, moves := [s, s'], [Move(u, call)];
    hide Inv;
    states, moves := FinishCall(states, moves, g, u, bits);
  }

  lemma {:induction false} FinishCall(states: seq<State>, moves: seq<Move>, g: Ghost, u: Tid, bits: Node)
    returns (states': seq<State>, moves': seq<Move>)
    requires IsRun(Unbounded, states, moves) && Inv(states[0], g) && Alone(moves, u, 0, |moves|)
    ensures IsRun(Unbounded, states', moves') && states'[0] == states[0]
    ensures Alone(moves', u, 0, |moves'|) && moves'[0] == moves[0]
    ensures u in states'[|moves'|].threads && states'[|moves'|].threads[u].Done?
    decreases Needed(moves[0].a) + 7 - |moves|
  {
    hide Inv, CanMove, StepsLeft;
    AloneEnds(states, moves, g, u, 0, |moves|);
    var s := states[|moves|];
    states', moves' := states, moves;
    if !s.threads[u].Done? {
      RunKeepsInv(states, moves, g, |moves|);
      var a, s' := OwnStep(s, Companion(states, moves, g, |moves|), u, bits);
      states', moves' := states + [s'], moves + [Move(u, a)];
      forall i | 0 <= i < |moves'|
        ensures CanMove(Unbounded, states'[i], moves'[i], states'[i + 1])
      {
        if i < |moves| {
          assert CanMove(Unbounded, states[i], moves[i], states[i + 1]);
        }
      }
      states', moves' := FinishCall(states', moves', g, u, bits);
    }
  }

  lemma OwnStep(s: State, g: Ghost, u: Tid, bits: Node) returns (a: Action, s': State)
    requires Inv(s, g) && u in s.threads && !s.threads[u].Done?
    ensures CanMove(Unbounded, s, Move(u, a), s') && (a == Internal(false) || a.Allocate?)
  {
    LocalIsSafe(s, g, u);
    hide Inv;
    if WantsMemory(s, s.threads[u]) {
      var n := UnusedAddress(s.heap);
      a := Allocate(n, bits);
    } else {
      a := Internal(false);
    }
    s' := Next(Unbounded, s, u, a);
  }
}
