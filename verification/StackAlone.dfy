/** A call of the stack while nobody else moves. The others may have been stopped anywhere inside their own operations:
    the call ends after a constant number of steps, with the answer that the contents at its beginning call for. */
module StackAlone {
  import opened TaggedPtr
  import opened NodeList
  import opened StackMachine
  import opened StackSafety
  import opened StackSpec
  import opened StackRuns
  import opened StackProgress

  /** Move `i` is a call by `u`; the moves after it up to `k` are steps of this call, without spurious failures. */
  ghost predicate Alone(moves: seq<Move>, u: Tid, i: nat, k: nat) {
    && OneCall(moves, u, i, k)
    && forall j :: i < j < k ==> moves[j].t == u && moves[j].a != Internal(true)
  }

  /** Nothing sends the thread round again. */
  lemma {:induction false} NoRetries(states: seq<State>, moves: seq<Move>, u: Tid, i: nat, k: nat)
    requires IsRun(Unbounded, states, moves) && Alone(moves, u, i, k)
    ensures u in states[k].threads && Stale(states[k], u) == 0
    ensures k - i - 1 + StepsLeft(states[k].threads[u]) <= Needed(moves[i].a)
  {
    var s, m := states[k - 1], moves[k - 1];
    assert CanMove(Unbounded, s, m, states[k]);
    OwnMovePays(s, u, m, states[k]);
    if k == i + 1 {
      CallNeeds(s, m, states[k]);
    } else {
      NoRetries(states, moves, u, i, k - 1);
      MovesOn(s, u, m, states[k]);
    }
    hide CanMove, StepsLeft, Needed, Stale;
  }

  lemma MovesOn(s: State, u: Tid, m: Move, s': State)
    requires CanMove(Unbounded, s, m, s') && m.t == u && u in s.threads && !m.a.Return? && m.a != Internal(true)
    ensures !FailsSpuriously(s, u, m) && (m.a.Internal? || m.a.Allocate?)
  {
  }

  /** After eight steps a `push` or a `pop` that is alone has its result, and a `reserve` of n nodes after 5n + 1. */
  lemma AloneEnds(states: seq<State>, moves: seq<Move>, u: Tid, i: nat, k: nat)
    requires IsRun(Unbounded, states, moves) && Alone(moves, u, i, k)
    ensures u in states[k].threads
    ensures k - i - 1 + (if states[k].threads[u].Done? then 0 else 1) <= Needed(moves[i].a)
  {
    NoRetries(states, moves, u, i, k);
  }

  // ---- The answer ----

  /** How far an operation has come that began in the abstract state `p0` and had no company. */
  predicate SoFar(p0: Spec, p: Spec, op: Op, a: Action) {
    var served := p0.spare > 0 || p0.caching;
    var taken := if p0.spare > 0 then p0.spare - 1 else 0;
    match a
    case InvokePush(v) =>
      (match op
       case Pushing(v', sawDry) => v' == v && p.items == p0.items && p.spare == p0.spare && (sawDry ==> p0.spare == 0)
       case Linking(v') => v' == v && p.items == p0.items && p.spare == taken && served
       case PushDone => p.items == [v] + p0.items && p.spare == taken && served
       case PushRefused => p.items == p0.items && p.spare == p0.spare && !served
       case _ => false)
    case InvokePop(_) =>
      (match op
       case Popping(sawEmpty) => p.items == p0.items && p.spare == p0.spare && (sawEmpty ==> p0.items == [])
       case PopDone(v) => p0.items == [v] + p.items && p.spare == p0.spare
       case PopFreed(v) => p0.items == [v] + p.items && p.spare == p0.spare + 1
       case PopRefused => p0.items == p.items == [] && p.spare == p0.spare
       case _ => false)
    case InvokeReserve(count) =>
      op.Reserving? && p.items == p0.items && p.spare + op.count + (if op.holding then 1 else 0) == p0.spare + count
    case _ => true
  }

  lemma SoFarMoves(p0: Spec, p: Spec, u: Tid, a: Action, p': Spec, call: Action)
    requires u in p.ops && SoFar(p0, p, p.ops[u], call) && p.caching == p0.caching
    requires SpecStep(p, u, a, p') && (a.Internal? || a.Allocate?)
    ensures u in p'.ops && SoFar(p0, p', p'.ops[u], call) && p'.caching == p0.caching
  {
  }

  lemma {:induction false} SoFarHolds(specs: seq<Spec>, moves: seq<Move>, u: Tid, i: nat, k: nat)
    requires SpecRun(specs, moves) && Alone(moves, u, i, k)
    ensures u in specs[k].ops && SoFar(specs[i], specs[k], specs[k].ops[u], moves[i].a)
    ensures specs[k].caching == specs[i].caching
  {
    assert SpecStep(specs[k - 1], moves[k - 1].t, moves[k - 1].a, specs[k]);
    if k > i + 1 {
      SoFarHolds(specs, moves, u, i, k - 1);
      var a := moves[k - 1].a;
      assert !a.InvokePush? && !a.InvokePop? && !a.InvokeReserve?;
      hide SpecStep, SoFar, OneCall;
      SoFarMoves(specs[i], specs[k - 1], u, a, specs[k], moves[i].a);
    }
  }

  /** The answer of a call that was alone, and what it leaves: `push` answers false if and only if the pool was null and
      the freelist static, `pop` if and only if `tos` was null. */
  ghost predicate RightAnswer(s: State, p: Spec, p': Spec, call: Action, result: Result) {
    match call
    case InvokePush(v) =>
      if s.pool.ptr == NULL && !s.caching then result == Pushed(false) && p'.items == p.items && p'.spare == p.spare
      else result == Pushed(true) && p'.items == [v] + p.items && p'.spare == if p.spare > 0 then p.spare - 1 else 0
    case InvokePop(_) =>
      if s.tos.ptr == NULL then result.Popped? && !result.ok && p'.items == p.items == [] && p'.spare == p.spare
      else
        && p.items != [] && result == Popped(true, p.items[0])
        && p'.items == p.items[1..] && p'.spare == p.spare + 1
    case InvokeReserve(count) => result == Reserved && p'.items == p.items && p'.spare == p.spare + count
    case _ => true
  }

  lemma AloneAnswers(states: seq<State>, moves: seq<Move>, free: seq<Ptr>, u: Tid, i: nat, k: nat)
    requires IsRun(Unbounded, states, moves) && Initial(states[0], free) && Alone(moves, u, i, k)
    ensures u in states[k].threads && Inv(states[0], InitialGhost(states[0], free))
    ensures var g := InitialGhost(states[0], free);
            states[k].threads[u].Done? ==>
              RightAnswer(states[i], AbsAt(states, moves, g, i), AbsAt(states, moves, g, k),
                          moves[i].a, states[k].threads[u].result)
  {
    InitialInv(states[0], free);
    var g := InitialGhost(states[0], free);
    NoRetries(states, moves, u, i, k);
    AbstractFacts(states, moves, g, i, u);
    AbstractFacts(states, moves, g, k, u);
    hide Inv, Initial, IsRun, Alone, SoFar, SpecStep, Stale, AbsAt, RightAnswer, Answers;
    var specs := SpecsOf(states, moves, g);
    SoFarHolds(specs, moves, u, i, k);
    assert specs[i] == AbsAt(states, moves, g, i) && specs[k] == AbsAt(states, moves, g, k);
    hide Abstracts, SpecRun;
    if states[k].threads[u].Done? {
      AnswerOf(states[i], specs[i], specs[k], moves[i].a, states[k].threads[u].result, specs[k].ops[u]);
    }
  }

  /** The abstract state of a run beside its state of the machine. */
  lemma AbstractFacts(states: seq<State>, moves: seq<Move>, g: Ghost, k: nat, u: Tid)
    requires IsRun(Unbounded, states, moves) && Inv(states[0], g) && k <= |moves|
    ensures var s, p := states[k], AbsAt(states, moves, g, k);
            && p.caching == s.caching
            && (p.spare == 0 <==> s.pool.ptr == NULL) && (p.items == [] <==> s.tos.ptr == NULL)
            && (u in s.threads <==> u in p.ops)
            && (u in s.threads && s.threads[u].Done? ==> Answers(p.ops[u], s.threads[u].result))
  {
    RunKeepsInv(states, moves, g, k);
    NothingListed(states[k], Companion(states, moves, g, k));
    hide Inv, IsRun;
  }

  lemma AnswerOf(s: State, p: Spec, p': Spec, call: Action, result: Result, op: Op)
    requires SoFar(p, p', op, call) && Answers(op, result)
    requires s.caching == p.caching && (s.pool.ptr == NULL <==> p.spare == 0) && (s.tos.ptr == NULL <==> p.items == [])
    ensures RightAnswer(s, p, p', call, result)
  {
  }

  // ---- There is such a run ----

  /** From every state in which the invariant holds, whatever the others are in the middle of, a call that is made has a
      run of its own steps to its end. The system allocator hands out `bits`. */
  lemma CallReturns(s: State, g: Ghost, u: Tid, call: Action, bits: Node) returns (states: seq<State>, moves: seq<Move>)
    requires Inv(s, g) && u !in s.threads && (call.InvokePush? || call.InvokePop? || call.InvokeReserve?)
    ensures IsRun(Unbounded, states, moves) && states[0] == s && Alone(moves, u, 0, |moves|) && moves[0].a == call
    ensures u in states[|moves|].threads && states[|moves|].threads[u].Done?
  {
    var s' := Next(Unbounded, s, u, call);
    assert CanMove(Unbounded, s, Move(u, call), s');
    states, moves := [s, s'], [Move(u, call)];
    hide Inv;
    states, moves := FinishCall(states, moves, g, u, bits);
  }

  lemma {:induction false} FinishCall(states: seq<State>, moves: seq<Move>, g: Ghost, u: Tid, bits: Node)
    returns (states': seq<State>, moves': seq<Move>)
    requires IsRun(Unbounded, states, moves) && Inv(states[0], g) && Alone(moves, u, 0, |moves|)
    ensures IsRun(Unbounded, states', moves') && states'[0] == states[0]
    ensures Alone(moves', u, 0, |moves'|) && moves'[0] == moves[0]
    ensures u in states'[|moves'|].threads && states'[|moves'|].threads[u].Done?
    decreases Needed(moves[0].a) + 1 - |moves|
  {
    hide Inv, CanMove, StepsLeft, Stale;
    AloneEnds(states, moves, u, 0, |moves|);
    var s := states[|moves|];
    states', moves' := states, moves;
    if !s.threads[u].Done? {
      RunKeepsInv(states, moves, g, |moves|);
      var a, s' := OwnStep(s, Companion(states, moves, g, |moves|), u, bits);
      states', moves' := states + [s'], moves + [Move(u, a)];
      forall i | 0 <= i < |moves'|
        ensures CanMove(Unbounded, states'[i], moves'[i], states'[i + 1])
      {
        if i < |moves| {
          assert CanMove(Unbounded, states[i], moves[i], states[i + 1]);
        }
      }
      states', moves' := FinishCall(states', moves', g, u, bits);
    }
  }

  lemma OwnStep(s: State, g: Ghost, u: Tid, bits: Node) returns (a: Action, s': State)
    requires Inv(s, g) && u in s.threads && !s.threads[u].Done?
    ensures CanMove(Unbounded, s, Move(u, a), s') && (a == Internal(false) || a.Allocate?)
  {
    AtLocal(s, g, u, s.threads[u]);
    hide Inv;
    if WantsMemory(s, s.threads[u]) {
      var n := UnusedAddress(s.heap);
      a := Allocate(n, bits);
    } else {
      a := Internal(false);
    }
    s' := Next(Unbounded, s, u, a);
  }
}
