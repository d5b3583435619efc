/** The stack on compressed pointers: as for the fifo, the machine with 16-bit tags is the machine
    with unbounded tags seen through truncation, for as long as runs stay inside the window. */
module StackTags {
  import opened TaggedPtr
  import opened Freelist
  import opened FreelistTags
  import opened StackMachine
  import opened StackSafety
  import opened StackSpec
  import opened StackRuns

  function WrapPc(pc: Pc): Pc {
    match pc
    case PushAlloc(v, take) => PushAlloc(v, WrapAlloc(take))
    case PushInit(_, _) => pc
    case PushLink(v, n, give) => PushLink(v, n, WrapFree(give))
    case PopTake(ret, take) => PopTake(ret, WrapAlloc(take))
    case PopRead(_, _) => pc
    case PopFree(ret, n, give) => PopFree(ret, n, WrapFree(give))
    case ResAlloc(_) => pc
    case ResFree(count, n, give) => ResFree(count, n, WrapFree(give))
    case Done(_) => pc
  }

  function WrapThreads(threads: map<Tid, Pc>): map<Tid, Pc> {
    map t | t in threads :: WrapPc(threads[t])
  }

  function WrapState(s: State): State {
    State(s.caching, WrapHeap(s.heap), Wrap(s.pool), Wrap(s.tos), WrapThreads(s.threads))
  }

  /** The loaded value and the cell that the next step of a thread at `pc` compares; twice the same
      value when the step compares nothing. */
  function Compared(s: State, pc: Pc): (Tagged, Tagged) {
    match pc
    case PushAlloc(_, SwingPool(seen, _)) => (seen, s.pool)
    case PushLink(_, _, PushPool(seen)) => (seen, s.tos)
    case PopTake(_, SwingPool(seen, _)) => (seen, s.tos)
    case PopFree(_, _, PushPool(seen)) => (seen, s.pool)
    case ResFree(_, _, PushPool(seen)) => (seen, s.pool)
    case _ => (s.tos, s.tos)
  }

  /** Fewer than 2^16 pops since the load of what the move compares; 16-bit tags in fresh memory. */
  predicate MoveInWindow(s: State, m: Move) {
    && (m.a.Internal? && m.t in s.threads ==> var c := Compared(s, s.threads[m.t]); InWindow(c.0, c.1))
    && (m.a.Allocate? ==> m.a.bits.next.tag < TAG_LIMIT)
  }

  lemma ComparedInOrder(s: State, g: Ghost, t: Tid)
    requires Inv(s, g) && t in s.threads
    ensures var c := Compared(s, s.threads[t]); c.0.tag <= c.1.tag
  {
  }

  lemma WrapGo(s: State, t: Tid, pc: Pc)
    ensures WrapState(Go(s, t, pc)) == Go(WrapState(s), t, WrapPc(pc))
  {
  }

  /** The truncated machine answers the comparison of this step as the unbounded one does. */
  predicate SameAnswer(s: State, pc: Pc) {
    var c := Compared(s, pc);
    Wrap(c.0) == Wrap(c.1) <==> c.0 == c.1
  }

  lemma WrapEnabled(s: State, t: Tid, a: Action)
    ensures Enabled(s, t, a) <==> Enabled(WrapState(s), t, a)
  {
  }

  lemma WrapSafe(s: State, pc: Pc)
    ensures Safe(s, pc) <==> Safe(WrapState(s), WrapPc(pc))
  {
  }

  lemma WrapTaking(s: State, t: Tid, spurious: bool)
    requires Enabled(s, t, Internal(spurious)) && Safe(s, s.threads[t]) && SameAnswer(s, s.threads[t])
    requires Enabled(WrapState(s), t, Internal(spurious)) && Safe(WrapState(s), WrapState(s).threads[t])
    requires s.threads[t].PushAlloc? || s.threads[t].PopTake?
    ensures Advance(Bits16, WrapState(s), t, spurious) == WrapState(Advance(Unbounded, s, t, spurious))
  {
    var s' := Advance(Unbounded, s, t, spurious);
    WrapGo(s.(heap := s'.heap, pool := s'.pool, tos := s'.tos), t, s'.threads[t]);
    WrapAllocAdvance(s.heap, if s.threads[t].PopTake? then s.tos else s.pool, s.threads[t].take, spurious);
    hide AllocAdvance, WrapHeap, WrapAlloc;
  }

  lemma WrapGiving(s: State, t: Tid, spurious: bool)
    requires Enabled(s, t, Internal(spurious)) && Safe(s, s.threads[t]) && SameAnswer(s, s.threads[t])
    requires Enabled(WrapState(s), t, Internal(spurious)) && Safe(WrapState(s), WrapState(s).threads[t])
    requires s.threads[t].PushLink? || s.threads[t].PopFree? || s.threads[t].ResFree?
    ensures Advance(Bits16, WrapState(s), t, spurious) == WrapState(Advance(Unbounded, s, t, spurious))
  {
    var s' := Advance(Unbounded, s, t, spurious);
    var pc := s.threads[t];
    WrapGo(s.(heap := s'.heap, pool := s'.pool, tos := s'.tos), t, s'.threads[t]);
    WrapFreeAdvance(s.heap, if pc.PushLink? then s.tos else s.pool, pc.n, pc.give, spurious);
    hide FreeAdvance, WrapHeap, WrapFree;
  }

  lemma WrapPlain(s: State, t: Tid, spurious: bool)
    requires Enabled(s, t, Internal(spurious)) && Safe(s, s.threads[t])
    requires Enabled(WrapState(s), t, Internal(spurious)) && Safe(WrapState(s), WrapState(s).threads[t])
    requires s.threads[t].PushInit? || s.threads[t].PopRead? || s.threads[t].ResAlloc?
    ensures Advance(Bits16, WrapState(s), t, spurious) == WrapState(Advance(Unbounded, s, t, spurious))
  {
    var s' := Advance(Unbounded, s, t, spurious);
    var pc := s.threads[t];
    WrapGo(s.(heap := s'.heap, pool := s'.pool, tos := s'.tos), t, s'.threads[t]);
    if pc.PushInit? {
      WrapSetHeap(s.heap, pc.n, s'.heap[pc.n]);
    }
  }

  /** Truncation commutes with every atomic step whose comparison stays inside the window. */
  lemma WrapAdvance(s: State, t: Tid, spurious: bool)
    requires Enabled(s, t, Internal(spurious)) && Safe(s, s.threads[t]) && SameAnswer(s, s.threads[t])
    ensures Enabled(WrapState(s), t, Internal(spurious)) && Safe(WrapState(s), WrapState(s).threads[t])
    ensures Advance(Bits16, WrapState(s), t, spurious) == WrapState(Advance(Unbounded, s, t, spurious))
  {
    WrapSafe(s, s.threads[t]);
    WrapEnabled(s, t, Internal(spurious));
    hide Advance, WrapState, SameAnswer, Safe;
    match s.threads[t]
    case PushAlloc(_, _) => WrapTaking(s, t, spurious);
    case PopTake(_, _) => WrapTaking(s, t, spurious);
    case PushLink(_, _, _) => WrapGiving(s, t, spurious);
    case PopFree(_, _, _) => WrapGiving(s, t, spurious);
    case ResFree(_, _, _) => WrapGiving(s, t, spurious);
    case _ => WrapPlain(s, t, spurious);
  }

  lemma WrapAllocated(s: State, t: Tid, a: Action)
    requires Enabled(s, t, a) && Enabled(WrapState(s), t, a) && a.Allocate? && a.bits.next.tag < TAG_LIMIT
    ensures Next(Bits16, WrapState(s), t, a) == WrapState(Next(Unbounded, s, t, a))
  {
    var s' := Next(Unbounded, s, t, a);
    WrapSetHeap(s.heap, a.block, a.bits);
    WrapGo(s.(heap := s'.heap), t, s'.threads[t]);
  }

  lemma WrapCalls(s: State, t: Tid, a: Action)
    requires Enabled(s, t, a) && Enabled(WrapState(s), t, a) && !a.Internal? && !a.Allocate?
    ensures Next(Bits16, WrapState(s), t, a) == WrapState(Next(Unbounded, s, t, a))
  {
    var s' := Next(Unbounded, s, t, a);
    if a.Return? {
      assert WrapThreads(s.threads - {t}) == WrapThreads(s.threads) - {t};
    } else {
      WrapGo(s, t, s'.threads[t]);
    }
  }

  lemma WrapMove(s: State, g: Ghost, m: Move, s': State)
    requires Inv(s, g) && CanMove(Unbounded, s, m, s') && MoveInWindow(s, m)
    ensures CanMove(Bits16, WrapState(s), m, WrapState(s'))
  {
    WrapEnabled(s, m.t, m.a);
    if m.a.Internal? {
      ComparedInOrder(s, g, m.t);
      var c := Compared(s, s.threads[m.t]);
      WrapCompare(c.0, c.1);
      hide Inv, Compared, Safe, Advance;
      WrapAdvance(s, m.t, m.a.spurious);
    } else if m.a.Allocate? {
      hide Inv, WrapState, Next;
      WrapAllocated(s, m.t, m.a);
    } else {
      hide Inv, WrapState, Next;
      WrapCalls(s, m.t, m.a);
    }
  }

  // ---- Whole runs ----

  /** `us` is an unbounded run by the first moves of `moves`, and `states` is what truncation shows. */
  ghost predicate Shadows(us: seq<State>, states: seq<State>, moves: seq<Move>) {
    && 0 < |us| <= |moves| + 1 && |states| == |moves| + 1
    && IsRun(Unbounded, us, moves[..|us| - 1])
    && forall i :: 0 <= i < |us| ==> states[i] == WrapState(us[i])
  }

  lemma ShadowMove(states: seq<State>, moves: seq<Move>, us: seq<State>, g: Ghost, k: nat) returns (u: State)
    requires IsRun(Bits16, states, moves) && 0 < k <= |moves| && |us| == k && Shadows(us, states, moves)
    requires Inv(us[0], g) && MoveInWindow(us[k - 1], moves[k - 1])
    ensures CanMove(Unbounded, us[k - 1], moves[k - 1], u) && states[k] == WrapState(u)
  {
    hide Inv, MoveInWindow;
    RunKeepsInv(us, moves[..k - 1], g, k - 1);
    var s, h, m := us[k - 1], Companion(us, moves[..k - 1], g, k - 1), moves[k - 1];
    assert CanMove(Bits16, states[k - 1], m, states[k]);
    WrapEnabled(s, m.t, m.a);
    if m.a.Internal? {
      WrapSafe(s, s.threads[m.t]);
    }
    u := Next(Unbounded, s, m.t, m.a);
    WrapMove(s, h, m, u);
  }

  /** Every run of the 16-bit machine is the truncation of an unbounded run, up to its end or to the
      first move that leaves the window. */
  lemma {:induction false} Bits16RunIsShadowed(states: seq<State>, moves: seq<Move>, u0: State, g: Ghost, k: nat)
    returns (us: seq<State>)
    requires IsRun(Bits16, states, moves) && states[0] == WrapState(u0) && Inv(u0, g) && k <= |moves|
    ensures Shadows(us, states, moves) && us[0] == u0
    ensures |us| == k + 1 || (|us| <= k && !MoveInWindow(us[|us| - 1], moves[|us| - 1]))
  {
    hide Inv, WrapState, MoveInWindow;
    if k == 0 {
      us := [u0];
    } else {
      us := Bits16RunIsShadowed(states, moves, u0, g, k - 1);
      if |us| == k && MoveInWindow(us[k - 1], moves[k - 1]) {
        var u := ShadowMove(states, moves, us, g, k);
        assert moves[..k][..k - 1] == moves[..k - 1];
        us := us + [u];
      }
    }
  }

  /** If no move leaves the window, the shadow reaches to the end. */
  lemma WholeShadow(states: seq<State>, moves: seq<Move>, u0: State, g: Ghost) returns (us: seq<State>)
    requires IsRun(Bits16, states, moves) && states[0] == WrapState(u0) && Inv(u0, g)
    requires forall us :: Shadows(us, states, moves) && us[0] == u0 && |us| <= |moves| ==>
               MoveInWindow(us[|us| - 1], moves[|us| - 1])
    ensures IsRun(Unbounded, us, moves) && us[0] == u0 && forall i :: 0 <= i < |us| ==> states[i] == WrapState(us[i])
  {
    hide Inv, WrapState, MoveInWindow;
    us := Bits16RunIsShadowed(states, moves, u0, g, |moves|);
    assert moves[..|moves|] == moves;
  }

  /** The 16-bit stack is linearizable over every run that stays inside the window: the run is the truncation of
      an unbounded run with the same moves. */
  lemma Bits16RunRefines(states: seq<State>, moves: seq<Move>, u0: State, free: seq<Ptr>) returns (us: seq<State>)
    requires IsRun(Bits16, states, moves) && states[0] == WrapState(u0) && Initial(u0, free)
    requires forall us :: Shadows(us, states, moves) && us[0] == u0 && |us| <= |moves| ==>
               MoveInWindow(us[|us| - 1], moves[|us| - 1])
    ensures IsRun(Unbounded, us, moves) && us[0] == u0 && forall i :: 0 <= i < |us| ==> states[i] == WrapState(us[i])
    ensures exists specs :: SpecRun(specs, moves) && specs[0] == Spec(u0.caching, [], |free|, map[])
  {
    InitialInv(u0, free);
    hide Inv, Initial, WrapState, MoveInWindow, Shadows, SpecStep, IsRun;
    us := WholeShadow(states, moves, u0, InitialGhost(u0, free));
    RunRefines(us, moves, free);
  }
}
