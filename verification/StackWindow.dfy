/** When 16-bit tags suffice for the stack, said of the 16-bit run itself: between the load of a top cell and
    the compare-exchange that it is for, the cell changes fewer than 2^16 times. */
module StackWindow {
  import opened TaggedPtr
  import opened Freelist
  import opened StackMachine
  import opened StackSafety
  import opened StackSpec
  import opened StackRuns
  import opened StackProgress
  import opened StackTags

  /** The cell that a loaded value came from. */
  function Origin(loaded: Loaded): Cell {
    if loaded.FromPool? then Pool else Tos
  }

  /** A thread gets to this point by loading its cell. */
  predicate JustLoaded(pc: Pc) {
    match pc
    case PushAlloc(_, take) => take.ReadSuccessor?
    case PopTake(_, take) => take.ReadSuccessor?
    case PushLink(_, _, give) => give.ReadLinkTag?
    case PopFree(_, _, give) => give.ReadLinkTag?
    case ResFree(_, _, give) => give.ReadLinkTag?
    case _ => false
  }

  /** The instant after the load of what `t` carries at instant `k`. */
  ghost function LoadedAt(states: seq<State>, moves: seq<Move>, t: Tid, k: nat): (j: nat)
    requires |states| == |moves| + 1 && k <= |moves|
    ensures j <= k
  {
    if k == 0 || t !in states[k].threads || LoadedBy(states[k].threads[t]).Nothing? then k
    else if moves[k - 1].t == t && JustLoaded(states[k].threads[t]) then k
    else LoadedAt(states, moves, t, k - 1)
  }

  /** How often cell `c` changes from instant `i` to instant `k`. */
  ghost function ChangesOf(states: seq<State>, c: Cell, i: nat, k: nat): (n: nat)
    requires i <= k < |states|
    ensures n <= k - i
  {
    if i == k then 0
    else ChangesOf(states, c, i, k - 1) + if Top(states[k], c) != Top(states[k - 1], c) then 1 else 0
  }

  /** The compare-exchange of move `k`, if it is one, comes before its cell has changed 2^16 times since the load;
      fresh memory has 16-bit tags. */
  ghost predicate PromptMove(states: seq<State>, moves: seq<Move>, k: nat)
    requires |states| == |moves| + 1 && k < |moves|
  {
    var s, m := states[k], moves[k];
    && (m.a.Internal? && m.t in s.threads && Compares(s.threads[m.t]) ==>
          ChangesOf(states, Origin(LoadedBy(s.threads[m.t])), LoadedAt(states, moves, m.t, k), k) < TAG_LIMIT)
    && (m.a.Allocate? ==> m.a.bits.next.tag < TAG_LIMIT)
  }

  ghost predicate Prompt(states: seq<State>, moves: seq<Move>) {
    |states| == |moves| + 1 && forall k :: 0 <= k < |moves| ==> PromptMove(states, moves, k)
  }

  // ---- From changes to tags ----

  /** A move raises the tag of a cell by at most one, and not without changing what 16 bits show of it. */
  lemma TagMoves(s: State, m: Move, s': State, c: Cell)
    requires CanMove(Unbounded, s, m, s')
    ensures Top(s', c).tag <= Top(s, c).tag + if Wrap(Top(s', c)) != Wrap(Top(s, c)) then 1 else 0
  {
  }

  /** What `t` carries after its own move is what it carried before, or the present value of the cell. */
  lemma OwnLoads(s: State, m: Move, s': State)
    requires CanMove(Unbounded, s, m, s') && m.t in s'.threads && !LoadedBy(s'.threads[m.t]).Nothing?
    ensures var loaded := LoadedBy(s'.threads[m.t]);
            if JustLoaded(s'.threads[m.t]) then loaded.seen == Top(s', Origin(loaded))
            else m.t in s.threads && LoadedBy(s.threads[m.t]) == loaded
  {
    if m.a.Internal? {
      match s.threads[m.t]
      case PushAlloc(_, _) =>
      case PopTake(_, _) =>
      case PushLink(_, _, _) =>
      case PopFree(_, _, _) =>
      case ResFree(_, _, _) =>
      case _ => hide AllocAdvance, FreeAdvance;
    }
  }

  /** What truncation shows of a program counter and of the cells. */
  lemma WrapShows(u: State, t: Tid)
    ensures t in u.threads <==> t in WrapState(u).threads
    ensures t in u.threads ==>
              var pc, pc16 := u.threads[t], WrapState(u).threads[t];
              && (LoadedBy(pc).Nothing? <==> LoadedBy(pc16).Nothing?) && Origin(LoadedBy(pc)) == Origin(LoadedBy(pc16))
              && (JustLoaded(pc) <==> JustLoaded(pc16)) && (Compares(pc) <==> Compares(pc16))
    ensures forall c :: Top(WrapState(u), c) == Wrap(Top(u, c))
  {
  }

  /** The tag of a cell is ahead of the one that a thread carries by no more than the cell has changed. */
  ghost predicate WithinChanges(us: seq<State>, states: seq<State>, moves: seq<Move>, t: Tid, k: nat)
    requires |states| == |moves| + 1 && k <= |moves| && k < |us|
  {
    t in us[k].threads && !LoadedBy(us[k].threads[t]).Nothing? ==>
      var loaded := LoadedBy(us[k].threads[t]);
      Top(us[k], Origin(loaded)).tag <=
      loaded.seen.tag + ChangesOf(states, Origin(loaded), LoadedAt(states, moves, t, k), k)
  }

  lemma {:induction false} TagsFollowChanges(us: seq<State>, states: seq<State>, moves: seq<Move>, t: Tid, k: nat)
    requires Shadows(us, states, moves) && us[0].threads == map[] && k < |us|
    ensures WithinChanges(us, states, moves, t, k)
  {
    if k > 0 {
      ShadowStep(us, states, moves, k);
      hide WithinChanges, CanMove, WrapState, Shadows, IsRun;
      TagsFollowChanges(us, states, moves, t, k - 1);
      TagFollowsChanges(us, states, moves, t, k);
    }
  }

  lemma TagFollowsChanges(us: seq<State>, states: seq<State>, moves: seq<Move>, t: Tid, k: nat)
    requires |states| == |moves| + 1 && 0 < k <= |moves| && k < |us|
    requires states[k - 1] == WrapState(us[k - 1]) && states[k] == WrapState(us[k])
    requires CanMove(Unbounded, us[k - 1], moves[k - 1], us[k]) && WithinChanges(us, states, moves, t, k - 1)
    ensures WithinChanges(us, states, moves, t, k)
  {
    var s, m, s' := us[k - 1], moves[k - 1], us[k];
    WrapShows(s, t);
    WrapShows(s', t);
    hide CanMove, WrapState, JustLoaded, LoadedBy, Top;
    if t in s'.threads && !LoadedBy(s'.threads[t]).Nothing? {
      TagMoves(s, m, s', Origin(LoadedBy(s'.threads[t])));
      if m.t == t {
        OwnLoads(s, m, s');
      } else {
        OthersUntouched(s, t, m, s');
      }
    }
  }

  lemma ShadowStep(us: seq<State>, states: seq<State>, moves: seq<Move>, k: nat)
    requires Shadows(us, states, moves) && 0 < k < |us|
    ensures |states| == |moves| + 1 && |us| <= |moves| + 1
    ensures CanMove(Unbounded, us[k - 1], moves[k - 1], us[k])
    ensures states[k - 1] == WrapState(us[k - 1]) && states[k] == WrapState(us[k])
  {
    assert CanMove(Unbounded, us[k - 1], moves[..|us| - 1][k - 1], us[k]);
    hide CanMove, WrapState;
  }

  lemma PromptMoveInWindow(us: seq<State>, states: seq<State>, moves: seq<Move>)
    requires Shadows(us, states, moves) && us[0].threads == map[] && Prompt(states, moves) && |us| <= |moves|
    ensures MoveInWindow(us[|us| - 1], moves[|us| - 1])
  {
    var k := |us| - 1;
    var m := moves[k];
    assert PromptMove(states, moves, k);
    TagsFollowChanges(us, states, moves, m.t, k);
    WrapShows(us[k], m.t);
    hide Shadows, WrapState;
  }

  /** The 16-bit stack is linearizable over every prompt run: it is the truncation of an unbounded run with the
      same moves, to which all results about unbounded runs apply. */
  lemma PromptRunRefines(states: seq<State>, moves: seq<Move>, u0: State, free: seq<Ptr>) returns (us: seq<State>)
    requires IsRun(Bits16, states, moves) && states[0] == WrapState(u0) && Initial(u0, free) && Prompt(states, moves)
    ensures IsRun(Unbounded, us, moves) && us[0] == u0 && forall i :: 0 <= i < |us| ==> states[i] == WrapState(us[i])
    ensures exists specs :: SpecRun(specs, moves) && specs[0] == Spec(u0.caching, [], |free|, map[])
  {
    forall us | Shadows(us, states, moves) && us[0] == u0 && |us| <= |moves|
      ensures MoveInWindow(us[|us| - 1], moves[|us| - 1])
    {
      hide Shadows, Prompt, MoveInWindow;
      PromptMoveInWindow(us, states, moves);
    }
    hide IsRun, Shadows, MoveInWindow, WrapState, Initial, Prompt;
    us := Bits16RunRefines(states, moves, u0, free);
  }

  /** In particular every run of fewer than 2^16 moves is. */
  lemma ShortRunIsPrompt(states: seq<State>, moves: seq<Move>)
    requires |states| == |moves| + 1 && |moves| < TAG_LIMIT
    requires forall k :: 0 <= k < |moves| && moves[k].a.Allocate? ==> moves[k].a.bits.next.tag < TAG_LIMIT
    ensures Prompt(states, moves)
  {
  }
}
