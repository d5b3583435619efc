/** When 16-bit tags suffice for the fifo, said of the 16-bit run itself: from the top of a loop iteration to a
    compare-exchange in it, the compared cell changes fewer than 2^16 times. */
module FifoWindow {
  import opened TaggedPtr
  import opened FifoMachine
  import opened FifoInvariant
  import opened FifoSpec
  import opened FifoRuns
  import opened FifoTheorems
  import opened FifoProgress
  import opened FifoTags

  datatype Cell = PoolCell | HeadCell | TailCell | LinkCell(at: Ptr)

  predicate Present(s: State, c: Cell) {
    c.LinkCell? ==> c.at in s.heap
  }

  function Content(s: State, c: Cell): Tagged
    requires Present(s, c)
  {
    match c
    case PoolCell => s.pool
    case HeadCell => s.head
    case TailCell => s.tail
    case LinkCell(x) => s.heap[x].next
  }

  /** The values that a thread has loaded in this iteration and may still compare. */
  predicate Carries(pc: Pc, c: Cell, seen: Tagged) {
    match pc
    case EnqAlloc(_, alloc) => c == PoolCell && !alloc.LoadPool? && alloc.seen == seen
    case EnqLoadNext(_, _, tail) => c == TailCell && tail == seen
    case EnqRecheck(_, _, tail, next) => (c == TailCell && tail == seen) || (c == LinkCell(tail.ptr) && next == seen)
    case EnqLink(_, _, tail, next) => (c == TailCell && tail == seen) || (c == LinkCell(tail.ptr) && next == seen)
    case EnqSwing(_, tail) => c == TailCell && tail == seen
    case EnqHelp(_, _, tail, _) => c == TailCell && tail == seen
    case DeqLoadTail(_, head) => c == HeadCell && head == seen
    case DeqLoadNext(_, head, tail) => (c == HeadCell && head == seen) || (c == TailCell && tail == seen)
    case DeqRecheck(_, head, tail, _) => (c == HeadCell && head == seen) || (c == TailCell && tail == seen)
    case DeqHelp(_, tail, _) => c == TailCell && tail == seen
    case DeqRead(_, head, _, _) => c == HeadCell && head == seen
    case DeqSwing(_, head, _, _) => c == HeadCell && head == seen
    case DeqFree(_, _, free) => c == PoolCell && !free.LoadPoolForPush? && free.seen == seen
    case ResFree(_, _, free) => c == PoolCell && !free.LoadPoolForPush? && free.seen == seen
    case _ => false
  }

  /** The cell that the next step compares with a loaded value, if any. */
  predicate ComparesCell(pc: Pc, c: Cell) {
    match pc
    case EnqAlloc(_, alloc) => c == PoolCell && alloc.SwingPool?
    case EnqRecheck(_, _, _, _) => c == TailCell
    case EnqLink(_, _, tail, _) => c == LinkCell(tail.ptr)
    case EnqSwing(_, _) => c == TailCell
    case EnqHelp(_, _, _, _) => c == TailCell
    case DeqRecheck(_, _, _, _) => c == HeadCell
    case DeqHelp(_, _, _) => c == TailCell
    case DeqSwing(_, _, _, _) => c == HeadCell
    case DeqFree(_, _, free) => c == PoolCell && free.PushPool?
    case ResFree(_, _, free) => c == PoolCell && free.PushPool?
    case _ => false
  }

  /** Here an iteration begins: nothing is carried yet, or just the value of `pool` that the last step loaded. */
  predicate AtTop(pc: Pc) {
    match pc
    case EnqAlloc(_, alloc) => !alloc.SwingPool?
    case EnqLoadTail(_, _) => true
    case DeqLoadHead(_) => true
    case DeqFree(_, _, free) => free.LoadPoolForPush? || free.ReadLinkTag?
    case ResFree(_, _, free) => free.LoadPoolForPush? || free.ReadLinkTag?
    case _ => false
  }

  /** The instant at which `t` began the iteration that it is in at instant `k`. */
  ghost function IterationStart(states: seq<State>, moves: seq<Move>, t: Tid, k: nat): (j: nat)
    requires |states| == |moves| + 1 && k <= |moves|
    ensures j <= k
  {
    if k == 0 || t !in states[k].threads then k
    else if moves[k - 1].t == t && AtTop(states[k].threads[t]) then k
    else IterationStart(states, moves, t, k - 1)
  }

  ghost predicate Changed(s: State, s': State, c: Cell) {
    Present(s, c) && Present(s', c) && Content(s', c) != Content(s, c)
  }

  /** How often cell `c` changes from instant `i` to instant `k`. */
  ghost function ChangesOf(states: seq<State>, c: Cell, i: nat, k: nat): (n: nat)
    requires i <= k < |states|
    ensures n <= k - i
  {
    if i == k then 0
    else ChangesOf(states, c, i, k - 1) + if Changed(states[k - 1], states[k], c) then 1 else 0
  }

  /** The comparison of move `k`, if it makes one, comes before the cell has changed 2^16 times in this iteration;
      fresh memory has 16-bit tags. */
  ghost predicate PromptMove(states: seq<State>, moves: seq<Move>, k: nat)
    requires |states| == |moves| + 1 && k < |moves|
  {
    var s, m := states[k], moves[k];
    && (m.a.Internal? && m.t in s.threads ==>
          forall c :: ComparesCell(s.threads[m.t], c) ==>
                        ChangesOf(states, c, IterationStart(states, moves, m.t, k), k) < TAG_LIMIT)
    && (m.a.Allocate? ==> m.a.bits.next.tag < TAG_LIMIT)
  }

  ghost predicate Prompt(states: seq<State>, moves: seq<Move>) {
    |states| == |moves| + 1 && forall k :: 0 <= k < |moves| ==> PromptMove(states, moves, k)
  }

  // ---- From changes to tags ----

  /** What a move does to the content of a cell. */
  predicate Follows(v: Tagged, v': Tagged) {
    v' == v || v'.tag == v.tag || v'.tag == v.tag + 1
  }

  lemma AnchorMoves(s: State, m: Move, s': State, c: Cell)
    requires CanMove(Unbounded, s, m, s') && !c.LinkCell?
    ensures Follows(Content(s, c), Content(s', c))
  {
  }

  lemma LinkMoves(s: State, g: Ghost, m: Move, s': State, x: Ptr)
    requires CanMove(Unbounded, s, m, s') && Inv(s, g) && x in s.heap
    ensures x in s'.heap && Follows(s.heap[x].next, s'.heap[x].next)
  {
    assert s' == Next(Unbounded, s, m.t, m.a);
    LinkEffect(s, m.t, m.a, x);
    if m.t in s.threads {
      WriterKnowsTag(s, g, m.t);
    }
    hide Inv, Next, Enabled, Safe, Links, CanMove;
  }

  /** A move raises the tag of a cell by at most one, and not without changing what 16 bits show of it. */
  lemma TagMoves(s: State, g: Ghost, m: Move, s': State, c: Cell)
    requires CanMove(Unbounded, s, m, s') && Inv(s, g) && Present(s, c)
    ensures Present(s', c)
    ensures Content(s', c).tag <= Content(s, c).tag + if Wrap(Content(s', c)) != Wrap(Content(s, c)) then 1 else 0
  {
    hide Inv, CanMove, Wrap;
    if c.LinkCell? {
      LinkMoves(s, g, m, s', c.at);
    } else {
      AnchorMoves(s, m, s', c);
    }
    if Content(s', c).tag == Content(s, c).tag + 1 {
      IncrementShows(Content(s, c), Content(s', c));
    }
  }

  predicate Enqueues(pc: Pc) {
    || pc.EnqInitData? || pc.EnqReadTag? || pc.EnqInitNext? || pc.EnqLoadTail? || pc.EnqLoadNext? || pc.EnqRecheck?
    || pc.EnqLink? || pc.EnqSwing? || pc.EnqHelp?
  }

  lemma PoolLoads(s: State, m: Move, s': State, c: Cell, seen: Tagged)
    requires CanMove(Unbounded, s, m, s') && m.t in s'.threads && Carries(s'.threads[m.t], c, seen) && m.a.Internal?
    requires var pc := s.threads[m.t]; pc.EnqAlloc? || pc.DeqFree? || pc.ResFree?
    ensures || (Present(s', c) && seen == Content(s', c))
            || (Carries(s.threads[m.t], c, seen) && !AtTop(s'.threads[m.t]))
  {
  }

  lemma EnqueueLoads(s: State, m: Move, s': State, c: Cell, seen: Tagged)
    requires CanMove(Unbounded, s, m, s') && m.t in s'.threads && Carries(s'.threads[m.t], c, seen) && m.a.Internal?
    requires Enqueues(s.threads[m.t])
    ensures || (Present(s', c) && seen == Content(s', c))
            || (Carries(s.threads[m.t], c, seen) && !AtTop(s'.threads[m.t]))
  {
  }

  lemma DequeueLoads(s: State, m: Move, s': State, c: Cell, seen: Tagged)
    requires CanMove(Unbounded, s, m, s') && m.t in s'.threads && Carries(s'.threads[m.t], c, seen)
    requires m.a.Internal? ==>
               var pc := s.threads[m.t]; !pc.EnqAlloc? && !pc.DeqFree? && !pc.ResFree? && !Enqueues(pc)
    ensures || (Present(s', c) && seen == Content(s', c))
            || (m.t in s.threads && Carries(s.threads[m.t], c, seen) && !AtTop(s'.threads[m.t]))
  {
  }

  /** What `t` carries after its own move is what it carried before, or the present content of the cell; at the
      top of an iteration it is the latter. */
  lemma OwnLoads(s: State, m: Move, s': State, c: Cell, seen: Tagged)
    requires CanMove(Unbounded, s, m, s') && m.t in s'.threads && Carries(s'.threads[m.t], c, seen)
    ensures || (Present(s', c) && seen == Content(s', c))
            || (m.t in s.threads && Carries(s.threads[m.t], c, seen) && !AtTop(s'.threads[m.t]))
  {
    assert m.a.Internal? ==> m.t in s.threads;
    hide CanMove, Carries, Content, AtTop;
    if m.a.Internal? && (s.threads[m.t].EnqAlloc? || s.threads[m.t].DeqFree? || s.threads[m.t].ResFree?) {
      PoolLoads(s, m, s', c, seen);
    } else if m.a.Internal? && Enqueues(s.threads[m.t]) {
      EnqueueLoads(s, m, s', c, seen);
    } else {
      DequeueLoads(s, m, s', c, seen);
    }
  }

  lemma WrapShowsPc(pc: Pc, c: Cell)
    ensures (AtTop(pc) <==> AtTop(WrapPc(pc))) && (ComparesCell(pc, c) <==> ComparesCell(WrapPc(pc), c))
  {
  }

  /** What truncation shows of a program counter and of the cells. */
  lemma WrapShows(u: State, t: Tid, c: Cell)
    ensures t in u.threads <==> t in WrapState(u).threads
    ensures t in u.threads ==> WrapState(u).threads[t] == WrapPc(u.threads[t])
    ensures Present(WrapState(u), c) <==> Present(u, c)
    ensures Present(u, c) ==> Content(WrapState(u), c) == Wrap(Content(u, c))
  {
    hide WrapPc;
  }

  /** The tag of a cell is ahead of the one that a thread carries by no more than the cell has changed. */
  ghost predicate WithinChanges(us: seq<State>, states: seq<State>, moves: seq<Move>, t: Tid, c: Cell, seen: Tagged,
                                k: nat)
    requires |states| == |moves| + 1 && k <= |moves| && k < |us|
  {
    t in us[k].threads && Carries(us[k].threads[t], c, seen) ==>
      && Present(us[k], c)
      && Content(us[k], c).tag <= seen.tag + ChangesOf(states, c, IterationStart(states, moves, t, k), k)
  }

  lemma {:induction false} TagsFollowChanges(us: seq<State>, states: seq<State>, moves: seq<Move>, g: Ghost,
                                             t: Tid, c: Cell, seen: Tagged, k: nat)
    requires Shadows(us, states, moves) && us[0].threads == map[] && Inv(us[0], g) && k < |us|
    ensures WithinChanges(us, states, moves, t, c, seen, k)
  {
    hide Inv, WrapState, CanMove;
    if k > 0 {
      ShadowStep(us, states, moves, k);
      hide WithinChanges, Shadows, IsRun;
      TagsFollowChanges(us, states, moves, g, t, c, seen, k - 1);
      RunKeepsInv(us, moves[..|us| - 1], g, k - 1);
      CellFollowsChanges(us, states, moves, Companion(us, moves[..|us| - 1], g, k - 1), t, c, seen, k);
    }
  }

  lemma ShadowStep(us: seq<State>, states: seq<State>, moves: seq<Move>, k: nat)
    requires Shadows(us, states, moves) && 0 < k < |us|
    ensures |states| == |moves| + 1 && |us| <= |moves| + 1 && IsRun(Unbounded, us, moves[..|us| - 1])
    ensures CanMove(Unbounded, us[k - 1], moves[k - 1], us[k])
    ensures states[k - 1] == WrapState(us[k - 1]) && states[k] == WrapState(us[k])
  {
    assert CanMove(Unbounded, us[k - 1], moves[..|us| - 1][k - 1], us[k]);
    hide CanMove, WrapState;
  }

  lemma CellFollowsChanges(us: seq<State>, states: seq<State>, moves: seq<Move>, h: Ghost,
                           t: Tid, c: Cell, seen: Tagged, k: nat)
    requires |states| == |moves| + 1 && 0 < k <= |moves| && k < |us|
    requires states[k - 1] == WrapState(us[k - 1]) && states[k] == WrapState(us[k])
    requires CanMove(Unbounded, us[k - 1], moves[k - 1], us[k]) && Inv(us[k - 1], h)
    requires WithinChanges(us, states, moves, t, c, seen, k - 1)
    ensures WithinChanges(us, states, moves, t, c, seen, k)
  {
    var s, m, s' := us[k - 1], moves[k - 1], us[k];
    WrapShows(s, t, c);
    WrapShows(s', t, c);
    hide CanMove, WrapState, AtTop, Carries, Content, Inv, Present;
    if t in s'.threads && Carries(s'.threads[t], c, seen) {
      WrapShowsPc(s'.threads[t], c);
      hide WrapPc;
      if m.t == t {
        OwnLoads(s, m, s', c, seen);
      } else {
        OthersUntouched(s, t, m, s');
      }
      if Present(s, c) {
        TagMoves(s, h, m, s', c);
      }
    }
  }

  /** A comparison is with a value that the thread carries. */
  lemma ComparesWhatItCarries(s: State, pc: Pc)
    requires Safe(s, pc)
    ensures var saved := Compared(s, pc);
            || saved.0 == saved.1
            || exists c :: ComparesCell(pc, c) && Carries(pc, c, saved.0) && Present(s, c) && Content(s, c) == saved.1
  {
    if pc.EnqLink? {
      assert ComparesCell(pc, LinkCell(pc.tail.ptr));
    } else if ComparesCell(pc, PoolCell) || ComparesCell(pc, TailCell) || ComparesCell(pc, HeadCell) {
    }
  }

  lemma PromptMoveInWindow(us: seq<State>, states: seq<State>, moves: seq<Move>, g: Ghost)
    requires Shadows(us, states, moves) && us[0].threads == map[] && Inv(us[0], g)
    requires Prompt(states, moves) && |us| <= |moves|
    ensures MoveInWindow(us[|us| - 1], moves[|us| - 1])
  {
    var k := |us| - 1;
    var m := moves[k];
    assert PromptMove(states, moves, k);
    if m.a.Internal? && m.t in us[k].threads && Safe(us[k], us[k].threads[m.t]) {
      var pc := us[k].threads[m.t];
      ComparesWhatItCarries(us[k], pc);
      var saved := Compared(us[k], pc);
      if saved.0 != saved.1 {
        var c :| ComparesCell(pc, c) && Carries(pc, c, saved.0) && Present(us[k], c) && Content(us[k], c) == saved.1;
        TagsFollowChanges(us, states, moves, g, m.t, c, saved.0, k);
        WrapShows(us[k], m.t, c);
        WrapShowsPc(pc, c);
        hide Shadows, WrapState, WrapPc, Inv, Compared, Carries, ComparesCell, Content;
      }
    }
  }

  /** The 16-bit fifo is linearizable over every prompt run: it is the truncation of an unbounded run with the
      same moves, to which all results about unbounded runs apply. */
  lemma PromptRunRefines(states: seq<State>, moves: seq<Move>, u0: State, free: seq<Ptr>) returns (us: seq<State>)
    requires IsRun(Bits16, states, moves) && states[0] == WrapState(u0) && Initial(u0, free) && Prompt(states, moves)
    ensures IsRun(Unbounded, us, moves) && us[0] == u0 && forall i :: 0 <= i < |us| ==> states[i] == WrapState(us[i])
    ensures exists specs :: SpecRun(specs, moves) && specs[0] == Spec(u0.caching, [], |free|, map[])
  {
    InitialInv(u0, free);
    hide Inv;
    forall us | Shadows(us, states, moves) && us[0] == u0 && |us| <= |moves|
      ensures MoveInWindow(us[|us| - 1], moves[|us| - 1])
    {
      hide Shadows, Prompt, MoveInWindow;
      PromptMoveInWindow(us, states, moves, InitialGhost(u0, free));
    }
    hide IsRun, Shadows, MoveInWindow, WrapState, Initial, Prompt;
    us := Bits16RunRefines(states, moves, u0, free);
  }

  /** In particular every run of fewer than 2^16 moves is. */
  lemma ShortRunIsPrompt(states: seq<State>, moves: seq<Move>)
    requires |states| == |moves| + 1 && |moves| < TAG_LIMIT
    requires forall k :: 0 <= k < |moves| && moves[k].a.Allocate? ==> moves[k].a.bits.next.tag < TAG_LIMIT
    ensures Prompt(states, moves)
  {
  }
}
