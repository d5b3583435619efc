/** Lock-freedom of the concurrent stack, counted. A thread goes round one of its loops (push, pop,
    allocate, deallocate) once more only if its compare-exchange failed spuriously or if the cell has
    changed since the thread loaded it. */
module StackProgress {
  import opened TaggedPtr
  import opened Freelist
  import opened StackMachine
  import opened StackSpec
  import opened StackRuns

  /** The loaded value that a thread will compare with its cell. */
  datatype Loaded = Nothing | FromPool(seen: Tagged) | FromTos(seen: Tagged)

  function LoadedBy(pc: Pc): Loaded {
    match pc
    case PushAlloc(_, take) => if take.LoadPool? then Nothing else FromPool(take.seen)
    case PopTake(_, take) => if take.LoadPool? then Nothing else FromTos(take.seen)
    case PushLink(_, _, give) => if give.LoadPoolForPush? then Nothing else FromTos(give.seen)
    case PopFree(_, _, give) => if give.LoadPoolForPush? then Nothing else FromPool(give.seen)
    case ResFree(_, _, give) => if give.LoadPoolForPush? then Nothing else FromPool(give.seen)
    case _ => Nothing
  }

  predicate Matches(s: State, loaded: Loaded) {
    match loaded
    case Nothing => true
    case FromPool(seen) => seen == s.pool
    case FromTos(seen) => seen == s.tos
  }

  /** The next step of a thread at `pc` is a compare-exchange. */
  predicate Compares(pc: Pc) {
    match pc
    case PushAlloc(_, take) => take.SwingPool?
    case PopTake(_, take) => take.SwingPool?
    case PushLink(_, _, give) => give.PushPool?
    case PopFree(_, _, give) => give.PushPool?
    case ResFree(_, _, give) => give.PushPool?
    case _ => false
  }

  /** How many accesses, allocations included, are left of the whole operation. */
  function StepsLeft(pc: Pc): nat {
    match pc
    case PushAlloc(_, take) => TakeLeft(take) + 5
    case PushInit(_, _) => 5
    case PushLink(_, _, give) => GiveLeft(give)
    case PopTake(_, take) => TakeLeft(take) + 5
    case PopRead(_, _) => 5
    case PopFree(_, _, give) => GiveLeft(give)
    case ResAlloc(count) => 5 * count + 1
    case ResFree(count, _, give) => GiveLeft(give) + 5 * count + 1
    case Done(_) => 0
  }

  /** The move is a step of `u` that brings it no nearer to its end. */
  predicate Retries(s: State, u: Tid, m: Move, s': State) {
    && m.t == u && (m.a.Internal? || m.a.Allocate?) && u in s.threads && u in s'.threads
    && StepsLeft(s'.threads[u]) >= StepsLeft(s.threads[u])
  }

  predicate FailsSpuriously(s: State, u: Tid, m: Move) {
    && m.t == u && m.a.Internal? && u in s.threads && Compares(s.threads[u])
    && m.a.spurious && Matches(s, LoadedBy(s.threads[u]))
  }

  /** How many of the two top cells the move changes. */
  function Changes(s: State, s': State): nat {
    (if s'.pool != s.pool then 1 else 0) + (if s'.tos != s.tos then 1 else 0)
  }

  function Stale(s: State, u: Tid): nat {
    if u in s.threads && !Matches(s, LoadedBy(s.threads[u])) then 1 else 0
  }

  ghost function RetryCount(states: seq<State>, moves: seq<Move>, u: Tid, k: nat): nat
    requires IsRun(Unbounded, states, moves) && k <= |moves|
  {
    if k == 0 then 0
    else RetryCount(states, moves, u, k - 1) + if Retries(states[k - 1], u, moves[k - 1], states[k]) then 1 else 0
  }

  ghost function SpuriousCount(states: seq<State>, moves: seq<Move>, u: Tid, k: nat): nat
    requires IsRun(Unbounded, states, moves) && k <= |moves|
  {
    if k == 0 then 0
    else SpuriousCount(states, moves, u, k - 1) + if FailsSpuriously(states[k - 1], u, moves[k - 1]) then 1 else 0
  }

  ghost function ChangeCount(states: seq<State>, moves: seq<Move>, k: nat): nat
    requires IsRun(Unbounded, states, moves) && k <= |moves|
  {
    if k == 0 then 0 else ChangeCount(states, moves, k - 1) + Changes(states[k - 1], states[k])
  }

  /** A step of `u` brings it nearer to its end, or sends it round again by three steps at most; that takes a spurious
      failure or a change by somebody else. */
  ghost predicate Pays(s: State, u: Tid, m: Move, s': State) {
    && (u in s.threads && u in s'.threads && StepsLeft(s'.threads[u]) >= StepsLeft(s.threads[u]) ==>
          StepsLeft(s'.threads[u]) <= StepsLeft(s.threads[u]) + 2)
    && (if Retries(s, u, m, s') then 1 else 0) + Stale(s', u)
       <= Stale(s, u) + (if FailsSpuriously(s, u, m) then 1 else 0)
  }

  lemma PushAllocPays(s: State, u: Tid, m: Move, s': State)
    requires CanMove(Unbounded, s, m, s') && m.t == u && m.a.Internal? && s.threads[u].PushAlloc?
    ensures u in s'.threads && Pays(s, u, m, s')
  {
    match s.threads[u].take
    case LoadPool =>
    case ReadSuccessor(_) =>
    case SwingPool(_, _) =>
  }

  lemma PopTakePays(s: State, u: Tid, m: Move, s': State)
    requires CanMove(Unbounded, s, m, s') && m.t == u && m.a.Internal? && s.threads[u].PopTake?
    ensures u in s'.threads && Pays(s, u, m, s')
  {
    match s.threads[u].take
    case LoadPool =>
    case ReadSuccessor(_) =>
    case SwingPool(_, _) =>
  }

  lemma PushLinkPays(s: State, u: Tid, m: Move, s': State)
    requires CanMove(Unbounded, s, m, s') && m.t == u && m.a.Internal? && s.threads[u].PushLink?
    ensures u in s'.threads && Pays(s, u, m, s')
  {
    match s.threads[u].give
    case LoadPoolForPush =>
    case ReadLinkTag(_) =>
    case WriteLink(_, _) =>
    case PushPool(_) =>
  }

  lemma PopFreePays(s: State, u: Tid, m: Move, s': State)
    requires CanMove(Unbounded, s, m, s') && m.t == u && m.a.Internal? && s.threads[u].PopFree?
    ensures u in s'.threads && Pays(s, u, m, s')
  {
    match s.threads[u].give
    case LoadPoolForPush =>
    case ReadLinkTag(_) =>
    case WriteLink(_, _) =>
    case PushPool(_) =>
  }

  lemma ResFreePays(s: State, u: Tid, m: Move, s': State)
    requires CanMove(Unbounded, s, m, s') && m.t == u && m.a.Internal? && s.threads[u].ResFree?
    ensures u in s'.threads && Pays(s, u, m, s')
  {
    match s.threads[u].give
    case LoadPoolForPush =>
    case ReadLinkTag(_) =>
    case WriteLink(_, _) =>
    case PushPool(_) =>
  }

  lemma OwnMovePays(s: State, u: Tid, m: Move, s': State)
    requires CanMove(Unbounded, s, m, s') && m.t == u
    ensures u !in s'.threads <==> m.a.Return?
    ensures Pays(s, u, m, s')
  {
    if m.a.Internal? {
      match s.threads[u]
      case PushAlloc(_, _) => hide Pays; PushAllocPays(s, u, m, s');
      case PopTake(_, _) => hide Pays; PopTakePays(s, u, m, s');
      case PushLink(_, _, _) => hide Pays; PushLinkPays(s, u, m, s');
      case PopFree(_, _, _) => hide Pays; PopFreePays(s, u, m, s');
      case ResFree(_, _, _) => hide Pays; ResFreePays(s, u, m, s');
      case _ =>
    }
  }

  lemma OthersUntouched(s: State, u: Tid, m: Move, s': State)
    requires CanMove(Unbounded, s, m, s') && m.t != u
    ensures (u in s'.threads <==> u in s.threads) && (u in s.threads ==> s'.threads[u] == s.threads[u])
  {
  }

  /** One move: going round again uses up the staleness that somebody's change has caused. */
  lemma MovePays(s: State, u: Tid, m: Move, s': State)
    requires CanMove(Unbounded, s, m, s')
    ensures (if Retries(s, u, m, s') then 1 else 0) + Stale(s', u)
            <= Stale(s, u) + (if FailsSpuriously(s, u, m) then 1 else 0) + Changes(s, s')
  {
    if m.t == u {
      hide CanMove, Stale, Retries, FailsSpuriously, Changes;
      OwnMovePays(s, u, m, s');
    } else {
      OthersUntouched(s, u, m, s');
      hide CanMove, LoadedBy;
    }
  }

  /** Lock-freedom: from any instant at which a thread is outside, its retries, over all its operations since, are at
      most its spurious failures plus the changes of the two top cells by everybody. */
  lemma {:induction false} RetriesAreBounded(states: seq<State>, moves: seq<Move>, u: Tid, i: nat, k: nat)
    requires IsRun(Unbounded, states, moves) && i <= k <= |moves| && u !in states[i].threads
    ensures RetryCount(states, moves, u, k) - RetryCount(states, moves, u, i) + Stale(states[k], u)
            <= SpuriousCount(states, moves, u, k) - SpuriousCount(states, moves, u, i)
               + ChangeCount(states, moves, k) - ChangeCount(states, moves, i)
  {
    hide Retries, FailsSpuriously, Changes, CanMove;
    if k > i {
      RetriesAreBounded(states, moves, u, i, k - 1);
      assert CanMove(Unbounded, states[k - 1], moves[k - 1], states[k]);
      MovePays(states[k - 1], u, moves[k - 1], states[k]);
    }
  }

  // ---- What the cells change for ----

  /** The move takes a node off the freelist, or puts one on it. */
  predicate TakesNode(s: State, m: Move) {
    m.a.Internal? && !m.a.spurious && m.t in s.threads && s.threads[m.t].PushAlloc? &&
    s.threads[m.t].take.SwingPool? && s.threads[m.t].take.seen == s.pool
  }

  predicate FreesNode(s: State, m: Move) {
    m.a.Internal? && !m.a.spurious && m.t in s.threads && (s.threads[m.t].PopFree? || s.threads[m.t].ResFree?) &&
    s.threads[m.t].give == PushPool(s.pool)
  }

  /** Values pushed and popped, nodes taken and freed, by everybody. */
  ghost function WorkCount(states: seq<State>, moves: seq<Move>, k: nat): nat
    requires IsRun(Unbounded, states, moves) && k <= |moves|
  {
    if k == 0 then 0
    else
      var s, m := states[k - 1], moves[k - 1];
      WorkCount(states, moves, k - 1)
      + if Pushes(s, m.t, m.a) || Pops(s, m.t, m.a) || TakesNode(s, m) || FreesNode(s, m) then 1 else 0
  }

  lemma ChangeIsWork(s: State, m: Move, s': State)
    requires CanMove(Unbounded, s, m, s')
    ensures Changes(s, s') <=
            if Pushes(s, m.t, m.a) || Pops(s, m.t, m.a) || TakesNode(s, m) || FreesNode(s, m) then 1 else 0
  {
  }

  lemma {:induction false} ChangesAreWork(states: seq<State>, moves: seq<Move>, i: nat, k: nat)
    requires IsRun(Unbounded, states, moves) && i <= k <= |moves|
    ensures ChangeCount(states, moves, k) - ChangeCount(states, moves, i)
            <= WorkCount(states, moves, k) - WorkCount(states, moves, i)
  {
    hide Changes, CanMove, Pushes, Pops, TakesNode, FreesNode;
    if k > i {
      ChangesAreWork(states, moves, i, k - 1);
      assert CanMove(Unbounded, states[k - 1], moves[k - 1], states[k]);
      ChangeIsWork(states[k - 1], moves[k - 1], states[k]);
    }
  }

  /** Lock-freedom in terms of operations: a thread retries at most once for each of its spurious failures and once for
      each value pushed or popped and each node taken from or given to the freelist by anybody. */
  lemma LockFreedom(states: seq<State>, moves: seq<Move>, u: Tid, i: nat, k: nat)
    requires IsRun(Unbounded, states, moves) && i <= k <= |moves| && u !in states[i].threads
    ensures RetryCount(states, moves, u, k) - RetryCount(states, moves, u, i)
            <= SpuriousCount(states, moves, u, k) - SpuriousCount(states, moves, u, i)
               + WorkCount(states, moves, k) - WorkCount(states, moves, i)
  {
    RetriesAreBounded(states, moves, u, i, k);
    ChangesAreWork(states, moves, i, k);
    hide *;
  }

  // ---- Every call ends ----

  /** The accesses and allocations that `u` has made. */
  ghost function StepCount(moves: seq<Move>, u: Tid, k: nat): nat
    requires k <= |moves|
  {
    if k == 0 then 0
    else
      StepCount(moves, u, k - 1)
      + if moves[k - 1].t == u && (moves[k - 1].a.Internal? || moves[k - 1].a.Allocate?) then 1 else 0
  }

  /** What a call takes if nothing sends it round again: eight steps, for `reserve` five for each node and one more. */
  function Needed(a: Action): nat {
    if a.InvokeReserve? then 5 * a.count + 1 else 8
  }

  /** A move of a call. */
  lemma StepFalls(s: State, u: Tid, m: Move, s': State)
    requires CanMove(Unbounded, s, m, s') && u in s.threads && !(m.t == u && m.a.Return?)
    ensures u in s'.threads
    ensures (if m.t == u && (m.a.Internal? || m.a.Allocate?) then 1 else 0) + StepsLeft(s'.threads[u])
            <= StepsLeft(s.threads[u]) + if Retries(s, u, m, s') then 3 else 0
  {
    if m.t == u {
      OwnMovePays(s, u, m, s');
    } else {
      OthersUntouched(s, u, m, s');
    }
    hide CanMove, StepsLeft, Stale, FailsSpuriously;
  }

  lemma CallNeeds(s: State, m: Move, s': State)
    requires CanMove(Unbounded, s, m, s') && (m.a.InvokePush? || m.a.InvokePop? || m.a.InvokeReserve?)
    ensures m.t !in s.threads && m.t in s'.threads && StepsLeft(s'.threads[m.t]) == Needed(m.a)
  {
  }

  lemma {:induction false} StepsAreRetries(states: seq<State>, moves: seq<Move>, u: Tid, i: nat, k: nat)
    requires IsRun(Unbounded, states, moves) && OneCall(moves, u, i, k)
    ensures u in states[k].threads
    ensures StepCount(moves, u, k) - StepCount(moves, u, i) + StepsLeft(states[k].threads[u])
            <= Needed(moves[i].a) + 3 * (RetryCount(states, moves, u, k) - RetryCount(states, moves, u, i))
  {
    hide CanMove, Retries, StepsLeft, Needed;
    assert CanMove(Unbounded, states[k - 1], moves[k - 1], states[k]);
    if k > i + 1 {
      StepsAreRetries(states, moves, u, i, k - 1);
      StepFalls(states[k - 1], u, moves[k - 1], states[k]);
    } else {
      CallNeeds(states[i], moves[i], states[k]);
    }
  }

  lemma CallFacts(states: seq<State>, moves: seq<Move>, u: Tid, i: nat, k: nat)
    requires IsRun(Unbounded, states, moves) && OneCall(moves, u, i, k)
    ensures i < k <= |moves| < |states| && u !in states[i].threads
  {
    assert CanMove(Unbounded, states[i], moves[i], states[i + 1]);
    CallNeeds(states[i], moves[i], states[i + 1]);
    hide CanMove, IsRun;
  }

  lemma StepsLeftUntilDone(pc: Pc)
    ensures pc.Done? || StepsLeft(pc) > 0
  {
  }

  /** Every call ends: it is not done only as long as its steps, those inside the freelist included, are fewer than it
      needs by itself plus three for each of its spurious failures and for each value pushed or popped and each node
      taken from or given to the freelist by anybody meanwhile. */
  lemma StepsAreBounded(states: seq<State>, moves: seq<Move>, u: Tid, i: nat, k: nat)
    requires IsRun(Unbounded, states, moves) && OneCall(moves, u, i, k)
    ensures u in states[k].threads
    ensures StepCount(moves, u, k) - StepCount(moves, u, i) + (if states[k].threads[u].Done? then 0 else 1)
            <= Needed(moves[i].a) + 3 * (SpuriousCount(states, moves, u, k) - SpuriousCount(states, moves, u, i)
                                         + WorkCount(states, moves, k) - WorkCount(states, moves, i))
  {
    hide *;
    CallFacts(states, moves, u, i, k);
    StepsAreRetries(states, moves, u, i, k);
    LockFreedom(states, moves, u, i, k);
    StepsLeftUntilDone(states[k].threads[u]);
  }
}
