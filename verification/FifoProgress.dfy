/** Lock-freedom of the concurrent fifo, counted. A thread goes round the loop of enqueue or dequeue
    once more only if a compare-exchange failed spuriously or if, since it last entered the loop,
    some node was linked or the head or the tail moved. */
module FifoProgress {
  import opened TaggedPtr
  import opened Freelist
  import opened FifoMachine
  import opened FifoInvariant
  import opened FifoSafety
  import opened FifoSpec
  import opened FifoRuns
  import opened FifoTheorems

  /** Links made plus moves of the head plus moves of the tail: the tags count the moves. */
  ghost function Work(s: State, g: Ghost): int {
    (s.head.tag + |g.chain| - 1) + s.head.tag + s.tail.tag
  }

  /** The move takes `u` back to the top of the loop of enqueue or dequeue, which it enters from outside only when it
      has constructed its node, or by its call. */
  predicate Retries(s: State, u: Tid, m: Move, s': State) {
    && m.t == u && m.a.Internal? && u in s.threads && u in s'.threads && !s.threads[u].EnqInitNext?
    && (s'.threads[u].EnqLoadTail? || s'.threads[u].DeqLoadHead?)
  }

  /** What in the state before its move sends `u` back. */
  predicate SentBack(s: State, u: Tid, m: Move) {
    m.t == u && m.a.Internal? && u in s.threads &&
    match s.threads[u]
    case EnqRecheck(_, _, tail, _) => tail != s.tail
    case EnqLink(_, _, tail, next) => tail.ptr in s.heap && (m.a.spurious || s.heap[tail.ptr].next != next)
    case EnqHelp(_, _, _, _) => true
    case DeqRecheck(_, head, tail, next) => head != s.head || (head.ptr != tail.ptr && next.ptr == NULL)
    case DeqHelp(_, _, _) => true
    case DeqSwing(_, head, _, _) => m.a.spurious || s.head != head
    case _ => false
  }

  /** The step is a weak compare-exchange that fails although the cell matched. */
  predicate FailsSpuriously(s: State, u: Tid, m: Move) {
    m.t == u && m.a.Internal? && m.a.spurious && u in s.threads &&
    match s.threads[u]
    case EnqLink(_, _, tail, next) => tail.ptr in s.heap && s.heap[tail.ptr].next == next
    case DeqSwing(_, head, _, _) => s.head == head
    case _ => false
  }

  // ---- One iteration ----

  /** `mark` is the work done when `u` was last at the top of its loop (or outside of any). What `u`
      has loaded since can be out of date only by work done since. */
  ghost predicate Fresh(s: State, g: Ghost, mark: int, pc: Pc) {
    var w := Work(s, g);
    && mark <= w
    && match pc
       case EnqLoadNext(_, _, tail) => mark + (s.tail.tag - tail.tag) <= w
       case EnqRecheck(_, _, tail, next) =>
         && tail.ptr in s.heap
         && mark + (s.tail.tag - tail.tag) <= w
         && (tail == s.tail && s.heap[tail.ptr].next != next ==> mark < w)
       case EnqLink(_, _, tail, next) => tail.ptr in s.heap && (s.heap[tail.ptr].next != next ==> mark < w)
       case EnqHelp(_, _, tail, _) => mark + (s.tail.tag - tail.tag) <= w
       case DeqLoadTail(_, head) => mark + (s.head.tag - head.tag) <= w
       case DeqLoadNext(_, head, tail) =>
         mark + (s.head.tag - head.tag) <= w && mark + (s.tail.tag - tail.tag) <= w
       case DeqRecheck(_, head, tail, _) =>
         mark + (s.head.tag - head.tag) <= w && mark + (s.tail.tag - tail.tag) <= w
       case DeqHelp(_, tail, _) => mark + (s.tail.tag - tail.tag) <= w
       case DeqRead(_, head, _, _) => mark + (s.head.tag - head.tag) <= w
       case DeqSwing(_, head, _, _) => mark + (s.head.tag - head.tag) <= w
       case _ => true
  }

  /** What any step does to the amount of work. */
  ghost predicate WorkRely(s: State, g: Ghost, s': State, g': Ghost) {
    var w, w' := Work(s, g), Work(s', g');
    && s.tail.tag <= s'.tail.tag && s.head.tag <= s'.head.tag
    && w + (s'.tail.tag - s.tail.tag) <= w'
    && w + (s'.head.tag - s.head.tag) <= w'
    && s.tail.ptr in s.heap && s.tail.ptr in s'.heap
    && (s'.heap[s.tail.ptr].next != s.heap[s.tail.ptr].next ==> w < w')
    && (s'.tail != s.tail ==> s.tail.tag < s'.tail.tag)
    && (s'.head != s.head ==> s.head.tag < s'.head.tag)
  }

  /** A link, a head move and a tail move are one unit of work each, and nothing else is work. */
  lemma WorkEffect(s: State, g: Ghost, t: Tid, a: Action)
    requires Inv(s, g) && Enabled(s, t, a) && (a.Internal? ==> Safe(s, s.threads[t]))
    ensures WorkRely(s, g, Next(Unbounded, s, t, a), GhostNext(s, g, t, a))
  {
    ChainEffect(s, g, t, a);
    TailIsQueued(s, g);
    LinkEffect(s, t, a, s.tail.ptr);
    if t in s.threads {
      WriterKnowsTag(s, g, t);
    }
    if Unlinks(s, t, a) {
      HeadSwingIsExact(s, g, t);
    }
    CellsEffect(s, t, a);
    hide Inv, Next, GhostNext;
  }

  lemma TailIsQueued(s: State, g: Ghost)
    requires Inv(s, g)
    ensures |g.chain| > 0 && s.tail.ptr in s.heap && s.tail.ptr in g.chain
  {
    hide Local;
    AnchorsHold(s, g);
  }

  /** Which steps move the head and the tail. */
  lemma CellsEffect(s: State, t: Tid, a: Action)
    requires Enabled(s, t, a) && (a.Internal? ==> Safe(s, s.threads[t]))
    ensures var s' := Next(Unbounded, s, t, a);
            && (if Unlinks(s, t, a) then s'.head.tag == s.head.tag + 1 else s'.head == s.head)
            && (s'.tail == s.tail || (s'.tail.tag == s.tail.tag + 1 && !Links(s, t, a) && !Unlinks(s, t, a)))
  {
  }

  /** Steps of others keep `u` as up to date as the work they do allows. */
  lemma FreshStable(s: State, g: Ghost, s': State, g': Ghost, mark: int, u: Tid, pc: Pc)
    requires Local(s, g, u, pc) && Fresh(s, g, mark, pc) && WorkRely(s, g, s', g') && s.heap.Keys <= s'.heap.Keys
    ensures Fresh(s', g', mark, pc)
  {
  }

  /** One iteration, seen from its last step: going round again costs a spurious failure or a unit of
      work done by somebody since the last time. */
  lemma RetryCosts(s: State, g: Ghost, mark: int, u: Tid, m: Move)
    requires Inv(s, g) && u in s.threads && Fresh(s, g, mark, s.threads[u])
    requires Enabled(s, m.t, m.a) && (m.a.Internal? ==> Safe(s, s.threads[m.t]))
    requires Retries(s, u, m, Next(Unbounded, s, m.t, m.a))
    ensures FailsSpuriously(s, u, m) || mark < Work(Next(Unbounded, s, m.t, m.a), GhostNext(s, g, m.t, m.a))
  {
    WhySentBack(s, u, m);
    SendingBackCosts(s, g, mark, u, m);
  }

  lemma WhySentBack(s: State, u: Tid, m: Move)
    requires Enabled(s, m.t, m.a) && (m.a.Internal? ==> Safe(s, s.threads[m.t]))
    requires Retries(s, u, m, Next(Unbounded, s, m.t, m.a))
    ensures SentBack(s, u, m)
  {
  }

  lemma SendingBackCosts(s: State, g: Ghost, mark: int, u: Tid, m: Move)
    requires Inv(s, g) && u in s.threads && Fresh(s, g, mark, s.threads[u])
    requires Enabled(s, m.t, m.a) && (m.a.Internal? ==> Safe(s, s.threads[m.t])) && SentBack(s, u, m)
    ensures FailsSpuriously(s, u, m) || mark < Work(Next(Unbounded, s, m.t, m.a), GhostNext(s, g, m.t, m.a))
  {
  }

  /** A step of `u` itself. */
  lemma FreshOwn(s: State, g: Ghost, mark: int, u: Tid, m: Move)
    requires Inv(s, g) && m.t == u && (u in s.threads ==> Fresh(s, g, mark, s.threads[u])) && mark <= Work(s, g)
    requires Enabled(s, m.t, m.a) && (m.a.Internal? ==> Safe(s, s.threads[m.t]))
    ensures var s', g' := Next(Unbounded, s, m.t, m.a), GhostNext(s, g, m.t, m.a);
            mark <= Work(s', g') && (u in s'.threads ==> Fresh(s', g', mark, s'.threads[u]))
  {
    var s', g' := Next(Unbounded, s, m.t, m.a), GhostNext(s, g, m.t, m.a);
    WorkEffect(s, g, m.t, m.a);
    TailIsQueued(s, g);
    if m.a.Internal? && InLoop(s.threads[u]) {
      AtLocal(s, g, u, s.threads[u]);
      FreshLoop(s, g, s', g', mark, u, m.a.spurious);
    } else {
      LeavesLoop(s, u, m.a);
    }
  }

  /** The steps after which `u` carries something it loaded inside its loop. */
  predicate InLoop(pc: Pc) {
    || pc.EnqLoadTail? || pc.EnqLoadNext? || pc.EnqRecheck?
    || pc.DeqLoadHead? || pc.DeqLoadTail? || pc.DeqLoadNext? || pc.DeqRecheck? || pc.DeqRead?
  }

  predicate CarriesNothing(pc: Pc) {
    || pc.EnqAlloc? || pc.EnqInitData? || pc.EnqReadTag? || pc.EnqInitNext? || pc.EnqLoadTail? || pc.EnqSwing?
    || pc.DeqLoadHead? || pc.DeqFree? || pc.ResAlloc? || pc.ResFree? || pc.Done?
  }

  lemma LeavesLoop(s: State, u: Tid, a: Action)
    requires Enabled(s, u, a) && (a.Internal? ==> Safe(s, s.threads[u]) && !InLoop(s.threads[u]))
    ensures var s' := Next(Unbounded, s, u, a); u in s'.threads ==> CarriesNothing(s'.threads[u])
  {
  }

  lemma FreshLoop(s: State, g: Ghost, s': State, g': Ghost, mark: int, u: Tid, spurious: bool)
    requires Enabled(s, u, Internal(spurious)) && Safe(s, s.threads[u]) && InLoop(s.threads[u])
    requires s' == Advance(Unbounded, s, u, spurious) && g' == GhostAdvance(s, g, u, spurious)
    requires Local(s, g, u, s.threads[u]) && s.tail.ptr in s.heap && Fresh(s, g, mark, s.threads[u])
    ensures Fresh(s', g', mark, s'.threads[u])
  {
    match s.threads[u]
    case EnqLoadTail(_, _) =>
    case EnqLoadNext(_, _, _) =>
    case EnqRecheck(_, _, _, _) =>
    case DeqLoadHead(_) =>
    case DeqLoadTail(_, _) =>
    case DeqLoadNext(_, _, _) =>
    case DeqRecheck(_, _, _, _) =>
    case DeqRead(_, _, _, _) =>
  }

  // ---- Whole runs ----

  ghost function RetryCount(states: seq<State>, moves: seq<Move>, u: Tid, k: nat): nat
    requires IsRun(Unbounded, states, moves) && k <= |moves|
  {
    if k == 0 then 0
    else RetryCount(states, moves, u, k - 1) + if Retries(states[k - 1], u, moves[k - 1], states[k]) then 1 else 0
  }

  ghost function SpuriousCount(states: seq<State>, moves: seq<Move>, u: Tid, k: nat): nat
    requires IsRun(Unbounded, states, moves) && k <= |moves|
  {
    if k == 0 then 0
    else SpuriousCount(states, moves, u, k - 1) + if FailsSpuriously(states[k - 1], u, moves[k - 1]) then 1 else 0
  }

  ghost function WorkAt(states: seq<State>, moves: seq<Move>, g: Ghost, k: nat): int
    requires IsRun(Unbounded, states, moves) && k <= |moves|
  {
    Work(states[k], Companion(states, moves, g, k))
  }

  /** All retries of `u`, in all its operations since move `i`, are paid for. */
  lemma {:induction false} RetriesArePaid(states: seq<State>, moves: seq<Move>, g: Ghost, u: Tid, i: nat, k: nat)
    returns (mark: int)
    requires IsRun(Unbounded, states, moves) && Inv(states[0], g) && i <= k <= |moves| && u !in states[i].threads
    ensures mark <= WorkAt(states, moves, g, k)
    ensures RetryCount(states, moves, u, k) - RetryCount(states, moves, u, i)
            <= SpuriousCount(states, moves, u, k) - SpuriousCount(states, moves, u, i)
               + mark - WorkAt(states, moves, g, i)
    ensures u in states[k].threads ==> Fresh(states[k], Companion(states, moves, g, k), mark, states[k].threads[u])
  {
    hide Inv, Fresh, Work, Retries, FailsSpuriously;
    mark := WorkAt(states, moves, g, i);
    if k > i {
      mark := RetriesArePaid(states, moves, g, u, i, k - 1);
      mark := PayOneMove(states, moves, g, u, k - 1, mark);
    }
  }

  lemma PayOneMove(states: seq<State>, moves: seq<Move>, g: Ghost, u: Tid, k: nat, mark: int) returns (mark': int)
    requires IsRun(Unbounded, states, moves) && Inv(states[0], g) && k < |moves|
    requires mark <= WorkAt(states, moves, g, k)
    requires u in states[k].threads ==> Fresh(states[k], Companion(states, moves, g, k), mark, states[k].threads[u])
    ensures mark' <= WorkAt(states, moves, g, k + 1)
    ensures mark + (if Retries(states[k], u, moves[k], states[k + 1]) then 1 else 0) <=
            mark' + (if FailsSpuriously(states[k], u, moves[k]) then 1 else 0)
    ensures u in states[k + 1].threads ==>
              Fresh(states[k + 1], Companion(states, moves, g, k + 1), mark', states[k + 1].threads[u])
  {
    RunKeepsInv(states, moves, g, k);
    var s, h, m := states[k], Companion(states, moves, g, k), moves[k];
    var s', h' := states[k + 1], Companion(states, moves, g, k + 1);
    assert CanMove(Unbounded, s, m, s');
    WorkEffect(s, h, m.t, m.a);
    if Retries(s, u, m, s') {
      mark' := Work(s', h');
      RetryCosts(s, h, mark, u, m);
      TopIsFresh(s', h', s'.threads[u]);
    } else {
      mark' := mark;
      if m.t == u {
        hide Inv;
        FreshOwn(s, h, mark, u, m);
      } else if u in s.threads {
        OthersEffect(s, h, m.t, m.a);
        KeysEffect(s, m.t, m.a);
        AtLocal(s, h, u, s.threads[u]);
        hide Inv;
        FreshStable(s, h, s', h', mark, u, s.threads[u]);
      } else {
        OthersEffect(s, h, m.t, m.a);
      }
    }
    hide Inv, Fresh, Next, GhostNext, Retries, FailsSpuriously;
  }

  lemma TopIsFresh(s: State, g: Ghost, pc: Pc)
    requires pc.EnqLoadTail? || pc.DeqLoadHead?
    ensures Fresh(s, g, Work(s, g), pc)
  {
  }

  /** The tags of head and tail, and the length of the chain, count links and head moves. */
  lemma {:induction false} WorkIsCounted(states: seq<State>, moves: seq<Move>, g: Ghost, k: nat)
    requires IsRun(Unbounded, states, moves) && Inv(states[0], g) && k <= |moves|
    ensures states[k].head.tag == states[0].head.tag + |Removed(states, moves, k)|
    ensures |Companion(states, moves, g, k).chain| + |Removed(states, moves, k)| ==
            |g.chain| + |Appended(states, moves, k)|
  {
    hide Inv;
    if k > 0 {
      WorkIsCounted(states, moves, g, k - 1);
      RunKeepsInv(states, moves, g, k - 1);
      var s, h, m := states[k - 1], Companion(states, moves, g, k - 1), moves[k - 1];
      assert CanMove(Unbounded, s, m, states[k]);
      ChainEffect(s, h, m.t, m.a);
      CellsEffect(s, m.t, m.a);
      TailIsQueued(s, h);
      hide Next, GhostNext, Links, Unlinks;
    }
  }

  lemma TailTag(s: State, g: Ghost)
    requires Inv(s, g)
    ensures var links := s.head.tag + |g.chain| - 1;
            links - 1 <= s.tail.tag <= links && (s.threads == map[] ==> s.tail.tag == links)
  {
    hide Local, PlaceOk;
  }

  /** What can send `u` back in the first `k` moves: its spurious failures, links (which also let the tail lag), and
      removals. */
  ghost function Causes(states: seq<State>, moves: seq<Move>, u: Tid, k: nat): nat
    requires IsRun(Unbounded, states, moves) && k <= |moves|
  {
    SpuriousCount(states, moves, u, k) + 2 * |Appended(states, moves, k)| + |Removed(states, moves, k)|
  }

  /** Lock-freedom: from any instant at which a thread is outside, its retries, summed over all its operations since,
      are at most its spurious failures plus twice the values linked plus the values removed by everybody, and one more
      if the tail may lag at the beginning because others are inside. */
  lemma RetriesAreBounded(states: seq<State>, moves: seq<Move>, g: Ghost, u: Tid, i: nat, k: nat)
    requires IsRun(Unbounded, states, moves) && Inv(states[0], g) && i <= k <= |moves| && u !in states[i].threads
    ensures RetryCount(states, moves, u, k) - RetryCount(states, moves, u, i)
            <= Causes(states, moves, u, k) - Causes(states, moves, u, i) + if states[i].threads == map[] then 0 else 1
  {
    var mark := RetriesArePaid(states, moves, g, u, i, k);
    WorkIsCounted(states, moves, g, i);
    WorkIsCounted(states, moves, g, k);
    RunKeepsInv(states, moves, g, i);
    RunKeepsInv(states, moves, g, k);
    TailTag(states[i], Companion(states, moves, g, i));
    TailTag(states[k], Companion(states, moves, g, k));
    hide Inv, Fresh, RetryCount, SpuriousCount, Appended, Removed, Companion, IsRun;
  }

  /** The same from the constructed fifo, whatever the other threads do. */
  lemma LockFreedom(states: seq<State>, moves: seq<Move>, free: seq<Ptr>, u: Tid, k: nat)
    requires IsRun(Unbounded, states, moves) && Initial(states[0], free) && k <= |moves|
    ensures RetryCount(states, moves, u, k) <=
            SpuriousCount(states, moves, u, k) + 2 * |Appended(states, moves, k)| + |Removed(states, moves, k)|
  {
    InitialInv(states[0], free);
    assert states[0].threads == map[];
    hide Inv, Initial, IsRun;
    RetriesAreBounded(states, moves, InitialGhost(states[0], free), u, 0, k);
  }

  // ---- The loops of the freelist ----

  /** The value of `pool` that a thread inside `allocate` or `deallocate` has loaded, if any. */
  predicate HasLoadedPool(pc: Pc) {
    match pc
    case EnqAlloc(_, alloc) => !alloc.LoadPool?
    case DeqFree(_, _, free) => !free.LoadPoolForPush?
    case ResFree(_, _, free) => !free.LoadPoolForPush?
    case _ => false
  }

  function LoadedPool(pc: Pc): Tagged
    requires HasLoadedPool(pc)
  {
    if pc.EnqAlloc? then pc.alloc.seen else pc.free.seen
  }

  predicate ComparesPool(pc: Pc) {
    match pc
    case EnqAlloc(_, alloc) => alloc.SwingPool?
    case DeqFree(_, _, free) => free.PushPool?
    case ResFree(_, _, free) => free.PushPool?
    case _ => false
  }

  /** How many accesses, allocations included, are left of the whole operation if nothing sends the thread back. */
  function StepsLeft(pc: Pc): nat {
    match pc
    case EnqAlloc(_, alloc) => TakeLeft(alloc) + 8
    case EnqInitData(_, _) => 8
    case EnqReadTag(_, _) => 7
    case EnqInitNext(_, _, _) => 6
    case EnqLoadTail(_, _) => 5
    case EnqLoadNext(_, _, _) => 4
    case EnqRecheck(_, _, _, _) => 3
    case EnqLink(_, _, _, _) => 2
    case EnqHelp(_, _, _, _) => 2
    case EnqSwing(_, _) => 1
    case DeqLoadHead(_) => 10
    case DeqLoadTail(_, _) => 9
    case DeqLoadNext(_, _, _) => 8
    case DeqRecheck(_, _, _, _) => 7
    case DeqHelp(_, _, _) => 6
    case DeqRead(_, _, _, _) => 6
    case DeqSwing(_, _, _, _) => 5
    case DeqFree(_, _, free) => GiveLeft(free)
    case ResAlloc(count) => 5 * count + 1
    case ResFree(count, _, free) => GiveLeft(free) + 5 * count + 1
    case Done(_) => 0
  }

  predicate InFreelist(pc: Pc) {
    pc.EnqAlloc? || pc.DeqFree? || pc.ResFree?
  }

  /** The move is a step of `u` in the freelist that brings it no nearer to its end. */
  predicate PoolRetries(s: State, u: Tid, m: Move, s': State) {
    && m.t == u && (m.a.Internal? || m.a.Allocate?) && u in s.threads && u in s'.threads && InFreelist(s.threads[u])
    && StepsLeft(s'.threads[u]) >= StepsLeft(s.threads[u])
  }

  predicate PoolFailsSpuriously(s: State, u: Tid, m: Move) {
    && m.t == u && m.a.Internal? && u in s.threads && ComparesPool(s.threads[u])
    && m.a.spurious && LoadedPool(s.threads[u]) == s.pool
  }

  function PoolStale(s: State, u: Tid): nat {
    if u in s.threads && HasLoadedPool(s.threads[u]) && LoadedPool(s.threads[u]) != s.pool then 1 else 0
  }

  ghost function PoolRetryCount(states: seq<State>, moves: seq<Move>, u: Tid, k: nat): nat
    requires IsRun(Unbounded, states, moves) && k <= |moves|
  {
    if k == 0 then 0
    else PoolRetryCount(states, moves, u, k - 1)
         + if PoolRetries(states[k - 1], u, moves[k - 1], states[k]) then 1 else 0
  }

  ghost function PoolSpuriousCount(states: seq<State>, moves: seq<Move>, u: Tid, k: nat): nat
    requires IsRun(Unbounded, states, moves) && k <= |moves|
  {
    if k == 0 then 0
    else PoolSpuriousCount(states, moves, u, k - 1)
         + if PoolFailsSpuriously(states[k - 1], u, moves[k - 1]) then 1 else 0
  }

  ghost function PoolChangeCount(states: seq<State>, moves: seq<Move>, k: nat): nat
    requires IsRun(Unbounded, states, moves) && k <= |moves|
  {
    if k == 0 then 0 else PoolChangeCount(states, moves, k - 1) + if states[k].pool != states[k - 1].pool then 1 else 0
  }

  /** A step of `u` takes it nearer to its end, or back to the top of a loop. The loops of the freelist cost a spurious
      failure or a change of `pool` by somebody else. */
  ghost predicate Pays(s: State, u: Tid, m: Move, s': State) {
    && (u in s.threads && u in s'.threads && m.a.Internal? && StepsLeft(s'.threads[u]) >= StepsLeft(s.threads[u]) ==>
          || (Retries(s, u, m, s') && StepsLeft(s'.threads[u]) <= StepsLeft(s.threads[u]) + 5)
          || (InFreelist(s.threads[u]) && StepsLeft(s'.threads[u]) <= StepsLeft(s.threads[u]) + 2))
    && (u in s.threads && m.a.Allocate? ==> u in s'.threads && StepsLeft(s'.threads[u]) < StepsLeft(s.threads[u]))
    && (if PoolRetries(s, u, m, s') then 1 else 0) + PoolStale(s', u)
       <= PoolStale(s, u) + (if PoolFailsSpuriously(s, u, m) then 1 else 0)
  }

  lemma EnqAllocPays(s: State, u: Tid, m: Move, s': State)
    requires CanMove(Unbounded, s, m, s') && m.t == u && m.a.Internal? && s.threads[u].EnqAlloc?
    ensures u in s'.threads && Pays(s, u, m, s')
  {
    match s.threads[u].alloc
    case LoadPool =>
    case ReadSuccessor(_) =>
    case SwingPool(_, _) =>
  }

  lemma DeqFreePays(s: State, u: Tid, m: Move, s': State)
    requires CanMove(Unbounded, s, m, s') && m.t == u && m.a.Internal? && s.threads[u].DeqFree?
    ensures u in s'.threads && Pays(s, u, m, s')
  {
    match s.threads[u].free
    case LoadPoolForPush =>
    case ReadLinkTag(_) =>
    case WriteLink(_, _) =>
    case PushPool(_) =>
  }

  lemma ResFreePays(s: State, u: Tid, m: Move, s': State)
    requires CanMove(Unbounded, s, m, s') && m.t == u && m.a.Internal? && s.threads[u].ResFree?
    ensures u in s'.threads && Pays(s, u, m, s')
  {
    match s.threads[u].free
    case LoadPoolForPush =>
    case ReadLinkTag(_) =>
    case WriteLink(_, _) =>
    case PushPool(_) =>
  }

  predicate InEnqueue(pc: Pc) {
    || pc.EnqInitData? || pc.EnqReadTag? || pc.EnqInitNext? || pc.EnqLoadTail? || pc.EnqLoadNext? || pc.EnqRecheck?
    || pc.EnqLink? || pc.EnqHelp? || pc.EnqSwing?
  }

  lemma EnqueuePays(s: State, u: Tid, m: Move, s': State)
    requires CanMove(Unbounded, s, m, s') && m.t == u && m.a.Internal? && InEnqueue(s.threads[u])
    ensures u in s'.threads && Pays(s, u, m, s')
  {
    hide TakeLeft, GiveLeft, LoadedPool;
  }

  lemma DequeuePays(s: State, u: Tid, m: Move, s': State)
    requires CanMove(Unbounded, s, m, s') && m.t == u && m.a.Internal?
    requires !InFreelist(s.threads[u]) && !InEnqueue(s.threads[u])
    ensures u in s'.threads && Pays(s, u, m, s')
  {
    hide TakeLeft, LoadedPool;
  }

  lemma OuterPays(s: State, u: Tid, m: Move, s': State)
    requires CanMove(Unbounded, s, m, s') && m.t == u && !m.a.Internal?
    ensures (u !in s'.threads <==> m.a.Return?) && Pays(s, u, m, s')
  {
  }

  lemma OwnMovePays(s: State, u: Tid, m: Move, s': State)
    requires CanMove(Unbounded, s, m, s') && m.t == u
    ensures (u !in s'.threads <==> m.a.Return?) && Pays(s, u, m, s')
  {
    hide Pays;
    if !m.a.Internal? {
      OuterPays(s, u, m, s');
    } else if s.threads[u].EnqAlloc? {
      EnqAllocPays(s, u, m, s');
    } else if s.threads[u].DeqFree? {
      DeqFreePays(s, u, m, s');
    } else if s.threads[u].ResFree? {
      ResFreePays(s, u, m, s');
    } else if InEnqueue(s.threads[u]) {
      EnqueuePays(s, u, m, s');
    } else {
      DequeuePays(s, u, m, s');
    }
  }

  lemma PoolMovePays(s: State, u: Tid, m: Move, s': State)
    requires CanMove(Unbounded, s, m, s')
    ensures (if PoolRetries(s, u, m, s') then 1 else 0) + PoolStale(s', u)
            <= PoolStale(s, u) + (if PoolFailsSpuriously(s, u, m) then 1 else 0) + (if s'.pool != s.pool then 1 else 0)
  {
    if m.t == u {
      hide CanMove, PoolStale, PoolRetries, PoolFailsSpuriously;
      OwnMovePays(s, u, m, s');
    } else {
      OthersUntouched(s, u, m, s');
      hide CanMove, HasLoadedPool, LoadedPool;
    }
  }

  /** An access writes the program counter of no other thread. */
  lemma AdvanceGoes(s: State, t: Tid, spurious: bool)
    requires Enabled(s, t, Internal(spurious)) && Safe(s, s.threads[t])
    ensures var s' := Advance(Unbounded, s, t, spurious);
            t in s'.threads && s'.threads == s.threads[t := s'.threads[t]]
  {
  }

  lemma OthersUntouched(s: State, u: Tid, m: Move, s': State)
    requires CanMove(Unbounded, s, m, s') && m.t != u
    ensures (u in s'.threads <==> u in s.threads) && (u in s.threads ==> s'.threads[u] == s.threads[u])
  {
    if m.a.Internal? {
      AdvanceGoes(s, m.t, m.a.spurious);
      hide Advance, Safe;
    }
  }

  ghost function PoolCauses(states: seq<State>, moves: seq<Move>, u: Tid, k: nat): nat
    requires IsRun(Unbounded, states, moves) && k <= |moves|
  {
    PoolSpuriousCount(states, moves, u, k) + PoolChangeCount(states, moves, k)
  }

  /** The same for the loops of `allocate` and `deallocate`: a thread goes round them at most once for each
      of its spurious failures and once for each change of `pool`. */
  lemma {:induction false} PoolRetriesAreBounded(states: seq<State>, moves: seq<Move>, u: Tid, i: nat, k: nat)
    requires IsRun(Unbounded, states, moves) && i <= k <= |moves| && u !in states[i].threads
    ensures PoolRetryCount(states, moves, u, k) - PoolRetryCount(states, moves, u, i) + PoolStale(states[k], u)
            <= PoolCauses(states, moves, u, k) - PoolCauses(states, moves, u, i)
  {
    hide PoolRetries, PoolFailsSpuriously, CanMove;
    if k > i {
      PoolRetriesAreBounded(states, moves, u, i, k - 1);
      assert CanMove(Unbounded, states[k - 1], moves[k - 1], states[k]);
      PoolMovePays(states[k - 1], u, moves[k - 1], states[k]);
    }
  }

  // ---- Every call ends ----

  /** The accesses and allocations that `u` has made. */
  ghost function StepCount(moves: seq<Move>, u: Tid, k: nat): nat
    requires k <= |moves|
  {
    if k == 0 then 0
    else
      StepCount(moves, u, k - 1)
      + if moves[k - 1].t == u && (moves[k - 1].a.Internal? || moves[k - 1].a.Allocate?) then 1 else 0
  }

  /** What a call takes if nothing sends it back: `reserve` five steps for each node and one more. */
  function Needed(a: Action): nat {
    match a
    case InvokeReserve(count) => 5 * count + 1
    case InvokeDequeue(_) => 10
    case _ => 11
  }

  /** A move of a call. */
  lemma StepFalls(s: State, u: Tid, m: Move, s': State)
    requires CanMove(Unbounded, s, m, s') && u in s.threads && !(m.t == u && m.a.Return?)
    ensures u in s'.threads
    ensures (if m.t == u && (m.a.Internal? || m.a.Allocate?) then 1 else 0) + StepsLeft(s'.threads[u])
            <= StepsLeft(s.threads[u]) + (if Retries(s, u, m, s') then 6 else 0)
               + if PoolRetries(s, u, m, s') then 3 else 0
  {
    if m.t == u {
      OwnMovePays(s, u, m, s');
      CallsComeFromOutside(s, m, s');
    } else {
      OthersUntouched(s, u, m, s');
    }
    hide CanMove, StepsLeft, PoolStale, PoolFailsSpuriously;
  }

  lemma CallsComeFromOutside(s: State, m: Move, s': State)
    requires CanMove(Unbounded, s, m, s')
    ensures m.a.InvokeEnqueue? || m.a.InvokeDequeue? || m.a.InvokeReserve? ==>
              m.t !in s.threads && m.t in s'.threads && StepsLeft(s'.threads[m.t]) == Needed(m.a)
  {
  }

  lemma {:induction false} StepsAreRetries(states: seq<State>, moves: seq<Move>, u: Tid, i: nat, k: nat)
    requires IsRun(Unbounded, states, moves) && OneCall(moves, u, i, k)
    ensures u in states[k].threads
    ensures StepCount(moves, u, k) - StepCount(moves, u, i) + StepsLeft(states[k].threads[u])
            <= Needed(moves[i].a) + 6 * (RetryCount(states, moves, u, k) - RetryCount(states, moves, u, i))
               + 3 * (PoolRetryCount(states, moves, u, k) - PoolRetryCount(states, moves, u, i))
  {
    hide CanMove, Retries, PoolRetries, StepsLeft, Needed;
    assert CanMove(Unbounded, states[k - 1], moves[k - 1], states[k]);
    if k > i + 1 {
      StepsAreRetries(states, moves, u, i, k - 1);
      StepFalls(states[k - 1], u, moves[k - 1], states[k]);
    } else {
      CallsComeFromOutside(states[i], moves[i], states[k]);
      InvokeIsNoRetry(states[i], u, moves[i], states[k]);
    }
  }

  lemma InvokeIsNoRetry(s: State, u: Tid, m: Move, s': State)
    requires u !in s.threads
    ensures !Retries(s, u, m, s') && !PoolRetries(s, u, m, s')
  {
  }

  lemma CallFacts(states: seq<State>, moves: seq<Move>, u: Tid, i: nat, k: nat)
    requires IsRun(Unbounded, states, moves) && OneCall(moves, u, i, k)
    ensures i < k <= |moves| < |states| && u !in states[i].threads
  {
    assert CanMove(Unbounded, states[i], moves[i], states[i + 1]);
    CallsComeFromOutside(states[i], moves[i], states[i + 1]);
    hide CanMove, IsRun;
  }

  lemma StepsLeftUntilDone(pc: Pc)
    ensures pc.Done? || StepsLeft(pc) > 0
  {
  }

  /** Every call ends: it is not done only as long as its steps, those inside the freelist included, are fewer than it
      needs by itself, plus six for each spurious failure in its loop and for each value removed and twelve for each
      value linked by anybody meanwhile, plus three for each spurious failure in the freelist and each change of `pool`,
      and six more if the tail may lag at the beginning. */
  lemma StepsAreBounded(states: seq<State>, moves: seq<Move>, free: seq<Ptr>, u: Tid, i: nat, k: nat)
    requires IsRun(Unbounded, states, moves) && Initial(states[0], free) && OneCall(moves, u, i, k)
    ensures u in states[k].threads
    ensures StepCount(moves, u, k) - StepCount(moves, u, i) + (if states[k].threads[u].Done? then 0 else 1)
            <= Needed(moves[i].a)
               + 6 * (Causes(states, moves, u, k) - Causes(states, moves, u, i)
                      + if states[i].threads == map[] then 0 else 1)
               + 3 * (PoolCauses(states, moves, u, k) - PoolCauses(states, moves, u, i))
  {
    hide *;
    CallFacts(states, moves, u, i, k);
    InitialInv(states[0], free);
    StepsAreRetries(states, moves, u, i, k);
    RetriesAreBounded(states, moves, InitialGhost(states[0], free), u, i, k);
    PoolRetriesAreBounded(states, moves, u, i, k);
    StepsLeftUntilDone(states[k].threads[u]);
  }
}
