/** The 16-bit window is needed: a run of the stack with 16-bit tags in which a pop sleeps through exactly 2^16
    pops of others, wakes up to the tag that it had loaded, and installs a successor that is not the top's any
    more. A value that was pushed is lost, and no run of the abstract stack gives the same answers. */
module StackOverrun {
  import opened TaggedPtr
  import opened NodeList
  import opened Freelist
  import opened StackMachine
  import opened StackSpec
  import opened StackRuns
  import opened StackTags

  /** Who is inside an operation. */
  function Inside(moves: seq<Move>): set<Tid> {
    if moves == [] then {}
    else
      var before, m := Inside(moves[..|moves| - 1]), moves[|moves| - 1];
      match m.a
      case InvokePush(_) => before + {m.t}
      case InvokePop(_) => before + {m.t}
      case InvokeReserve(_) => before + {m.t}
      case Return(_) => before - {m.t}
      case _ => before
  }

  predicate IsOkPush(a: Action) {
    a == Return(Pushed(true))
  }

  predicate IsOkPop(a: Action) {
    a.Return? && a.result.Popped? && a.result.ok
  }

  /** How many pushes (pops) have answered true. */
  function OkPushes(moves: seq<Move>): nat {
    if moves == [] then 0
    else OkPushes(moves[..|moves| - 1]) + if IsOkPush(moves[|moves| - 1].a) then 1 else 0
  }

  function OkPops(moves: seq<Move>): nat {
    if moves == [] then 0
    else OkPops(moves[..|moves| - 1]) + if IsOkPop(moves[|moves| - 1].a) then 1 else 0
  }

  // ---- Runs that grow move by move ----

  /** A run of threads 0 and 1 from `start` to `s`, with so many successful pushes and pops. */
  datatype Trace = Trace(start: State, states: seq<State>, moves: seq<Move>, s: State, pushes: nat, pops: nat)

  ghost predicate Good(r: Trace) {
    && IsRun(Bits16, r.states, r.moves) && r.states[0] == r.start && r.states[|r.moves|] == r.s
    && (forall i :: 0 <= i < |r.moves| ==> r.moves[i].t <= 1)
    && OkPushes(r.moves) == r.pushes && OkPops(r.moves) == r.pops && Inside(r.moves) == r.s.threads.Keys
  }

  lemma KeysMove(s: State, t: Tid, a: Action)
    requires Enabled(s, t, a) && (a.Internal? ==> Safe(s, s.threads[t]))
    ensures Next(Bits16, s, t, a).threads.Keys ==
            if a.Return? then s.threads.Keys - {t} else if a.Internal? || a.Allocate? then s.threads.Keys
            else s.threads.Keys + {t}
  {
  }

  lemma Extend(r: Trace, t: Tid, a: Action) returns (r': Trace)
    requires Good(r) && t <= 1 && Enabled(r.s, t, a) && (a.Internal? ==> Safe(r.s, r.s.threads[t]))
    ensures Good(r') && r'.start == r.start && r'.s == Next(Bits16, r.s, t, a) && r'.moves == r.moves + [Move(t, a)]
    ensures r'.pushes == r.pushes + (if IsOkPush(a) then 1 else 0) && r'.pops == r.pops + if IsOkPop(a) then 1 else 0
  {
    var s' := Next(Bits16, r.s, t, a);
    KeysMove(r.s, t, a);
    assert CanMove(Bits16, r.s, Move(t, a), s');
    r' := Trace(r.start, r.states + [s'], r.moves + [Move(t, a)], s',
                r.pushes + (if IsOkPush(a) then 1 else 0), r.pops + if IsOkPop(a) then 1 else 0);
    assert r'.moves[..|r.moves|] == r.moves;
    hide Next, CanMove, Enabled, Safe;
    assert forall i :: 0 <= i < |r.moves| ==> CanMove(Bits16, r.states[i], r.moves[i], r.states[i + 1]);
  }

  // ---- Operations that run alone ----

  /** `t` takes the first spare node and constructs it. */
  lemma TakeSpare(r: Trace, t: Tid, v: Value) returns (r': Trace)
    requires Good(r) && t <= 1 && t !in r.s.threads && r.s.pool.ptr != NULL && r.s.pool.ptr in r.s.heap
    ensures Good(r') && r'.start == r.start && r'.pushes == r.pushes && r'.pops == r.pops
    ensures var n := r.s.pool.ptr;
            r'.s == r.s.(heap := SetData(r.s.heap, n, v),
                         pool := Tagged(r.s.heap[n].next.ptr, NextTag(Bits16, r.s.pool.tag)),
                         threads := r.s.threads[t := PushLink(v, n, LoadPoolForPush)])
  {
    hide Good;
    r' := Extend(r, t, InvokePush(v));
    r' := Extend(r', t, Internal(false));
    r' := Extend(r', t, Internal(false));
    r' := Extend(r', t, Internal(false));
    r' := Extend(r', t, Internal(false));
    assert r'.s.threads == r.s.threads[t := PushLink(v, r.s.pool.ptr, LoadPoolForPush)];
  }

  /** `t` links the node that it has constructed. */
  lemma LinkNode(r: Trace, t: Tid, v: Value, n: Ptr) returns (r': Trace)
    requires Good(r) && t <= 1 && n in r.s.heap
    requires t in r.s.threads && r.s.threads[t] == PushLink(v, n, LoadPoolForPush)
    ensures Good(r') && r'.start == r.start && r'.pushes == r.pushes + 1 && r'.pops == r.pops
    ensures r'.s == r.s.(heap := SetNext(r.s.heap, n, Tagged(r.s.tos.ptr, r.s.heap[n].next.tag)),
                         tos := Tagged(n, r.s.tos.tag),
                         threads := r.s.threads - {t})
  {
    hide Good;
    r' := Extend(r, t, Internal(false));
    r' := Extend(r', t, Internal(false));
    r' := Extend(r', t, Internal(false));
    assert r'.s.tos == r.s.tos && r'.s.threads == r.s.threads[t := PushLink(v, n, PushPool(r.s.tos))];
    r' := Extend(r', t, Internal(false));
    r' := Extend(r', t, Return(Pushed(true)));
    assert r'.s.threads == r.s.threads - {t};
  }

  /** `t` begins a pop and stops just before its compare-exchange. */
  lemma BeginPop(r: Trace, t: Tid, v: Value) returns (r': Trace)
    requires Good(r) && t <= 1 && t !in r.s.threads && r.s.tos.ptr != NULL && r.s.tos.ptr in r.s.heap
    ensures Good(r') && r'.start == r.start && r'.pushes == r.pushes && r'.pops == r.pops
    ensures r'.s == r.s.(threads := r.s.threads[t := PopTake(v, SwingPool(r.s.tos, r.s.heap[r.s.tos.ptr].next.ptr))])
  {
    hide Good;
    r' := Extend(r, t, InvokePop(v));
    r' := Extend(r', t, Internal(false));
    r' := Extend(r', t, Internal(false));
    assert r'.s.threads == r.s.threads[t := PopTake(v, SwingPool(r.s.tos, r.s.heap[r.s.tos.ptr].next.ptr))];
  }

  /** `t` gives node `n` to the freelist. */
  lemma GiveBack(r: Trace, t: Tid, n: Ptr, last: Pc) returns (r': Trace)
    requires Good(r) && t <= 1 && n in r.s.heap && t in r.s.threads
    requires match r.s.threads[t]
             case PopFree(ret, n', LoadPoolForPush) => n' == n && last == Done(Popped(true, ret))
             case ResFree(count, n', LoadPoolForPush) => n' == n && last == ResAlloc(count)
             case _ => false
    ensures Good(r') && r'.start == r.start && r'.pushes == r.pushes && r'.pops == r.pops
    ensures r'.s == r.s.(heap := SetNext(r.s.heap, n, Tagged(r.s.pool.ptr, r.s.heap[n].next.tag)),
                         pool := Tagged(n, r.s.pool.tag),
                         threads := r.s.threads[t := last])
  {
    hide Good;
    r' := Extend(r, t, Internal(false));
    r' := Extend(r', t, Internal(false));
    r' := Extend(r', t, Internal(false));
    r' := Extend(r', t, Internal(false));
    assert r'.s.threads == r.s.threads[t := last];
  }

  /** `t` completes a pop whose compare-exchange finds `tos` as it was loaded, whatever `succ` is by now. */
  lemma FinishPop(r: Trace, t: Tid, v: Value, succ: Ptr) returns (r': Trace)
    requires Good(r) && t <= 1 && r.s.tos.ptr in r.s.heap
    requires t in r.s.threads && r.s.threads[t] == PopTake(v, SwingPool(r.s.tos, succ))
    ensures Good(r') && r'.start == r.start && r'.pushes == r.pushes && r'.pops == r.pops + 1
    ensures var n := r.s.tos.ptr;
            r'.s == r.s.(heap := SetNext(r.s.heap, n, Tagged(r.s.pool.ptr, r.s.heap[n].next.tag)),
                         pool := Tagged(n, r.s.pool.tag),
                         tos := Tagged(succ, NextTag(Bits16, r.s.tos.tag)),
                         threads := r.s.threads - {t})
  {
    hide Good;
    var n := r.s.tos.ptr;
    r' := Extend(r, t, Internal(false));
    r' := Extend(r', t, Internal(false));
    r' := GiveBack(r', t, n, Done(Popped(true, r.s.heap[n].data)));
    r' := Extend(r', t, Return(Popped(true, r.s.heap[n].data)));
    assert r'.s.threads == r.s.threads - {t};
  }

  /** `t` obtains a node to reserve. */
  lemma BeginReserve(r: Trace, t: Tid, x: Ptr, bits: Node) returns (r': Trace)
    requires Good(r) && t <= 1 && t !in r.s.threads && x != NULL && x !in r.s.heap
    ensures Good(r') && r'.start == r.start && r'.pushes == r.pushes && r'.pops == r.pops
    ensures r'.s == r.s.(heap := r.s.heap[x := bits], threads := r.s.threads[t := ResFree(0, x, LoadPoolForPush)])
  {
    hide Good;
    r' := Extend(r, t, InvokeReserve(1));
    r' := Extend(r', t, Allocate(x, bits));
    assert r'.s.threads == r.s.threads[t := ResFree(0, x, LoadPoolForPush)];
  }

  lemma EndReserve(r: Trace, t: Tid) returns (r': Trace)
    requires Good(r) && t <= 1 && t in r.s.threads && r.s.threads[t] == ResAlloc(0)
    ensures Good(r') && r'.start == r.start && r'.pushes == r.pushes && r'.pops == r.pops
    ensures r'.s == r.s.(threads := r.s.threads - {t})
  {
    hide Good;
    r' := Extend(r, t, Internal(false));
    r' := Extend(r', t, Return(Reserved));
  }

  /** `t` adds one node to the freelist. */
  lemma Reserve(r: Trace, t: Tid, x: Ptr, bits: Node) returns (r': Trace)
    requires Good(r) && t <= 1 && t !in r.s.threads && x != NULL && x !in r.s.heap
    ensures Good(r') && r'.start == r.start && r'.pushes == r.pushes && r'.pops == r.pops
    ensures r'.s == r.s.(heap := r.s.heap[x := bits.(next := Tagged(r.s.pool.ptr, bits.next.tag))],
                         pool := Tagged(x, r.s.pool.tag))
  {
    hide Good;
    r' := BeginReserve(r, t, x, bits);
    r' := GiveBack(r', t, x, ResAlloc(0));
    r' := EndReserve(r', t);
    assert r'.s.threads == r.s.threads;
    assert r'.s.heap == r.s.heap[x := bits.(next := Tagged(r.s.pool.ptr, bits.next.tag))];
  }

  /** `t` pushes `v` while the others stand still. */
  lemma PushAlone(r: Trace, t: Tid, v: Value) returns (r': Trace)
    requires Good(r) && t <= 1 && t !in r.s.threads && r.s.pool.ptr != NULL && r.s.pool.ptr in r.s.heap
    ensures Good(r') && r'.start == r.start && r'.pushes == r.pushes + 1 && r'.pops == r.pops
    ensures var n := r.s.pool.ptr;
            r'.s == r.s.(heap := r.s.heap[n := Node(Tagged(r.s.tos.ptr, r.s.heap[n].next.tag), v)],
                         pool := Tagged(r.s.heap[n].next.ptr, NextTag(Bits16, r.s.pool.tag)),
                         tos := Tagged(n, r.s.tos.tag))
  {
    hide Good;
    r' := TakeSpare(r, t, v);
    r' := LinkNode(r', t, v, r.s.pool.ptr);
    assert r'.s.threads == r.s.threads;
  }

  /** `t` pops while the others stand still. */
  lemma PopAlone(r: Trace, t: Tid, v: Value) returns (r': Trace)
    requires Good(r) && t <= 1 && t !in r.s.threads && r.s.tos.ptr != NULL && r.s.tos.ptr in r.s.heap
    ensures Good(r') && r'.start == r.start && r'.pushes == r.pushes && r'.pops == r.pops + 1
    ensures var n := r.s.tos.ptr;
            r'.s == r.s.(heap := SetNext(r.s.heap, n, Tagged(r.s.pool.ptr, r.s.heap[n].next.tag)),
                         pool := Tagged(n, r.s.pool.tag),
                         tos := Tagged(r.s.heap[n].next.ptr, NextTag(Bits16, r.s.tos.tag)))
  {
    hide Good;
    r' := BeginPop(r, t, v);
    r' := FinishPop(r', t, v, r.s.heap[r.s.tos.ptr].next.ptr);
    assert r'.s.threads == r.s.threads;
  }

  // ---- The run ----

  /** The stack as constructed with two nodes. */
  function Fresh(v: Value): State {
    State(false, map[1 := Node(Tagged(NULL, 0), v), 2 := Node(Tagged(1, 0), v)], Tagged(2, 0), Tagged(NULL, 0), map[])
  }

  /** Thread 0 is about to pop node 1, and believes that node 2 comes next. */
  function Asleep(v: Value): map<Tid, Pc> {
    map[0 := PopTake(v, SwingPool(Tagged(1, 0), 2))]
  }

  /** Both nodes are on the stack, 1 above 2. */
  function Full(v: Value, poolTag: nat, tosTag: nat, threads: map<Tid, Pc>): State {
    State(false, map[1 := Node(Tagged(2, 0), v), 2 := Node(Tagged(NULL, 0), v)],
          Tagged(NULL, poolTag), Tagged(1, tosTag), threads)
  }

  lemma FreshIsInitial(v: Value)
    ensures Initial(Fresh(v), [2, 1]) && WrapState(Fresh(v)) == Fresh(v)
  {
    var s := Fresh(v);
    assert s.heap[2].next.ptr == LinkTo([2, 1], 1) && s.heap[1].next.ptr == LinkTo([2, 1], 2);
    assert s.heap.Keys == Elements([2, 1]);
  }

  /** Two pushes, and thread 0 falls asleep inside a pop. */
  lemma FallAsleep(v: Value) returns (r: Trace)
    ensures Good(r) && r.start == Fresh(v) && r.s == Full(v, 2, 0, Asleep(v)) && r.pushes == 2 && r.pops == 0
  {
    var s := Fresh(v);
    r := Trace(s, [s], [], s, 0, 0);
    assert Good(r);
    hide Good;
    r := PushAlone(r, 1, v);
    r := PushAlone(r, 1, v);
    assert r.s == Full(v, 2, 0, map[]);
    r := BeginPop(r, 0, v);
    assert r.s.threads == Asleep(v);
  }

  /** Thread 1 pops and pushes: everything is as before but the two tags. */
  lemma OneRound(r: Trace, v: Value, poolTag: nat, tosTag: nat) returns (r': Trace)
    requires Good(r) && r.s == Full(v, poolTag, tosTag, Asleep(v))
    ensures Good(r') && r'.start == r.start && r'.pushes == r.pushes + 1 && r'.pops == r.pops + 1
    ensures r'.s == Full(v, NextTag(Bits16, poolTag), NextTag(Bits16, tosTag), Asleep(v))
  {
    hide Good, NextTag;
    r' := PopAlone(r, 1, v);
    r' := PushAlone(r', 1, v);
    assert r'.s.heap == r.s.heap;
  }

  lemma NextOfMod(n: nat)
    ensures NextTag(Bits16, n % TAG_LIMIT) == (n + 1) % TAG_LIMIT
  {
  }

  lemma {:induction false} GoRound(v: Value, n: nat) returns (r: Trace)
    ensures Good(r) && r.start == Fresh(v) && r.pushes == 2 + n && r.pops == n
    ensures r.s == Full(v, (2 + n) % TAG_LIMIT, n % TAG_LIMIT, Asleep(v))
  {
    hide Good, Full, Asleep, NextTag;
    if n == 0 {
      r := FallAsleep(v);
    } else {
      r := GoRound(v, n - 1);
      NextOfMod(1 + n);
      NextOfMod(n - 1);
      r := OneRound(r, v, (1 + n) % TAG_LIMIT, (n - 1) % TAG_LIMIT);
    }
  }

  /** Node 1 is on top again with the tag that thread 0 has loaded, but node 3 comes next. */
  function Trap(v: Value): State {
    State(false,
          map[1 := Node(Tagged(3, 0), v), 2 := Node(Tagged(NULL, 0), v), 3 := Node(Tagged(2, 0), v)],
          Tagged(NULL, 3), Tagged(1, 0), Asleep(v))
  }

  lemma SetTrap(v: Value) returns (r: Trace)
    ensures Good(r) && r.start == Fresh(v) && r.s == Trap(v) && r.pushes == TAG_LIMIT + 3 && r.pops == TAG_LIMIT
  {
    hide Good;
    r := GoRound(v, TAG_LIMIT - 1);
    r := PopAlone(r, 1, v);
    r := Reserve(r, 1, 3, Node(Tagged(NULL, 0), v));
    r := PushAlone(r, 1, v);
    r := PushAlone(r, 1, v);
    assert r.s.heap == Trap(v).heap;
  }

  /** With 16-bit tags a compare-exchange can succeed on a stale word: the last move of this run is a pop that
      installs a node which is not the successor of the one that it takes. */
  lemma StaleSwing(v: Value) returns (states: seq<State>, moves: seq<Move>)
    ensures Initial(Fresh(v), [2, 1]) && IsRun(Bits16, states, moves) && |moves| > 0 && states[0] == WrapState(Fresh(v))
    ensures var s, m := states[|moves| - 1], moves[|moves| - 1];
            && Pops(s, m.t, m.a) && s.tos.ptr in s.heap
            && states[|moves|].tos.ptr == s.threads[m.t].take.succ != s.heap[s.tos.ptr].next.ptr
  {
    FreshIsInitial(v);
    var r := SetTrap(v);
    var r' := Extend(r, 0, Internal(false));
    states, moves := r'.states, r'.moves;
    assert CanMove(Bits16, states[|moves| - 1], moves[|moves| - 1], states[|moves|]);
    hide IsRun;
  }

  // ---- What the abstract stack would have to do ----

  /** Operations that have put a value on the stack, or taken one off, without having answered yet. */
  function Unanswered(p: Spec, t: Tid): int {
    if t !in p.ops then 0
    else if p.ops[t].PushDone? then 1
    else if p.ops[t].PopDone? || p.ops[t].PopFreed? then -1
    else 0
  }

  lemma OwnBalance(p: Spec, t: Tid, a: Action, p': Spec)
    requires SpecStep(p, t, a, p')
    ensures |p'.items| - Unanswered(p', t)
            == |p.items| - Unanswered(p, t) + (if IsOkPush(a) then 1 else 0) - (if IsOkPop(a) then 1 else 0)
    ensures forall u :: u != t ==> Unanswered(p', u) == Unanswered(p, u)
  {
  }

  /** One move changes the size by what it does, and the answers by what it answers. */
  lemma BalanceMoves(p: Spec, m: Move, p': Spec)
    requires SpecStep(p, m.t, m.a, p') && m.t <= 1
    ensures |p'.items| - Unanswered(p', 0) - Unanswered(p', 1)
            == |p.items| - Unanswered(p, 0) - Unanswered(p, 1)
               + (if IsOkPush(m.a) then 1 else 0) - (if IsOkPop(m.a) then 1 else 0)
  {
    OwnBalance(p, m.t, m.a, p');
    hide Unanswered, SpecStep;
  }

  lemma SpecKeysMove(p: Spec, t: Tid, a: Action, p': Spec)
    requires SpecStep(p, t, a, p')
    ensures p'.ops.Keys == if a.Return? then p.ops.Keys - {t} else if a.Internal? || a.Allocate? then p.ops.Keys
                           else p.ops.Keys + {t}
  {
  }

  /** The abstract stack holds what was pushed and not popped. */
  lemma {:induction false} SizeIsBalance(specs: seq<Spec>, moves: seq<Move>, k: nat)
    requires SpecRun(specs, moves) && specs[0].items == [] && specs[0].ops == map[] && k <= |moves|
    requires forall i :: 0 <= i < |moves| ==> moves[i].t <= 1
    ensures specs[k].ops.Keys == Inside(moves[..k])
    ensures OkPushes(moves[..k]) - OkPops(moves[..k]) + Unanswered(specs[k], 0) + Unanswered(specs[k], 1) ==
            |specs[k].items|
  {
    if k > 0 {
      SizeIsBalance(specs, moves, k - 1);
      assert moves[..k][..k - 1] == moves[..k - 1];
      var p, m, p' := specs[k - 1], moves[k - 1], specs[k];
      assert SpecStep(p, m.t, m.a, p');
      hide SpecStep, Unanswered;
      BalanceMoves(p, m, p');
      SpecKeysMove(p, m.t, m.a, p');
    }
  }

  /** A pop that runs while a value is on the stack and nobody else is inside cannot be refused. */
  lemma LonePopIsNotRefused(p0: Spec, p1: Spec, p2: Spec, p3: Spec, p4: Spec, v: Value)
    requires p0.ops == map[] && p0.items != []
    requires SpecStep(p0, 1, InvokePop(v), p1) && SpecStep(p1, 1, Internal(false), p2)
    requires SpecStep(p2, 1, Internal(false), p3)
    ensures !SpecStep(p3, 1, Return(Popped(false, v)), p4)
  {
  }

  /** After thread 0 has woken up and thread 1 has popped once more, `tos` is null. */
  lemma SpringTrap(v: Value) returns (r: Trace)
    ensures Good(r) && r.start == Fresh(v) && r.s.threads == map[] && r.s.tos.ptr == NULL
    ensures r.pushes == TAG_LIMIT + 3 && r.pops == TAG_LIMIT + 2
  {
    hide Good;
    r := SetTrap(v);
    r := FinishPop(r, 0, v, 2);
    assert r.s.threads == map[];
    r := PopAlone(r, 1, v);
  }

  /** A pop of thread 1 that finds `tos` null and answers false. */
  lemma PopNothing(r: Trace, v: Value) returns (r': Trace)
    requires Good(r) && 1 !in r.s.threads && r.s.tos.ptr == NULL
    ensures Good(r') && r'.start == r.start
    ensures r'.moves == r.moves + [Move(1, InvokePop(v)), Move(1, Internal(false)), Move(1, Internal(false)),
                                   Move(1, Return(Popped(false, v)))]
  {
    hide Good;
    r' := Extend(r, 1, InvokePop(v));
    r' := Extend(r', 1, Internal(false));
    r' := Extend(r', 1, Internal(false));
    r' := Extend(r', 1, Return(Popped(false, v)));
  }

  /** The 16-bit stack is not linearizable without the window: this run, from a constructed stack, ends with a
      pop that is refused although one value more has been pushed than popped. */
  lemma NotLinearizable(v: Value) returns (states: seq<State>, moves: seq<Move>)
    ensures Initial(Fresh(v), [2, 1]) && IsRun(Bits16, states, moves) && states[0] == WrapState(Fresh(v))
    ensures !exists specs: seq<Spec> :: SpecRun(specs, moves) && specs[0] == Spec(false, [], 2, map[])
  {
    FreshIsInitial(v);
    var r := SpringTrap(v);
    var r' := PopNothing(r, v);
    states, moves := r'.states, r'.moves;
    var n := |r.moves|;
    assert moves[..n] == r.moves;
    hide IsRun, Inside, OkPushes, OkPops;
    forall specs: seq<Spec> | SpecRun(specs, moves) && specs[0] == Spec(false, [], 2, map[])
      ensures false
    {
      SizeIsBalance(specs, moves, n);
      assert specs[n].ops == map[] && |specs[n].items| == 1;
      LastPop(specs, moves, n, v);
    }
  }

  lemma LastPop(specs: seq<Spec>, moves: seq<Move>, n: nat, v: Value)
    requires |specs| == n + 5 && |moves| == n + 4 && specs[n].ops == map[] && specs[n].items != []
    requires moves[n..] == [Move(1, InvokePop(v)), Move(1, Internal(false)), Move(1, Internal(false)),
                            Move(1, Return(Popped(false, v)))]
    ensures !SpecRun(specs, moves)
  {
    if SpecRun(specs, moves) {
      assert moves[n] == moves[n..][0] && moves[n + 1] == moves[n..][1];
      assert moves[n + 2] == moves[n..][2] && moves[n + 3] == moves[n..][3];
      hide SpecStep;
      assert SpecStep(specs[n + 3], 1, Return(Popped(false, v)), specs[n + 4]);
      LonePopIsNotRefused(specs[n], specs[n + 1], specs[n + 2], specs[n + 3], specs[n + 4], v);
    }
  }
}
