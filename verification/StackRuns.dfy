/** Whole runs of the concurrent stack. */
module StackRuns {
  import opened TaggedPtr
  import opened NodeList
  import opened StackMachine
  import opened StackSafety
  import opened StackSpec

  datatype Move = Move(t: Tid, a: Action)

  ghost predicate CanMove(width: Width, s: State, m: Move, s': State) {
    && Enabled(s, m.t, m.a)
    && (m.a.Internal? ==> Safe(s, s.threads[m.t]))
    && s' == Next(width, s, m.t, m.a)
  }

  ghost predicate IsRun(width: Width, states: seq<State>, moves: seq<Move>) {
    && |states| == |moves| + 1
    && forall i :: 0 <= i < |moves| ==> CanMove(width, states[i], moves[i], states[i + 1])
  }

  /** What the constructor leaves: an empty stack, the reserved nodes in the freelist. */
  ghost predicate Initial(s: State, free: seq<Ptr>) {
    && s.threads == map[] && s.tos == Tagged(NULL, 0) && NULL !in s.heap
    && IsList(s.heap, s.pool.ptr, free)
    && s.heap.Keys == Elements(free)
  }

  ghost function InitialGhost(s: State, free: seq<Ptr>): Ghost {
    Ghost([], free, map x | x in s.heap :: In(Pool), {}, {})
  }

  lemma InitialInv(s: State, free: seq<Ptr>)
    requires Initial(s, free)
    ensures Inv(s, InitialGhost(s, free))
  {
  }

  ghost function Companion(states: seq<State>, moves: seq<Move>, g: Ghost, k: nat): Ghost
    requires IsRun(Unbounded, states, moves) && k <= |moves|
  {
    if k == 0 then g
    else
      assert CanMove(Unbounded, states[k - 1], moves[k - 1], states[k]);
      GhostNext(states[k - 1], Companion(states, moves, g, k - 1), moves[k - 1].t, moves[k - 1].a)
  }

  lemma {:induction false} RunKeepsInv(states: seq<State>, moves: seq<Move>, g: Ghost, k: nat)
    requires IsRun(Unbounded, states, moves) && Inv(states[0], g) && k <= |moves|
    ensures Inv(states[k], Companion(states, moves, g, k))
  {
    hide Inv;
    if k > 0 {
      RunKeepsInv(states, moves, g, k - 1);
      assert CanMove(Unbounded, states[k - 1], moves[k - 1], states[k]);
      StepKeepsInv(states[k - 1], Companion(states, moves, g, k - 1), moves[k - 1].t, moves[k - 1].a);
    }
  }

  ghost predicate SpecRun(specs: seq<Spec>, moves: seq<Move>) {
    && |specs| == |moves| + 1
    && forall i :: 0 <= i < |moves| ==> SpecStep(specs[i], moves[i].t, moves[i].a, specs[i + 1])
  }

  ghost function AbsAt(states: seq<State>, moves: seq<Move>, g: Ghost, k: nat): Spec
    requires IsRun(Unbounded, states, moves) && k <= |moves| && Inv(states[0], g)
  {
    RunKeepsInv(states, moves, g, k);
    ItemsAllocated(states[k], Companion(states, moves, g, k));
    Abs(states[k], Companion(states, moves, g, k))
  }

  lemma ItemsAllocated(s: State, g: Ghost)
    requires Inv(s, g)
    ensures Allocated(s.heap, g.items)
  {
  }

  lemma AbsMoves(states: seq<State>, moves: seq<Move>, g: Ghost, k: nat)
    requires IsRun(Unbounded, states, moves) && Inv(states[0], g) && k < |moves|
    ensures SpecStep(AbsAt(states, moves, g, k), moves[k].t, moves[k].a, AbsAt(states, moves, g, k + 1))
  {
    RunKeepsInv(states, moves, g, k);
    assert CanMove(Unbounded, states[k], moves[k], states[k + 1]);
    hide Inv, SpecStep, Abs;
    StepRefines(states[k], Companion(states, moves, g, k), moves[k].t, moves[k].a);
  }

  /** `specs` is the sequence of the abstract states of the run. */
  ghost predicate Abstracts(states: seq<State>, moves: seq<Move>, g: Ghost, specs: seq<Spec>)
    requires IsRun(Unbounded, states, moves) && Inv(states[0], g)
  {
    |specs| == |moves| + 1 && forall k :: 0 <= k <= |moves| ==> specs[k] == AbsAt(states, moves, g, k)
  }

  lemma SpecsOf(states: seq<State>, moves: seq<Move>, g: Ghost) returns (specs: seq<Spec>)
    requires IsRun(Unbounded, states, moves) && Inv(states[0], g)
    ensures SpecRun(specs, moves) && Abstracts(states, moves, g, specs)
  {
    hide Inv, IsRun, AbsAt, SpecStep;
    specs := seq(|moves| + 1, k requires 0 <= k <= |moves| => AbsAt(states, moves, g, k));
    forall i | 0 <= i < |moves|
      ensures SpecStep(specs[i], moves[i].t, moves[i].a, specs[i + 1])
    {
      AbsMoves(states, moves, g, i);
    }
  }

  /** Linearizability: in every run from the constructed stack the abstract states form a run of the abstract
      stack, with the same calls, returns and results, in which each operation takes effect at one of its own
      steps and takes or gives back at most one spare node. */
  lemma RunRefines(states: seq<State>, moves: seq<Move>, free: seq<Ptr>)
    requires IsRun(Unbounded, states, moves) && Initial(states[0], free)
    ensures Inv(states[0], InitialGhost(states[0], free))
    ensures exists specs ::
              && SpecRun(specs, moves) && specs[0] == Spec(states[0].caching, [], |free|, map[])
              && Abstracts(states, moves, InitialGhost(states[0], free), specs)
  {
    InitialInv(states[0], free);
    var g := InitialGhost(states[0], free);
    assert AbsAt(states, moves, g, 0) == Spec(states[0].caching, [], |free|, map[]);
    hide Inv, IsRun, AbsAt, Initial;
    var specs := SpecsOf(states, moves, g);
    assert SpecRun(specs, moves) && specs[0] == AbsAt(states, moves, g, 0);
  }

  // ---- Refusals ----

  /** Between move `i` and move `k` thread `t` is inside one call, made by move `i`. */
  ghost predicate OneCall(moves: seq<Move>, t: Tid, i: nat, k: nat) {
    && i < k <= |moves| && moves[i].t == t
    && (moves[i].a.InvokePush? || moves[i].a.InvokePop? || moves[i].a.InvokeReserve?)
    && forall j :: i < j < k && moves[j].t == t ==> !moves[j].a.Return?
  }

  /** The move is a step of `t` inside `allocate` that finds the freelist empty. */
  predicate FindsDry(s: State, m: Move, t: Tid) {
    m.t == t && m.a.Internal? && t in s.threads && s.threads[t].PushAlloc? && s.pool.ptr == NULL
  }

  /** The move is a step of `t` inside the loop of `pop` that finds the stack empty. */
  predicate FindsEmpty(s: State, m: Move, t: Tid) {
    m.t == t && m.a.Internal? && t in s.threads && s.threads[t].PopTake? && s.tos.ptr == NULL
  }

  lemma NothingListed(s: State, g: Ghost)
    requires Inv(s, g)
    ensures |g.free| == 0 <==> s.pool.ptr == NULL
    ensures |g.items| == 0 <==> s.tos.ptr == NULL
  {
    hide Local, PlaceOk;
  }

  /** What a move says about the observations of `t`. */
  lemma ObservingMove(s: State, g: Ghost, m: Move, s': State, t: Tid)
    requires CanMove(Unbounded, s, m, s') && t in s.threads && !(m.t == t && m.a.Return?)
    requires (|g.free| == 0 <==> s.pool.ptr == NULL) && (|g.items| == 0 <==> s.tos.ptr == NULL)
    ensures t in s'.threads && s'.caching == s.caching
    ensures t in GhostNext(s, g, m.t, m.a).sawDry ==> t in g.sawDry || FindsDry(s, m, t)
    ensures t in GhostNext(s, g, m.t, m.a).sawEmpty ==> t in g.sawEmpty || FindsEmpty(s, m, t)
    ensures s'.threads[t] == Done(Pushed(false)) ==> s.threads[t] == s'.threads[t] || !s.caching
  {
  }

  lemma CallBegins(s: State, g: Ghost, m: Move, s': State)
    requires CanMove(Unbounded, s, m, s')
    ensures m.a.InvokePush? ==>
              && m.t in s'.threads && s'.threads[m.t].PushAlloc? && m.t !in GhostNext(s, g, m.t, m.a).sawDry
    ensures m.a.InvokePop? ==> m.t in s'.threads && m.t !in GhostNext(s, g, m.t, m.a).sawEmpty
  {
  }

  lemma {:induction false} DrynessDates(states: seq<State>, moves: seq<Move>, g: Ghost, t: Tid, i: nat, k: nat)
    requires IsRun(Unbounded, states, moves) && Inv(states[0], g) && OneCall(moves, t, i, k) && moves[i].a.InvokePush?
    ensures t in states[k].threads
    ensures states[k].threads[t] == Done(Pushed(false)) ==> !states[k].caching
    ensures t in Companion(states, moves, g, k).sawDry ==>
              exists j: nat :: i < j < k && FindsDry(states[j], moves[j], t)
  {
    hide Inv, FindsDry, CanMove, GhostNext;
    assert CanMove(Unbounded, states[k - 1], moves[k - 1], states[k]);
    var s, h := states[k - 1], Companion(states, moves, g, k - 1);
    if k > i + 1 {
      DrynessDates(states, moves, g, t, i, k - 1);
      RunKeepsInv(states, moves, g, k - 1);
      NothingListed(s, h);
      ObservingMove(s, h, moves[k - 1], states[k], t);
    } else {
      CallBegins(s, h, moves[k - 1], states[k]);
    }
  }

  lemma {:induction false} EmptinessDates(states: seq<State>, moves: seq<Move>, g: Ghost, t: Tid, i: nat, k: nat)
    requires IsRun(Unbounded, states, moves) && Inv(states[0], g) && OneCall(moves, t, i, k) && moves[i].a.InvokePop?
    ensures t in states[k].threads
    ensures t in Companion(states, moves, g, k).sawEmpty ==>
              exists j: nat :: i < j < k && FindsEmpty(states[j], moves[j], t)
  {
    hide Inv, FindsEmpty, CanMove, GhostNext;
    assert CanMove(Unbounded, states[k - 1], moves[k - 1], states[k]);
    var s, h := states[k - 1], Companion(states, moves, g, k - 1);
    if k > i + 1 {
      EmptinessDates(states, moves, g, t, i, k - 1);
      RunKeepsInv(states, moves, g, k - 1);
      NothingListed(s, h);
      ObservingMove(s, h, moves[k - 1], states[k], t);
    } else {
      CallBegins(s, h, moves[k - 1], states[k]);
    }
  }

  lemma RefusalIsNoted(s: State, g: Ghost, t: Tid)
    requires Inv(s, g) && t in s.threads
    ensures s.threads[t] == Done(Pushed(false)) ==> t in g.sawDry
    ensures s.threads[t].Done? && s.threads[t].result.Popped? && !s.threads[t].result.ok ==> t in g.sawEmpty
  {
    AtLocal(s, g, t, s.threads[t]);
    hide Inv, Shape;
  }

  /** A push answers false only with a static freelist, and only if a load of `pool` inside the call has found
      it null. */
  lemma PushRefusalIsTrue(states: seq<State>, moves: seq<Move>, free: seq<Ptr>, t: Tid, i: nat, k: nat)
    requires IsRun(Unbounded, states, moves) && Initial(states[0], free) && OneCall(moves, t, i, k) && k < |moves|
    requires moves[i].a.InvokePush? && moves[k] == Move(t, Return(Pushed(false)))
    ensures !states[k].caching && exists j: nat :: i < j < k && FindsDry(states[j], moves[j], t)
  {
    InitialInv(states[0], free);
    var g := InitialGhost(states[0], free);
    hide Inv, Initial;
    assert CanMove(Unbounded, states[k], moves[k], states[k + 1]);
    DrynessDates(states, moves, g, t, i, k);
    RunKeepsInv(states, moves, g, k);
    RefusalIsNoted(states[k], Companion(states, moves, g, k), t);
  }

  /** A pop answers false only if a load of `tos` inside the call has found it null, and then the abstract
      stack was empty. */
  lemma PopRefusalIsTrue(states: seq<State>, moves: seq<Move>, free: seq<Ptr>, t: Tid, i: nat, k: nat, ret: Value)
    requires IsRun(Unbounded, states, moves) && Initial(states[0], free) && OneCall(moves, t, i, k) && k < |moves|
    requires moves[i].a.InvokePop? && moves[k] == Move(t, Return(Popped(false, ret)))
    ensures Inv(states[0], InitialGhost(states[0], free))
    ensures exists j: nat :: i < j < k && FindsEmpty(states[j], moves[j], t)
                             && AbsAt(states, moves, InitialGhost(states[0], free), j).items == []
  {
    InitialInv(states[0], free);
    var g := InitialGhost(states[0], free);
    hide Inv, Initial;
    assert CanMove(Unbounded, states[k], moves[k], states[k + 1]);
    EmptinessDates(states, moves, g, t, i, k);
    RunKeepsInv(states, moves, g, k);
    RefusalIsNoted(states[k], Companion(states, moves, g, k), t);
    var j: nat :| i < j < k && FindsEmpty(states[j], moves[j], t);
    RunKeepsInv(states, moves, g, j);
    NothingListed(states[j], Companion(states, moves, g, j));
  }

  ghost predicate WasEmpty(specs: seq<Spec>, i: nat, k: nat) {
    exists j: nat :: i < j <= k && j < |specs| && specs[j].items == []
  }

  ghost predicate WasDry(specs: seq<Spec>, i: nat, k: nat) {
    exists j: nat :: i < j <= k && j < |specs| && specs[j].spare == 0
  }

  /** The abstract stack by itself refuses a removal only if it was empty, and an insertion only if no spare
      node was left and none may be allocated, at an instant of that call. */
  lemma {:induction false} RefusalsAreTrue(specs: seq<Spec>, moves: seq<Move>, t: Tid, i: nat, k: nat)
    requires SpecRun(specs, moves) && OneCall(moves, t, i, k)
    ensures t in specs[k].ops && specs[k].caching == specs[i].caching
    ensures specs[k].ops[t].PopRefused? ==> WasEmpty(specs, i, k)
    ensures specs[k].ops[t].Popping? && specs[k].ops[t].sawEmpty ==> WasEmpty(specs, i, k)
    ensures specs[k].ops[t].PushRefused? ==> WasDry(specs, i, k) && !specs[k].caching
    ensures specs[k].ops[t].Pushing? && specs[k].ops[t].sawDry ==> WasDry(specs, i, k)
  {
    assert SpecStep(specs[k - 1], moves[k - 1].t, moves[k - 1].a, specs[k]);
    if k > i + 1 {
      RefusalsAreTrue(specs, moves, t, i, k - 1);
    }
  }

  // ---- Conservation ----

  /** The values put on the stack, and the values taken off it, by the first `k` moves. */
  ghost function PushedValues(states: seq<State>, moves: seq<Move>, k: nat): multiset<Value>
    requires IsRun(Unbounded, states, moves) && k <= |moves|
  {
    if k == 0 then multiset{}
    else
      var s, m := states[k - 1], moves[k - 1];
      PushedValues(states, moves, k - 1) + if Pushes(s, m.t, m.a) then multiset{s.threads[m.t].v} else multiset{}
  }

  ghost function PoppedValues(states: seq<State>, moves: seq<Move>, k: nat): multiset<Value>
    requires IsRun(Unbounded, states, moves) && k <= |moves|
  {
    if k == 0 then multiset{}
    else
      var s, m := states[k - 1], moves[k - 1];
      PoppedValues(states, moves, k - 1) +
      if Pops(s, m.t, m.a) && s.tos.ptr in s.heap then multiset{s.heap[s.tos.ptr].data} else multiset{}
  }

  lemma ItemsAt(states: seq<State>, moves: seq<Move>, g: Ghost, k: nat)
    requires IsRun(Unbounded, states, moves) && Inv(states[0], g) && k < |moves|
    ensures ItemsMove(states[k], moves[k].t, moves[k].a,
                      AbsAt(states, moves, g, k).items, AbsAt(states, moves, g, k + 1).items)
  {
    hide Inv, ItemsMove, Values;
    RunKeepsInv(states, moves, g, k);
    assert CanMove(Unbounded, states[k], moves[k], states[k + 1]);
    StackEffect(states[k], Companion(states, moves, g, k), moves[k].t, moves[k].a);
  }

  /** Nothing is lost and nothing comes out twice: at any point of any run, what was on the stack and what
      was pushed is what was popped and what is on the stack. */
  lemma {:induction false} RunConserves(states: seq<State>, moves: seq<Move>, g: Ghost, k: nat)
    requires IsRun(Unbounded, states, moves) && Inv(states[0], g) && k <= |moves|
    ensures multiset(AbsAt(states, moves, g, 0).items) + PushedValues(states, moves, k) ==
            PoppedValues(states, moves, k) + multiset(AbsAt(states, moves, g, k).items)
  {
    hide Inv, AbsAt;
    if k > 0 {
      RunConserves(states, moves, g, k - 1);
      ItemsAt(states, moves, g, k - 1);
      var items, items' := AbsAt(states, moves, g, k - 1).items, AbsAt(states, moves, g, k).items;
      var s, m := states[k - 1], moves[k - 1];
      var pushed := if Pushes(s, m.t, m.a) then multiset{s.threads[m.t].v} else multiset{};
      var popped := if Pops(s, m.t, m.a) && s.tos.ptr in s.heap then multiset{s.heap[s.tos.ptr].data} else multiset{};
      StepBalances(s, m, items, items', pushed, popped);
      hide Pushes, Pops;
      Balance(multiset(AbsAt(states, moves, g, 0).items), PushedValues(states, moves, k - 1),
              PoppedValues(states, moves, k - 1), multiset(items), pushed, popped, multiset(items'));
    }
  }

  lemma StepBalances(s: State, m: Move, items: seq<Value>, items': seq<Value>, pushed: multiset<Value>,
                     popped: multiset<Value>)
    requires ItemsMove(s, m.t, m.a, items, items')
    requires pushed == if Pushes(s, m.t, m.a) then multiset{s.threads[m.t].v} else multiset{}
    requires popped == if Pops(s, m.t, m.a) && s.tos.ptr in s.heap then multiset{s.heap[s.tos.ptr].data} else multiset{}
    ensures multiset(items) + pushed == popped + multiset(items')
  {
    if Pushes(s, m.t, m.a) {
      TopCounts(s.threads[m.t].v, items, items');
    } else if Pops(s, m.t, m.a) {
      TopCounts(items[0], items', items);
    }
  }

  lemma Balance(a: multiset<Value>, b: multiset<Value>, c: multiset<Value>, d: multiset<Value>,
                pushed: multiset<Value>, popped: multiset<Value>, d': multiset<Value>)
    requires a + b == c + d && d + pushed == popped + d'
    ensures a + (b + pushed) == (c + popped) + d'
  {
    forall x: Value
      ensures (a + (b + pushed))[x] == ((c + popped) + d')[x]
    {
      assert (a + b)[x] == (c + d)[x] && (d + pushed)[x] == (popped + d')[x];
    }
  }

  lemma TopCounts(v: Value, xs: seq<Value>, ys: seq<Value>)
    requires ys == [v] + xs || (|ys| > 0 && ys[0] == v && xs == ys[1..])
    ensures multiset(ys) == multiset{v} + multiset(xs)
  {
  }

  // ---- Why a stale pop fails ----

  /** If the compare-exchange of a pop finds `tos` unchanged, the node it saw is still on top and the
      link it read earlier is the node's true successor, whatever was pushed, popped, freed and reused
      in between: an intervening pop would have raised the tag. */
  lemma PopInstallsSuccessor(s: State, g: Ghost, t: Tid)
    requires Inv(s, g) && t in s.threads && s.threads[t].PopTake? && s.threads[t].take.SwingPool?
    requires s.threads[t].take.seen == s.tos
    ensures |g.items| > 0 && s.tos.ptr == g.items[0] && s.threads[t].take.succ == LinkTo(g.items, 1)
    ensures forall u :: u in s.threads ==> Holds(s.threads[u]) != s.tos.ptr
  {
  }

  lemma ListedIsAllocated(s: State, g: Ghost, x: Ptr)
    requires Shape(s, g) && (x in g.items || x in g.free)
    ensures x in s.heap
  {
  }

  lemma HoldsItsNode(s: State, g: Ghost, t: Tid)
    requires Inv(s, g) && t in s.threads && Holds(s.threads[t]) != NULL
    ensures HoldsNode(s, g, t, Holds(s.threads[t]))
  {
  }

  /** Every allocated node is on the stack, in the freelist, or in the hands of exactly one thread. */
  lemma NodesArePartitioned(s: State, g: Ghost)
    requires Inv(s, g)
    ensures forall x :: x in g.items ==> x in s.heap && x !in g.free
    ensures forall x :: x in g.free ==> x in s.heap
    ensures forall t :: t in s.threads && Holds(s.threads[t]) != NULL ==>
              var x := Holds(s.threads[t]); x in s.heap && x !in g.items && x !in g.free
    ensures forall t, u :: t in s.threads && u in s.threads && t != u && Holds(s.threads[t]) != NULL ==>
              Holds(s.threads[t]) != Holds(s.threads[u])
    ensures forall x :: x in s.heap ==>
              x in g.items || x in g.free || exists t :: t in s.threads && Holds(s.threads[t]) == x
  {
    forall t | t in s.threads && Holds(s.threads[t]) != NULL
      ensures HoldsNode(s, g, t, Holds(s.threads[t]))
    {
      HoldsItsNode(s, g, t);
    }
    hide Holds, Local, IsList;
    forall x | x in g.items || x in g.free
      ensures x in s.heap
    {
      ListedIsAllocated(s, g, x);
    }
    forall x | x in s.heap
      ensures x in g.items || x in g.free || exists t :: t in s.threads && Holds(s.threads[t]) == x
    {
      if g.place[x].Held? {
        assert g.place[x].holder in s.threads;
      } else {
        PlaceKinds(g.place[x]);
      }
    }
  }
}
