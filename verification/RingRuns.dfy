/** Whole runs of the shared ringbuffer: any interleaving of one producer and one consumer. */
module RingRuns {
  import opened RingIndex
  import opened RingSpec
  import opened NodeList
  import opened RingProtocol

  ghost predicate CanMove(s: State, a: Action, s': State) {
    Enabled(s, a) && Safe(s, a) && s' == Next(s, a)
  }

  ghost predicate IsRun(states: seq<State>, actions: seq<Action>) {
    && |states| == |actions| + 1
    && forall i :: 0 <= i < |actions| ==> CanMove(states[i], actions[i], states[i + 1])
  }

  ghost predicate Initial(s: State) {
    Sized(s) && s.write == s.read == 0 && s.producer.PIdle? && s.consumer.CIdle?
  }

  /** What the first `k` moves have accepted, given back and copied out. */
  ghost function HistoryAt(states: seq<State>, actions: seq<Action>, k: nat): History
    requires IsRun(states, actions) && k <= |actions|
  {
    if k == 0 then History([], 0, [], 0)
    else
      assert CanMove(states[k - 1], actions[k - 1], states[k]);
      Remember(states[k - 1], HistoryAt(states, actions, k - 1), actions[k - 1])
  }

  lemma LoadReadKeepsInv(s: State, h: History)
    requires Inv(s, h) && s.producer.PLoadRead?
    ensures Safe(s, ProducerStep) && Inv(ProducerAdvance(s), Remember(s, h, ProducerStep))
  {
    PutCountIsTrue(s, h);
    hide PutCount, WriteAvailable, NextOf, ConsumerInv;
  }

  lemma ProducerKeepsInv(s: State, h: History)
    requires Inv(s, h) && Enabled(s, ProducerStep)
    ensures Safe(s, ProducerStep) && Inv(ProducerAdvance(s), Remember(s, h, ProducerStep))
  {
    match s.producer
    case PLoadWrite(_, _) =>
      hide NextOf, BulkNext, ConsumerInv;
    case PLoadRead(_, _, _) =>
      LoadReadKeepsInv(s, h);
    case PCopy(_, _, _, count, i) =>
      hide Inv, ProducerAdvance;
      if i < count {
        CopyInKeepsInv(s, h);
      } else {
        PublishKeepsInv(s, h);
      }
  }

  lemma ConsumerKeepsInv(s: State, h: History)
    requires Inv(s, h) && Enabled(s, ConsumerStep)
    ensures Safe(s, ConsumerStep) && Inv(ConsumerAdvance(s), Remember(s, h, ConsumerStep))
  {
    match s.consumer
    case CLoadWrite(_) =>
    case CLoadRead(_, _) =>
      TakeCountIsTrue(s, h);
      hide Wanted, ReadAvailable;
    case CCopy(_, _, count, out) =>
      assert |out| <= count;
      hide Inv, ConsumerAdvance, Remember;
      if |out| == count {
        GiveBackKeepsInv(s, h);
      } else {
        CopyOutKeepsInv(s, h);
      }
  }

  lemma StepKeepsInv(s: State, h: History, a: Action)
    requires Inv(s, h) && Enabled(s, a)
    ensures Safe(s, a) && Inv(Next(s, a), Remember(s, h, a))
  {
    match a
    case ProducerStep =>
      hide Inv;
      ProducerKeepsInv(s, h);
    case ConsumerStep =>
      hide Inv;
      ConsumerKeepsInv(s, h);
    case _ =>
  }

  lemma InitialInv(s: State)
    requires Initial(s)
    ensures Inv(s, History([], 0, [], 0))
  {
  }

  lemma SizeKept(s: State, a: Action)
    requires Enabled(s, a) && Safe(s, a)
    ensures |Next(s, a).slots| == |s.slots|
  {
  }

  lemma {:induction false} RunKeepsInv(states: seq<State>, actions: seq<Action>, k: nat)
    requires IsRun(states, actions) && Initial(states[0]) && k <= |actions|
    ensures Inv(states[k], HistoryAt(states, actions, k)) && |states[k].slots| == |states[0].slots|
  {
    hide Inv, Next, Enabled, Safe, Remember;
    if k == 0 {
      InitialInv(states[0]);
    } else {
      RunKeepsInv(states, actions, k - 1);
      assert CanMove(states[k - 1], actions[k - 1], states[k]);
      SizeKept(states[k - 1], actions[k - 1]);
      StepKeepsInv(states[k - 1], HistoryAt(states, actions, k - 1), actions[k - 1]);
    }
  }

  // ---- Order and capacity ----

  /** What the consumer has copied out is at every instant a prefix of what the producer has published,
      and no more than all slots but one lie in between. */
  lemma OutputIsPrefix(states: seq<State>, actions: seq<Action>, k: nat)
    requires IsRun(states, actions) && Initial(states[0]) && k <= |actions|
    ensures var h := HistoryAt(states, actions, k);
            h.output <= h.accepted && |h.accepted| - |h.output| <= |h.accepted| - h.released < |states[0].slots|
  {
    RunKeepsInv(states, actions, k);
  }

  /** While both sides are copying, the slot being filled is not one that the consumer has yet to read,
      nor does the slot being read belong to the part that the producer fills. */
  lemma CopiesNeverCollide(states: seq<State>, actions: seq<Action>, k: nat, i: nat, j: nat)
    requires IsRun(states, actions) && Initial(states[0]) && k <= |actions|
    requires states[k].producer.PCopy? && i < states[k].producer.count
    requires states[k].consumer.CCopy? && j < states[k].consumer.count
    ensures Ahead(states[k].producer.write, i, |states[k].slots|) !=
            Ahead(states[k].consumer.read, j, |states[k].slots|)
  {
    RunKeepsInv(states, actions, k);
    SlotsAreDisjoint(states[k], HistoryAt(states, actions, k), i, j);
  }

  // ---- What a call returns ----

  /** The calls between move `i` and move `k` on the producer's side are one call of `enqueue(xs)`. */
  ghost predicate PutCall(actions: seq<Action>, i: nat, k: nat, xs: seq<Value>, bulk: bool) {
    && i < k <= |actions| && actions[i] == InvokePut(xs, bulk)
    && forall j :: i < j < k ==> !actions[j].ReturnPut?
  }

  ghost predicate TakeCall(actions: seq<Action>, i: nat, k: nat, take: Take) {
    && i < k <= |actions| && actions[i] == InvokeTake(take)
    && forall j :: i < j < k ==> !actions[j].ReturnTake?
  }

  /** The free slots after `j` moves. */
  ghost function RoomAt(states: seq<State>, actions: seq<Action>, j: nat): nat
    requires IsRun(states, actions) && Initial(states[0]) && j <= |actions|
  {
    RunKeepsInv(states, actions, j);
    Room(states[j], HistoryAt(states, actions, j))
  }

  /** The items inside after `j` moves. */
  ghost function StockAt(states: seq<State>, actions: seq<Action>, j: nat): nat
    requires IsRun(states, actions) && Initial(states[0]) && j <= |actions|
  {
    RunKeepsInv(states, actions, j);
    var h := HistoryAt(states, actions, j);
    |h.accepted| - h.released
  }

  ghost predicate HadRoom(states: seq<State>, actions: seq<Action>, i: nat, k: nat, xs: seq<Value>, count: nat)
    requires IsRun(states, actions) && Initial(states[0]) && k <= |actions|
  {
    exists j :: i < j < k && Smaller(count, |xs|, RoomAt(states, actions, j))
  }

  ghost predicate HadStock(states: seq<State>, actions: seq<Action>, i: nat, k: nat, take: Take, count: nat)
    requires IsRun(states, actions) && Initial(states[0]) && k <= |actions|
  {
    exists j :: i < j < k && Serves(take, count, StockAt(states, actions, j))
  }

  /** What a call of `enqueue` that has come as far as move `k` has done. */
  ghost predicate PutSoFar(states: seq<State>, actions: seq<Action>, i: nat, k: nat, xs: seq<Value>)
    requires IsRun(states, actions) && Initial(states[0]) && i <= k <= |actions|
  {
    var before, now := HistoryAt(states, actions, i).accepted, HistoryAt(states, actions, k).accepted;
    match states[k].producer
    case PIdle => false
    case PLoadWrite(xs', _) => xs' == xs && now == before
    case PLoadRead(xs', _, _) => xs' == xs && now == before
    case PCopy(xs', _, _, count, _) => xs' == xs && now == before && HadRoom(states, actions, i, k, xs, count)
    case PDone(xs', count) =>
      xs' == xs && count <= |xs| && now == before + xs[..count] && HadRoom(states, actions, i, k, xs, count)
  }

  lemma PutLoadsRead(states: seq<State>, actions: seq<Action>, i: nat, k: nat, xs: seq<Value>, bulk: bool)
    requires IsRun(states, actions) && Initial(states[0]) && PutCall(actions, i, k + 1, xs, bulk) && i < k
    requires PutSoFar(states, actions, i, k, xs) && actions[k].ProducerStep? && states[k].producer.PLoadRead?
    ensures PutSoFar(states, actions, i, k + 1, xs)
  {
    RunKeepsInv(states, actions, k);
    assert CanMove(states[k], actions[k], states[k + 1]);
    PutCountIsTrue(states[k], HistoryAt(states, actions, k));
    hide PutCount, WriteAvailable, NextOf, Inv;
    assert RoomAt(states, actions, k) == Room(states[k], HistoryAt(states, actions, k));
  }

  lemma PutMoves(states: seq<State>, actions: seq<Action>, i: nat, k: nat, xs: seq<Value>, bulk: bool)
    requires IsRun(states, actions) && Initial(states[0]) && PutCall(actions, i, k + 1, xs, bulk) && i < k
    requires PutSoFar(states, actions, i, k, xs)
    ensures PutSoFar(states, actions, i, k + 1, xs)
  {
    assert CanMove(states[k], actions[k], states[k + 1]);
    if actions[k].ProducerStep? && states[k].producer.PLoadRead? {
      PutLoadsRead(states, actions, i, k, xs, bulk);
      hide PutSoFar;
    } else if actions[k].ProducerStep? {
      RunKeepsInv(states, actions, k);
      hide PutCount, WriteAvailable, NextOf, BulkNext, Ahead, ConsumerInv;
    } else {
      RunKeepsInv(states, actions, k);
      hide Inv, ConsumerAdvance;
    }
  }

  lemma {:induction false} PutSoFarHolds(states: seq<State>, actions: seq<Action>, i: nat, k: nat, xs: seq<Value>,
                                         bulk: bool)
    requires IsRun(states, actions) && Initial(states[0]) && PutCall(actions, i, k, xs, bulk)
    ensures PutSoFar(states, actions, i, k, xs)
  {
    if k == i + 1 {
      assert CanMove(states[i], actions[i], states[k]);
    } else {
      PutSoFarHolds(states, actions, i, k - 1, xs, bulk);
      PutMoves(states, actions, i, k - 1, xs, bulk);
    }
  }

  /** A call that copies in `xs` and returns `count` has published exactly the first `count` items of
      `xs`, in order, and `count` was all there was room for at some instant of the call. In particular
      the answer `full` is true at that instant. */
  lemma EnqueueDelivers(states: seq<State>, actions: seq<Action>, i: nat, k: nat, xs: seq<Value>, bulk: bool)
    requires IsRun(states, actions) && Initial(states[0])
    requires PutCall(actions, i, k, xs, bulk) && k < |actions| && actions[k].ReturnPut?
    ensures var n := actions[k].count;
            && n <= |xs| && HadRoom(states, actions, i, k, xs, n)
            && HistoryAt(states, actions, k).accepted == HistoryAt(states, actions, i).accepted + xs[..n]
  {
    PutSoFarHolds(states, actions, i, k, xs, bulk);
    assert CanMove(states[k], actions[k], states[k + 1]);
  }

  /** What a call of `dequeue` that has come as far as move `k` has done. */
  ghost predicate TakeSoFar(states: seq<State>, actions: seq<Action>, i: nat, k: nat, take: Take)
    requires IsRun(states, actions) && Initial(states[0]) && i <= k <= |actions|
  {
    var before, h := HistoryAt(states, actions, i).output, HistoryAt(states, actions, k);
    match states[k].consumer
    case CIdle => false
    case CLoadWrite(take') => take' == take && h.output == before
    case CLoadRead(take', _) => take' == take && h.output == before
                                && exists j :: i < j < k && h.seen - h.released == StockAt(states, actions, j)
    case CCopy(take', _, count, out) => take' == take && h.output == before + out
                                        && HadStock(states, actions, i, k, take, count)
    case CDone(out) => h.output == before + out && HadStock(states, actions, i, k, take, |out|)
  }

  lemma TakeLoads(states: seq<State>, actions: seq<Action>, i: nat, k: nat, take: Take)
    requires IsRun(states, actions) && Initial(states[0]) && TakeCall(actions, i, k + 1, take) && i < k
    requires TakeSoFar(states, actions, i, k, take) && actions[k].ConsumerStep? && !states[k].consumer.CCopy?
    ensures TakeSoFar(states, actions, i, k + 1, take)
  {
    RunKeepsInv(states, actions, k);
    var s, h := states[k], HistoryAt(states, actions, k);
    assert CanMove(s, actions[k], states[k + 1]);
    hide ReadAvailable, Wanted;
    if s.consumer.CLoadWrite? {
      hide Inv;
      assert HistoryAt(states, actions, k + 1).seen - h.released == StockAt(states, actions, k);
    } else {
      TakeCountIsTrue(s, h);
      hide Inv;
    }
  }

  lemma TakeMovesOwn(states: seq<State>, actions: seq<Action>, i: nat, k: nat, take: Take)
    requires IsRun(states, actions) && Initial(states[0]) && TakeCall(actions, i, k + 1, take) && i < k
    requires TakeSoFar(states, actions, i, k, take) && actions[k].ConsumerStep?
    ensures TakeSoFar(states, actions, i, k + 1, take)
  {
    assert CanMove(states[k], actions[k], states[k + 1]);
    if states[k].consumer.CCopy? {
      RunKeepsInv(states, actions, k);
      assert |states[k].consumer.out| <= states[k].consumer.count;
      hide Inv, BulkNext, NextOf, Ahead, Wanted, ReadAvailable;
    } else {
      TakeLoads(states, actions, i, k, take);
      hide TakeSoFar;
    }
  }

  lemma TakeMoves(states: seq<State>, actions: seq<Action>, i: nat, k: nat, take: Take)
    requires IsRun(states, actions) && Initial(states[0]) && TakeCall(actions, i, k + 1, take) && i < k
    requires TakeSoFar(states, actions, i, k, take)
    ensures TakeSoFar(states, actions, i, k + 1, take)
  {
    if actions[k].ConsumerStep? {
      TakeMovesOwn(states, actions, i, k, take);
    } else {
      assert CanMove(states[k], actions[k], states[k + 1]);
      hide Wanted, Min, PutCount, WriteAvailable, NextOf, BulkNext;
    }
  }

  lemma {:induction false} TakeSoFarHolds(states: seq<State>, actions: seq<Action>, i: nat, k: nat, take: Take)
    requires IsRun(states, actions) && Initial(states[0]) && TakeCall(actions, i, k, take)
    ensures TakeSoFar(states, actions, i, k, take)
  {
    if k == i + 1 {
      assert CanMove(states[i], actions[i], states[k]);
    } else {
      TakeSoFarHolds(states, actions, i, k - 1, take);
      TakeMoves(states, actions, i, k - 1, take);
    }
  }

  /** A call that takes out `out` has copied exactly the next items in order, and their number is what
      it wanted of the items inside at some instant of the call. In particular the answer `empty` is true
      at that instant. */
  lemma DequeueDelivers(states: seq<State>, actions: seq<Action>, i: nat, k: nat, take: Take)
    requires IsRun(states, actions) && Initial(states[0])
    requires TakeCall(actions, i, k, take) && k < |actions| && actions[k].ReturnTake?
    ensures var out := actions[k].out;
            && HadStock(states, actions, i, k, take, |out|)
            && HistoryAt(states, actions, k).output == HistoryAt(states, actions, i).output + out
  {
    TakeSoFarHolds(states, actions, i, k, take);
    assert CanMove(states[k], actions[k], states[k + 1]);
  }

  // ---- No call ever waits ----

  /** How many steps of its own the producer still needs. */
  function PutStepsLeft(pc: ProducerPc): nat {
    match pc
    case PIdle => 0
    case PLoadWrite(xs, _) => |xs| + 3
    case PLoadRead(xs, _, _) => |xs| + 2
    case PCopy(_, _, _, count, i) => if i <= count then count - i + 1 else 1
    case PDone(_, _) => 0
  }

  function PutSteps(actions: seq<Action>, i: nat, k: nat): nat
    requires i <= k <= |actions|
  {
    if i == k then 0 else PutSteps(actions, i, k - 1) + if actions[k - 1].ProducerStep? then 1 else 0
  }

  lemma PutStepsFall(s: State, h: History, a: Action)
    requires Inv(s, h) && Enabled(s, a) && Safe(s, a) && !a.InvokePut? && !a.ReturnPut?
    ensures PutStepsLeft(Next(s, a).producer) + (if a.ProducerStep? then 1 else 0) <= PutStepsLeft(s.producer)
  {
  }

  lemma PutIsBusy(states: seq<State>, actions: seq<Action>, i: nat, k: nat, xs: seq<Value>, bulk: bool)
    requires IsRun(states, actions) && Initial(states[0]) && PutCall(actions, i, k, xs, bulk)
    ensures !states[k].producer.PIdle?
  {
    PutSoFarHolds(states, actions, i, k, xs, bulk);
  }

  /** A call of `enqueue` with n items needs at most n + 3 steps of its own, whatever the consumer does. */
  lemma {:induction false} EnqueueIsWaitFree(states: seq<State>, actions: seq<Action>, i: nat, k: nat, xs: seq<Value>,
                                             bulk: bool)
    requires IsRun(states, actions) && Initial(states[0]) && PutCall(actions, i, k, xs, bulk)
    ensures PutSteps(actions, i, k) + PutStepsLeft(states[k].producer) <= |xs| + 3
  {
    hide Inv, HistoryAt;
    if k == i + 1 {
      assert CanMove(states[i], actions[i], states[k]);
    } else {
      EnqueueIsWaitFree(states, actions, i, k - 1, xs, bulk);
      RunKeepsInv(states, actions, k - 1);
      PutIsBusy(states, actions, i, k - 1, xs, bulk);
      assert CanMove(states[k - 1], actions[k - 1], states[k]);
      hide Next, Safe, PutStepsLeft;
      PutStepsFall(states[k - 1], HistoryAt(states, actions, k - 1), actions[k - 1]);
    }
  }

  /** The most items that a call can take out of a buffer of `max` slots. */
  function MostTaken(take: Take, max: nat): (n: nat)
    ensures max > 0 ==> Serves(take, n, max - 1)
  {
    Wanted(take, if max > 0 then max - 1 else 0)
  }

  function TakeStepsLeft(pc: ConsumerPc, max: nat): nat {
    match pc
    case CLoadWrite(take) => MostTaken(take, max) + 3
    case CLoadRead(take, _) => MostTaken(take, max) + 2
    case CCopy(_, _, count, out) => if |out| <= count then count - |out| + 1 else 1
    case _ => 0
  }

  function TakeSteps(actions: seq<Action>, i: nat, k: nat): nat
    requires i <= k <= |actions|
  {
    if i == k then 0 else TakeSteps(actions, i, k - 1) + if actions[k - 1].ConsumerStep? then 1 else 0
  }

  lemma TakeStepsFall(s: State, h: History, a: Action)
    requires Inv(s, h) && Enabled(s, a) && Safe(s, a) && !a.InvokeTake? && !a.ReturnTake?
    ensures TakeStepsLeft(Next(s, a).consumer, |s.slots|) + (if a.ConsumerStep? then 1 else 0) <=
            TakeStepsLeft(s.consumer, |s.slots|)
  {
    if a.ConsumerStep? && s.consumer.CLoadRead? {
      TakeCountIsTrue(s, h);
      hide ReadAvailable;
    }
  }

  lemma TakeIsBusy(states: seq<State>, actions: seq<Action>, i: nat, k: nat, take: Take)
    requires IsRun(states, actions) && Initial(states[0]) && TakeCall(actions, i, k, take)
    ensures !states[k].consumer.CIdle?
  {
    TakeSoFarHolds(states, actions, i, k, take);
  }

  /** A call of `dequeue` needs at most three steps of its own more than the items it may take: one item, the
      number asked for, or all that the buffer can hold. */
  lemma DequeueIsWaitFree(states: seq<State>, actions: seq<Action>, i: nat, k: nat, take: Take, most: nat)
    requires IsRun(states, actions) && Initial(states[0]) && TakeCall(actions, i, k, take)
    requires Serves(take, most, |states[0].slots| - 1)
    ensures TakeSteps(actions, i, k) + TakeStepsLeft(states[k].consumer, |states[0].slots|) <= most + 3
  {
    TakeStepsAreBounded(states, actions, i, k, take);
  }

  lemma {:induction false} TakeStepsAreBounded(states: seq<State>, actions: seq<Action>, i: nat, k: nat, take: Take)
    requires IsRun(states, actions) && Initial(states[0]) && TakeCall(actions, i, k, take)
    ensures TakeSteps(actions, i, k) + TakeStepsLeft(states[k].consumer, |states[0].slots|)
            <= MostTaken(take, |states[0].slots|) + 3
  {
    hide Inv, HistoryAt;
    if k == i + 1 {
      assert CanMove(states[i], actions[i], states[k]);
    } else {
      TakeStepsAreBounded(states, actions, i, k - 1, take);
      RunKeepsInv(states, actions, k - 1);
      TakeIsBusy(states, actions, i, k - 1, take);
      assert CanMove(states[k - 1], actions[k - 1], states[k]);
      hide Next, Safe, TakeStepsLeft;
      TakeStepsFall(states[k - 1], HistoryAt(states, actions, k - 1), actions[k - 1]);
    }
  }
}
