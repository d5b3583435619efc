/** The ringbuffer shared by one producer and one consumer: one transition per load or store of an
    index and per item copied. Each side works with a copy of the other side's index that may have
    become stale. */
module RingProtocol {
  import opened Residues
  import opened RingIndex
  import opened RingSpec
  import opened NodeList

  datatype ProducerPc =
    | PIdle
    | PLoadWrite(xs: seq<Value>, bulk: bool)
    | PLoadRead(xs: seq<Value>, bulk: bool, write: Word)
    | PCopy(xs: seq<Value>, bulk: bool, write: Word, count: Word, i: nat)
    | PDone(xs: seq<Value>, count: Word)

  /** What a call of `dequeue` asks for: one item, at most so many, or all there are. */
  datatype Take = One | UpTo(n: Word) | All

  datatype ConsumerPc =
    | CIdle
    | CLoadWrite(take: Take)
    | CLoadRead(take: Take, write: Word)
    | CCopy(take: Take, read: Word, count: Word, out: seq<Value>)
    | CDone(out: seq<Value>)

  datatype State = State(slots: seq<Value>, write: Word, read: Word, producer: ProducerPc, consumer: ConsumerPc)

  datatype Action =
    | InvokePut(xs: seq<Value>, bulk: bool)
    | ProducerStep
    | ReturnPut(count: Word)
    | InvokeTake(take: Take)
    | ConsumerStep
    | ReturnTake(out: seq<Value>)

  predicate Sized(s: State) {
    0 < |s.slots| <= 0x8000_0000_0000_0000
  }

  predicate Enabled(s: State, a: Action) {
    match a
    case InvokePut(xs, bulk) => s.producer.PIdle? && (bulk || |xs| == 1)
    case ProducerStep => !s.producer.PIdle? && !s.producer.PDone?
    case ReturnPut(count) => s.producer.PDone? && s.producer.count == count
    case InvokeTake(_) => s.consumer.CIdle?
    case ConsumerStep => !s.consumer.CIdle? && !s.consumer.CDone?
    case ReturnTake(out) => s.consumer == CDone(out)
  }

  /** The slot that the next copy touches exists. */
  predicate Safe(s: State, a: Action) {
    && Sized(s)
    && (a.ProducerStep? && s.producer.PCopy? && s.producer.i < s.producer.count ==>
          s.producer.i < |s.producer.xs| && Ahead(s.producer.write, s.producer.i, |s.slots|) < |s.slots|)
    && (a.ConsumerStep? && s.consumer.CCopy? && |s.consumer.out| < s.consumer.count ==>
          Ahead(s.consumer.read, |s.consumer.out|, |s.slots|) < |s.slots|)
  }

  /** The index that a bulk operation publishes. */
  function BulkNext(i: Word, count: Word, max: Word): Word {
    if Add(i, count) > max then Sub(Add(i, count), max)
    else if Add(i, count) == max then 0
    else Add(i, count)
  }

  /** How many items a call of `enqueue` decides to copy. */
  function PutCount(xs: seq<Value>, bulk: bool, write: Word, read: Word, max: Word): Word
    requires max > 0
  {
    if bulk then Min(|xs|, WriteAvailable(write, read, max))
    else if NextOf(write, max) == read then 0 else 1
  }

  /** How many of `avail` items a call of `dequeue` wants. */
  function Wanted(take: Take, avail: nat): nat {
    match take
    case One => Min(1, avail)
    case UpTo(n) => Min(n, avail)
    case All => avail
  }

  function ProducerAdvance(s: State): State
    requires Enabled(s, ProducerStep) && Safe(s, ProducerStep)
  {
    var max := |s.slots|;
    match s.producer
    case PLoadWrite(xs, bulk) => s.(producer := PLoadRead(xs, bulk, s.write))
    case PLoadRead(xs, bulk, write) =>
      var full := if bulk then WriteAvailable(write, s.read, max) == 0 else NextOf(write, max) == s.read;
      s.(producer := if full then PDone(xs, 0) else PCopy(xs, bulk, write, PutCount(xs, bulk, write, s.read, max), 0))
    case PCopy(xs, bulk, write, count, i) =>
      if i < count then
        s.(slots := s.slots[Ahead(write, i, max) := xs[i]], producer := PCopy(xs, bulk, write, count, i + 1))
      else
        s.(write := if bulk then BulkNext(write, count, max) else NextOf(write, max), producer := PDone(xs, count))
  }

  function ConsumerAdvance(s: State): State
    requires Enabled(s, ConsumerStep) && Safe(s, ConsumerStep)
  {
    var max := |s.slots|;
    match s.consumer
    case CLoadWrite(take) => s.(consumer := CLoadRead(take, s.write))
    case CLoadRead(take, write) =>
      var empty := if take.One? then write == s.read else ReadAvailable(write, s.read, max) == 0;
      s.(consumer := if empty then CDone([])
                     else CCopy(take, s.read,
                                if take.One? then 1 else Wanted(take, ReadAvailable(write, s.read, max)), []))
    case CCopy(take, read, count, out) =>
      if |out| < count then
        s.(consumer := CCopy(take, read, count, out + [s.slots[Ahead(read, |out|, max)]]))
      else
        s.(read := if take.One? then NextOf(read, max) else BulkNext(read, count, max), consumer := CDone(out))
  }

  function Next(s: State, a: Action): State
    requires Enabled(s, a) && Safe(s, a)
  {
    match a
    case InvokePut(xs, bulk) => s.(producer := PLoadWrite(xs, bulk))
    case ProducerStep => ProducerAdvance(s)
    case ReturnPut(_) => s.(producer := PIdle)
    case InvokeTake(take) => s.(consumer := CLoadWrite(take))
    case ConsumerStep => ConsumerAdvance(s)
    case ReturnTake(_) => s.(consumer := CIdle)
  }

  // ---- History ----

  /** Everything published by the producer, how much of it the consumer has given back, everything the
      consumer has copied out, and how much was published when the consumer last loaded `write`. */
  datatype History = History(accepted: seq<Value>, released: nat, output: seq<Value>, seen: nat)

  function Remember(s: State, h: History, a: Action): History
    requires Enabled(s, a) && Safe(s, a)
  {
    if a.ProducerStep? && s.producer.PCopy? && s.producer.i >= s.producer.count then
      h.(accepted := h.accepted + s.producer.xs[..Min(s.producer.count, |s.producer.xs|)])
    else if a.ConsumerStep? && s.consumer.CLoadWrite? then
      h.(seen := |h.accepted|)
    else if a.ConsumerStep? && s.consumer.CCopy? && |s.consumer.out| < s.consumer.count then
      h.(output := h.output + [s.slots[Ahead(s.consumer.read, |s.consumer.out|, |s.slots|)]])
    else if a.ConsumerStep? && s.consumer.CCopy? then
      h.(released := h.released + s.consumer.count)
    else h
  }

  // ---- Invariant ----

  /** The two indices and the slots agree with the history. */
  ghost predicate Layout(s: State, h: History) {
    var max := |s.slots|;
    && Sized(s) && s.read < max
    && h.released <= |h.accepted| < h.released + max
    && s.write == Ahead(s.read, |h.accepted| - h.released, max)
    && forall j :: h.released <= j < |h.accepted| ==> s.slots[Ahead(s.read, j - h.released, max)] == h.accepted[j]
  }

  /** How many slots the producer could fill at this instant. */
  ghost function Room(s: State, h: History): int {
    |s.slots| - 1 - (|h.accepted| - h.released)
  }

  ghost predicate ProducerInv(s: State, h: History)
    requires Layout(s, h)
  {
    match s.producer
    case PIdle => true
    case PLoadWrite(xs, bulk) => bulk || |xs| == 1
    case PLoadRead(xs, bulk, write) => (bulk || |xs| == 1) && write == s.write
    case PCopy(xs, bulk, write, count, i) =>
      && write == s.write && i <= count <= |xs| && count <= Room(s, h) && (bulk || count == 1)
      && forall j :: 0 <= j < i ==> s.slots[Ahead(write, j, |s.slots|)] == xs[j]
    case PDone(xs, count) => count <= |xs| && count <= |h.accepted|
                             && h.accepted[|h.accepted| - count..] == xs[..count]
  }

  ghost predicate ConsumerInv(s: State, h: History)
    requires Layout(s, h)
  {
    match s.consumer
    case CLoadRead(_, write) =>
      && h.output == h.accepted[..h.released]
      && h.released <= h.seen <= |h.accepted| && write == Ahead(s.read, h.seen - h.released, |s.slots|)
    case CCopy(take, read, count, out) =>
      && read == s.read && |out| <= count <= |h.accepted| - h.released && (take.One? ==> count == 1)
      && h.output == h.accepted[..h.released + |out|] && out == h.accepted[h.released..h.released + |out|]
    case CDone(out) =>
      && h.output == h.accepted[..h.released]
      && |out| <= h.released && out == h.accepted[h.released - |out|..h.released]
    case _ => h.output == h.accepted[..h.released]
  }

  ghost predicate Inv(s: State, h: History) {
    Layout(s, h) && ProducerInv(s, h) && ConsumerInv(s, h)
  }

  lemma InvIsSafe(s: State, h: History, a: Action)
    requires Inv(s, h)
    ensures Safe(s, a)
  {
  }

  /** A slot that the producer is about to fill is none of those that the consumer may read. */
  lemma SlotsAreDisjoint(s: State, h: History, i: nat, j: nat)
    requires Layout(s, h) && i < Room(s, h) && j < |h.accepted| - h.released
    ensures Ahead(s.write, i, |s.slots|) != Ahead(s.read, j, |s.slots|)
    ensures Ahead(s.write, i, |s.slots|) < |s.slots| && Ahead(s.read, j, |s.slots|) < |s.slots|
  {
  }

  /** The index that an operation publishes is the slot so many steps ahead. */
  lemma PublishedIndex(i: Word, count: Word, max: Word)
    requires i < max && count < max <= 0x8000_0000_0000_0000
    ensures BulkNext(i, count, max) == Ahead(i, count, max) == Residue(i + count, max)
    ensures NextOf(i, max) == Ahead(i, 1, max)
  {
    BulkArithmetic(i, count, max);
    AheadIsModular(i, count, max);
    NextIsAhead(i, max);
  }

  lemma CopyInKeepsInv(s: State, h: History)
    requires Inv(s, h) && s.producer.PCopy? && s.producer.i < s.producer.count
    ensures Safe(s, ProducerStep) && Inv(ProducerAdvance(s), h)
  {
    var pc := s.producer;
    var s' := ProducerAdvance(s);
    forall j | h.released <= j < |h.accepted|
      ensures s'.slots[Ahead(s.read, j - h.released, |s.slots|)] == h.accepted[j]
    {
      SlotsAreDisjoint(s, h, pc.i, j - h.released);
    }
  }

  /** Slots filled behind the stocked ones are stocked once the index has passed them. */
  lemma StockGrows(slots: seq<Value>, read: Word, released: nat, accepted: seq<Value>, more: seq<Value>)
    requires released <= |accepted| && |accepted| - released + |more| < |slots| && read < |slots|
    requires forall j :: released <= j < |accepted| ==> slots[Ahead(read, j - released, |slots|)] == accepted[j]
    requires var write := Ahead(read, |accepted| - released, |slots|);
             forall j :: 0 <= j < |more| ==> slots[Ahead(write, j, |slots|)] == more[j]
    ensures forall j :: released <= j < |accepted + more| ==>
              slots[Ahead(read, j - released, |slots|)] == (accepted + more)[j]
  {
    var write := Ahead(read, |accepted| - released, |slots|);
    forall j | |accepted| <= j < |accepted + more|
      ensures slots[Ahead(read, j - released, |slots|)] == (accepted + more)[j]
    {
      assert slots[Ahead(write, j - |accepted|, |slots|)] == more[j - |accepted|];
    }
  }

  lemma PublishKeepsLayout(s: State, h: History)
    requires Inv(s, h) && s.producer.PCopy? && s.producer.i == s.producer.count
    ensures Safe(s, ProducerStep) && Layout(ProducerAdvance(s), Remember(s, h, ProducerStep))
  {
    var pc := s.producer;
    PublishedIndex(s.write, pc.count, |s.slots|);
    hide BulkNext, NextOf, ConsumerInv;
    StockGrows(s.slots, s.read, h.released, h.accepted, pc.xs[..pc.count]);
  }

  lemma PublishKeepsInv(s: State, h: History)
    requires Inv(s, h) && s.producer.PCopy? && s.producer.i == s.producer.count
    ensures Safe(s, ProducerStep) && Inv(ProducerAdvance(s), Remember(s, h, ProducerStep))
  {
    PublishKeepsLayout(s, h);
    hide BulkNext, NextOf;
  }

  /** `count` is the smaller of the two: neither is exceeded, and one is reached. */
  predicate Smaller(count: int, n: int, m: int) {
    count <= n && count <= m && (count == n || count == m)
  }

  /** What a call of `dequeue` owes its caller when `stock` items are there: one of them if there are any, as many as
      were asked for or as there are, or all. */
  predicate Serves(take: Take, count: int, stock: int) {
    match take
    case One => Smaller(count, 1, stock)
    case UpTo(n) => Smaller(count, n, stock)
    case All => count == stock
  }

  /** The full answer and the accepted count are true at the load of the consumer's index. */
  lemma PutCountIsTrue(s: State, h: History)
    requires Inv(s, h) && s.producer.PLoadRead?
    ensures var s' := ProducerAdvance(s);
            && (s'.producer.PDone? || s'.producer.PCopy?)
            && s'.producer.xs == s.producer.xs
            && Smaller(s'.producer.count, |s.producer.xs|, Room(s, h))
            && (s'.producer.PDone? <==> Room(s, h) == 0)
  {
    Available(s.write, s.read, |s.slots|);
    NextIsAhead(s.write, |s.slots|);
    hide NextOf;
  }

  /** The empty answer and the count to take are true at the earlier load of the producer's index. */
  lemma TakeCountIsTrue(s: State, h: History)
    requires Inv(s, h) && s.consumer.CLoadRead?
    ensures var s' := ConsumerAdvance(s);
            && (s'.consumer.CDone? <==> h.seen == h.released)
            && (s'.consumer.CDone? ==> s'.consumer.out == [])
            && (!s'.consumer.CDone? ==>
                s'.consumer.CCopy? && Serves(s.consumer.take, s'.consumer.count, h.seen - h.released))
  {
    Available(s.consumer.write, s.read, |s.slots|);
  }

  lemma CopyOutKeepsInv(s: State, h: History)
    requires Inv(s, h) && s.consumer.CCopy? && |s.consumer.out| < s.consumer.count
    ensures Safe(s, ConsumerStep) && Inv(ConsumerAdvance(s), Remember(s, h, ConsumerStep))
  {
  }

  lemma GiveBackKeepsInv(s: State, h: History)
    requires Inv(s, h) && s.consumer.CCopy? && |s.consumer.out| == s.consumer.count
    ensures Safe(s, ConsumerStep) && Inv(ConsumerAdvance(s), Remember(s, h, ConsumerStep))
  {
    PublishedIndex(s.read, s.consumer.count, |s.slots|);
    hide BulkNext, NextOf;
  }
}
