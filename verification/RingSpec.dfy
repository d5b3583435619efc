/** The ringbuffer as a value, moved one item at a time. The bulk operations of the class are proved to
    leave exactly the state that repeating these single moves leaves. */
module RingSpec {
  import opened Residues
  import opened RingIndex

  datatype Ring<T> = Ring(slots: seq<T>, write: nat, read: nat)

  predicate ValidRing<T>(s: Ring<T>) {
    s.write < |s.slots| && s.read < |s.slots|
  }

  function Used<T>(s: Ring<T>): nat
    requires ValidRing(s)
  {
    Steps(s.read, s.write, |s.slots|)
  }

  /** The items inside, oldest first. */
  function Contents<T>(s: Ring<T>): (items: seq<T>)
    requires ValidRing(s)
    ensures |items| == Used(s) < |s.slots|
  {
    seq(Used(s), i requires 0 <= i < Used(s) => s.slots[Ahead(s.read, i, |s.slots|)])
  }

  // ---- One item ----

  function EnqueueOne<T>(s: Ring<T>, x: T): (Ring<T>, bool)
    requires ValidRing(s)
  {
    var next := Ahead(s.write, 1, |s.slots|);
    if next == s.read then (s, false) else (Ring(s.slots[s.write := x], next, s.read), true)
  }

  function DequeueOne<T>(s: Ring<T>, ret: T): (Ring<T>, bool, T)
    requires ValidRing(s)
  {
    if s.write == s.read then (s, false, ret)
    else (s.(read := Ahead(s.read, 1, |s.slots|)), true, s.slots[s.read])
  }

  /** A single enqueue appends its item, and fails exactly when all slots but one are taken. */
  lemma EnqueueOneAppends<T>(s: Ring<T>, x: T)
    requires ValidRing(s)
    ensures var (s', ok) := EnqueueOne(s, x);
            && ValidRing(s') && (ok <==> Used(s) < |s.slots| - 1)
            && Contents(s') == if ok then Contents(s) + [x] else Contents(s)
  {
  }

  /** A single dequeue removes the oldest item, and fails exactly when there is none. */
  lemma DequeueOneRemoves<T>(s: Ring<T>, ret: T)
    requires ValidRing(s)
    ensures var (s', ok, x) := DequeueOne(s, ret);
            && ValidRing(s') && (ok <==> Contents(s) != [])
            && (ok ==> Contents(s) == [x] + Contents(s'))
            && (!ok ==> s' == s && x == ret)
  {
  }

  // ---- Repetition ----

  /** Enqueue the items one by one until the first failure; also how many were accepted. */
  function EnqueueAll<T>(s: Ring<T>, xs: seq<T>): (r: (Ring<T>, nat))
    requires ValidRing(s)
    ensures ValidRing(r.0) && r.1 <= |xs|
    decreases |xs|
  {
    if xs == [] || !EnqueueOne(s, xs[0]).1 then (s, 0)
    else
      var (s', k) := EnqueueAll(EnqueueOne(s, xs[0]).0, xs[1..]);
      (s', k + 1)
  }

  /** Dequeue one by one, at most `count` times, until the first failure; also what came out. */
  function DequeueMany<T>(s: Ring<T>, count: nat): (r: (Ring<T>, seq<T>))
    requires ValidRing(s)
    ensures ValidRing(r.0) && |r.1| <= count
    decreases count
  {
    if count == 0 || s.write == s.read then (s, [])
    else
      var x := s.slots[s.read];
      var (s', xs) := DequeueMany(DequeueOne(s, x).0, count - 1);
      (s', [x] + xs)
  }

  function Min(a: nat, b: nat): nat {
    if a <= b then a else b
  }

  /** The slots after `xs` has been laid out from slot `write` onwards, around the circle. */
  function Written<T>(slots: seq<T>, write: nat, xs: seq<T>): (slots': seq<T>)
    requires write < |slots|
    ensures |slots'| == |slots|
  {
    seq(|slots|, p requires 0 <= p < |slots| =>
      if Steps(write, p, |slots|) < |xs| then xs[Steps(write, p, |slots|)] else slots[p])
  }

  lemma WrittenOneByOne<T>(slots: seq<T>, write: nat, x: T, xs: seq<T>)
    requires write < |slots| && |xs| < |slots| - 1
    ensures Written(slots, write, [x] + xs) == Written(slots[write := x], Ahead(write, 1, |slots|), xs)
  {
  }

  /** Repetition lays out as many items as fit and moves the index past them, all at once. */
  lemma {:induction false} EnqueueAllIsBulk<T>(s: Ring<T>, xs: seq<T>)
    requires ValidRing(s)
    ensures var max, k := |s.slots|, Min(|xs|, |s.slots| - 1 - Used(s));
            EnqueueAll(s, xs) == (Ring(Written(s.slots, s.write, xs[..k]), Ahead(s.write, k, max), s.read), k)
    decreases |xs|
  {
    var k := Min(|xs|, |s.slots| - 1 - Used(s));
    if k == 0 {
      assert Written(s.slots, s.write, xs[..0]) == s.slots;
    } else {
      var s' := EnqueueOne(s, xs[0]).0;
      EnqueueAllIsBulk(s', xs[1..]);
      assert xs[..k] == [xs[0]] + xs[1..][..k - 1];
      WrittenOneByOne(s.slots, s.write, xs[0], xs[1..][..k - 1]);
    }
  }

  lemma {:induction false} DequeueManyIsBulk<T>(s: Ring<T>, count: nat)
    requires ValidRing(s)
    ensures var k := Min(count, Used(s));
            DequeueMany(s, count) == (s.(read := Ahead(s.read, k, |s.slots|)), Contents(s)[..k])
    decreases count
  {
    var k := Min(count, Used(s));
    if k > 0 {
      var x := s.slots[s.read];
      var s' := DequeueOne(s, x).0;
      DequeueManyIsBulk(s', count - 1);
      DequeueOneRemoves(s, x);
      assert Contents(s)[..k] == [x] + Contents(s')[..k - 1];
    }
  }

  /** Repetition appends the longest prefix that fits. */
  lemma {:induction false} EnqueueAllAppends<T>(s: Ring<T>, xs: seq<T>)
    requires ValidRing(s)
    ensures var (s', k) := EnqueueAll(s, xs);
            && k == Min(|xs|, |s.slots| - 1 - Used(s))
            && Contents(s') == Contents(s) + xs[..k]
    decreases |xs|
  {
    EnqueueAllIsBulk(s, xs);
    if xs != [] && EnqueueOne(s, xs[0]).1 {
      EnqueueOneAppends(s, xs[0]);
      var s1 := EnqueueOne(s, xs[0]).0;
      EnqueueAllAppends(s1, xs[1..]);
      var k := EnqueueAll(s, xs).1;
      hide Contents, Written, EnqueueOne;
      assert xs[..k] == [xs[0]] + xs[1..][..k - 1];
    }
  }

  /** Repetition hands over the oldest items in order and keeps the rest. */
  lemma DequeueManyRemoves<T>(s: Ring<T>, count: nat)
    requires ValidRing(s)
    ensures var (s', out) := DequeueMany(s, count);
            && |out| == Min(count, Used(s))
            && Contents(s) == out + Contents(s')
  {
    DequeueManyIsBulk(s, count);
  }

  /** The index that a bulk operation publishes is the previous one plus the count, modulo the size. */
  lemma PublishedIndex<T>(s: Ring<T>, xs: seq<T>, count: nat)
    requires ValidRing(s)
    ensures var (s', k) := EnqueueAll(s, xs);
            s'.write == Residue(s.write + k, |s.slots|) < |s.slots| && s'.read == s.read
    ensures var (s', out) := DequeueMany(s, count);
            s'.read == Residue(s.read + |out|, |s.slots|) < |s.slots| && s'.write == s.write && s'.slots == s.slots
  {
    EnqueueAllIsBulk(s, xs);
    DequeueManyIsBulk(s, count);
    AheadIsModular(s.write, EnqueueAll(s, xs).1, |s.slots|);
    AheadIsModular(s.read, |DequeueMany(s, count).1|, |s.slots|);
  }

  // ---- The copies of the bulk operations ----

  /** The slots after `xs` has been copied to position `at` of `slots`. */
  ghost predicate Copied<T>(slots: seq<T>, at: nat, xs: seq<T>, slots': seq<T>) {
    at + |xs| <= |slots| && slots' == slots[..at] + xs + slots[at + |xs|..]
  }

  lemma CopiedOneMore<T>(slots: seq<T>, at: nat, src: seq<T>, lo: nat, i: nat, slots': seq<T>)
    requires lo <= i < |src| && at + (i - lo) < |slots| && Copied(slots, at, src[lo..i], slots')
    ensures |slots'| == |slots| && Copied(slots, at, src[lo..i + 1], slots'[at + (i - lo) := src[i]])
  {
  }

  lemma OneSection<T>(slots: seq<T>, write: nat, xs: seq<T>, slots': seq<T>)
    requires write < |slots| && Copied(slots, write, xs, slots')
    ensures slots' == Written(slots, write, xs)
  {
  }

  /** What does not fit before the last slot goes to the first ones. */
  lemma TwoSections<T>(slots: seq<T>, write: nat, xs: seq<T>, k: nat, slots1: seq<T>, slots2: seq<T>)
    requires write < |slots| && k == |slots| - write <= |xs| <= |slots|
    requires Copied(slots, write, xs[..k], slots1) && Copied(slots1, 0, xs[k..], slots2)
    ensures slots2 == Written(slots, write, xs)
  {
  }

  lemma OneSectionOut<T>(s: Ring<T>, k: nat)
    requires ValidRing(s) && k <= Used(s) && s.read + k <= |s.slots|
    ensures Contents(s)[..k] == s.slots[s.read..s.read + k]
  {
  }

  lemma TwoSectionsOut<T>(s: Ring<T>, k: nat)
    requires ValidRing(s) && k <= Used(s) && s.read + k > |s.slots|
    ensures Contents(s)[..k] == s.slots[s.read..|s.slots|] + s.slots[0..s.read + k - |s.slots|]
  {
  }

  lemma FetchedOneSection<T>(s: Ring<T>, k: nat, out: seq<T>, out': seq<T>)
    requires ValidRing(s) && k <= Used(s) && s.read + k <= |s.slots|
    requires Copied(out, 0, s.slots[s.read..s.read + k], out')
    ensures k <= |out| && out' == Contents(s)[..k] + out[k..]
  {
  }

  lemma FetchedTwoSections<T>(s: Ring<T>, k: nat, out: seq<T>, out1: seq<T>, out2: seq<T>)
    requires ValidRing(s) && k <= Used(s) && s.read + k > |s.slots|
    requires Copied(out, 0, s.slots[s.read..|s.slots|], out1)
    requires Copied(out1, |s.slots| - s.read, s.slots[0..s.read + k - |s.slots|], out2)
    ensures k <= |out| && out2 == Contents(s)[..k] + out[k..]
  {
  }

  /** What the bulk enqueues establish, and what follows from it. */
  lemma StoredBulk<T>(s: Ring<T>, xs: seq<T>, k: nat, s': Ring<T>)
    requires ValidRing(s) && k == Min(|xs|, |s.slots| - 1 - Used(s))
    requires s' == Ring(Written(s.slots, s.write, xs[..k]), Ahead(s.write, k, |s.slots|), s.read)
    ensures ValidRing(s') && (s', k) == EnqueueAll(s, xs) && Contents(s') == Contents(s) + xs[..k]
  {
    EnqueueAllIsBulk(s, xs);
    EnqueueAllAppends(s, xs);
  }

  lemma StoredNothing<T>(s: Ring<T>, xs: seq<T>)
    requires ValidRing(s) && Used(s) == |s.slots| - 1
    ensures EnqueueAll(s, xs) == (s, 0)
  {
  }

  /** What the bulk dequeues establish, and what follows from it. */
  lemma FetchedBulk<T>(s: Ring<T>, count: nat, k: nat, out: seq<T>, s': Ring<T>)
    requires ValidRing(s) && k == Min(count, Used(s)) && out == Contents(s)[..k]
    requires s' == s.(read := Ahead(s.read, k, |s.slots|))
    ensures ValidRing(s') && (s', out) == DequeueMany(s, count) && Contents(s) == out + Contents(s')
  {
    DequeueManyIsBulk(s, count);
    DequeueManyRemoves(s, count);
  }

  /** What goes in comes out in the same order: an emptied buffer has handed over its contents and then
      exactly the accepted items. */
  lemma InOrder<T>(s: Ring<T>, xs: seq<T>)
    requires ValidRing(s)
    ensures var (s', k) := EnqueueAll(s, xs);
            var (s'', out) := DequeueMany(s', |s.slots|);
            out == Contents(s) + xs[..k] && Contents(s'') == []
  {
    EnqueueAllAppends(s, xs);
    DequeueManyRemoves(EnqueueAll(s, xs).0, |s.slots|);
  }

  // ---- A positional output iterator ----

  function Laid<T>(out: seq<T>, at: nat, xs: seq<T>): seq<T>
    requires at + |xs| <= |out|
  {
    out[..at] + xs + out[at + |xs|..]
  }

  /** What draining the buffer to a position of an array leaves there: the iterator is passed by value,
      so both sections are copied to the same place. */
  function LaidAtPosition<T>(s: Ring<T>, out: seq<T>, at: nat): seq<T>
    requires ValidRing(s) && at + Used(s) <= |out|
  {
    var n, max := Used(s), |s.slots|;
    if s.read + n > max then
      Laid(Laid(out, at, s.slots[s.read..]), at, s.slots[..n - (max - s.read)])
    else
      Laid(out, at, s.slots[s.read..s.read + n])
  }

  /** The array receives the contents, whatever they are, if and only if they do not wrap around. */
  lemma PositionalIterator<T(!new)>(max: nat, write: nat, read: nat, out: seq<T>, at: nat, x: T, y: T)
    requires write < max && read < max && at + Steps(read, write, max) <= |out| && x != y
    ensures var n := Steps(read, write, max);
            (forall slots: seq<T> {:trigger Ring(slots, write, read)} :: |slots| == max ==>
               LaidAtPosition(Ring(slots, write, read), out, at)[at..at + n] == Contents(Ring(slots, write, read)))
            <==> read + n <= max
  {
    var n := Steps(read, write, max);
    if read + n > max {
      var slots := seq(max, i requires 0 <= i < max => if i == 0 then y else x);
      var s := Ring(slots, write, read);
      assert s.slots[..n - (max - read)][0] == y;
      assert LaidAtPosition(s, out, at)[at] == y;
      assert Contents(s)[0] == x && LaidAtPosition(s, out, at)[at..at + n][0] == y;
    } else {
      forall slots: seq<T> {:trigger Ring(slots, write, read)} | |slots| == max
        ensures LaidAtPosition(Ring(slots, write, read), out, at)[at..at + n] == Contents(Ring(slots, write, read))
      {
        OneSectionOut(Ring(slots, write, read), n);
      }
    }
  }
}
