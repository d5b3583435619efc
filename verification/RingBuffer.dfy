/** The ringbuffer used by one thread at a time: the bulk operations with their two-section copies do
    exactly what repeating the single operations does. */
module RingBuffer {
  import opened RingIndex
  import opened RingSpec

  /** A container behind an appending output iterator: copies of the iterator share it. */
  class Sink<T> {
    var items: seq<T>

    constructor ()
      ensures items == []
    {
      items := [];
    }

    method Append(x: T)
      modifies this
      ensures items == old(items) + [x]
    {
      items := items + [x];
    }
  }

  /** `std::copy` between arrays. */
  method Copy<T>(src: array<T>, lo: nat, hi: nat, dst: array<T>, at: nat)
    requires src != dst && lo <= hi <= src.Length && at + (hi - lo) <= dst.Length
    modifies dst
    ensures Copied(old(dst[..]), at, src[lo..hi], dst[..])
  {
    var i := lo;
    while i < hi
      invariant lo <= i <= hi && Copied(old(dst[..]), at, src[lo..i], dst[..])
    {
      CopiedOneMore(old(dst[..]), at, src[..], lo, i, dst[..]);
      dst[at + (i - lo)] := src[i];
      i := i + 1;
    }
  }

  /** `std::copy` from an iterator range, here a range of positions in a sequence. */
  method CopyRange<T>(src: seq<T>, lo: nat, hi: nat, dst: array<T>, at: nat)
    requires lo <= hi <= |src| && at + (hi - lo) <= dst.Length
    modifies dst
    ensures Copied(old(dst[..]), at, src[lo..hi], dst[..])
  {
    var i := lo;
    while i < hi
      invariant lo <= i <= hi && Copied(old(dst[..]), at, src[lo..i], dst[..])
    {
      CopiedOneMore(old(dst[..]), at, src, lo, i, dst[..]);
      dst[at + (i - lo)] := src[i];
      i := i + 1;
    }
  }

  /** `std::copy` to an appending iterator. */
  method CopyToSink<T>(src: array<T>, lo: nat, hi: nat, sink: Sink<T>)
    requires lo <= hi <= src.Length
    modifies sink
    ensures sink.items == old(sink.items) + src[lo..hi]
  {
    var i := lo;
    while i < hi
      invariant lo <= i <= hi && sink.items == old(sink.items) + src[lo..i]
    {
      sink.Append(src[i]);
      i := i + 1;
    }
  }

  class RingBuffer<T(0)> {
    const array_: array<T>
    const maxSize: Word
    var writeIndex: Word
    var readIndex: Word

    ghost predicate Valid()
      reads this
    {
      array_.Length == maxSize && writeIndex < maxSize && readIndex < maxSize
    }

    ghost function State(): Ring<T>
      reads this, array_
    {
      Ring(array_[..], writeIndex, readIndex)
    }

    ghost function Items(): seq<T>
      requires Valid()
      reads this, array_
    {
      Contents(State())
    }

    constructor (max: Word)
      requires max > 0
      ensures Valid() && fresh(array_) && maxSize == max && Items() == []
    {
      maxSize := max;
      array_ := new T[max];
      writeIndex, readIndex := 0, 0;
    }

    method Enqueue(t: T) returns (ok: bool)
      requires Valid()
      modifies this, array_
      ensures Valid() && (State(), ok) == EnqueueOne(old(State()), t)
      ensures ok <==> |old(Items())| < maxSize - 1
      ensures Items() == if ok then old(Items()) + [t] else old(Items())
    {
      EnqueueOneAppends(State(), t);
      var write := writeIndex;
      var next := NextIndex(write, maxSize);
      if next == readIndex {
        return false;
      }
      array_[write] := t;
      writeIndex := next;
      return true;
    }

    method Dequeue(ret0: T) returns (ok: bool, ret: T)
      requires Valid()
      modifies this
      ensures Valid() && (State(), ok, ret) == DequeueOne(old(State()), ret0)
      ensures ok <==> old(Items()) != []
      ensures if ok then old(Items()) == [ret] + Items() else Items() == [] && ret == ret0
    {
      DequeueOneRemoves(State(), ret0);
      ret := ret0;
      var write, read := writeIndex, readIndex;
      if write == read {
        return false, ret;
      }
      ret := array_[read];
      var next := NextIndex(read, maxSize);
      readIndex := next;
      return true, ret;
    }

    /** Bulk enqueue, pointer form: copy `count` items that fit, in one or two sections, and publish. */
    method StoreArray(input: array<T>, count: Word)
      requires Valid() && maxSize <= 0x8000_0000_0000_0000 && input != array_
      requires count <= input.Length && count < maxSize
      modifies this`writeIndex, array_
      ensures State() == Ring(Written(old(array_[..]), old(writeIndex), input[..count]),
                              Ahead(old(writeIndex), count, maxSize), readIndex)
    {
      BulkArithmetic(writeIndex, count, maxSize);
      hide Add, Sub, Written, Copied;
      var newWrite := Add(writeIndex, count);
      if Add(writeIndex, count) > maxSize {
        var section0 := Sub(maxSize, writeIndex);
        Copy(input, 0, section0, array_, writeIndex);
        label FirstCopied:
        Copy(input, section0, count, array_, 0);
        newWrite := Sub(newWrite, maxSize);
        assert input[..count][..section0] == input[0..section0];
        assert input[..count][section0..] == input[section0..count];
        TwoSections(old(array_[..]), writeIndex, input[..count], section0, old@FirstCopied(array_[..]), array_[..]);
      } else {
        Copy(input, 0, count, array_, writeIndex);
        if newWrite == maxSize {
          newWrite := 0;
        }
        assert input[..count] == input[0..count];
        OneSection(old(array_[..]), writeIndex, input[..count], array_[..]);
      }
      writeIndex := newWrite;
    }

    method EnqueueArray(input: array<T>, count0: Word) returns (count: Word)
      requires Valid() && maxSize <= 0x8000_0000_0000_0000 && input != array_ && count0 <= input.Length
      modifies this`writeIndex, array_
      ensures Valid() && (State(), count) == EnqueueAll(old(State()), input[..count0])
      ensures count == Min(count0, maxSize - 1 - |old(Items())|) && Items() == old(Items()) + input[..count]
    {
      Available(writeIndex, readIndex, maxSize);
      var avail := WriteAvailable(writeIndex, readIndex, maxSize);
      hide Written, Steps, Ahead, EnqueueAll, WriteAvailable;
      if avail == 0 {
        StoredNothing(State(), input[..count0]);
        return 0;
      }
      count := Min(count0, avail);
      StoreArray(input, count);
      assert input[..count0][..count] == input[..count];
      StoredBulk(old(State()), input[..count0], count, State());
    }

    /** The same for an iterator range, here `input[begin..last]`. */
    method StoreRange(input: seq<T>, begin: Word, last: Word)
      requires Valid() && maxSize <= 0x8000_0000_0000_0000 && begin <= last <= |input| && last - begin < maxSize
      modifies this`writeIndex, array_
      ensures State() == Ring(Written(old(array_[..]), old(writeIndex), input[begin..last]),
                              Ahead(old(writeIndex), last - begin, maxSize), readIndex)
    {
      var count := last - begin;
      BulkArithmetic(writeIndex, count, maxSize);
      hide Add, Sub, Written, Copied;
      var newWrite := Add(writeIndex, count);
      if Add(writeIndex, count) > maxSize {
        var midpoint := begin + Sub(maxSize, writeIndex);
        CopyRange(input, begin, midpoint, array_, writeIndex);
        label FirstCopied:
        CopyRange(input, midpoint, last, array_, 0);
        newWrite := Sub(newWrite, maxSize);
        assert input[begin..last][..midpoint - begin] == input[begin..midpoint];
        assert input[begin..last][midpoint - begin..] == input[midpoint..last];
        TwoSections(old(array_[..]), writeIndex, input[begin..last], midpoint - begin,
                    old@FirstCopied(array_[..]), array_[..]);
      } else {
        CopyRange(input, begin, last, array_, writeIndex);
        if newWrite == maxSize {
          newWrite := 0;
        }
        OneSection(old(array_[..]), writeIndex, input[begin..last], array_[..]);
      }
      writeIndex := newWrite;
    }

    /** The iterator form of bulk enqueue returns the position of the first item not accepted. */
    method EnqueueRange(input: seq<T>, begin: Word, end: Word) returns (last: Word)
      requires Valid() && maxSize <= 0x8000_0000_0000_0000 && begin <= end <= |input|
      modifies this`writeIndex, array_
      ensures Valid() && begin <= last <= end && (State(), last - begin) == EnqueueAll(old(State()), input[begin..end])
      ensures last == begin + Min(end - begin, maxSize - 1 - |old(Items())|)
      ensures Items() == old(Items()) + input[begin..last]
    {
      Available(writeIndex, readIndex, maxSize);
      var avail := WriteAvailable(writeIndex, readIndex, maxSize);
      hide Written, Steps, Ahead, EnqueueAll, WriteAvailable;
      if avail == 0 {
        StoredNothing(State(), input[begin..end]);
        return begin;
      }
      last := begin + Min(end - begin, avail);
      StoreRange(input, begin, last);
      assert input[begin..end][..last - begin] == input[begin..last];
      StoredBulk(old(State()), input[begin..end], last - begin, State());
    }

    /** Bulk dequeue into a buffer: copy `count` items that are there, and publish. */
    method FetchArray(output: array<T>, count: Word)
      requires Valid() && maxSize <= 0x8000_0000_0000_0000 && output != array_
      requires count <= output.Length && count <= |Items()|
      modifies this`readIndex, output
      ensures State() == old(State()).(read := Ahead(old(readIndex), count, maxSize))
      ensures output[..] == old(Items())[..count] + old(output[..])[count..]
    {
      BulkArithmetic(readIndex, count, maxSize);
      ghost var s0 := State();
      hide Add, Sub, Contents, Copied, Steps;
      var newRead := Add(readIndex, count);
      if Add(readIndex, count) > maxSize {
        var section0 := Sub(maxSize, readIndex);
        var section1 := Sub(count, section0);
        Copy(array_, readIndex, maxSize, output, 0);
        label FirstCopied:
        Copy(array_, 0, section1, output, section0);
        newRead := Sub(newRead, maxSize);
        FetchedTwoSections(s0, count, old(output[..]), old@FirstCopied(output[..]), output[..]);
      } else {
        Copy(array_, readIndex, Add(readIndex, count), output, 0);
        if newRead == maxSize {
          newRead := 0;
        }
        FetchedOneSection(s0, count, old(output[..]), output[..]);
      }
      readIndex := newRead;
    }

    method DequeueArray(output: array<T>, count0: Word) returns (count: Word)
      requires Valid() && maxSize <= 0x8000_0000_0000_0000 && output != array_ && count0 <= output.Length
      modifies this`readIndex, output
      ensures Valid() && count <= count0 && (State(), output[..count]) == DequeueMany(old(State()), count0)
      ensures count == Min(count0, |old(Items())|) && old(Items()) == output[..count] + Items()
      ensures output[count..] == old(output[count..])
    {
      Available(writeIndex, readIndex, maxSize);
      var avail := ReadAvailable(writeIndex, readIndex, maxSize);
      hide DequeueMany, ReadAvailable;
      if avail == 0 {
        FetchedBulk(State(), count0, 0, [], State());
        return 0;
      }
      count := Min(count0, avail);
      FetchArray(output, count);
      FetchedBulk(old(State()), count0, count, output[..count], State());
    }

    /** Bulk dequeue to an appending iterator, which is passed by value to both copies: move everything and
        publish. */
    method FetchToSink(sink: Sink<T>, avail: Word)
      requires Valid() && maxSize <= 0x8000_0000_0000_0000 && avail == |Items()|
      modifies this`readIndex, sink
      ensures State() == old(State()).(read := Ahead(old(readIndex), avail, maxSize))
      ensures sink.items == old(sink.items) + old(Items())
    {
      BulkArithmetic(readIndex, avail, maxSize);
      ghost var s0 := State();
      hide Add, Sub, Contents, Steps;
      var newRead := Add(readIndex, avail);
      if Add(readIndex, avail) > maxSize {
        var section0 := Sub(maxSize, readIndex);
        var section1 := Sub(avail, section0);
        CopyToSink(array_, readIndex, maxSize, sink);
        CopyToSink(array_, 0, section1, sink);
        newRead := Sub(newRead, maxSize);
        TwoSectionsOut(s0, avail);
      } else {
        CopyToSink(array_, readIndex, Add(readIndex, avail), sink);
        if newRead == maxSize {
          newRead := 0;
        }
        OneSectionOut(s0, avail);
      }
      readIndex := newRead;
    }

    method DequeueToSink(sink: Sink<T>) returns (count: Word)
      requires Valid() && maxSize <= 0x8000_0000_0000_0000
      modifies this`readIndex, sink
      ensures Valid() && count == |old(Items())| && Items() == []
      ensures sink.items == old(sink.items) + old(Items())
      ensures (State(), old(Items())) == DequeueMany(old(State()), maxSize)
    {
      Available(writeIndex, readIndex, maxSize);
      var avail := ReadAvailable(writeIndex, readIndex, maxSize);
      hide DequeueMany, ReadAvailable, Contents;
      if avail == 0 {
        FetchedBulk(State(), maxSize, 0, [], State());
        return 0;
      }
      FetchToSink(sink, avail);
      FetchedBulk(old(State()), maxSize, avail, old(Items()), State());
      return avail;
    }
  }
}
