/** The index arithmetic of the ringbuffer, in 64-bit unsigned words that wrap around. */
module RingIndex {
  import opened Residues

  const WORD_LIMIT: nat := 0x1_0000_0000_0000_0000

  type Word = x: nat | x < WORD_LIMIT

  function Add(a: Word, b: Word): Word {
    (a + b) % WORD_LIMIT
  }

  function Sub(a: Word, b: Word): Word {
    (a - b) % WORD_LIMIT
  }

  // ---- Positions on a circle of `max` slots ----

  /** The slot `k` steps after slot `i`. */
  function Ahead(i: nat, k: nat, max: nat): nat {
    if i + k < max then i + k else i + k - max
  }

  /** How many steps lead from slot `i` to slot `p`. */
  function Steps(i: nat, p: nat, max: nat): nat
    requires i < max
  {
    if p >= i then p - i else p + max - i
  }

  lemma AheadIsModular(i: nat, k: nat, max: nat)
    requires i < max && k <= max
    ensures Ahead(i, k, max) == Residue(i + k, max) < max
  {
    if i + k >= max {
      SubtractOnce(i + k, max);
    }
    ResidueOfSmall(Ahead(i, k, max), max);
  }

  // ---- The helpers of the class ----

  /** The index after `arg`, which may be any word. */
  function NextOf(arg: Word, max: Word): Word
    requires max > 0
  {
    Residue(Add(arg, 1), max)
  }

  lemma NextIsAhead(arg: Word, max: Word)
    requires arg < max
    ensures NextOf(arg, max) == Ahead(arg, 1, max)
  {
    AheadIsModular(arg, 1, max);
  }

  /** The code finds it by subtracting `max` as often as it fits. */
  method NextIndex(arg: Word, max: Word) returns (ret: Word)
    requires max > 0
    ensures ret == NextOf(arg, max)
    ensures arg < max ==> ret == Ahead(arg, 1, max)
  {
    ret := Add(arg, 1);
    while ret >= max
      invariant Residue(ret, max) == NextOf(arg, max)
    {
      SubtractOnce(ret, max);
      ret := Sub(ret, max);
    }
    ResidueOfSmall(ret, max);
    if arg < max {
      NextIsAhead(arg, max);
    }
  }

  /** How many slots the consumer may read. */
  function ReadAvailable(write: Word, read: Word, max: Word): Word {
    if write >= read then Sub(write, read) else Sub(Add(write, max), read)
  }

  /** How many slots the producer may fill. */
  function WriteAvailable(write: Word, read: Word, max: Word): Word {
    var ret := Sub(Sub(read, write), 1);
    if write >= read then Add(ret, max) else ret
  }

  /** One wrap at most: the operations in plain arithmetic. */
  lemma WrapsOnce(a: Word, b: Word)
    ensures Add(a, b) == if a + b < WORD_LIMIT then a + b else a + b - WORD_LIMIT
    ensures Sub(a, b) == if a >= b then a - b else a - b + WORD_LIMIT
  {
  }

  /** The wrap-around arithmetic gives the exact counts, and one slot always stays empty, for every
      size that a word can hold. */
  lemma Available(write: Word, read: Word, max: Word)
    requires write < max && read < max
    ensures ReadAvailable(write, read, max) == Steps(read, write, max) < max
    ensures ReadAvailable(write, read, max) + WriteAvailable(write, read, max) == max - 1
    ensures Ahead(read, ReadAvailable(write, read, max), max) == write
    ensures Ahead(write, WriteAvailable(write, read, max) + 1, max) == read
  {
    WrapsOnce(write, read);
    WrapsOnce(write, max);
    WrapsOnce(Add(write, max), read);
    WrapsOnce(read, write);
    WrapsOnce(Sub(read, write), 1);
    WrapsOnce(Sub(Sub(read, write), 1), max);
    hide Add, Sub;
  }

  /** No word wraps in the bulk operations of a buffer of at most 2^63 slots. */
  lemma BulkArithmetic(i: Word, k: Word, max: Word)
    requires i < max && k < max <= 0x8000_0000_0000_0000
    ensures Add(i, k) == i + k && Sub(max, i) == max - i
    ensures i + k > max ==> Sub(Add(i, k), max) == i + k - max && Sub(k, max - i) == i + k - max
  {
  }

  /** An index plus the number of items a bulk operation moves never wraps the machine word, whatever
      the indices, if and only if the buffer has at most 2^63 slots. */
  lemma BulkSumIsExact(max: Word)
    requires max > 0
    ensures (forall write: Word, read: Word :: write < max && read < max ==>
               Add(write, WriteAvailable(write, read, max)) == write + WriteAvailable(write, read, max)
               && Add(read, ReadAvailable(write, read, max)) == read + ReadAvailable(write, read, max))
            <==> max <= 0x8000_0000_0000_0000
  {
    forall write: Word, read: Word | write < max && read < max
      ensures WriteAvailable(write, read, max) < max && ReadAvailable(write, read, max) < max
    {
      Available(write, read, max);
    }
    var last: Word := max - 1;
    Available(last, last, max);
    assert WriteAvailable(last, last, max) == max - 1;
  }
}
