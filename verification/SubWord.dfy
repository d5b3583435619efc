/** A small atomic inside a machine word: where its bytes are, and the mask-and-shift access to them. A
    word is the sequence of its bits, least significant first, so that every size of word and of small
    type is covered. */
module SubWord {

  type Bits = seq<bool>

  // ---- The machine's operators ----

  function Ones(width: nat): Bits {
    seq(width, i => true)
  }

  function Not(v: Bits): Bits {
    seq(|v|, i requires 0 <= i < |v| => !v[i])
  }

  function And(v: Bits, w: Bits): Bits
    requires |v| == |w|
  {
    seq(|v|, i requires 0 <= i < |v| => v[i] && w[i])
  }

  function Or(v: Bits, w: Bits): Bits
    requires |v| == |w|
  {
    seq(|v|, i requires 0 <= i < |v| => v[i] || w[i])
  }

  function ShiftLeft(v: Bits, s: nat): Bits {
    seq(|v|, i requires 0 <= i < |v| => i >= s && v[i - s])
  }

  /** The vacated positions take the top bit when the type is signed, else zero. */
  function ShiftRight(v: Bits, s: nat, signed: bool): Bits {
    seq(|v|, i requires 0 <= i < |v| => if i + s < |v| then v[i + s] else signed && v[|v| - 1])
  }

  /** Conversion to a wider type. */
  function Widen(x: Bits, width: nat, signed: bool): Bits {
    seq(width, i requires 0 <= i < width => if i < |x| then x[i] else signed && |x| > 0 && x[|x| - 1])
  }

  // ---- Position ----

  datatype Endian = Little | Big

  /** The machine: the size of a word in bytes, its byte order, and whether the two types are signed. */
  datatype Platform = Platform(bytes: nat, endian: Endian, signedWord: bool, signedLane: bool)

  /** An object of `size` bytes at byte `offset` of its word. */
  datatype Lane = Lane(offset: nat, size: nat)

  predicate ValidLane(p: Platform, l: Lane) {
    0 < l.size < p.bytes && l.offset + l.size <= p.bytes
  }

  function GetShift(p: Platform, l: Lane): nat
    requires ValidLane(p, l)
  {
    match p.endian
    case Little => l.offset * 8
    case Big => (p.bytes - l.size - l.offset) * 8
  }

  // ---- The code ----

  function Extract(p: Platform, l: Lane, v: Bits): Bits
    requires ValidLane(p, l) && |v| == 8 * p.bytes
  {
    ShiftRight(v, GetShift(p, l), p.signedWord)[..8 * l.size]
  }

  function Insert(p: Platform, l: Lane, target: Bits, source: Bits): Bits
    requires ValidLane(p, l) && |target| == 8 * p.bytes && |source| == 8 * l.size
  {
    var mask := ShiftLeft(Not(ShiftLeft(Ones(|target|), 8 * l.size)), GetShift(p, l));
    var tmp := ShiftLeft(Widen(source, |target|, p.signedLane), GetShift(p, l));
    Or(And(tmp, mask), And(target, Not(mask)))
  }

  // ---- What it means ----

  /** The byte at address `k` of the word. */
  function ByteAt(p: Platform, v: Bits, k: nat): Bits
    requires k < p.bytes && |v| == 8 * p.bytes
  {
    var i := if p.endian.Little? then k else p.bytes - 1 - k;
    v[8 * i..8 * i + 8]
  }

  /** The bytes of the object in memory, in the order of significance. */
  function LaneBytes(p: Platform, l: Lane, v: Bits, k: nat): Bits
    requires ValidLane(p, l) && |v| == 8 * p.bytes && k <= l.size
  {
    if k == 0 then []
    else
      LaneBytes(p, l, v, k - 1) + ByteAt(p, v, if p.endian.Little? then l.offset + k - 1 else l.offset + l.size - k)
  }

  /** Extraction takes a slice of the word; the bits that an arithmetic shift fills in are cut off. */
  lemma ExtractIsSlice(p: Platform, l: Lane, v: Bits)
    requires ValidLane(p, l) && |v| == 8 * p.bytes
    ensures Extract(p, l, v) == v[GetShift(p, l)..GetShift(p, l) + 8 * l.size]
  {
  }

  /** Extraction reads exactly the bytes that the object occupies in memory. */
  lemma {:induction false} ExtractReadsMemory(p: Platform, l: Lane, v: Bits, k: nat)
    requires ValidLane(p, l) && |v| == 8 * p.bytes && k <= l.size
    ensures Extract(p, l, v)[..8 * k] == LaneBytes(p, l, v, k)
  {
    ExtractIsSlice(p, l, v);
    if k > 0 {
      ExtractReadsMemory(p, l, v, k - 1);
      var s := GetShift(p, l);
      assert v[s..s + 8 * l.size][..8 * k] == v[s..s + 8 * l.size][..8 * (k - 1)] + v[s + 8 * (k - 1)..s + 8 * k];
    }
  }

  predicate InLane(p: Platform, l: Lane, i: int)
    requires ValidLane(p, l)
  {
    GetShift(p, l) <= i < GetShift(p, l) + 8 * l.size
  }

  /** Insertion replaces the bits of the object and no others, whatever the signs. */
  lemma InsertBit(p: Platform, l: Lane, w: Bits, x: Bits, i: nat)
    requires ValidLane(p, l) && |w| == 8 * p.bytes && |x| == 8 * l.size && i < |w|
    ensures |Insert(p, l, w, x)| == |w|
    ensures Insert(p, l, w, x)[i] == if InLane(p, l, i) then x[i - GetShift(p, l)] else w[i]
  {
  }

  lemma InsertLength(p: Platform, l: Lane, w: Bits, x: Bits)
    requires ValidLane(p, l) && |w| == 8 * p.bytes && |x| == 8 * l.size
    ensures |Insert(p, l, w, x)| == |w|
  {
  }

  predicate Disjoint(l: Lane, m: Lane) {
    l.offset + l.size <= m.offset || m.offset + m.size <= l.offset
  }

  /** No byte of memory outside the object changes. */
  lemma InsertKeepsOtherBytes(p: Platform, l: Lane, w: Bits, x: Bits, k: nat)
    requires ValidLane(p, l) && |w| == 8 * p.bytes && |x| == 8 * l.size
    requires k < p.bytes && !(l.offset <= k < l.offset + l.size)
    ensures |Insert(p, l, w, x)| == |w| && ByteAt(p, Insert(p, l, w, x), k) == ByteAt(p, w, k)
  {
    forall i: nat | i < |w|
      ensures |Insert(p, l, w, x)| == |w|
      ensures Insert(p, l, w, x)[i] == if InLane(p, l, i) then x[i - GetShift(p, l)] else w[i]
    {
      InsertBit(p, l, w, x, i);
    }
    hide Insert;
  }

  lemma InsertThenExtract(p: Platform, l: Lane, w: Bits, x: Bits)
    requires ValidLane(p, l) && |w| == 8 * p.bytes && |x| == 8 * l.size
    ensures Extract(p, l, Insert(p, l, w, x)) == x
  {
  }

  lemma ExtractThenInsert(p: Platform, l: Lane, w: Bits)
    requires ValidLane(p, l) && |w| == 8 * p.bytes
    ensures Insert(p, l, w, Extract(p, l, w)) == w
  {
  }

  lemma InsertKeepsOtherLanes(p: Platform, l: Lane, m: Lane, w: Bits, x: Bits)
    requires ValidLane(p, l) && ValidLane(p, m) && Disjoint(l, m) && |w| == 8 * p.bytes && |x| == 8 * l.size
    ensures Extract(p, m, Insert(p, l, w, x)) == Extract(p, m, w)
  {
  }

  lemma InsertsCommute(p: Platform, l: Lane, m: Lane, w: Bits, x: Bits, y: Bits)
    requires ValidLane(p, l) && ValidLane(p, m) && Disjoint(l, m)
    requires |w| == 8 * p.bytes && |x| == 8 * l.size && |y| == 8 * m.size
    ensures |Insert(p, l, w, x)| == |Insert(p, m, w, y)| == |w|
    ensures Insert(p, m, Insert(p, l, w, x), y) == Insert(p, l, Insert(p, m, w, y), x)
  {
    InsertLength(p, l, w, x);
    InsertLength(p, m, w, y);
    var w1, w2 := Insert(p, l, w, x), Insert(p, m, w, y);
    InsertLength(p, m, w1, y);
    InsertLength(p, l, w2, x);
    LanesApart(p, l, m);
    hide Insert, GetShift;
    forall i | 0 <= i < |w|
      ensures Insert(p, m, w1, y)[i] == Insert(p, l, w2, x)[i]
    {
      InsertBit(p, l, w, x, i);
      InsertBit(p, m, w, y, i);
      InsertBit(p, m, w1, y, i);
      InsertBit(p, l, w2, x, i);
    }
  }

  lemma LanesApart(p: Platform, l: Lane, m: Lane)
    requires ValidLane(p, l) && ValidLane(p, m) && Disjoint(l, m)
    ensures forall i: int :: !(InLane(p, l, i) && InLane(p, m, i))
  {
  }

  /** Two words with the same bits outside the object are equal exactly when the objects are. */
  lemma SameNeighbours(p: Platform, l: Lane, v: Bits, x: Bits)
    requires ValidLane(p, l) && |v| == 8 * p.bytes && |x| == 8 * l.size
    ensures Insert(p, l, v, x) == v <==> Extract(p, l, v) == x
  {
    ExtractThenInsert(p, l, v);
    InsertThenExtract(p, l, v, x);
  }
}
