/** The compressed layout of a tagged pointer: 48 pointer bits and 16 tag bits in one 64-bit word,
    against the plain pair of two words that it stands for. */
module PackedPtr {
  import opened TaggedPtr

  const PTR_LIMIT: nat := 0x1_0000_0000_0000
  const WORD_LIMIT: nat := 0x1_0000_0000_0000_0000

  type Word = x: nat | x < WORD_LIMIT

  type Tag = x: nat | x < TAG_LIMIT

  // ---- The static helpers ----

  /** Masking with 48 one-bits. */
  function ExtractPtr(w: Word): Ptr {
    w % PTR_LIMIT
  }

  /** The last of the four 16-bit cells that overlay the word. */
  function ExtractTag(w: Word): Tag {
    w / PTR_LIMIT
  }

  /** Store the whole pointer, then overwrite the last 16-bit cell with the tag, cut to its width. */
  function PackPtr(p: Word, tag: int): Word {
    p - p / PTR_LIMIT * PTR_LIMIT + tag % TAG_LIMIT * PTR_LIMIT
  }

  /** The pair that a word stands for. */
  function Unpack(w: Word): Tagged {
    Tagged(ExtractPtr(w), ExtractTag(w))
  }

  /** A pointer survives packing exactly when its upper 16 bits are zero; the tag always does, up to
      its width. */
  lemma PackRoundTrip(p: Word, tag: nat)
    ensures Unpack(PackPtr(p, tag)) == Wrap(Tagged(p, tag)) <==> p < PTR_LIMIT
    ensures ExtractTag(PackPtr(p, tag)) == tag % TAG_LIMIT
    ensures ExtractPtr(PackPtr(p, tag)) == p % PTR_LIMIT
  {
  }

  /** Every word is the packing of what it unpacks to, so no bit is outside both fields. */
  lemma UnpackRoundTrip(w: Word)
    ensures PackPtr(ExtractPtr(w), ExtractTag(w)) == w
  {
  }

  /** One comparison of words decides what two comparisons of fields decide. */
  lemma WordEquality(v: Word, w: Word)
    ensures v == w <==> Unpack(v) == Unpack(w)
  {
  }

  // ---- Any history of updates ----

  datatype Update = Set(p: Word, t: nat) | SetPtr(p: Word) | SetTag(t: nat)

  /** What an update does to the plain pair, whose tag is as wide as a word. */
  function Plain(x: Tagged, u: Update): Tagged {
    match u
    case Set(p, t) => Tagged(p, t)
    case SetPtr(p) => Tagged(p, x.tag)
    case SetTag(t) => Tagged(x.ptr, t)
  }

  /** What it does to the word. */
  function Packed(w: Word, u: Update): Word {
    match u
    case Set(p, t) => PackPtr(p, t % TAG_LIMIT)
    case SetPtr(p) => PackPtr(p, ExtractTag(w))
    case SetTag(t) => PackPtr(ExtractPtr(w), t % TAG_LIMIT)
  }

  function PlainAll(x: Tagged, us: seq<Update>): Tagged {
    if us == [] then x else Plain(PlainAll(x, us[..|us| - 1]), us[|us| - 1])
  }

  function PackedAll(w: Word, us: seq<Update>): Word {
    if us == [] then w else Packed(PackedAll(w, us[..|us| - 1]), us[|us| - 1])
  }

  predicate Canonical(us: seq<Update>) {
    forall i :: 0 <= i < |us| ==> us[i].SetTag? || us[i].p < PTR_LIMIT
  }

  lemma UpdateRefines(w: Word, x: Tagged, u: Update)
    requires Unpack(w) == Wrap(x) && (u.SetTag? || u.p < PTR_LIMIT)
    ensures Unpack(Packed(w, u)) == Wrap(Plain(x, u))
  {
  }

  /** The compressed form is the plain form with its tag cut to 16 bits, after any history of updates
      with pointers of 48 bits. */
  lemma {:induction false} CompressionRefines(w: Word, x: Tagged, us: seq<Update>)
    requires Unpack(w) == Wrap(x) && Canonical(us)
    ensures Unpack(PackedAll(w, us)) == Wrap(PlainAll(x, us))
  {
    if us != [] {
      var n := |us| - 1;
      assert us[n].SetTag? || us[n].p < PTR_LIMIT;
      CompressionRefines(w, x, us[..n]);
      UpdateRefines(PackedAll(w, us[..n]), PlainAll(x, us[..n]), us[n]);
      hide Packed, Plain, Unpack, Wrap;
    }
  }

  /** Two compressed pointers compare like the plain ones if and only if the plain ones do not differ
      by a multiple of 2^16 in the tag alone. */
  lemma CompressedComparison(v: Word, x: Tagged, w: Word, y: Tagged)
    requires Unpack(v) == Wrap(x) && Unpack(w) == Wrap(y)
    ensures v == w <==> x.ptr == y.ptr && x.tag % TAG_LIMIT == y.tag % TAG_LIMIT
    ensures (v == w <==> x == y) <==> !(x.ptr == y.ptr && x.tag != y.tag && x.tag % TAG_LIMIT == y.tag % TAG_LIMIT)
  {
  }

  // ---- The two classes ----

  class CompressedPtr {
    var ptr: Word

    ghost function View(): Tagged
      reads this
    {
      Unpack(ptr)
    }

    constructor (p: Word, t: Tag)
      ensures View() == Tagged(p % PTR_LIMIT, t)
    {
      PackRoundTrip(p, t);
      ptr := PackPtr(p, t);
    }

    method Assign(p: CompressedPtr)
      modifies this
      ensures View() == old(p.View())
    {
      ptr := p.ptr;
    }

    method Set(p: Word, t: Tag)
      modifies this
      ensures View() == Tagged(p % PTR_LIMIT, t)
      ensures ptr == Packed(old(ptr), Update.Set(p, t))
    {
      PackRoundTrip(p, t);
      ptr := PackPtr(p, t);
    }

    method SetPtr(p: Word)
      modifies this
      ensures View() == Tagged(p % PTR_LIMIT, old(View()).tag)
      ensures ptr == Packed(old(ptr), Update.SetPtr(p))
    {
      var tag := GetTag();
      PackRoundTrip(p, tag);
      ptr := PackPtr(p, tag);
    }

    method SetTag(t: Tag)
      modifies this
      ensures View() == Tagged(old(View()).ptr, t)
      ensures ptr == Packed(old(ptr), Update.SetTag(t))
    {
      var p := GetPtr();
      PackRoundTrip(p, t);
      ptr := PackPtr(p, t);
    }

    function GetPtr(): (p: Word)
      reads this
      ensures p == View().ptr < PTR_LIMIT
    {
      ExtractPtr(ptr)
    }

    function GetTag(): (t: Tag)
      reads this
      ensures t == View().tag
    {
      ExtractTag(ptr)
    }

    predicate Equals(p: CompressedPtr)
      reads this, p
      ensures Equals(p) <==> View() == p.View()
    {
      WordEquality(ptr, p.ptr);
      ptr == p.ptr
    }
  }

  /** The layout used where a compare-exchange of two words is available. */
  class PlainPtr {
    var ptr: Word
    var tag: Word

    ghost function View(): Tagged
      reads this
    {
      Tagged(ptr, tag)
    }

    constructor (p: Word, t: Word)
      ensures View() == Tagged(p, t)
    {
      ptr, tag := p, t;
    }

    method Assign(p: PlainPtr)
      modifies this
      ensures View() == old(p.View())
    {
      Set(p.ptr, p.tag);
    }

    method Set(p: Word, t: Word)
      modifies this
      ensures View() == Tagged(p, t) == Plain(old(View()), Update.Set(p, t))
    {
      ptr := p;
      tag := t;
    }

    method SetPtr(p: Word)
      modifies this
      ensures View() == Tagged(p, old(View()).tag) == Plain(old(View()), Update.SetPtr(p))
    {
      ptr := p;
    }

    method SetTag(t: Word)
      modifies this
      ensures View() == Tagged(old(View()).ptr, t) == Plain(old(View()), Update.SetTag(t))
    {
      tag := t;
    }

    predicate Equals(p: PlainPtr)
      reads this, p
      ensures Equals(p) <==> View() == p.View()
    {
      ptr == p.ptr && tag == p.tag
    }
  }
}
