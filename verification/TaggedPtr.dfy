/** Pointers paired with an ABA-prevention tag. A node address is a natural number and `NULL` is 0.
    A tag either counts without bound or, as in the compressed 64-bit layout, modulo 2^16. */
module TaggedPtr {

  type Ptr = nat

  const NULL: Ptr := 0

  datatype Tagged = Tagged(ptr: Ptr, tag: nat)

  const TAG_LIMIT: nat := 0x1_0000

  /** How many bits of a tag survive being stored. */
  datatype Width = Unbounded | Bits16

  /** The tag stored when the code writes `get_tag() + 1`. */
  function NextTag(width: Width, tag: nat): nat {
    match width
    case Unbounded => tag + 1
    case Bits16 => (tag + 1) % TAG_LIMIT
  }

  /** What a 16-bit tag field keeps of a tagged pointer. */
  function Wrap(x: Tagged): Tagged {
    Tagged(x.ptr, x.tag % TAG_LIMIT)
  }

  /** The tag of `current` is ahead of the tag of `saved` by fewer steps than 16 bits can count,
      unless the two differ in their pointers anyway. */
  predicate InWindow(saved: Tagged, current: Tagged) {
    saved.ptr == current.ptr ==> current.tag < saved.tag + TAG_LIMIT
  }

  /** Incrementing commutes with truncation to 16 bits. */
  lemma WrapNext(x: Tagged, p: Ptr)
    ensures Wrap(Tagged(p, NextTag(Unbounded, x.tag))) == Tagged(p, NextTag(Bits16, Wrap(x).tag))
  {
  }

  /** One increment is always visible in 16 bits. */
  lemma IncrementShows(x: Tagged, y: Tagged)
    requires y.tag == x.tag + 1
    ensures Wrap(y) != Wrap(x)
  {
  }

  /** Comparing truncated words answers exactly like comparing the full ones, unless the tag moved
      by a positive multiple of 2^16 while the pointer came back to the same value. */
  lemma WrapCompare(saved: Tagged, current: Tagged)
    requires saved.tag <= current.tag
    ensures (Wrap(saved) == Wrap(current) <==> saved == current) <==>
            !(saved.ptr == current.ptr && saved.tag < current.tag && (current.tag - saved.tag) % TAG_LIMIT == 0)
    ensures InWindow(saved, current) ==> (Wrap(saved) == Wrap(current) <==> saved == current)
  {
  }

  /** The window is tight: after exactly 2^16 increments a stale word compares equal. */
  lemma WindowIsTight(p: Ptr, tag: nat)
    ensures var saved, current := Tagged(p, tag), Tagged(p, tag + TAG_LIMIT);
            saved != current && Wrap(saved) == Wrap(current) && !InWindow(saved, current)
  {
  }
}
