/** The lock-free freelist as a sub-machine: `allocate` and `deallocate` cut into their atomic
    steps, and what a thread may believe about a top-of-list cell it read some time ago. The cell
    rules (push keeps the tag, pop increments it) are those of the stack's `tos` cell too. */
module Freelist {
  import opened TaggedPtr
  import opened NodeList

  /** Where a thread stands inside `allocate`. */
  datatype AllocPc =
    | LoadPool
    | ReadSuccessor(seen: Tagged)
    | SwingPool(seen: Tagged, succ: Ptr)

  datatype AllocOutcome = Searching(pc: AllocPc) | Obtained(node: Ptr) | Dry

  datatype AllocResult = AllocResult(pool: Tagged, outcome: AllocOutcome)

  /** Where a thread stands inside `deallocate`; `set_ptr` is a read of the tag and a later write. */
  datatype FreePc =
    | LoadPoolForPush
    | ReadLinkTag(seen: Tagged)
    | WriteLink(seen: Tagged, tag: nat)
    | PushPool(seen: Tagged)

  datatype FreeOutcome = Returning(pc: FreePc) | Returned

  datatype FreeResult = FreeResult(heap: Heap, pool: Tagged, outcome: FreeOutcome)

  /** The node that the next step dereferences is allocated. */
  predicate AllocSafe(heap: Heap, pc: AllocPc) {
    pc.ReadSuccessor? && pc.seen.ptr != NULL ==> pc.seen.ptr in heap
  }

  /** One atomic step of `allocate`. The compare-exchange is weak: it may fail spuriously, and a
      failed one reloads `seen`. */
  function AllocAdvance(width: Width, heap: Heap, pool: Tagged, pc: AllocPc, spurious: bool): AllocResult
    requires AllocSafe(heap, pc)
  {
    match pc
    case LoadPool => AllocResult(pool, Searching(ReadSuccessor(pool)))
    case ReadSuccessor(seen) =>
      if seen.ptr == NULL then AllocResult(pool, Dry)
      else AllocResult(pool, Searching(SwingPool(seen, heap[seen.ptr].next.ptr)))
    case SwingPool(seen, succ) =>
      if pool == seen && !spurious then
        AllocResult(Tagged(succ, NextTag(width, seen.tag)), Obtained(seen.ptr))
      else
        AllocResult(pool, Searching(ReadSuccessor(pool)))
  }

  /** One atomic step of `deallocate(n)`. */
  function FreeAdvance(heap: Heap, pool: Tagged, n: Ptr, pc: FreePc, spurious: bool): FreeResult
    requires n in heap
  {
    match pc
    case LoadPoolForPush => FreeResult(heap, pool, Returning(ReadLinkTag(pool)))
    case ReadLinkTag(seen) => FreeResult(heap, pool, Returning(WriteLink(seen, heap[n].next.tag)))
    case WriteLink(seen, tag) =>
      FreeResult(SetNext(heap, n, Tagged(seen.ptr, tag)), pool, Returning(PushPool(seen)))
    case PushPool(seen) =>
      if pool == seen && !spurious then FreeResult(heap, Tagged(n, seen.tag), Returned)
      else FreeResult(heap, pool, Returning(ReadLinkTag(pool)))
  }

  /** How many accesses are left of `allocate`, if nothing sends the thread round again. */
  function TakeLeft(pc: AllocPc): nat {
    match pc
    case LoadPool => 3
    case ReadSuccessor(_) => 2
    case SwingPool(_, _) => 1
  }

  /** The same for `deallocate`. */
  function GiveLeft(pc: FreePc): nat {
    match pc
    case LoadPoolForPush => 4
    case ReadLinkTag(_) => 3
    case WriteLink(_, _) => 2
    case PushPool(_) => 1
  }

  // ---- A top cell read some time ago ----

  /** `seen` is a value that the cell `top` of the list `xs` held at some earlier instant. While the
      tag is still the same nothing was popped, so the node read then is still in the list. */
  ghost predicate TopRead(heap: Heap, top: Tagged, xs: seq<Ptr>, seen: Tagged) {
    && seen.tag <= top.tag
    && (seen.ptr != NULL ==> seen.ptr in heap)
    && (seen.tag == top.tag && seen.ptr != NULL ==> seen.ptr in xs)
  }

  /** As above, and `succ` was read from the node's link afterwards. */
  ghost predicate SuccessorRead(heap: Heap, top: Tagged, xs: seq<Ptr>, seen: Tagged, succ: Ptr) {
    && TopRead(heap, top, xs, seen)
    && seen.ptr != NULL
    && (seen.tag == top.tag ==> heap[seen.ptr].next.ptr == succ)
  }

  /** What any step of any thread leaves true of a top cell and its list. */
  ghost predicate TopRely(heap: Heap, top: Tagged, xs: seq<Ptr>, heap': Heap, top': Tagged, xs': seq<Ptr>) {
    && heap.Keys <= heap'.Keys
    && top.tag <= top'.tag
    && (top.tag == top'.tag ==> SameLinks(heap, heap', xs) && forall x :: x in xs ==> x in xs')
  }

  lemma TopKept(heap: Heap, heap': Heap, top: Tagged, xs: seq<Ptr>)
    requires heap.Keys <= heap'.Keys && SameLinks(heap, heap', xs)
    ensures TopRely(heap, top, xs, heap', top, xs)
  {
  }

  /** Pushing keeps the tag, so what was in the list must stay, and does. */
  lemma TopPushed(heap: Heap, top: Tagged, xs: seq<Ptr>, n: Ptr)
    ensures TopRely(heap, top, xs, heap, Tagged(n, top.tag), [n] + xs)
  {
  }

  lemma TopPopped(heap: Heap, top: Tagged, xs: seq<Ptr>, p: Ptr, ys: seq<Ptr>)
    ensures TopRely(heap, top, xs, heap, Tagged(p, top.tag + 1), ys)
  {
  }

  lemma TopReadStable(heap: Heap, top: Tagged, xs: seq<Ptr>, heap': Heap, top': Tagged, xs': seq<Ptr>, seen: Tagged)
    requires TopRead(heap, top, xs, seen) && TopRely(heap, top, xs, heap', top', xs')
    ensures TopRead(heap', top', xs', seen)
    ensures forall succ :: SuccessorRead(heap, top, xs, seen, succ) ==> SuccessorRead(heap', top', xs', seen, succ)
  {
  }

  /** ABA-freedom of a pop: when the compare-exchange finds the cell unchanged, the successor read
      earlier is the node's successor now, so the cell receives the first pointer of the rest. */
  lemma PopIsExact(heap: Heap, top: Tagged, xs: seq<Ptr>, seen: Tagged, succ: Ptr)
    requires IsList(heap, top.ptr, xs) && SuccessorRead(heap, top, xs, seen, succ) && top == seen
    ensures |xs| > 0 && seen.ptr == xs[0] && seen.ptr !in xs[1..]
    ensures IsList(heap, succ, xs[1..])
    ensures forall x :: x in xs <==> x == seen.ptr || x in xs[1..]
  {
  }
}
