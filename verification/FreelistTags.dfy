/** Truncation of tags to 16 bits, for memory and for the loops that take a node off a list and put
    one on. */
module FreelistTags {
  import opened TaggedPtr
  import opened NodeList
  import opened Freelist

  function WrapNode(node: Node): Node {
    node.(next := Wrap(node.next))
  }

  function WrapHeap(heap: Heap): Heap {
    map x | x in heap :: WrapNode(heap[x])
  }

  function WrapAlloc(pc: AllocPc): AllocPc {
    match pc
    case LoadPool => LoadPool
    case ReadSuccessor(seen) => ReadSuccessor(Wrap(seen))
    case SwingPool(seen, succ) => SwingPool(Wrap(seen), succ)
  }

  function WrapFree(pc: FreePc): FreePc {
    match pc
    case LoadPoolForPush => LoadPoolForPush
    case ReadLinkTag(seen) => ReadLinkTag(Wrap(seen))
    case WriteLink(seen, tag) => WriteLink(Wrap(seen), tag % TAG_LIMIT)
    case PushPool(seen) => PushPool(Wrap(seen))
  }

  lemma WrapSetHeap(heap: Heap, x: Ptr, node: Node)
    ensures WrapHeap(heap[x := node]) == WrapHeap(heap)[x := WrapNode(node)]
  {
  }

  /** The loop of `deallocate` (and of push) under truncation. */
  lemma WrapFreeAdvance(heap: Heap, top: Tagged, n: Ptr, pc: FreePc, spurious: bool)
    requires n in heap && (pc.PushPool? ==> (Wrap(pc.seen) == Wrap(top) <==> pc.seen == top))
    ensures var r := FreeAdvance(heap, top, n, pc, spurious);
            var r16 := FreeAdvance(WrapHeap(heap), Wrap(top), n, WrapFree(pc), spurious);
            && r16.heap == WrapHeap(r.heap) && r16.pool == Wrap(r.pool)
            && r16.outcome == match r.outcome case Returning(pc) => Returning(WrapFree(pc)) case Returned => Returned
  {
  }

  function WrapOutcome(outcome: AllocOutcome): AllocOutcome {
    match outcome
    case Searching(pc) => Searching(WrapAlloc(pc))
    case _ => outcome
  }

  /** The loop of `allocate` (and of pop) under truncation. */
  lemma WrapAllocAdvance(heap: Heap, top: Tagged, pc: AllocPc, spurious: bool)
    requires AllocSafe(heap, pc) && (pc.SwingPool? ==> (Wrap(pc.seen) == Wrap(top) <==> pc.seen == top))
    ensures AllocSafe(WrapHeap(heap), WrapAlloc(pc))
    ensures var r := AllocAdvance(Unbounded, heap, top, pc, spurious);
            var r16 := AllocAdvance(Bits16, WrapHeap(heap), Wrap(top), WrapAlloc(pc), spurious);
            r16.pool == Wrap(r.pool) && r16.outcome == WrapOutcome(r.outcome)
  {
    if pc.SwingPool? {
      WrapNext(pc.seen, pc.succ);
    }
  }
}
