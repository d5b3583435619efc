/** The inductive invariant of the concurrent fifo: what holds of shared memory, what each thread
    may rely on at each program point, and what no step of another thread can take away. */
module FifoInvariant {
  import opened TaggedPtr
  import opened NodeList
  import opened Freelist
  import opened FifoMachine

  /** Who owns a node. Each allocated node has exactly one place. */
  datatype Place = Queued | Free | Held(holder: Tid)

  /** Proof-only companion of a state. `chain` and `free` are the lists hanging off `head` and
      `pool`; `linker` is the thread that appended a node the tail has not reached yet;
      `sawEmpty` are the threads whose latest load of `head->next` was at an instant when the queue was
      empty, `sawDry` those that have loaded `pool` in their current operation while it was null. */
  datatype Ghost = Ghost(
    chain: seq<Ptr>,
    free: seq<Ptr>,
    place: map<Ptr, Place>,
    linker: Tid,
    sawEmpty: set<Tid>,
    sawDry: set<Tid>)

  /** The node that a thread holds privately, or null. */
  function Holds(pc: Pc): Ptr {
    match pc
    case EnqInitData(_, n) => n
    case EnqReadTag(_, n) => n
    case EnqInitNext(_, n, _) => n
    case EnqLoadTail(_, n) => n
    case EnqLoadNext(_, n, _) => n
    case EnqRecheck(_, n, _, _) => n
    case EnqLink(_, n, _, _) => n
    case EnqHelp(_, n, _, _) => n
    case DeqFree(_, n, _) => n
    case ResFree(_, n, _) => n
    case _ => NULL
  }

  // ---- Shared memory ----

  ghost predicate PlaceOk(s: State, g: Ghost) {
    && NULL !in s.heap
    && g.place.Keys == s.heap.Keys
    && (forall x :: x in g.place ==> (g.place[x] == Queued <==> x in g.chain))
    && (forall x :: x in g.place ==> (g.place[x] == Free <==> x in g.free))
    && (forall x :: x in g.place && g.place[x].Held? ==>
                      g.place[x].holder in s.threads && Holds(s.threads[g.place[x].holder]) == x)
  }

  /** The tail is the last node, or the last but one while the thread that linked the last node is
      still about to swing it. The tags of head and tail count the moves of each. */
  ghost predicate TailOk(s: State, g: Ghost) {
    var k := |g.chain|;
    && k > 0
    && (|| (s.tail.ptr == g.chain[k - 1] && s.tail.tag == s.head.tag + k - 1)
        || (k > 1 && s.tail.ptr == g.chain[k - 2] && s.tail.tag == s.head.tag + k - 2
            && g.linker in s.threads && s.threads[g.linker] == EnqSwing(g.chain[k - 1], s.tail)))
  }

  ghost predicate Shape(s: State, g: Ghost) {
    && IsList(s.heap, s.head.ptr, g.chain)
    && IsList(s.heap, s.pool.ptr, g.free)
    && TailOk(s, g)
    && PlaceOk(s, g)
  }

  // ---- One thread ----

  /** `x` was loaded from the tail (the head) at an earlier instant. */
  ghost predicate SavedTail(s: State, x: Tagged) {
    x.ptr in s.heap && x.tag <= s.tail.tag && (x.tag == s.tail.tag ==> x == s.tail)
  }

  ghost predicate SavedHead(s: State, x: Tagged) {
    x.ptr in s.heap && x.tag <= s.head.tag && (x.tag == s.head.tag ==> x == s.head)
  }

  ghost predicate HoldsNode(s: State, g: Ghost, t: Tid, n: Ptr) {
    n in s.heap && n != NULL && n in g.place && g.place[n] == Held(t)
  }

  /** A private node ready to be linked: it carries `v` and ends the list. */
  ghost predicate ReadyNode(s: State, g: Ghost, t: Tid, n: Ptr, v: Value) {
    HoldsNode(s, g, t, n) && s.heap[n].next.ptr == NULL && s.heap[n].data == v
  }

  /** `next` was loaded from the node `tail.ptr`; while the tail has not moved it is either still
      there or was a null that a link has replaced, and a link always raises the tag. */
  ghost predicate NextSeen(s: State, tail: Tagged, next: Tagged)
    requires tail.ptr in s.heap
  {
    var now := s.heap[tail.ptr].next;
    && next.tag <= now.tag
    && (tail == s.tail ==>
          && (next.ptr != NULL ==> now == next)
          && (next.ptr == NULL && now.tag == next.tag ==> now.ptr == NULL))
  }

  /** The guard of the link step. The tag of a node's link strictly passes a (null, tag) pair that
      was read while the node was the tail before the node can be anything else than the tail. */
  ghost predicate LinkGuard(s: State, tail: Tagged, next: Tagged)
    requires tail.ptr in s.heap
  {
    var now := s.heap[tail.ptr].next;
    next.ptr == NULL && next.tag <= now.tag && (next.tag == now.tag ==> now == next && s.tail == tail)
  }

  /** `p` follows the saved tail, for as long as the tail has not moved. */
  ghost predicate TailLags(s: State, tail: Tagged, p: Ptr) {
    SavedTail(s, tail) && p != NULL && (tail == s.tail ==> s.heap[tail.ptr].next.ptr == p)
  }

  /** What a dequeuer knows once it has loaded head and tail: nothing, when the head moved since. */
  ghost predicate HeadAndTail(s: State, head: Tagged, tail: Tagged) {
    && SavedHead(s, head)
    && SavedTail(s, tail)
    && (head == s.head && tail.ptr != head.ptr ==>
          s.heap[head.ptr].next.ptr != NULL && s.tail.ptr != head.ptr)
  }

  ghost predicate AllocLocal(s: State, g: Ghost, t: Tid, pc: AllocPc) {
    match pc
    case LoadPool => true
    case ReadSuccessor(seen) =>
      TopRead(s.heap, s.pool, g.free, seen) && (seen.ptr == NULL ==> t in g.sawDry)
    case SwingPool(seen, succ) => SuccessorRead(s.heap, s.pool, g.free, seen, succ)
  }

  ghost predicate FreeLocal(s: State, g: Ghost, t: Tid, n: Ptr, pc: FreePc) {
    && HoldsNode(s, g, t, n)
    && match pc
       case LoadPoolForPush => true
       case ReadLinkTag(seen) => seen.tag <= s.pool.tag
       case WriteLink(seen, tag) => seen.tag <= s.pool.tag && s.heap[n].next.tag == tag
       case PushPool(seen) => seen.tag <= s.pool.tag && s.heap[n].next.ptr == seen.ptr
  }

  ghost predicate Local(s: State, g: Ghost, t: Tid, pc: Pc) {
    match pc
    case EnqAlloc(_, alloc) => AllocLocal(s, g, t, alloc)
    case EnqInitData(_, n) => HoldsNode(s, g, t, n)
    case EnqReadTag(v, n) => HoldsNode(s, g, t, n) && s.heap[n].data == v
    case EnqInitNext(v, n, tag) => HoldsNode(s, g, t, n) && s.heap[n].data == v && s.heap[n].next.tag == tag
    case EnqLoadTail(v, n) => ReadyNode(s, g, t, n, v)
    case EnqLoadNext(v, n, tail) => ReadyNode(s, g, t, n, v) && SavedTail(s, tail)
    case EnqRecheck(v, n, tail, next) => ReadyNode(s, g, t, n, v) && SavedTail(s, tail) && NextSeen(s, tail, next)
    case EnqLink(v, n, tail, next) => ReadyNode(s, g, t, n, v) && SavedTail(s, tail) && LinkGuard(s, tail, next)
    case EnqSwing(n, tail) => TailLags(s, tail, n)
    case EnqHelp(v, n, tail, next) => ReadyNode(s, g, t, n, v) && TailLags(s, tail, next.ptr)
    case DeqLoadHead(_) => true
    case DeqLoadTail(_, head) => SavedHead(s, head)
    case DeqLoadNext(_, head, tail) => HeadAndTail(s, head, tail)
    case DeqRecheck(_, head, tail, next) =>
      && HeadAndTail(s, head, tail)
      && (head == s.head ==>
            if next.ptr != NULL then s.heap[head.ptr].next == next
            else tail.ptr == head.ptr && t in g.sawEmpty)
    case DeqHelp(_, tail, next) => TailLags(s, tail, next.ptr)
    case DeqRead(_, head, tail, next) =>
      && HeadAndTail(s, head, tail)
      && head.ptr != tail.ptr && next.ptr in s.heap
      && (head == s.head ==> s.heap[head.ptr].next == next)
    case DeqSwing(ret, head, tail, next) =>
      && HeadAndTail(s, head, tail)
      && head.ptr != tail.ptr && next.ptr in s.heap
      && (head == s.head ==> s.heap[head.ptr].next == next && s.heap[next.ptr].data == ret)
    case DeqFree(_, n, free) => FreeLocal(s, g, t, n, free)
    case ResAlloc(_) => true
    case ResFree(_, n, free) => FreeLocal(s, g, t, n, free)
    case Done(result) =>
      && (result == Enqueued(false) ==> t in g.sawDry)
      && (result.Dequeued? && !result.ok ==> t in g.sawEmpty)
  }

  ghost predicate Inv(s: State, g: Ghost) {
    Shape(s, g) && forall t :: t in s.threads ==> Local(s, g, t, s.threads[t])
  }

  /** No thread ever dereferences null or memory that was not allocated. */
  lemma LocalIsSafe(s: State, g: Ghost, t: Tid)
    requires Inv(s, g) && t in s.threads
    ensures Safe(s, s.threads[t])
  {
    assert Local(s, g, t, s.threads[t]);
  }

  // ---- What a step of thread t leaves true for everybody else ----

  ghost predicate HeapRely(s: State, s': State) {
    forall x :: x in s.heap ==> x in s'.heap && s.heap[x].next.tag <= s'.heap[x].next.tag
  }

  /** The tail and its link stay, or the link is set and its tag rises, or the tail moves on. */
  ghost predicate TailRely(s: State, s': State) {
    var x := s.tail.ptr;
    && x in s.heap && x in s'.heap
    && (|| (s'.tail == s.tail && s'.heap[x].next == s.heap[x].next)
        || (s'.tail == s.tail && s.heap[x].next.ptr == NULL && s.heap[x].next.tag < s'.heap[x].next.tag)
        || (s.tail.tag < s'.tail.tag && s.heap[x].next.ptr != NULL))
  }

  /** While the head stays, a non-null link out of it stays, so does the value behind it, and the
      tail does not come back to it. */
  ghost predicate HeadRely(s: State, s': State) {
    var y := s.head.ptr;
    && y in s.heap && y in s'.heap
    && (|| s.head.tag < s'.head.tag
        || (&& s'.head == s.head
            && (s.heap[y].next.ptr != NULL ==>
                  var z := s.heap[y].next.ptr;
                  s'.heap[y].next == s.heap[y].next && z in s.heap && z in s'.heap && s'.heap[z].data == s.heap[z].data)
            && (s.tail.ptr != y ==> s'.tail.ptr != y)))
  }

  /** Nodes held by others than `t` are not touched, nor are the others' observations forgotten. */
  ghost predicate HeldRely(s: State, g: Ghost, s': State, g': Ghost, t: Tid) {
    && (forall x :: x in g.place && g.place[x].Held? && g.place[x].holder != t && x in s.heap ==>
                      x in g'.place && g'.place[x] == g.place[x] && x in s'.heap && s'.heap[x] == s.heap[x])
    && (forall u :: u != t ==> (u in g.sawEmpty <==> u in g'.sawEmpty) && (u in g.sawDry <==> u in g'.sawDry))
  }

  ghost predicate OthersKept(s: State, s': State, t: Tid) {
    && (forall u :: u in s.threads && u != t ==> u in s'.threads && s'.threads[u] == s.threads[u])
    && (forall u :: u in s'.threads && u != t ==> u in s.threads)
  }

  ghost predicate Rely(s: State, g: Ghost, s': State, g': Ghost, t: Tid) {
    && HeapRely(s, s')
    && TailRely(s, s')
    && HeadRely(s, s')
    && TopRely(s.heap, s.pool, g.free, s'.heap, s'.pool, g'.free)
    && HeldRely(s, g, s', g', t)
  }

  /** Interference freedom: a step of `t` keeps the local knowledge of every other thread `u`. */
  lemma LocalStable(s: State, g: Ghost, s': State, g': Ghost, t: Tid, u: Tid, pc: Pc)
    requires Rely(s, g, s', g', t) && u != t && Local(s, g, u, pc)
    ensures Local(s', g', u, pc)
  {
    match pc
    case EnqAlloc(_, alloc) => AllocStable(s, g, s', g', t, u, alloc);
    case _ =>
  }

  lemma AllocStable(s: State, g: Ghost, s': State, g': Ghost, t: Tid, u: Tid, pc: AllocPc)
    requires Rely(s, g, s', g', t) && u != t && AllocLocal(s, g, u, pc)
    ensures AllocLocal(s', g', u, pc)
  {
    if !pc.LoadPool? {
      TopReadStable(s.heap, s.pool, g.free, s'.heap, s'.pool, g'.free, pc.seen);
    }
  }

  /** A step of `t` that keeps the shared shape, the others' ground and its own knowledge keeps the
      whole invariant. */
  lemma Assemble(s: State, g: Ghost, s': State, g': Ghost, t: Tid)
    requires Inv(s, g) && Shape(s', g') && Rely(s, g, s', g', t)
    requires OthersKept(s, s', t)
    requires t in s'.threads ==> Local(s', g', t, s'.threads[t])
    ensures Inv(s', g')
  {
    hide Rely;
    hide Shape;
    hide Local;
    forall u | u in s'.threads
      ensures Local(s', g', u, s'.threads[u])
    {
      if u != t {
        LocalStable(s, g, s', g', t, u, s.threads[u]);
      }
    }
  }
}
