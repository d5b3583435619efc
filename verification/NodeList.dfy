/** Memory as the lock-free containers see it: a map from node addresses to nodes, and the
    null-terminated lists threaded through the nodes' `next` fields. The same field serves the
    containers and the freelist. */
module NodeList {
  import opened TaggedPtr

  /** The element type; the containers only copy values of it. */
  type Value(==, !new)

  datatype Node = Node(next: Tagged, data: Value)

  type Heap = map<Ptr, Node>

  function SetNext(heap: Heap, p: Ptr, next: Tagged): Heap
    requires p in heap
  {
    heap[p := heap[p].(next := next)]
  }

  function SetData(heap: Heap, p: Ptr, data: Value): Heap
    requires p in heap
  {
    heap[p := heap[p].(data := data)]
  }

  ghost predicate Distinct(xs: seq<Ptr>) {
    forall i, j :: 0 <= i < j < |xs| ==> xs[i] != xs[j]
  }

  /** The pointer that must be stored just before position `i` of `xs`. */
  function LinkTo(xs: seq<Ptr>, i: nat): Ptr {
    if i < |xs| then xs[i] else NULL
  }

  /** Following `next` from `first` visits exactly the nodes `xs`, in order, and ends in null. */
  ghost predicate IsList(heap: Heap, first: Ptr, xs: seq<Ptr>) {
    && first == LinkTo(xs, 0)
    && (forall i :: 0 <= i < |xs| ==> xs[i] != NULL && xs[i] in heap)
    && (forall i {:trigger heap[xs[i]]} :: 0 <= i < |xs| ==> heap[xs[i]].next.ptr == LinkTo(xs, i + 1))
    && Distinct(xs)
  }

  ghost predicate SameLinks(heap: Heap, heap': Heap, xs: seq<Ptr>) {
    forall x :: x in xs && x in heap ==> x in heap' && heap'[x].next.ptr == heap[x].next.ptr
  }

  lemma ListFrame(heap: Heap, heap': Heap, first: Ptr, xs: seq<Ptr>)
    requires IsList(heap, first, xs) && SameLinks(heap, heap', xs)
    ensures IsList(heap', first, xs)
  {
  }

  lemma ListPop(heap: Heap, first: Ptr, xs: seq<Ptr>)
    requires IsList(heap, first, xs) && |xs| > 0
    ensures first == xs[0] && first in heap && first !in xs[1..]
    ensures IsList(heap, heap[first].next.ptr, xs[1..])
    ensures forall x :: x in xs <==> x == first || x in xs[1..]
  {
  }

  lemma ListPush(heap: Heap, heap': Heap, first: Ptr, xs: seq<Ptr>, n: Ptr)
    requires IsList(heap, first, xs) && SameLinks(heap, heap', xs)
    requires n !in xs && n != NULL && n in heap' && heap'[n].next.ptr == first
    ensures IsList(heap', n, [n] + xs)
  {
  }

  lemma ListAppend(heap: Heap, heap': Heap, first: Ptr, xs: seq<Ptr>, n: Ptr)
    requires IsList(heap, first, xs) && |xs| > 0 && SameLinks(heap, heap', xs[..|xs| - 1])
    requires var last := xs[|xs| - 1]; last in heap' && heap'[last].next.ptr == n
    requires n !in xs && n != NULL && n in heap' && heap'[n].next.ptr == NULL
    ensures IsList(heap', first, xs + [n])
  {
  }

  /** A list node with a null link is the last node. */
  lemma ListLast(heap: Heap, first: Ptr, xs: seq<Ptr>, x: Ptr)
    requires IsList(heap, first, xs) && x in xs
    ensures x in heap && (heap[x].next.ptr == NULL <==> x == xs[|xs| - 1])
  {
  }

  /** Memory and the first pointer determine the list: the ghost sequences used in the invariants
      are functions of the concrete state. */
  lemma {:induction false} ListUnique(heap: Heap, first: Ptr, xs: seq<Ptr>, ys: seq<Ptr>)
    requires IsList(heap, first, xs) && IsList(heap, first, ys)
    ensures xs == ys
    decreases |xs|
  {
    if first != NULL {
      ListPop(heap, first, xs);
      ListPop(heap, first, ys);
      ListUnique(heap, heap[first].next.ptr, xs[1..], ys[1..]);
      assert xs == [first] + xs[1..] && ys == [first] + ys[1..];
    }
  }

  function Rest(xs: seq<Ptr>): seq<Ptr> {
    if |xs| > 0 then xs[1..] else []
  }

  ghost function Elements(xs: seq<Ptr>): set<Ptr> {
    set x | x in xs
  }

  lemma ElementsOf(x: Ptr, xs: seq<Ptr>)
    ensures Elements([x] + xs) == Elements(xs) + {x}
    ensures Elements(xs + [x]) == Elements(xs) + {x}
  {
  }

  lemma {:induction false} DistinctSize(xs: seq<Ptr>)
    requires Distinct(xs)
    ensures |Elements(xs)| == |xs|
    decreases |xs|
  {
    if |xs| > 0 {
      var x, rest := xs[0], xs[1..];
      DistinctSize(rest);
      assert xs == [x] + rest;
      forall y
        ensures y in Elements(xs) <==> y == x || y in Elements(rest)
      {
      }
      assert Elements(xs) == Elements(rest) + {x};
    }
  }

  // ---- The values that a list carries ----

  ghost predicate Allocated(heap: Heap, xs: seq<Ptr>) {
    forall x :: x in xs ==> x in heap
  }

  ghost function Values(heap: Heap, xs: seq<Ptr>): seq<Value>
    requires Allocated(heap, xs)
  {
    seq(|xs|, i requires 0 <= i < |xs| => assert xs[i] in xs; heap[xs[i]].data)
  }

  ghost predicate SameData(heap: Heap, heap': Heap, xs: seq<Ptr>) {
    forall x :: x in xs ==> x in heap && x in heap' && heap'[x].data == heap[x].data
  }

  lemma ValuesFrame(heap: Heap, heap': Heap, xs: seq<Ptr>)
    requires SameData(heap, heap', xs)
    ensures Allocated(heap, xs) && Allocated(heap', xs) && Values(heap', xs) == Values(heap, xs)
  {
  }

  lemma ValuesCons(heap: Heap, heap': Heap, n: Ptr, xs: seq<Ptr>)
    requires SameData(heap, heap', xs) && n in heap'
    ensures Allocated(heap, xs) && Allocated(heap', [n] + xs)
    ensures Values(heap', [n] + xs) == [heap'[n].data] + Values(heap, xs)
  {
  }

  lemma ValuesDrop(heap: Heap, heap': Heap, xs: seq<Ptr>)
    requires SameData(heap, heap', xs) && |xs| > 0
    ensures Allocated(heap, xs) && Allocated(heap', xs[1..]) && xs[0] in heap
    ensures Values(heap, xs) != [] && Values(heap, xs)[0] == heap[xs[0]].data
    ensures Values(heap', xs[1..]) == Values(heap, xs)[1..]
  {
  }

  // ---- Memory never runs out ----

  lemma UnusedAddress(heap: Heap) returns (n: Ptr)
    ensures n != NULL && n !in heap
  {
    n := Above(heap.Keys);
  }

  lemma {:induction false} Above(ps: set<Ptr>) returns (n: Ptr)
    ensures n != NULL && forall p :: p in ps ==> p < n
  {
    n := 1;
    if ps != {} {
      var p :| p in ps;
      var m := Above(ps - {p});
      n := if m > p then m else p + 1;
      assert ps == (ps - {p}) + {p};
    }
  }
}
