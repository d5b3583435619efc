/** The inductive invariant of the concurrent stack, and that every atomic step keeps it. The stack
    and the freelist are two lists with one kind of top cell, so each kind of step is proved once. */
module StackSafety {
  import opened TaggedPtr
  import opened NodeList
  import opened Freelist
  import opened StackMachine

  datatype Cell = Pool | Tos

  /** Who owns a node. */
  datatype Place = In(cell: Cell) | Held(holder: Tid)

  /** Proof-only companion of a state: the two lists, the places, and the threads that, inside their
      current operation, have been at an instant when the stack (the freelist) was empty. */
  datatype Ghost = Ghost(items: seq<Ptr>, free: seq<Ptr>, place: map<Ptr, Place>, sawEmpty: set<Tid>, sawDry: set<Tid>)

  lemma PlaceKinds(p: Place)
    ensures p.Held? || p == In(Tos) || p == In(Pool)
  {
    match p
    case Held(_) =>
    case In(Pool) =>
    case In(Tos) =>
  }

  function Top(s: State, c: Cell): Tagged {
    if c.Pool? then s.pool else s.tos
  }

  function SetTop(s: State, c: Cell, top: Tagged): State {
    if c.Pool? then s.(pool := top) else s.(tos := top)
  }

  function ListOf(g: Ghost, c: Cell): seq<Ptr> {
    if c.Pool? then g.free else g.items
  }

  function SetList(g: Ghost, c: Cell, xs: seq<Ptr>): Ghost {
    if c.Pool? then g.(free := xs) else g.(items := xs)
  }

  function Saw(g: Ghost, c: Cell): set<Tid> {
    if c.Pool? then g.sawDry else g.sawEmpty
  }

  function AddSaw(g: Ghost, c: Cell, t: Tid): Ghost {
    if c.Pool? then g.(sawDry := g.sawDry + {t}) else g.(sawEmpty := g.sawEmpty + {t})
  }

  function Holds(pc: Pc): Ptr {
    match pc
    case PushInit(_, n) => n
    case PushLink(_, n, _) => n
    case PopRead(_, n) => n
    case PopFree(_, n, _) => n
    case ResFree(_, n, _) => n
    case _ => NULL
  }

  // ---- The invariant ----

  ghost predicate PlaceOk(s: State, g: Ghost) {
    && NULL !in s.heap
    && g.place.Keys == s.heap.Keys
    && (forall x :: x in g.place ==> (g.place[x] == In(Tos) <==> x in g.items))
    && (forall x :: x in g.place ==> (g.place[x] == In(Pool) <==> x in g.free))
    && (forall x :: x in g.place && g.place[x].Held? ==>
                      g.place[x].holder in s.threads && Holds(s.threads[g.place[x].holder]) == x)
  }

  ghost predicate Shape(s: State, g: Ghost) {
    && IsList(s.heap, s.tos.ptr, g.items)
    && IsList(s.heap, s.pool.ptr, g.free)
    && PlaceOk(s, g)
  }

  ghost predicate HoldsNode(s: State, g: Ghost, t: Tid, n: Ptr) {
    n in s.heap && n != NULL && n in g.place && g.place[n] == Held(t)
  }

  /** Inside the loop that takes a node off cell `c`. */
  ghost predicate Taking(s: State, g: Ghost, t: Tid, c: Cell, pc: AllocPc) {
    match pc
    case LoadPool => true
    case ReadSuccessor(seen) =>
      TopRead(s.heap, Top(s, c), ListOf(g, c), seen) && (seen.ptr == NULL ==> t in Saw(g, c))
    case SwingPool(seen, succ) => SuccessorRead(s.heap, Top(s, c), ListOf(g, c), seen, succ)
  }

  /** Inside the loop that puts node `n` on cell `c`. */
  ghost predicate Giving(s: State, g: Ghost, t: Tid, c: Cell, n: Ptr, pc: FreePc) {
    && HoldsNode(s, g, t, n)
    && match pc
       case LoadPoolForPush => true
       case ReadLinkTag(seen) => seen.tag <= Top(s, c).tag
       case WriteLink(seen, tag) => seen.tag <= Top(s, c).tag
       case PushPool(seen) => seen.tag <= Top(s, c).tag && s.heap[n].next.ptr == seen.ptr
  }

  ghost predicate Local(s: State, g: Ghost, t: Tid, pc: Pc) {
    match pc
    case PushAlloc(_, take) => Taking(s, g, t, Pool, take)
    case PushInit(_, n) => HoldsNode(s, g, t, n)
    case PushLink(v, n, give) => Giving(s, g, t, Tos, n, give) && s.heap[n].data == v
    case PopTake(_, take) => Taking(s, g, t, Tos, take)
    case PopRead(_, n) => HoldsNode(s, g, t, n)
    case PopFree(_, n, give) => Giving(s, g, t, Pool, n, give)
    case ResAlloc(_) => true
    case ResFree(_, n, give) => Giving(s, g, t, Pool, n, give)
    case Done(result) =>
      && (result == Pushed(false) ==> t in g.sawDry)
      && (result.Popped? && !result.ok ==> t in g.sawEmpty)
  }

  ghost predicate Inv(s: State, g: Ghost) {
    Shape(s, g) && forall t :: t in s.threads ==> Local(s, g, t, s.threads[t])
  }

  lemma AtLocal(s: State, g: Ghost, t: Tid, pc: Pc)
    requires Inv(s, g) && t in s.threads && s.threads[t] == pc
    ensures Local(s, g, t, pc) && Shape(s, g) && Safe(s, pc)
  {
  }

  // ---- Interference ----

  ghost predicate OthersKept(s: State, s': State, t: Tid) {
    && (forall u :: u in s.threads && u != t ==> u in s'.threads && s'.threads[u] == s.threads[u])
    && (forall u :: u in s'.threads && u != t ==> u in s.threads)
  }

  ghost predicate Rely(s: State, g: Ghost, s': State, g': Ghost, t: Tid) {
    && TopRely(s.heap, s.pool, g.free, s'.heap, s'.pool, g'.free)
    && TopRely(s.heap, s.tos, g.items, s'.heap, s'.tos, g'.items)
    && (forall x :: x in g.place && g.place[x].Held? && g.place[x].holder != t && x in s.heap ==>
                      x in g'.place && g'.place[x] == g.place[x] && x in s'.heap && s'.heap[x] == s.heap[x])
    && (forall u :: u != t ==> (u in g.sawEmpty <==> u in g'.sawEmpty) && (u in g.sawDry <==> u in g'.sawDry))
  }

  lemma LocalStable(s: State, g: Ghost, s': State, g': Ghost, t: Tid, u: Tid, pc: Pc)
    requires Rely(s, g, s', g', t) && u != t && Local(s, g, u, pc)
    ensures Local(s', g', u, pc)
  {
  }

  lemma Conclude(s: State, g: Ghost, s': State, g': Ghost, t: Tid)
    requires Inv(s, g) && Shape(s', g') && Rely(s, g, s', g', t) && OthersKept(s, s', t)
    requires t in s'.threads ==> Local(s', g', t, s'.threads[t])
    ensures Inv(s', g')
  {
    hide Rely, Shape, Local;
    forall u | u in s'.threads
      ensures Local(s', g', u, s'.threads[u])
    {
      if u != t {
        LocalStable(s, g, s', g', t, u, s.threads[u]);
      }
    }
  }

  /** Whatever node is marked as held by `t` is the one `t` holds. */
  ghost predicate HolderOk(s: State, g: Ghost, t: Tid) {
    forall x :: x in g.place && g.place[x] == Held(t) ==> t in s.threads && Holds(s.threads[t]) == x
  }

  ghost predicate HoldsNothing(s: State, g: Ghost, t: Tid) {
    forall x :: x in g.place ==> g.place[x] != Held(t)
  }

  lemma HolderFromShape(s: State, g: Ghost, t: Tid)
    requires Shape(s, g)
    ensures HolderOk(s, g, t)
    ensures (t in s.threads ==> Holds(s.threads[t]) == NULL) ==> HoldsNothing(s, g, t)
  {
  }

  // ---- Kinds of steps ----

  /** Bookkeeping of places: only node `n` changes place, and only thread `t` what it holds. */
  lemma MovePlace(s: State, g: Ghost, s': State, g': Ghost, t: Tid, n: Ptr, p: Place)
    requires PlaceOk(s, g) && s'.heap.Keys == s.heap.Keys + {n} && n != NULL && g'.place == g.place[n := p]
    requires forall x :: x != n ==> (x in g'.items <==> x in g.items) && (x in g'.free <==> x in g.free)
    requires (p == In(Tos) <==> n in g'.items) && (p == In(Pool) <==> n in g'.free)
    requires OthersKept(s, s', t) && HolderOk(s', g', t) && (p.Held? ==> p.holder == t)
    ensures PlaceOk(s', g')
  {
  }

  /** Steps that change at most node `n`, private to `t` before or after, disturb nobody, if they
      respect both top cells. */
  lemma PrivateRely(s: State, g: Ghost, s': State, g': Ghost, t: Tid, n: Ptr)
    requires forall x :: x in s.heap && x != n ==> x in s'.heap && s'.heap[x] == s.heap[x]
    requires forall x :: x in g.place && x != n ==> x in g'.place && g'.place[x] == g.place[x]
    requires n in g.place ==> g.place[n].In? || g.place[n] == Held(t)
    requires TopRely(s.heap, s.pool, g.free, s'.heap, s'.pool, g'.free)
    requires TopRely(s.heap, s.tos, g.items, s'.heap, s'.tos, g'.items)
    requires forall u :: u != t ==> (u in g.sawEmpty <==> u in g'.sawEmpty) && (u in g.sawDry <==> u in g'.sawDry)
    ensures Rely(s, g, s', g', t)
  {
  }

  lemma PlaceOf(s: State, g: Ghost, c: Cell, n: Ptr)
    requires PlaceOk(s, g) && n in s.heap
    ensures n in g.place && n != NULL
    ensures g.place[n] == In(c) <==> n in ListOf(g, c)
    ensures g.place[n].Held? ==> n !in g.items && n !in g.free
  {
  }

  lemma QuietPlace(s: State, g: Ghost, s': State, g': Ghost, t: Tid)
    requires PlaceOk(s, g) && s'.heap == s.heap && g'.place == g.place && g'.items == g.items && g'.free == g.free
    requires OthersKept(s, s', t) && HolderOk(s', g', t)
    ensures PlaceOk(s', g')
  {
  }

  /** Local knowledge does not depend on program counters. */
  lemma LocalGo(s: State, s': State, g: Ghost, t: Tid, pc: Pc)
    requires s' == s.(threads := s'.threads) && Local(s, g, t, pc)
    ensures Local(s', g, t, pc)
  {
  }

  lemma AfterTake(s: State, g: Ghost, t: Tid, pc: Pc)
    requires (pc.PushInit? || pc.PopRead?) && HoldsNode(s, g, t, Holds(pc))
    ensures Local(s, g, t, pc)
  {
  }

  lemma AfterGive(s: State, g: Ghost, t: Tid, pc: Pc)
    requires pc.ResAlloc? || (pc.Done? && (pc.result == Pushed(true) || (pc.result.Popped? && pc.result.ok)))
    ensures Local(s, g, t, pc) && Holds(pc) == NULL
  {
  }

  /** A step that only moves the program counter of `t`, which holds the same node as before. */
  lemma QuietGo(s: State, g: Ghost, g': Ghost, t: Tid, pc: Pc)
    requires Inv(s, g) && t in s.threads && Holds(pc) == Holds(s.threads[t]) && Local(s, g', t, pc)
    requires g' == g || g' == AddSaw(g, Pool, t) || g' == AddSaw(g, Tos, t)
    ensures Inv(Go(s, t, pc), g')
  {
    var s' := Go(s, t, pc);
    LocalGo(s, s', g', t, pc);
    HolderFromShape(s, g, t);
    hide Local, IsList, Holds, Rely;
    QuietPlace(s, g, s', g', t);
    PrivateRely(s, g, s', g', t, NULL);
    hide PlaceOk, Inv;
    Conclude(s, g, s', g', t);
  }

  /** `t` rewrites the node that it holds. */
  lemma WriteGo(s: State, g: Ghost, t: Tid, n: Ptr, node: Node, pc: Pc)
    requires Inv(s, g) && Shape(s, g) && t in s.threads && Holds(s.threads[t]) == n
    requires Holds(pc) == n && HoldsNode(s, g, t, n)
    requires Local(Go(s.(heap := s.heap[n := node]), t, pc), g, t, pc)
    ensures Inv(Go(s.(heap := s.heap[n := node]), t, pc), g)
  {
    hide Inv, Local, IsList, PlaceOk, Holds, Rely;
    var s' := Go(s.(heap := s.heap[n := node]), t, pc);
    PlaceOf(s, g, Pool, n);
    ListFrame(s.heap, s'.heap, s.tos.ptr, g.items);
    ListFrame(s.heap, s'.heap, s.pool.ptr, g.free);
    HolderFromShape(s, g, t);
    MovePlace(s, g, s', g, t, n, Held(t));
    PrivateRely(s, g, s', g, t, n);
    Conclude(s, g, s', g, t);
  }

  lemma TakeKind(s: State, g: Ghost, s': State, g': Ghost, t: Tid, c: Cell, succ: Ptr)
    requires Shape(s, g) && t in s.threads && Holds(s.threads[t]) == NULL
    requires t in s'.threads && Holds(s'.threads[t]) == Top(s, c).ptr
    requires SuccessorRead(s.heap, Top(s, c), ListOf(g, c), Top(s, c), succ)
    requires s' == SetTop(s, c, Tagged(succ, Top(s, c).tag + 1)).(threads := s'.threads) && OthersKept(s, s', t)
    requires g' == SetList(g, c, Rest(ListOf(g, c))).(place := g.place[Top(s, c).ptr := Held(t)])
    ensures Shape(s', g') && Rely(s, g, s', g', t)
  {
    var n := Top(s, c).ptr;
    PopIsExact(s.heap, Top(s, c), ListOf(g, c), Top(s, c), succ);
    HolderFromShape(s, g, t);
    PlaceOf(s, g, Pool, n);
    PlaceOf(s, g, Tos, n);
    hide IsList, PlaceOk, Holds, Rely, TopRely, SuccessorRead;
    TopPopped(s.heap, Top(s, c), ListOf(g, c), succ, Rest(ListOf(g, c)));
    TopKept(s.heap, s.heap, s.pool, g.free);
    TopKept(s.heap, s.heap, s.tos, g.items);
    MovePlace(s, g, s', g', t, n, Held(t));
    PrivateRely(s, g, s', g', t, n);
  }

  /** `t` takes the first node off cell `c`. */
  lemma TakeGo(s: State, g: Ghost, t: Tid, c: Cell, succ: Ptr, pc: Pc)
    requires Inv(s, g) && Shape(s, g) && t in s.threads && Holds(s.threads[t]) == NULL && Holds(pc) == Top(s, c).ptr
    requires SuccessorRead(s.heap, Top(s, c), ListOf(g, c), Top(s, c), succ)
    requires pc.PushInit? || pc.PopRead?
    ensures Inv(Go(SetTop(s, c, Tagged(succ, Top(s, c).tag + 1)), t, pc),
                SetList(g, c, Rest(ListOf(g, c))).(place := g.place[Top(s, c).ptr := Held(t)]))
  {
    var s' := Go(SetTop(s, c, Tagged(succ, Top(s, c).tag + 1)), t, pc);
    var g' := SetList(g, c, Rest(ListOf(g, c))).(place := g.place[Top(s, c).ptr := Held(t)]);
    hide Inv, Local, Shape, Holds, Rely;
    TakeKind(s, g, s', g', t, c, succ);
    PlaceOfTop(s, g, c, succ);
    AfterTake(s', g', t, pc);
    Conclude(s, g, s', g', t);
  }

  lemma PlaceOfTop(s: State, g: Ghost, c: Cell, succ: Ptr)
    requires Shape(s, g) && SuccessorRead(s.heap, Top(s, c), ListOf(g, c), Top(s, c), succ)
    ensures Top(s, c).ptr in s.heap && Top(s, c).ptr != NULL && |ListOf(g, c)| > 0
  {
  }

  /** Both lists after node `n` was put on cell `c`. */
  lemma GiveLists(s: State, g: Ghost, s': State, g': Ghost, c: Cell, n: Ptr)
    requires Shape(s, g) && n in s.heap && n != NULL && n !in ListOf(g, c) && s.heap[n].next.ptr == Top(s, c).ptr
    requires s' == SetTop(s, c, Tagged(n, Top(s, c).tag)).(threads := s'.threads)
    requires g' == SetList(g, c, [n] + ListOf(g, c)).(place := g'.place)
    ensures IsList(s'.heap, s'.pool.ptr, g'.free) && TopRely(s.heap, s.pool, g.free, s'.heap, s'.pool, g'.free)
    ensures IsList(s'.heap, s'.tos.ptr, g'.items) && TopRely(s.heap, s.tos, g.items, s'.heap, s'.tos, g'.items)
  {
    hide IsList, PlaceOk, TopRely;
    TopPushed(s.heap, Top(s, c), ListOf(g, c), n);
    TopKept(s.heap, s.heap, s.pool, g.free);
    TopKept(s.heap, s.heap, s.tos, g.items);
    ListPush(s.heap, s.heap, Top(s, c).ptr, ListOf(g, c), n);
  }

  lemma GiveKind(s: State, g: Ghost, s': State, g': Ghost, t: Tid, c: Cell, n: Ptr)
    requires Shape(s, g) && t in s.threads && Holds(s.threads[t]) == n && HoldsNode(s, g, t, n)
    requires s.heap[n].next.ptr == Top(s, c).ptr && t in s'.threads && Holds(s'.threads[t]) == NULL
    requires s' == SetTop(s, c, Tagged(n, Top(s, c).tag)).(threads := s'.threads) && OthersKept(s, s', t)
    requires g' == SetList(g, c, [n] + ListOf(g, c)).(place := g.place[n := In(c)])
    ensures Shape(s', g') && Rely(s, g, s', g', t)
  {
    PlaceOf(s, g, c, n);
    HolderFromShape(s, g, t);
    hide IsList, PlaceOk, Holds, Rely, TopRely;
    GiveLists(s, g, s', g', c, n);
    MovePlace(s, g, s', g', t, n, In(c));
    PrivateRely(s, g, s', g', t, n);
  }

  /** `t` puts its node on cell `c`. */
  lemma GiveGo(s: State, g: Ghost, t: Tid, c: Cell, n: Ptr, pc: Pc)
    requires Inv(s, g) && Shape(s, g) && t in s.threads && Holds(s.threads[t]) == n && HoldsNode(s, g, t, n)
    requires s.heap[n].next.ptr == Top(s, c).ptr
    requires pc.ResAlloc? || (pc.Done? && (pc.result == Pushed(true) || (pc.result.Popped? && pc.result.ok)))
    ensures Inv(Go(SetTop(s, c, Tagged(n, Top(s, c).tag)), t, pc),
                SetList(g, c, [n] + ListOf(g, c)).(place := g.place[n := In(c)]))
  {
    var s' := Go(SetTop(s, c, Tagged(n, Top(s, c).tag)), t, pc);
    var g' := SetList(g, c, [n] + ListOf(g, c)).(place := g.place[n := In(c)]);
    AfterGive(s', g', t, pc);
    hide Inv, Local, Shape, Holds, Rely;
    GiveKind(s, g, s', g', t, c, n);
    Conclude(s, g, s', g', t);
  }

  // ---- The companion of the next state ----

  ghost function GhostLoad(g: Ghost, t: Tid, c: Cell): Ghost {
    if |ListOf(g, c)| == 0 then AddSaw(g, c, t) else g
  }

  ghost function GhostTake(s: State, g: Ghost, t: Tid, c: Cell, take: AllocPc, spurious: bool): Ghost {
    match take
    case LoadPool => GhostLoad(g, t, c)
    case ReadSuccessor(_) => g
    case SwingPool(seen, _) =>
      if Top(s, c) == seen && !spurious then SetList(g, c, Rest(ListOf(g, c))).(place := g.place[seen.ptr := Held(t)])
      else GhostLoad(g, t, c)
  }

  ghost function GhostGive(s: State, g: Ghost, c: Cell, n: Ptr, give: FreePc, spurious: bool): Ghost {
    match give
    case PushPool(seen) =>
      if Top(s, c) == seen && !spurious then SetList(g, c, [n] + ListOf(g, c)).(place := g.place[n := In(c)]) else g
    case _ => g
  }

  ghost function GhostAdvance(s: State, g: Ghost, t: Tid, spurious: bool): Ghost
    requires t in s.threads
  {
    match s.threads[t]
    case PushAlloc(_, take) => GhostTake(s, g, t, Pool, take, spurious)
    case PopTake(_, take) => GhostTake(s, g, t, Tos, take, spurious)
    case PushLink(_, n, give) => GhostGive(s, g, Tos, n, give, spurious)
    case PopFree(_, n, give) => GhostGive(s, g, Pool, n, give, spurious)
    case ResFree(_, n, give) => GhostGive(s, g, Pool, n, give, spurious)
    case _ => g
  }

  ghost function GhostNext(s: State, g: Ghost, t: Tid, a: Action): Ghost
    requires Enabled(s, t, a)
  {
    match a
    case InvokePush(_) => g.(sawDry := g.sawDry - {t})
    case InvokePop(_) => g.(sawEmpty := g.sawEmpty - {t})
    case Internal(spurious) => GhostAdvance(s, g, t, spurious)
    case Allocate(block, _) => g.(place := g.place[block := Held(t)])
    case _ => g
  }

  // ---- The steps ----

  /** Loading cell `c`, at first or by a failed compare-exchange. */
  lemma StepLoad(s: State, g: Ghost, t: Tid, c: Cell, pc: Pc)
    requires Inv(s, g) && Shape(s, g) && t in s.threads && Holds(s.threads[t]) == NULL
    requires if c.Pool? then pc.PushAlloc? && pc.take == ReadSuccessor(s.pool)
             else pc.PopTake? && pc.take == ReadSuccessor(s.tos)
    ensures Inv(Go(s, t, pc), GhostLoad(g, t, c))
  {
    assert |ListOf(g, c)| > 0 ==> ListOf(g, c)[0] in ListOf(g, c);
    assert Top(s, c).ptr == NULL <==> |ListOf(g, c)| == 0;
    hide Inv, Shape;
    QuietGo(s, g, GhostLoad(g, t, c), t, pc);
  }

  lemma StepTake(s: State, g: Ghost, t: Tid, c: Cell, take: AllocPc, spurious: bool)
    requires Inv(s, g) && Enabled(s, t, Internal(spurious)) && Safe(s, s.threads[t])
    requires if c.Pool? then s.threads[t].PushAlloc? else s.threads[t].PopTake?
    requires s.threads[t].take == take
    ensures Inv(Advance(Unbounded, s, t, spurious), GhostAdvance(s, g, t, spurious))
  {
    AtLocal(s, g, t, s.threads[t]);
    hide Inv, Shape;
    var pc := Advance(Unbounded, s, t, spurious).threads[t];
    match take
    case LoadPool => StepLoad(s, g, t, c, pc);
    case ReadSuccessor(_) => QuietGo(s, g, g, t, pc);
    case SwingPool(seen, succ) => StepSwing(s, g, t, c, seen, succ, spurious);
  }

  lemma StepSwing(s: State, g: Ghost, t: Tid, c: Cell, seen: Tagged, succ: Ptr, spurious: bool)
    requires Inv(s, g) && Shape(s, g) && Enabled(s, t, Internal(spurious)) && Safe(s, s.threads[t])
    requires if c.Pool? then s.threads[t].PushAlloc? else s.threads[t].PopTake?
    requires s.threads[t].take == SwingPool(seen, succ) && SuccessorRead(s.heap, Top(s, c), ListOf(g, c), seen, succ)
    ensures Inv(Advance(Unbounded, s, t, spurious), GhostAdvance(s, g, t, spurious))
  {
    hide Inv, Shape, SuccessorRead;
    var pc := Advance(Unbounded, s, t, spurious).threads[t];
    if Top(s, c) == seen && !spurious {
      TakeGo(s, g, t, c, succ, pc);
    } else {
      StepLoad(s, g, t, c, pc);
    }
  }

  lemma StepGive(s: State, g: Ghost, t: Tid, c: Cell, n: Ptr, give: FreePc, spurious: bool)
    requires Inv(s, g) && Enabled(s, t, Internal(spurious)) && Safe(s, s.threads[t])
    requires if c.Pool? then s.threads[t].PopFree? || s.threads[t].ResFree? else s.threads[t].PushLink?
    requires s.threads[t].give == give && s.threads[t].n == n
    ensures Inv(Advance(Unbounded, s, t, spurious), GhostAdvance(s, g, t, spurious))
  {
    AtLocal(s, g, t, s.threads[t]);
    hide Inv, Shape;
    var pc := Advance(Unbounded, s, t, spurious).threads[t];
    match give
    case LoadPoolForPush => QuietGo(s, g, g, t, pc);
    case ReadLinkTag(_) => QuietGo(s, g, g, t, pc);
    case WriteLink(seen, tag) => WriteGo(s, g, t, n, s.heap[n].(next := Tagged(seen.ptr, tag)), pc);
    case PushPool(seen) =>
      if Top(s, c) == seen && !spurious {
        GiveGo(s, g, t, c, n, pc);
      } else {
        QuietGo(s, g, g, t, pc);
      }
  }

  lemma StepInternal(s: State, g: Ghost, t: Tid, spurious: bool)
    requires Inv(s, g) && Enabled(s, t, Internal(spurious)) && Safe(s, s.threads[t])
    ensures Inv(Advance(Unbounded, s, t, spurious), GhostAdvance(s, g, t, spurious))
  {
    match s.threads[t]
    case PushAlloc(_, take) => StepTake(s, g, t, Pool, take, spurious);
    case PopTake(_, take) => StepTake(s, g, t, Tos, take, spurious);
    case PushLink(_, n, give) => StepGive(s, g, t, Tos, n, give, spurious);
    case PopFree(_, n, give) => StepGive(s, g, t, Pool, n, give, spurious);
    case ResFree(_, n, give) => StepGive(s, g, t, Pool, n, give, spurious);
    case PushInit(v, n) =>
      AtLocal(s, g, t, PushInit(v, n));
      hide Inv, Shape;
      WriteGo(s, g, t, n, s.heap[n].(data := v), PushLink(v, n, LoadPoolForPush));
    case PopRead(ret, n) =>
      AtLocal(s, g, t, PopRead(ret, n));
      hide Inv, Shape;
      QuietGo(s, g, g, t, PopFree(s.heap[n].data, n, LoadPoolForPush));
    case ResAlloc(_) =>
      hide Inv;
      QuietGo(s, g, g, t, Done(Reserved));
  }

  /** What a thread knows of a fresh node: that it owns it. */
  lemma BlockLocal(s: State, g: Ghost, t: Tid, n: Ptr, pc: Pc)
    requires HoldsNode(s, g, t, n)
    requires (pc.PushInit? && pc.n == n) || (pc.ResFree? && pc.n == n && pc.give == LoadPoolForPush)
    ensures Local(s, g, t, pc) && Holds(pc) == n
  {
  }

  lemma StepAllocate(s: State, g: Ghost, t: Tid, n: Ptr, bits: Node, pc: Pc)
    requires Inv(s, g) && Shape(s, g) && t in s.threads && (s.threads[t].PushAlloc? || s.threads[t].ResAlloc?)
    requires n != NULL && n !in s.heap
    requires (pc.PushInit? && pc.n == n) || (pc.ResFree? && pc.n == n && pc.give == LoadPoolForPush)
    ensures Inv(Go(s.(heap := s.heap[n := bits]), t, pc), g.(place := g.place[n := Held(t)]))
  {
    var s', g' := Go(s.(heap := s.heap[n := bits]), t, pc), g.(place := g.place[n := Held(t)]);
    assert n !in g.items && n !in g.free && n !in g.place;
    assert HoldsNode(s', g', t, n) && Holds(s.threads[t]) == NULL;
    HolderFromShape(s, g, t);
    hide Inv, Local, IsList, PlaceOk, Holds, Rely;
    BlockLocal(s', g', t, n, pc);
    ListFrame(s.heap, s'.heap, s.tos.ptr, g.items);
    ListFrame(s.heap, s'.heap, s.pool.ptr, g.free);
    MovePlace(s, g, s', g', t, n, Held(t));
    PrivateRely(s, g, s', g', t, n);
    Conclude(s, g, s', g', t);
  }

  /** Calls and returns. */
  lemma StepOuter(s: State, g: Ghost, t: Tid, a: Action)
    requires Inv(s, g) && Shape(s, g) && Enabled(s, t, a) && !a.Internal? && !a.Allocate?
    ensures Inv(Next(Unbounded, s, t, a), GhostNext(s, g, t, a))
  {
    var s', g' := Next(Unbounded, s, t, a), GhostNext(s, g, t, a);
    HolderFromShape(s, g, t);
    hide Inv, IsList;
    QuietPlace(s, g, s', g', t);
    PrivateRely(s, g, s', g', t, NULL);
    hide PlaceOk, Rely;
    Conclude(s, g, s', g', t);
  }

  /** The inductive step: every atomic access of every thread keeps the invariant, and no access
      touches memory that is not allocated. */
  lemma StepKeepsInv(s: State, g: Ghost, t: Tid, a: Action)
    requires Inv(s, g) && Enabled(s, t, a)
    ensures a.Internal? ==> Safe(s, s.threads[t])
    ensures Inv(Next(Unbounded, s, t, a), GhostNext(s, g, t, a))
  {
    assert Shape(s, g);
    if t in s.threads {
      AtLocal(s, g, t, s.threads[t]);
    }
    hide Inv, Shape;
    if a.Internal? {
      StepInternal(s, g, t, a.spurious);
    } else if a.Allocate? {
      StepAllocate(s, g, t, a.block, a.bits, Next(Unbounded, s, t, a).threads[t]);
    } else {
      StepOuter(s, g, t, a);
    }
  }
}
