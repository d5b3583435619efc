/** The synthesised operations on top of the sub-word compare-exchange: one access to the shared word per
    transition, while the owners of the neighbouring bytes, and stores to the object itself, interfere. What is
    proved of the retry loops over a cell of their own holds of the object inside the word. */
module SubWordAtomics {
  import opened SubWord
  import A = AtomicMachine
  import R = AtomicRuns

  type Tid = nat

  /** Before a compare-exchange of the word the weak compare-exchange of the object loads it, to insert `expected` and
      then `desired`. `o` is the value that the loop expects in the object. */
  datatype Pc =
    | Begin(call: A.Call<Bits>)
    | LoadWord(call: A.Call<Bits>, o: Bits)
    | SwapWord(call: A.Call<Bits>, o: Bits, expectedWord: Bits, desiredWord: Bits)
    | Done(result: A.Result<Bits>)

  datatype State = State(word: Bits, threads: map<Tid, Pc>)

  /** `Neighbours` is any write that leaves the object alone, `Overwrite` a store to the object. */
  datatype Action =
    | Invoke(call: A.Call<Bits>)
    | Internal(spurious: bool)
    | Return(result: A.Result<Bits>)
    | Neighbours(word: Bits)
    | Overwrite(v: Bits)

  datatype Move = Move(t: Tid, a: Action)

  ghost predicate Fits(p: Platform, l: Lane, s: State) {
    ValidLane(p, l) && |s.word| == 8 * p.bytes
  }

  /** The value that the loop tries to write, if it has the size of the object. */
  ghost predicate Writable(l: Lane, call: A.Call<Bits>, o: Bits) {
    |o| == 8 * l.size && |A.Replacement(call, o)| == 8 * l.size
  }

  /** The call writes values of the size of the object over such values. */
  ghost predicate ValidCall(l: Lane, call: A.Call<Bits>) {
    && (call.Strong? ==> |call.expected| == 8 * l.size)
    && forall o: Bits {:trigger A.Replacement(call, o)} :: |o| == 8 * l.size ==> |A.Replacement(call, o)| == 8 * l.size
  }

  ghost predicate Enabled(p: Platform, l: Lane, s: State, m: Move) {
    && Fits(p, l, s)
    && match m.a
       case Invoke(call) => m.t !in s.threads && ValidCall(l, call)
       case Internal(_) => m.t in s.threads && !s.threads[m.t].Done?
       case Return(result) => m.t in s.threads && s.threads[m.t] == Done(result)
       case Neighbours(word) => |word| == |s.word| && Extract(p, l, word) == Extract(p, l, s.word)
       case Overwrite(v) => |v| == 8 * l.size
  }

  /** What the thread is about to insert has the size of the object. */
  ghost predicate Safe(l: Lane, pc: Pc) {
    match pc
    case Begin(call) => call.Strong? ==> Writable(l, call, call.expected)
    case LoadWord(call, o) => Writable(l, call, o)
    case _ => true
  }

  /** The load of the word with which a weak compare-exchange of the object begins. */
  ghost function Prepare(p: Platform, l: Lane, s: State, call: A.Call<Bits>, o: Bits): Pc
    requires Fits(p, l, s) && Writable(l, call, o)
  {
    InsertLength(p, l, s.word, o);
    var expectedWord := Insert(p, l, s.word, o);
    SwapWord(call, o, expectedWord, Insert(p, l, expectedWord, A.Replacement(call, o)))
  }

  /** The compare-exchange of the word. */
  ghost function Swap(p: Platform, l: Lane, s: State, t: Tid, spurious: bool): State
    requires Fits(p, l, s) && t in s.threads && s.threads[t].SwapWord?
  {
    var pc, seen := s.threads[t], Extract(p, l, s.word);
    if s.word == pc.expectedWord && !spurious then
      State(pc.desiredWord, s.threads[t := Done(if pc.call.Strong? then A.Swapped(true, seen) else A.Fetched(seen))])
    else if !pc.call.Strong? then s.(threads := s.threads[t := LoadWord(pc.call, seen)])
    else if pc.call.expected != seen then s.(threads := s.threads[t := Done(A.Swapped(false, seen))])
    else s.(threads := s.threads[t := Begin(pc.call)])
  }

  ghost function Next(p: Platform, l: Lane, s: State, m: Move): State
    requires Enabled(p, l, s, m) && (m.a.Internal? ==> Safe(l, s.threads[m.t]))
  {
    match m.a
    case Invoke(call) => s.(threads := s.threads[m.t := Begin(call)])
    case Return(_) => s.(threads := s.threads - {m.t})
    case Neighbours(word) => s.(word := word)
    case Overwrite(v) => s.(word := Insert(p, l, s.word, v))
    case Internal(spurious) =>
      if s.threads[m.t].Begin? then
        var call := s.threads[m.t].call;
        if call.Strong? then s.(threads := s.threads[m.t := Prepare(p, l, s, call, call.expected)])
        else s.(threads := s.threads[m.t := LoadWord(call, Extract(p, l, s.word))])
      else if s.threads[m.t].LoadWord? then
        s.(threads := s.threads[m.t := Prepare(p, l, s, s.threads[m.t].call, s.threads[m.t].o)])
      else Swap(p, l, s, m.t, spurious)
  }

  // ---- The object as a cell of its own ----

  ghost function AbsPc(pc: Pc): A.Pc<Bits> {
    if pc.Done? then A.Done(pc.result)
    else if pc.Begin? || pc.call.Strong? then A.Begin(pc.call)
    else A.Swing(pc.call, pc.o)
  }

  ghost function Abs(p: Platform, l: Lane, s: State): A.State<Bits>
    requires Fits(p, l, s)
  {
    A.State(Extract(p, l, s.word), map t | t in s.threads :: AbsPc(s.threads[t]))
  }

  /** What a move is to the object: neighbours, and loads of the word that only prepare a compare-exchange, write to it
      what it holds. */
  ghost function Image(p: Platform, l: Lane, s: State, m: Move): A.Move<Bits>
    requires Fits(p, l, s)
  {
    match m.a
    case Invoke(call) => A.Move(m.t, A.Invoke(call))
    case Return(result) => A.Move(m.t, A.Return(result))
    case Neighbours(_) => A.Move(m.t, A.Overwrite(Extract(p, l, s.word)))
    case Overwrite(v) => A.Move(m.t, A.Overwrite(v))
    case Internal(spurious) =>
      if m.t in s.threads && s.threads[m.t].SwapWord? then
        A.Move(m.t, A.Internal(spurious || s.word != s.threads[m.t].expectedWord))
      else if m.t in s.threads && s.threads[m.t].Begin? && !s.threads[m.t].call.Strong? then
        A.Move(m.t, A.Internal(spurious))
      else
        A.Move(m.t, A.Overwrite(Extract(p, l, s.word)))
  }

  /** What a thread has prepared. */
  ghost predicate Local(p: Platform, l: Lane, pc: Pc)
    requires ValidLane(p, l)
  {
    match pc
    case Begin(call) => ValidCall(l, call)
    case LoadWord(call, o) => ValidCall(l, call) && !call.Strong? && |o| == 8 * l.size
    case SwapWord(call, o, expectedWord, desiredWord) =>
      && ValidCall(l, call) && |o| == 8 * l.size && (call.Strong? ==> o == call.expected)
      && |expectedWord| == 8 * p.bytes && Extract(p, l, expectedWord) == o
      && desiredWord == Insert(p, l, expectedWord, A.Replacement(call, o))
    case Done(_) => true
  }

  ghost predicate Inv(p: Platform, l: Lane, s: State) {
    Fits(p, l, s) && forall t :: t in s.threads ==> Local(p, l, s.threads[t])
  }

  lemma LocalIsSafe(p: Platform, l: Lane, pc: Pc)
    requires ValidLane(p, l) && Local(p, l, pc)
    ensures Safe(l, pc)
  {
  }

  lemma PrepareIsLocal(p: Platform, l: Lane, s: State, call: A.Call<Bits>, o: Bits)
    requires Fits(p, l, s) && ValidCall(l, call) && |o| == 8 * l.size && (call.Strong? ==> o == call.expected)
    ensures Writable(l, call, o) && Local(p, l, Prepare(p, l, s, call, o))
  {
    InsertLength(p, l, s.word, o);
    InsertThenExtract(p, l, s.word, o);
    hide Insert, Extract;
  }

  /** The compare-exchange of the word is a weak compare-exchange of the object. */
  lemma SwapSimulates(p: Platform, l: Lane, s: State, t: Tid, spurious: bool)
    requires Fits(p, l, s) && t in s.threads && s.threads[t].SwapWord? && Local(p, l, s.threads[t])
    ensures var s', m := Swap(p, l, s, t, spurious), Image(p, l, s, Move(t, Internal(spurious)));
            && Fits(p, l, s') && t in s'.threads && s'.threads == s.threads[t := s'.threads[t]]
            && Local(p, l, s'.threads[t])
            && A.Enabled(Abs(p, l, s), m) && A.Next(Abs(p, l, s), m).cell == Extract(p, l, s'.word)
            && A.Next(Abs(p, l, s), m).threads == Abs(p, l, s).threads[t := AbsPc(s'.threads[t])]
  {
    var pc := s.threads[t];
    InsertLength(p, l, pc.expectedWord, A.Replacement(pc.call, pc.o));
    InsertThenExtract(p, l, pc.expectedWord, A.Replacement(pc.call, pc.o));
    hide Insert;
  }

  ghost function AbsThreads(threads: map<Tid, Pc>): map<Tid, A.Pc<Bits>> {
    map t | t in threads :: AbsPc(threads[t])
  }

  lemma AbsUpdate(threads: map<Tid, Pc>, t: Tid, pc: Pc)
    ensures AbsThreads(threads[t := pc]) == AbsThreads(threads)[t := AbsPc(pc)]
    ensures AbsThreads(threads - {t}) == AbsThreads(threads) - {t}
    ensures t in threads ==> t in AbsThreads(threads) && AbsThreads(threads)[t] == AbsPc(threads[t])
    ensures t !in threads ==> t !in AbsThreads(threads)
  {
  }

  /** A move of the shared word is a move of the object, and keeps what the threads have prepared. */
  ghost predicate Simulates(p: Platform, l: Lane, s: State, m: Move, s': State)
    requires Fits(p, l, s)
  {
    && Inv(p, l, s')
    && A.Enabled(Abs(p, l, s), Image(p, l, s, m))
    && A.Next(Abs(p, l, s), Image(p, l, s, m)) == Abs(p, l, s')
  }

  lemma LoadSimulates(p: Platform, l: Lane, s: State, t: Tid, spurious: bool)
    requires Inv(p, l, s) && t in s.threads && !s.threads[t].Done? && !s.threads[t].SwapWord?
    ensures Safe(l, s.threads[t])
    ensures Simulates(p, l, s, Move(t, Internal(spurious)), Next(p, l, s, Move(t, Internal(spurious))))
  {
    var pc := s.threads[t];
    if pc.LoadWord? || pc.call.Strong? {
      PrepareIsLocal(p, l, s, pc.call, if pc.LoadWord? then pc.o else pc.call.expected);
    }
    hide Insert, Extract, ValidCall, Prepare;
    AbsUpdate(s.threads, t, Next(p, l, s, Move(t, Internal(spurious))).threads[t]);
  }

  lemma StepSimulates(p: Platform, l: Lane, s: State, m: Move)
    requires Inv(p, l, s) && Enabled(p, l, s, m)
    ensures m.a.Internal? ==> Safe(l, s.threads[m.t])
    ensures Simulates(p, l, s, m, Next(p, l, s, m))
  {
    if m.a.Internal? && !s.threads[m.t].SwapWord? {
      LoadSimulates(p, l, s, m.t, m.a.spurious);
    } else if m.a.Internal? {
      hide Insert, Extract, ValidCall, Local;
      SwapSimulates(p, l, s, m.t, m.a.spurious);
      AbsUpdate(s.threads, m.t, Next(p, l, s, m).threads[m.t]);
    } else {
      if m.a.Overwrite? {
        InsertLength(p, l, s.word, m.a.v);
        InsertThenExtract(p, l, s.word, m.a.v);
      }
      hide Insert, Extract;
      AbsUpdate(s.threads, m.t, if m.a.Invoke? then Begin(m.a.call) else Done(A.Swapped(false, [])));
    }
  }

  /** To any other object in the word, what the owners of this one do is the work of neighbours. */
  lemma NeighboursSeeNeighbours(p: Platform, l: Lane, s: State, m: Move, other: Lane, s1: State)
    requires Inv(p, l, s) && Enabled(p, l, s, m) && !m.a.Neighbours?
    requires ValidLane(p, other) && Disjoint(l, other) && s1.word == s.word
    ensures m.a.Internal? ==> Safe(l, s.threads[m.t])
    ensures Enabled(p, other, s1, Move(m.t, Neighbours(Next(p, l, s, m).word)))
  {
    var word' := Next(p, l, s, m).word;
    if word' != s.word {
      var v := if m.a.Overwrite? then m.a.v else A.Replacement(s.threads[m.t].call, s.threads[m.t].o);
      InsertLength(p, l, s.word, v);
      InsertKeepsOtherLanes(p, l, other, s.word, v);
    }
    hide Insert, Extract;
  }

  // ---- Whole runs ----

  ghost predicate IsRun(p: Platform, l: Lane, states: seq<State>, moves: seq<Move>) {
    && |states| == |moves| + 1 && Fits(p, l, states[0])
    && forall i :: 0 <= i < |moves| ==>
         && Enabled(p, l, states[i], moves[i])
         && (moves[i].a.Internal? ==> Safe(l, states[i].threads[moves[i].t]))
         && states[i + 1] == Next(p, l, states[i], moves[i])
  }

  lemma {:induction false} RunKeepsInv(p: Platform, l: Lane, states: seq<State>, moves: seq<Move>, k: nat)
    requires IsRun(p, l, states, moves) && states[0].threads == map[] && k <= |moves|
    ensures Inv(p, l, states[k])
  {
    if k > 0 {
      RunKeepsInv(p, l, states, moves, k - 1);
      StepSimulates(p, l, states[k - 1], moves[k - 1]);
    }
  }

  /** The object as a cell of its own, at every instant of a run, and what the moves are to it. */
  ghost predicate Projects(p: Platform, l: Lane, states: seq<State>, moves: seq<Move>,
                           cells: seq<A.State<Bits>>, images: seq<A.Move<Bits>>) {
    && |cells| == |states| == |images| + 1 && |images| == |moves|
    && (forall k :: 0 <= k < |states| ==> Fits(p, l, states[k]) && cells[k] == Abs(p, l, states[k]))
    && (forall k :: 0 <= k < |moves| ==> Fits(p, l, states[k]) && images[k] == Image(p, l, states[k], moves[k]))
  }

  /** Every run on the shared word is, seen at the object, a run of the operations on a cell of their own. */
  lemma RunSimulates(p: Platform, l: Lane, states: seq<State>, moves: seq<Move>)
    returns (cells: seq<A.State<Bits>>, images: seq<A.Move<Bits>>)
    requires IsRun(p, l, states, moves) && states[0].threads == map[]
    ensures Projects(p, l, states, moves, cells, images) && A.IsRun(cells, images)
  {
    forall k | 0 <= k <= |moves|
      ensures Inv(p, l, states[k])
    {
      RunKeepsInv(p, l, states, moves, k);
    }
    cells := seq(|states|, k requires 0 <= k < |states| => Abs(p, l, states[k]));
    images := seq(|moves|, k requires 0 <= k < |moves| => Image(p, l, states[k], moves[k]));
    forall k | 0 <= k < |moves|
      ensures A.Enabled(cells[k], images[k]) && A.Next(cells[k], images[k]) == cells[k + 1]
    {
      StepSimulates(p, l, states[k], moves[k]);
    }
  }

  // ---- What the object holds ----

  /** A move that writes the object: a store, or a compare-exchange of the word that succeeds. */
  predicate IsWrite(s: State, m: Move) {
    m.a.Overwrite? || (m.a.Internal? && !m.a.spurious && m.t in s.threads && s.threads[m.t].SwapWord?
                       && s.word == s.threads[m.t].expectedWord)
  }

  function WriteOf(s: State, m: Move): A.Write<Bits>
    requires IsWrite(s, m)
  {
    if m.a.Overwrite? then A.Plain(m.a.v) else A.By(m.t, s.threads[m.t].call)
  }

  /** The writes to the object among the first `k` moves. */
  ghost function Writes(states: seq<State>, moves: seq<Move>, k: nat): seq<A.Write<Bits>>
    requires k <= |moves| < |states|
  {
    if k == 0 then []
    else
      var s, m, before := states[k - 1], moves[k - 1], Writes(states, moves, k - 1);
      if IsWrite(s, m) then before + [WriteOf(s, m)] else before
  }

  lemma StepWrites(p: Platform, l: Lane, s: State, m: Move)
    requires Inv(p, l, s) && Enabled(p, l, s, m)
    ensures m.a.Internal? ==> Safe(l, s.threads[m.t])
    ensures var word' := Next(p, l, s, m).word;
            |word'| == |s.word| && Extract(p, l, word') ==
            if IsWrite(s, m) then A.Written(WriteOf(s, m), Extract(p, l, s.word)) else Extract(p, l, s.word)
  {
    StepSimulates(p, l, s, m);
    hide Extract, Insert, Local;
  }

  /** Whatever is written around it, the object holds its start value with all its own writes applied in the order of
      their success. */
  lemma {:induction false} ObjectIsFold(p: Platform, l: Lane, states: seq<State>, moves: seq<Move>, k: nat)
    requires IsRun(p, l, states, moves) && states[0].threads == map[] && k <= |moves|
    ensures Fits(p, l, states[k])
    ensures Extract(p, l, states[k].word) == A.Fold(Extract(p, l, states[0].word), Writes(states, moves, k))
  {
    if k > 0 {
      ObjectIsFold(p, l, states, moves, k - 1);
      RunKeepsInv(p, l, states, moves, k - 1);
      var s, m := states[k - 1], moves[k - 1];
      StepWrites(p, l, s, m);
      hide Extract, Insert, Inv, Next, IsWrite, WriteOf, A.Written, A.Fold;
      if IsWrite(s, m) {
        A.FoldSnoc(Extract(p, l, states[0].word), Writes(states, moves, k - 1), WriteOf(s, m));
      }
    }
  }

  // ---- What the calls return ----

  ghost predicate OneCall(moves: seq<Move>, t: Tid, i: nat, k: nat, call: A.Call<Bits>) {
    && i < k <= |moves| && moves[i] == Move(t, Invoke(call))
    && forall j :: i < j < k && moves[j].t == t ==> !moves[j].a.Return?
  }

  /** A call that returns has written the object exactly once, at an instant at which the object held the value that it
      returns, or it is a strong compare-exchange that has not written and has seen another value there. */
  lemma ObjectResultIsJustified(p: Platform, l: Lane, states: seq<State>, moves: seq<Move>, t: Tid, i: nat, k: nat,
                                call: A.Call<Bits>)
    returns (cells: seq<A.State<Bits>>, images: seq<A.Move<Bits>>)
    requires IsRun(p, l, states, moves) && states[0].threads == map[]
    requires OneCall(moves, t, i, k, call) && k < |moves| && moves[k].t == t && moves[k].a.Return?
    ensures Projects(p, l, states, moves, cells, images) && A.IsRun(cells, images)
    ensures R.Justified(cells, images, t, i, k, call, moves[k].a.result)
  {
    cells, images := RunSimulates(p, l, states, moves);
    hide Extract, Insert, R.Justified;
    R.ResultIsJustified(cells, images, t, i, k, call);
  }

  // ---- Every call ends ----

  /** How many accesses the thread still makes if nothing sends it round again. */
  function StepsLeft(pc: Pc): nat {
    match pc
    case Begin(call) => if call.Strong? then 2 else 3
    case LoadWord(_, _) => 2
    case SwapWord(_, _, _, _) => 1
    case Done(_) => 0
  }

  /** A compare-exchange of the word after which the thread is still at work. */
  predicate Retries(s: State, m: Move, s': State) {
    && m.a.Internal? && m.t in s.threads && m.t in s'.threads
    && s.threads[m.t].SwapWord? && !s'.threads[m.t].Done?
  }

  predicate FailsSpuriously(s: State, m: Move) {
    && m.a.Internal? && m.a.spurious && m.t in s.threads
    && s.threads[m.t].SwapWord? && s.threads[m.t].expectedWord == s.word
  }

  /** The word has changed under the thread, so that it will go round again. */
  ghost function Stale(p: Platform, l: Lane, s: State, t: Tid): nat
    requires Fits(p, l, s)
  {
    if t !in s.threads then 0
    else match s.threads[t]
         case LoadWord(_, o) => if o != Extract(p, l, s.word) then 1 else 0
         case SwapWord(call, _, expectedWord, _) =>
           if s.word != expectedWord && (call.Strong? ==> Extract(p, l, s.word) == call.expected) then 1 else 0
         case _ => 0
  }

  ghost function CountSteps(moves: seq<Move>, t: Tid, i: nat, k: nat): nat
    requires i <= k <= |moves|
  {
    if i == k then 0
    else CountSteps(moves, t, i, k - 1) + if moves[k - 1].t == t && moves[k - 1].a.Internal? then 1 else 0
  }

  ghost function CountRetries(states: seq<State>, moves: seq<Move>, t: Tid, i: nat, k: nat): nat
    requires i <= k <= |moves| < |states|
  {
    if i == k then 0
    else CountRetries(states, moves, t, i, k - 1)
         + if moves[k - 1].t == t && Retries(states[k - 1], moves[k - 1], states[k]) then 1 else 0
  }

  ghost function CountSpurious(states: seq<State>, moves: seq<Move>, t: Tid, i: nat, k: nat): nat
    requires i <= k <= |moves| < |states|
  {
    if i == k then 0
    else CountSpurious(states, moves, t, i, k - 1)
         + if moves[k - 1].t == t && FailsSpuriously(states[k - 1], moves[k - 1]) then 1 else 0
  }

  /** How often the word has changed, whoever changed it. */
  ghost function CountChanges(states: seq<State>, i: nat, k: nat): nat
    requires i <= k < |states|
  {
    if i == k then 0 else CountChanges(states, i, k - 1) + if states[k].word != states[k - 1].word then 1 else 0
  }

  /** One move, seen by `t`: an access brings it nearer to its end or sends it round again, and that takes a spurious
      failure or a change of the word. */
  lemma StepFalls(p: Platform, l: Lane, s: State, m: Move, s': State, t: Tid)
    requires Inv(p, l, s) && Enabled(p, l, s, m) && (m.a.Internal? ==> Safe(l, s.threads[m.t])) && t in s.threads
    requires s' == Next(p, l, s, m) && |s'.word| == |s.word| && !(m.t == t && m.a.Return?)
    ensures t in s'.threads
    ensures var own := if m.t == t && m.a.Internal? then 1 else 0;
            var again := if m.t == t && Retries(s, m, s') then 1 else 0;
            && own + StepsLeft(s'.threads[t]) <= StepsLeft(s.threads[t]) + 2 * again
            && again + Stale(p, l, s', t) <= Stale(p, l, s, t) + (if m.t == t && FailsSpuriously(s, m) then 1 else 0)
                                             + if s'.word != s.word then 1 else 0
  {
    ExtractThenInsert(p, l, s.word);
    if m.t == t && m.a.Internal? && s.threads[t].LoadWord? {
      InsertThenExtract(p, l, s.word, s.threads[t].o);
    }
    hide Insert, Extract, ValidCall;
  }

  lemma CallBegins(p: Platform, l: Lane, s: State, m: Move, s': State)
    requires Enabled(p, l, s, m) && m.a.Invoke? && s' == Next(p, l, s, m)
    ensures Fits(p, l, s') && m.t in s'.threads && Stale(p, l, s', m.t) == 0 && s'.word == s.word
    ensures StepsLeft(s'.threads[m.t]) == if m.a.call.Strong? then 2 else 3
    ensures !Retries(s, m, s') && !FailsSpuriously(s, m)
  {
  }

  lemma {:induction false} StepsAreRetries(p: Platform, l: Lane, states: seq<State>, moves: seq<Move>, t: Tid,
                                           i: nat, k: nat, call: A.Call<Bits>)
    requires IsRun(p, l, states, moves) && states[0].threads == map[] && OneCall(moves, t, i, k, call)
    ensures Fits(p, l, states[k]) && t in states[k].threads
    ensures CountSteps(moves, t, i, k) + StepsLeft(states[k].threads[t])
            <= (if call.Strong? then 2 else 3) + 2 * CountRetries(states, moves, t, i, k)
    ensures CountRetries(states, moves, t, i, k) + Stale(p, l, states[k], t)
            <= CountSpurious(states, moves, t, i, k) + CountChanges(states, i, k)
  {
    hide *;
    LastMove(p, l, states, moves, t, i, k, call);
    CountsMove(states, moves, t, i, k);
    if k > i + 1 {
      StepsAreRetries(p, l, states, moves, t, i, k - 1, call);
      StepFalls(p, l, states[k - 1], moves[k - 1], states[k], t);
    } else {
      CallBegins(p, l, states[i], moves[i], states[k]);
    }
  }

  /** The last move of a call that has come so far. */
  lemma LastMove(p: Platform, l: Lane, states: seq<State>, moves: seq<Move>, t: Tid, i: nat, k: nat,
                 call: A.Call<Bits>)
    requires IsRun(p, l, states, moves) && states[0].threads == map[] && OneCall(moves, t, i, k, call)
    ensures i < k <= |moves| < |states| && moves[i] == Move(t, Invoke(call))
    ensures k > i + 1 ==> OneCall(moves, t, i, k - 1, call) && !(moves[k - 1].t == t && moves[k - 1].a.Return?)
    ensures var s, m := states[k - 1], moves[k - 1];
            && Inv(p, l, s) && Enabled(p, l, s, m) && (m.a.Internal? ==> Safe(l, s.threads[m.t]))
            && states[k] == Next(p, l, s, m) && Fits(p, l, states[k]) && |states[k].word| == |s.word|
  {
    RunKeepsInv(p, l, states, moves, k - 1);
    RunKeepsInv(p, l, states, moves, k);
    hide Local, Next, Enabled, Safe;
  }

  lemma CountsMove(states: seq<State>, moves: seq<Move>, t: Tid, i: nat, k: nat)
    requires i < k <= |moves| < |states|
    ensures CountSteps(moves, t, i, k)
            == CountSteps(moves, t, i, k - 1) + if moves[k - 1].t == t && moves[k - 1].a.Internal? then 1 else 0
    ensures CountRetries(states, moves, t, i, k) == CountRetries(states, moves, t, i, k - 1)
            + if moves[k - 1].t == t && Retries(states[k - 1], moves[k - 1], states[k]) then 1 else 0
    ensures CountSpurious(states, moves, t, i, k) == CountSpurious(states, moves, t, i, k - 1)
            + if moves[k - 1].t == t && FailsSpuriously(states[k - 1], moves[k - 1]) then 1 else 0
    ensures CountChanges(states, i, k)
            == CountChanges(states, i, k - 1) + if states[k].word != states[k - 1].word then 1 else 0
    ensures k == i + 1 ==> CountSteps(moves, t, i, i) == CountRetries(states, moves, t, i, i)
                           == CountSpurious(states, moves, t, i, i) == CountChanges(states, i, i) == 0
  {
  }

  /** Every call ends: after three accesses to the word (a strong compare-exchange: after two), and two more for each of
      its spurious failures and each change of the word in the meantime, it has its result. */
  lemma StepsAreBounded(p: Platform, l: Lane, states: seq<State>, moves: seq<Move>, t: Tid, i: nat, k: nat,
                        call: A.Call<Bits>)
    requires IsRun(p, l, states, moves) && states[0].threads == map[] && OneCall(moves, t, i, k, call)
    ensures t in states[k].threads
    ensures CountSteps(moves, t, i, k) + (if states[k].threads[t].Done? then 0 else 1)
            <= (if call.Strong? then 2 else 3)
               + 2 * (CountSpurious(states, moves, t, i, k) + CountChanges(states, i, k))
  {
    StepsAreRetries(p, l, states, moves, t, i, k, call);
  }
}
