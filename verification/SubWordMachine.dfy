/** Several small atomics that share one machine word, used by any number of threads, one access to the
    word per transition. Every run is a run of independent cells. */
module SubWordMachine {
  import opened SubWord

  type Tid = nat

  datatype Op = Load(l: Lane) | Cas(l: Lane, expected: Bits, desired: Bits) | Store(l: Lane, v: Bits)

  /** `observed` is what a compare-exchange leaves in the caller's `expected`. */
  datatype Result = Loaded(x: Bits) | Swapped(ok: bool, observed: Bits) | Stored

  datatype Pc =
    | Begin(op: Op)
    | SwapWord(op: Op, expectedWord: Bits, desiredWord: Bits)
    | RetryStore(op: Op, expectedWord: Bits)
    | Done(result: Result)

  datatype State = State(word: Bits, threads: map<Tid, Pc>)

  /** The compare-exchange of the whole word is weak. */
  datatype Action = Invoke(op: Op) | Internal(spurious: bool) | Return(result: Result)

  datatype Move = Move(t: Tid, a: Action)

  /** The objects that share the word. */
  ghost predicate Layout(p: Platform, lanes: set<Lane>) {
    && (forall l :: l in lanes ==> ValidLane(p, l))
    && (forall l, m :: l in lanes && m in lanes && l != m ==> Disjoint(l, m))
  }

  ghost predicate ValidOp(lanes: set<Lane>, op: Op) {
    && op.l in lanes
    && (op.Cas? ==> |op.expected| == |op.desired| == 8 * op.l.size)
    && (op.Store? ==> |op.v| == 8 * op.l.size)
  }

  ghost predicate Enabled(lanes: set<Lane>, s: State, m: Move) {
    match m.a
    case Invoke(op) => m.t !in s.threads && ValidOp(lanes, op)
    case Internal(_) => m.t in s.threads && !s.threads[m.t].Done?
    case Return(result) => m.t in s.threads && s.threads[m.t] == Done(result)
  }

  /** The sizes fit. */
  ghost predicate Safe(p: Platform, lanes: set<Lane>, s: State, pc: Pc) {
    && |s.word| == 8 * p.bytes
    && (!pc.Done? ==> ValidOp(lanes, pc.op) && ValidLane(p, pc.op.l))
    && (pc.SwapWord? ==> pc.op.Cas? && |pc.expectedWord| == |pc.desiredWord| == 8 * p.bytes)
    && (pc.RetryStore? ==> pc.op.Store? && |pc.expectedWord| == 8 * p.bytes)
  }

  /** One access to the word. */
  ghost function Advance(p: Platform, lanes: set<Lane>, s: State, t: Tid, spurious: bool): State
    requires t in s.threads && !s.threads[t].Done? && Safe(p, lanes, s, s.threads[t])
  {
    match s.threads[t]
    case Begin(Load(l)) => s.(threads := s.threads[t := Done(Loaded(Extract(p, l, s.word)))])
    case Begin(Cas(l, expected, desired)) =>
      var expectedWord := Insert(p, l, s.word, expected);
      InsertLength(p, l, s.word, expected);
      s.(threads := s.threads[t := SwapWord(Cas(l, expected, desired), expectedWord,
                                           Insert(p, l, expectedWord, desired))])
    case Begin(Store(l, v)) => s.(threads := s.threads[t := RetryStore(Store(l, v), s.word)])
    case SwapWord(op, expectedWord, desiredWord) =>
      if s.word == expectedWord && !spurious then
        State(desiredWord, s.threads[t := Done(Swapped(true, Extract(p, op.l, expectedWord)))])
      else
        s.(threads := s.threads[t := Done(Swapped(false, Extract(p, op.l, s.word)))])
    case RetryStore(op, expectedWord) =>
      if s.word == expectedWord && !spurious then
        State(Insert(p, op.l, expectedWord, op.v), s.threads[t := Done(Stored)])
      else
        s.(threads := s.threads[t := RetryStore(op, s.word)])
  }

  ghost function Next(p: Platform, lanes: set<Lane>, s: State, m: Move): State
    requires Enabled(lanes, s, m) && (m.a.Internal? ==> Safe(p, lanes, s, s.threads[m.t]))
  {
    match m.a
    case Invoke(op) => s.(threads := s.threads[m.t := Begin(op)])
    case Internal(spurious) => Advance(p, lanes, s, m.t, spurious)
    case Return(_) => s.(threads := s.threads - {m.t})
  }

  // ---- Independent cells ----

  datatype SpecPc = Pending(op: Op) | Finished(result: Result)

  datatype Spec = Spec(cells: map<Lane, Bits>, threads: map<Tid, SpecPc>)

  /** The effect of an operation on its own cell; a weak compare-exchange may fail for no reason, but
      never hides the value it saw. */
  ghost predicate Effect(cells: map<Lane, Bits>, op: Op, result: Result, cells': map<Lane, Bits>) {
    && op.l in cells
    && match op
       case Load(l) => result == Loaded(cells[l]) && cells' == cells
       case Store(l, v) => result == Stored && cells' == cells[l := v]
       case Cas(l, expected, desired) =>
         && result.Swapped? && result.observed == cells[l]
         && (result.ok ==> cells[l] == expected)
         && cells' == if result.ok then cells[l := desired] else cells
  }

  ghost predicate SpecStep(s: Spec, m: Move, s': Spec) {
    match m.a
    case Invoke(op) => m.t !in s.threads && s' == s.(threads := s.threads[m.t := Pending(op)])
    case Internal(_) =>
      s' == s || (m.t in s.threads && s.threads[m.t].Pending? && m.t in s'.threads && s'.threads[m.t].Finished?
                  && Effect(s.cells, s.threads[m.t].op, s'.threads[m.t].result, s'.cells)
                  && s'.threads == s.threads[m.t := s'.threads[m.t]])
    case Return(result) =>
      m.t in s.threads && s.threads[m.t] == Finished(result) && s' == s.(threads := s.threads - {m.t})
  }

  ghost function AbsPc(pc: Pc): SpecPc {
    if pc.Done? then Finished(pc.result) else Pending(pc.op)
  }

  ghost function AbsThreads(threads: map<Tid, Pc>): map<Tid, SpecPc> {
    map t | t in threads :: AbsPc(threads[t])
  }

  lemma AbsUpdate(threads: map<Tid, Pc>, t: Tid, pc: Pc)
    ensures AbsThreads(threads[t := pc]) == AbsThreads(threads)[t := AbsPc(pc)]
    ensures AbsThreads(threads - {t}) == AbsThreads(threads) - {t}
    ensures t in threads ==> t in AbsThreads(threads) && AbsThreads(threads)[t] == AbsPc(threads[t])
    ensures t !in threads ==> t !in AbsThreads(threads)
  {
  }

  ghost function Cells(p: Platform, lanes: set<Lane>, word: Bits): map<Lane, Bits>
    requires Layout(p, lanes) && |word| == 8 * p.bytes
  {
    map l | l in lanes :: Extract(p, l, word)
  }

  ghost function Abs(p: Platform, lanes: set<Lane>, s: State): Spec
    requires Layout(p, lanes) && |s.word| == 8 * p.bytes
  {
    Spec(Cells(p, lanes, s.word), AbsThreads(s.threads))
  }

  // ---- Refinement ----

  /** What a thread in the middle of a compare-exchange has prepared. */
  ghost predicate Local(p: Platform, lanes: set<Lane>, s: State, pc: Pc) {
    && Safe(p, lanes, s, pc)
    && (pc.SwapWord? ==> pc.expectedWord == Insert(p, pc.op.l, pc.expectedWord, pc.op.expected)
                         && pc.desiredWord == Insert(p, pc.op.l, pc.expectedWord, pc.op.desired))
  }

  ghost predicate Inv(p: Platform, lanes: set<Lane>, s: State) {
    && Layout(p, lanes) && |s.word| == 8 * p.bytes
    && forall t :: t in s.threads ==> Local(p, lanes, s, s.threads[t])
  }

  /** Writing one object leaves every other cell as it is at that instant. */
  lemma InsertIsOneCell(p: Platform, lanes: set<Lane>, word: Bits, l: Lane, x: Bits)
    requires Layout(p, lanes) && |word| == 8 * p.bytes && l in lanes && |x| == 8 * l.size
    ensures |Insert(p, l, word, x)| == |word|
    ensures Cells(p, lanes, Insert(p, l, word, x)) == Cells(p, lanes, word)[l := x]
  {
    InsertLength(p, l, word, x);
    InsertThenExtract(p, l, word, x);
    forall m | m in lanes && m != l
      ensures Extract(p, m, Insert(p, l, word, x)) == Extract(p, m, word)
    {
      InsertKeepsOtherLanes(p, l, m, word, x);
    }
    hide Insert, Extract;
  }

  ghost predicate RefinesAccess(p: Platform, lanes: set<Lane>, s: State, t: Tid, s': State)
    requires Inv(p, lanes, s) && t in s.threads && !s.threads[t].Done?
  {
    && |s'.word| == |s.word| && t in s'.threads && s'.threads == s.threads[t := s'.threads[t]]
    && Local(p, lanes, s', s'.threads[t])
    && if s'.threads[t].Done? then
         Effect(Cells(p, lanes, s.word), s.threads[t].op, s'.threads[t].result, Cells(p, lanes, s'.word))
       else s'.threads[t].op == s.threads[t].op && s'.word == s.word
  }

  lemma BeginRefines(p: Platform, lanes: set<Lane>, s: State, t: Tid, spurious: bool)
    requires Inv(p, lanes, s) && t in s.threads && s.threads[t].Begin?
    ensures RefinesAccess(p, lanes, s, t, Advance(p, lanes, s, t, spurious))
  {
  }

  lemma SwapRefines(p: Platform, lanes: set<Lane>, s: State, t: Tid, spurious: bool)
    requires Inv(p, lanes, s) && t in s.threads && s.threads[t].SwapWord?
    ensures RefinesAccess(p, lanes, s, t, Advance(p, lanes, s, t, spurious))
  {
    var pc := s.threads[t];
    InsertIsOneCell(p, lanes, pc.expectedWord, pc.op.l, pc.op.desired);
    SameNeighbours(p, pc.op.l, pc.expectedWord, pc.op.expected);
    hide Insert, Extract;
  }

  lemma StoreRefines(p: Platform, lanes: set<Lane>, s: State, t: Tid, spurious: bool)
    requires Inv(p, lanes, s) && t in s.threads && s.threads[t].RetryStore?
    ensures RefinesAccess(p, lanes, s, t, Advance(p, lanes, s, t, spurious))
  {
    var pc := s.threads[t];
    InsertIsOneCell(p, lanes, pc.expectedWord, pc.op.l, pc.op.v);
    hide Insert, Extract;
  }

  /** What one access by `t` does, seen through the cells. */
  lemma AdvanceRefines(p: Platform, lanes: set<Lane>, s: State, t: Tid, spurious: bool)
    requires Inv(p, lanes, s) && t in s.threads && !s.threads[t].Done?
    ensures RefinesAccess(p, lanes, s, t, Advance(p, lanes, s, t, spurious))
  {
    hide RefinesAccess, Advance;
    match s.threads[t]
    case Begin(_) => BeginRefines(p, lanes, s, t, spurious);
    case SwapWord(_, _, _) => SwapRefines(p, lanes, s, t, spurious);
    case RetryStore(_, _) => StoreRefines(p, lanes, s, t, spurious);
  }

  /** An access changes at most the bits of its own object: all other bits of the word, also those that
      belong to no object, stay as they are at that instant. */
  lemma AdvanceWritesOneLane(p: Platform, lanes: set<Lane>, s: State, t: Tid, spurious: bool)
    requires Inv(p, lanes, s) && t in s.threads && !s.threads[t].Done?
    ensures var word', l := Advance(p, lanes, s, t, spurious).word, s.threads[t].op.l;
            |word'| == |s.word| && word' == Insert(p, l, s.word, Extract(p, l, word'))
  {
    var pc := s.threads[t];
    ExtractThenInsert(p, pc.op.l, s.word);
    if pc.SwapWord? {
      InsertLength(p, pc.op.l, s.word, pc.op.desired);
      InsertThenExtract(p, pc.op.l, s.word, pc.op.desired);
    } else if pc.RetryStore? {
      InsertLength(p, pc.op.l, s.word, pc.op.v);
      InsertThenExtract(p, pc.op.l, s.word, pc.op.v);
    }
    hide Insert, Extract;
  }

  lemma InternalKeepsInv(p: Platform, lanes: set<Lane>, s: State, t: Tid, spurious: bool)
    requires Inv(p, lanes, s) && t in s.threads && !s.threads[t].Done?
    ensures Inv(p, lanes, Advance(p, lanes, s, t, spurious))
  {
    AdvanceRefines(p, lanes, s, t, spurious);
    hide Advance, Cells, Effect, Layout, Insert, Extract, ValidOp, ValidLane;
  }

  lemma InternalRefines(p: Platform, lanes: set<Lane>, s: State, t: Tid, spurious: bool)
    requires Inv(p, lanes, s) && t in s.threads && !s.threads[t].Done?
    ensures var s', a := Advance(p, lanes, s, t, spurious), Internal(spurious);
            Inv(p, lanes, s') && SpecStep(Abs(p, lanes, s), Move(t, a), Abs(p, lanes, s'))
  {
    InternalKeepsInv(p, lanes, s, t, spurious);
    AdvanceRefines(p, lanes, s, t, spurious);
    var s' := Advance(p, lanes, s, t, spurious);
    AbsUpdate(s.threads, t, s'.threads[t]);
    hide Advance, Cells, Effect, Layout, Local, AbsThreads;
    if !s'.threads[t].Done? {
      assert AbsThreads(s.threads)[t := AbsPc(s.threads[t])] == AbsThreads(s.threads);
    }
  }

  lemma StepRefines(p: Platform, lanes: set<Lane>, s: State, m: Move)
    requires Inv(p, lanes, s) && Enabled(lanes, s, m)
    ensures m.a.Internal? ==> Safe(p, lanes, s, s.threads[m.t])
    ensures var s' := Next(p, lanes, s, m);
            Inv(p, lanes, s') && SpecStep(Abs(p, lanes, s), m, Abs(p, lanes, s'))
  {
    if m.a.Internal? {
      hide Advance, Cells, Abs, SpecStep;
      InternalRefines(p, lanes, s, m.t, m.a.spurious);
    } else {
      AbsUpdate(s.threads, m.t, if m.a.Invoke? then Begin(m.a.op) else Done(m.a.result));
      hide Cells, Layout, AbsThreads;
    }
  }

  // ---- Whole runs ----

  ghost predicate IsRun(p: Platform, lanes: set<Lane>, states: seq<State>, moves: seq<Move>) {
    && |states| == |moves| + 1
    && forall i :: 0 <= i < |moves| ==>
         && Enabled(lanes, states[i], moves[i])
         && (moves[i].a.Internal? ==> Safe(p, lanes, states[i], states[i].threads[moves[i].t]))
         && states[i + 1] == Next(p, lanes, states[i], moves[i])
  }

  lemma {:induction false} RunKeepsInv(p: Platform, lanes: set<Lane>, states: seq<State>, moves: seq<Move>, k: nat)
    requires IsRun(p, lanes, states, moves) && Inv(p, lanes, states[0]) && k <= |moves|
    ensures Inv(p, lanes, states[k])
  {
    hide Inv;
    if k > 0 {
      RunKeepsInv(p, lanes, states, moves, k - 1);
      StepRefines(p, lanes, states[k - 1], moves[k - 1]);
    }
  }

  ghost predicate SpecRun(specs: seq<Spec>, moves: seq<Move>) {
    && |specs| == |moves| + 1
    && forall i :: 0 <= i < |moves| ==> SpecStep(specs[i], moves[i], specs[i + 1])
  }

  /** Sub-word atomics behave as independent cells: every run on the shared word is a run, with the same
      calls and results, of separate cells that start with the values of the objects. */
  lemma RunRefines(p: Platform, lanes: set<Lane>, states: seq<State>, moves: seq<Move>)
    requires IsRun(p, lanes, states, moves) && Layout(p, lanes)
    requires |states[0].word| == 8 * p.bytes && states[0].threads == map[]
    ensures exists specs :: SpecRun(specs, moves) && specs[0] == Spec(Cells(p, lanes, states[0].word), map[])
  {
    forall k | 0 <= k <= |moves|
      ensures Inv(p, lanes, states[k])
    {
      RunKeepsInv(p, lanes, states, moves, k);
    }
    var specs := seq(|moves| + 1, k requires 0 <= k <= |moves| => Abs(p, lanes, states[k]));
    forall i | 0 <= i < |moves|
      ensures SpecStep(specs[i], moves[i], specs[i + 1])
    {
      StepRefines(p, lanes, states[i], moves[i]);
    }
    assert SpecRun(specs, moves);
  }

  // ---- When a compare-exchange succeeds ----

  /** Between move `i` and move `k` thread `t` makes no move. */
  ghost predicate Waits(moves: seq<Move>, t: Tid, i: nat, k: nat) {
    i < k <= |moves| && forall n :: i < n < k ==> moves[n].t != t
  }

  lemma {:induction false} WaitingKeepsPc(p: Platform, lanes: set<Lane>, states: seq<State>, moves: seq<Move>, t: Tid,
                                          i: nat, k: nat)
    requires IsRun(p, lanes, states, moves) && Waits(moves, t, i, k)
    ensures t in states[i + 1].threads <==> t in states[k].threads
    ensures t in states[k].threads ==> states[k].threads[t] == states[i + 1].threads[t]
  {
    if k > i + 1 {
      WaitingKeepsPc(p, lanes, states, moves, t, i, k - 1);
      assert moves[k - 1].t != t && states[k] == Next(p, lanes, states[k - 1], moves[k - 1]);
    }
  }

  /** A compare-exchange that is called by move `i`, loads the word at move `j` and compares it at move `k` succeeds if
      and only if the word is then what was loaded with the expected value in the object, and the compare-exchange of
      the word does not fail for no reason; so it succeeds if the object held the expected value at the load and the
      word has not changed since. Either way it reports what the object holds at move `k`. */
  lemma CasAnswers(p: Platform, lanes: set<Lane>, states: seq<State>, moves: seq<Move>, t: Tid,
                   i: nat, j: nat, k: nat, l: Lane, expected: Bits, desired: Bits)
    requires IsRun(p, lanes, states, moves) && Inv(p, lanes, states[0]) && k < |moves|
    requires Waits(moves, t, i, j) && Waits(moves, t, j, k) && moves[i] == Move(t, Invoke(Cas(l, expected, desired)))
    requires moves[j].t == moves[k].t == t
    ensures ValidLane(p, l) && |states[j].word| == |states[k].word| == 8 * p.bytes && |expected| == 8 * l.size
    ensures moves[k].a.Internal? && t in states[k + 1].threads
    ensures var ok := states[k].word == Insert(p, l, states[j].word, expected) && !moves[k].a.spurious;
            states[k + 1].threads[t] == Done(Swapped(ok, Extract(p, l, states[k].word)))
    ensures Extract(p, l, states[j].word) == expected && states[k].word == states[j].word ==>
              states[k].word == Insert(p, l, states[j].word, expected)
  {
    RunKeepsInv(p, lanes, states, moves, i);
    RunKeepsInv(p, lanes, states, moves, j);
    RunKeepsInv(p, lanes, states, moves, k);
    WaitingKeepsPc(p, lanes, states, moves, t, i, j);
    WaitingKeepsPc(p, lanes, states, moves, t, j, k);
    assert Enabled(lanes, states[i], moves[i]) && Enabled(lanes, states[j], moves[j]);
    assert Enabled(lanes, states[k], moves[k]) && states[k + 1] == Next(p, lanes, states[k], moves[k]);
    ExtractThenInsert(p, l, states[j].word);
    hide Insert, Extract, Layout, Inv;
  }

  // ---- Every operation ends ----

  ghost predicate OneCall(moves: seq<Move>, t: Tid, i: nat, k: nat, op: Op) {
    && i < k <= |moves| && moves[i] == Move(t, Invoke(op))
    && forall j :: i < j < k && moves[j].t == t ==> !moves[j].a.Return?
  }

  /** How many accesses the thread still makes if nothing sends it round again. */
  function StepsLeft(pc: Pc): nat {
    match pc
    case Begin(op) => if op.Load? then 1 else 2
    case Done(_) => 0
    case _ => 1
  }

  predicate FailsSpuriously(s: State, m: Move) {
    && m.a.Internal? && m.a.spurious && m.t in s.threads
    && s.threads[m.t].RetryStore? && s.threads[m.t].expectedWord == s.word
  }

  function Stale(s: State, t: Tid): nat {
    if t in s.threads && s.threads[t].RetryStore? && s.threads[t].expectedWord != s.word then 1 else 0
  }

  ghost function CountSteps(moves: seq<Move>, t: Tid, i: nat, k: nat): nat
    requires i <= k <= |moves|
  {
    if i == k then 0
    else CountSteps(moves, t, i, k - 1) + if moves[k - 1].t == t && moves[k - 1].a.Internal? then 1 else 0
  }

  ghost function CountSpurious(states: seq<State>, moves: seq<Move>, t: Tid, i: nat, k: nat): nat
    requires i <= k <= |moves| < |states|
  {
    if i == k then 0
    else CountSpurious(states, moves, t, i, k - 1)
         + if moves[k - 1].t == t && FailsSpuriously(states[k - 1], moves[k - 1]) then 1 else 0
  }

  /** How often the word has changed, whoever changed it. */
  ghost function CountChanges(states: seq<State>, i: nat, k: nat): nat
    requires i <= k < |states|
  {
    if i == k then 0 else CountChanges(states, i, k - 1) + if states[k].word != states[k - 1].word then 1 else 0
  }

  lemma StepFalls(p: Platform, lanes: set<Lane>, s: State, m: Move, s': State, t: Tid)
    requires Enabled(lanes, s, m) && (m.a.Internal? ==> Safe(p, lanes, s, s.threads[m.t])) && t in s.threads
    requires s' == Next(p, lanes, s, m) && !(m.t == t && m.a.Return?)
    ensures t in s'.threads && (!s'.threads[t].Done? ==> !s.threads[t].Done? && s'.threads[t].op == s.threads[t].op)
    ensures var own := if m.t == t && m.a.Internal? then 1 else 0;
            && (!s.threads[t].Done? && !s.threads[t].op.Store? ==>
                  own + StepsLeft(s'.threads[t]) <= StepsLeft(s.threads[t]))
            && (s.threads[t].Done? ==> own + StepsLeft(s'.threads[t]) == 0)
            && own + StepsLeft(s'.threads[t]) + Stale(s', t)
               <= StepsLeft(s.threads[t]) + Stale(s, t) + (if m.t == t && FailsSpuriously(s, m) then 1 else 0)
                  + if s'.word != s.word then 1 else 0
  {
    hide Insert, Extract;
  }

  /** Every operation ends, whatever the owners of the neighbouring bytes do: a load takes one access, a
      compare-exchange two, and a store two and one more for each of its spurious failures and each change of the
      word in the meantime. */
  lemma {:induction false} StepsAreBounded(p: Platform, lanes: set<Lane>, states: seq<State>, moves: seq<Move>, t: Tid,
                                           i: nat, k: nat, op: Op)
    requires IsRun(p, lanes, states, moves) && OneCall(moves, t, i, k, op)
    ensures t in states[k].threads && (!states[k].threads[t].Done? ==> states[k].threads[t].op == op)
    ensures !op.Store? ==>
              CountSteps(moves, t, i, k) + StepsLeft(states[k].threads[t]) <= if op.Load? then 1 else 2
    ensures CountSteps(moves, t, i, k) + StepsLeft(states[k].threads[t]) + Stale(states[k], t)
            <= 2 + CountSpurious(states, moves, t, i, k) + CountChanges(states, i, k)
  {
    assert Enabled(lanes, states[k - 1], moves[k - 1]) && states[k] == Next(p, lanes, states[k - 1], moves[k - 1]);
    if k > i + 1 {
      StepsAreBounded(p, lanes, states, moves, t, i, k - 1, op);
      StepFalls(p, lanes, states[k - 1], moves[k - 1], states[k], t);
      hide Next, Enabled, Safe, Stale, FailsSpuriously;
    } else {
      assert CountSteps(moves, t, i, i) == CountSpurious(states, moves, t, i, i) == CountChanges(states, i, i) == 0;
    }
  }
}
