/** What the synthesised atomic operations return, and what they leave, over any run. */
module AtomicRuns {
  import opened AtomicMachine

  /** Between move `i` and move `k` thread `t` is inside one call. */
  ghost predicate OneCall<T>(moves: seq<Move<T>>, t: Tid, i: nat, k: nat, call: Call<T>) {
    && i < k <= |moves| && moves[i] == Move(t, Invoke(call))
    && forall j :: i < j < k && moves[j].t == t ==> !moves[j].a.Return?
  }

  /** Move `j` is the only one between `i` and `k` at which a compare-exchange of `t` succeeds. */
  ghost predicate SucceedsOnceAt<T>(states: seq<State<T>>, moves: seq<Move<T>>, t: Tid, i: nat, k: nat, j: nat)
    requires IsRun(states, moves) && k <= |moves|
  {
    && i < j < k && moves[j].t == t && Succeeds(states[j], moves[j])
    && forall j' :: i < j' < k && j' != j && moves[j'].t == t ==> !Succeeds(states[j'], moves[j'])
  }

  ghost predicate NeverSucceeds<T>(states: seq<State<T>>, moves: seq<Move<T>>, t: Tid, i: nat, k: nat)
    requires IsRun(states, moves) && k <= |moves|
  {
    forall j :: i < j < k && moves[j].t == t ==> !Succeeds(states[j], moves[j])
  }

  /** What a call other than a strong compare-exchange leaves in the cell where it finds `o`. */
  ghost predicate Leaves<T>(call: Call<T>, o: T, v: T) {
    match call
    case Exchange(replacement) => v == replacement
    case Fetch(f) => v == f(o)
    case Strong(_, _) => false
  }

  /** What a result says about the run between `i` and `k`. */
  ghost predicate Justified<T>(states: seq<State<T>>, moves: seq<Move<T>>, t: Tid, i: nat, k: nat, call: Call<T>,
                               result: Result<T>)
    requires IsRun(states, moves) && k <= |moves|
  {
    match result
    case Fetched(o) =>
      exists j: nat :: SucceedsOnceAt(states, moves, t, i, k, j)
                       && states[j].cell == o && Leaves(call, o, states[j + 1].cell)
    case Swapped(ok, observed) =>
      && call.Strong?
      && if ok then
           observed == call.expected
           && exists j: nat :: SucceedsOnceAt(states, moves, t, i, k, j)
                          && states[j].cell == call.expected && states[j + 1].cell == call.desired
         else
           && NeverSucceeds(states, moves, t, i, k) && observed != call.expected
           && exists j: nat :: i < j < k && states[j].cell == observed
  }

  ghost predicate CallSoFar<T>(states: seq<State<T>>, moves: seq<Move<T>>, t: Tid, i: nat, k: nat, call: Call<T>)
    requires IsRun(states, moves) && k <= |moves|
  {
    && t in states[k].threads
    && match states[k].threads[t]
       case Begin(call') => call' == call && NeverSucceeds(states, moves, t, i, k)
       case Swing(call', _) => call' == call && !call.Strong? && NeverSucceeds(states, moves, t, i, k)
       case Done(result) => Justified(states, moves, t, i, k, call, result)
  }

  lemma OtherMoves<T>(states: seq<State<T>>, moves: seq<Move<T>>, t: Tid, i: nat, k: nat, call: Call<T>)
    requires IsRun(states, moves) && OneCall(moves, t, i, k + 1, call)
    requires i < k && CallSoFar(states, moves, t, i, k, call)
    requires moves[k].t != t || moves[k].a.Overwrite?
    ensures CallSoFar(states, moves, t, i, k + 1, call)
  {
    assert states[k + 1] == Next(states[k], moves[k]);
    assert states[k + 1].threads[t] == states[k].threads[t];
  }

  lemma OwnMoves<T>(states: seq<State<T>>, moves: seq<Move<T>>, t: Tid, i: nat, k: nat, call: Call<T>)
    requires IsRun(states, moves) && OneCall(moves, t, i, k + 1, call)
    requires i < k && CallSoFar(states, moves, t, i, k, call)
    requires moves[k].t == t && moves[k].a.Internal?
    ensures CallSoFar(states, moves, t, i, k + 1, call)
  {
  }

  lemma {:induction false} CallSoFarHolds<T>(states: seq<State<T>>, moves: seq<Move<T>>, t: Tid, i: nat, k: nat,
                                             call: Call<T>)
    requires IsRun(states, moves) && OneCall(moves, t, i, k, call)
    ensures CallSoFar(states, moves, t, i, k, call)
  {
    if k == i + 1 {
      assert states[k] == Next(states[i], moves[i]);
    } else {
      CallSoFarHolds(states, moves, t, i, k - 1, call);
      assert Enabled(states[k - 1], moves[k - 1]);
      if moves[k - 1].t == t && !moves[k - 1].a.Overwrite? {
        OwnMoves(states, moves, t, i, k - 1, call);
      } else {
        OtherMoves(states, moves, t, i, k - 1, call);
      }
    }
  }

  /** A call that returns has written exactly once, at an instant at which the cell held the value that it
      returns; a strong compare-exchange that fails has not written, and has seen a value other than the
      one it was asked to replace. */
  lemma ResultIsJustified<T>(states: seq<State<T>>, moves: seq<Move<T>>, t: Tid, i: nat, k: nat, call: Call<T>)
    requires IsRun(states, moves) && OneCall(moves, t, i, k, call) && k < |moves|
    requires moves[k].t == t && moves[k].a.Return?
    ensures Justified(states, moves, t, i, k, call, moves[k].a.result)
  {
    CallSoFarHolds(states, moves, t, i, k, call);
    assert Enabled(states[k], moves[k]);
  }

  // ---- Where the writes come from ----

  /** Move `j` is the invocation of `call` by `t`. */
  ghost predicate Invoked<T>(moves: seq<Move<T>>, k: nat, t: Tid, call: Call<T>) {
    exists j :: 0 <= j < k <= |moves| && moves[j] == Move(t, Invoke(call))
  }

  ghost predicate WriteIsInvoked<T>(moves: seq<Move<T>>, k: nat, w: Write<T>) {
    match w
    case By(t, call) => Invoked(moves, k, t, call)
    case Plain(v) => exists j :: 0 <= j < k <= |moves| && moves[j].a == Overwrite(v)
  }

  lemma InvokedLater<T>(moves: seq<Move<T>>, k: nat)
    requires k < |moves|
    ensures forall t, call :: Invoked(moves, k, t, call) ==> Invoked(moves, k + 1, t, call)
    ensures forall w :: WriteIsInvoked(moves, k, w) ==> WriteIsInvoked(moves, k + 1, w)
  {
  }

  /** A thread inside an operation works on a call that was made, and nothing else is written. */
  lemma {:induction false} WritesAreInvoked<T>(states: seq<State<T>>, moves: seq<Move<T>>, k: nat)
    requires IsRun(states, moves) && states[0].threads == map[] && k <= |moves|
    ensures forall t :: t in states[k].threads && !states[k].threads[t].Done? ==>
                          Invoked(moves, k, t, CallOf(states[k].threads[t]))
    ensures forall i :: 0 <= i < |Writes(states, moves, k)| ==> WriteIsInvoked(moves, k, Writes(states, moves, k)[i])
  {
    if k > 0 {
      WritesAreInvoked(states, moves, k - 1);
      InvokedLater(moves, k - 1);
      var s, m, s' := states[k - 1], moves[k - 1], states[k];
      assert Enabled(s, m) && s' == Next(s, m);
      forall t | t in s'.threads && !s'.threads[t].Done?
        ensures Invoked(moves, k, t, CallOf(s'.threads[t]))
      {
        if t in s.threads && !s.threads[t].Done? {
          assert CallOf(s'.threads[t]) == CallOf(s.threads[t]);
        }
      }
      if m.a.Overwrite? {
        assert WriteIsInvoked(moves, k, Plain(m.a.v));
      }
    }
  }

  // ---- Exchanges ----

  /** All calls are exchanges, and nothing else is stored. */
  ghost predicate OnlyExchanges<T>(moves: seq<Move<T>>) {
    forall j :: 0 <= j < |moves| ==>
      match moves[j].a
      case Invoke(call) => call.Exchange?
      case Overwrite(_) => false
      case _ => true
  }

  /** The operands of these writes. */
  ghost function Operands<T>(ws: seq<Write<T>>): seq<T>
    requires forall i :: 0 <= i < |ws| ==> ws[i].By? && ws[i].call.Exchange?
  {
    if ws == [] then [] else Operands(ws[..|ws| - 1]) + [ws[|ws| - 1].call.replacement]
  }

  /** The values that the successful exchanges among the first `k` moves have found in the cell, which are those that
      they return. */
  ghost function Found<T>(states: seq<State<T>>, moves: seq<Move<T>>, k: nat): seq<T>
    requires IsRun(states, moves) && k <= |moves|
  {
    if k == 0 then []
    else Found(states, moves, k - 1) + if Succeeds(states[k - 1], moves[k - 1]) then [states[k - 1].cell] else []
  }

  lemma ExchangesOnly<T>(states: seq<State<T>>, moves: seq<Move<T>>, k: nat)
    requires IsRun(states, moves) && states[0].threads == map[] && k <= |moves| && OnlyExchanges(moves)
    ensures forall i :: 0 <= i < |Writes(states, moves, k)| ==>
              Writes(states, moves, k)[i].By? && Writes(states, moves, k)[i].call.Exchange?
  {
    WritesAreInvoked(states, moves, k);
    var ws := Writes(states, moves, k);
    forall i | 0 <= i < |ws|
      ensures ws[i].By? && ws[i].call.Exchange?
    {
      assert WriteIsInvoked(moves, k, ws[i]);
    }
  }

  /** Exchanges hand over: each finds what the one before it has left, the first finds the start value, and the operand
      of the last is in the cell. No value is lost and none is returned twice. */
  lemma {:induction false} ExchangesHandOver<T>(states: seq<State<T>>, moves: seq<Move<T>>, k: nat) returns (os: seq<T>)
    requires IsRun(states, moves) && states[0].threads == map[] && k <= |moves| && OnlyExchanges(moves)
    ensures forall i :: 0 <= i < |Writes(states, moves, k)| ==>
              Writes(states, moves, k)[i].By? && Writes(states, moves, k)[i].call.Exchange?
    ensures os == Operands(Writes(states, moves, k))
    ensures [states[0].cell] + os == Found(states, moves, k) + [states[k].cell]
  {
    ExchangesOnly(states, moves, k);
    os := [];
    if k > 0 {
      os := ExchangesHandOver(states, moves, k - 1);
      var s, m := states[k - 1], moves[k - 1];
      assert Enabled(s, m) && states[k] == Next(s, m);
      if Succeeds(s, m) {
        var ws := Writes(states, moves, k);
        os := os + [ws[|ws| - 1].call.replacement];
      }
    }
  }

  // ---- Retries ----

  /** This move is a compare-exchange that fails although the cell holds the value it compares with. */
  ghost predicate FailsSpuriously<T>(s: State<T>, m: Move<T>) {
    && m.a.Internal? && m.a.spurious && m.t in s.threads
    && match s.threads[m.t]
       case Begin(call) => call.Strong? && s.cell == call.expected
       case Swing(_, o) => s.cell == o
       case Done(_) => false
  }

  /** This move does not bring its thread to the end: it is an access, other than the first load, after which the thread
      is still at work. */
  ghost predicate Retries<T>(s: State<T>, m: Move<T>, s': State<T>) {
    && m.a.Internal? && m.t in s.threads && m.t in s'.threads && !s'.threads[m.t].Done?
    && !(s.threads[m.t].Begin? && !s.threads[m.t].call.Strong? && s'.threads[m.t].Swing?)
  }

  ghost function CountRetries<T>(states: seq<State<T>>, moves: seq<Move<T>>, t: Tid, i: nat, k: nat): nat
    requires IsRun(states, moves) && i <= k <= |moves|
  {
    if i == k then 0
    else CountRetries(states, moves, t, i, k - 1)
         + if moves[k - 1].t == t && Retries(states[k - 1], moves[k - 1], states[k]) then 1 else 0
  }

  ghost function CountSpurious<T>(states: seq<State<T>>, moves: seq<Move<T>>, t: Tid, i: nat, k: nat): nat
    requires IsRun(states, moves) && i <= k <= |moves|
  {
    if i == k then 0
    else CountSpurious(states, moves, t, i, k - 1)
         + if moves[k - 1].t == t && FailsSpuriously(states[k - 1], moves[k - 1]) then 1 else 0
  }

  /** The value that `t` will compare with is out of date, which takes a write. */
  ghost function Stale<T>(s: State<T>, t: Tid): nat {
    if t in s.threads && s.threads[t].Swing? && s.threads[t].o != s.cell then 1 else 0
  }

  /** Lock-freedom, counted: a thread goes round its loop at most once for each of its spurious failures
      and once for each write to the cell in the meantime. */
  lemma {:induction false} RetriesAreBounded<T>(states: seq<State<T>>, moves: seq<Move<T>>, t: Tid, i: nat, k: nat)
    requires IsRun(states, moves) && i <= k <= |moves| && t !in states[i].threads
    ensures CountRetries(states, moves, t, i, k) + Stale(states[k], t)
            <= CountSpurious(states, moves, t, i, k) + |Writes(states, moves, k)| - |Writes(states, moves, i)|
  {
    if i < k {
      RetriesAreBounded(states, moves, t, i, k - 1);
      assert Enabled(states[k - 1], moves[k - 1]) && states[k] == Next(states[k - 1], moves[k - 1]);
    }
  }

  /** How many accesses `t` has made. */
  ghost function CountSteps<T>(moves: seq<Move<T>>, t: Tid, i: nat, k: nat): nat
    requires i <= k <= |moves|
  {
    if i == k then 0
    else CountSteps(moves, t, i, k - 1) + if moves[k - 1].t == t && moves[k - 1].a.Internal? then 1 else 0
  }

  /** How many accesses a thread still makes if nothing sends it round again. */
  ghost function StepsLeft<T>(pc: Pc<T>): nat {
    match pc
    case Begin(call) => if call.Strong? then 1 else 2
    case Swing(_, _) => 1
    case Done(_) => 0
  }

  /** A call makes two accesses, and one more for each of its retries. */
  lemma {:induction false} StepsAreRetries<T>(states: seq<State<T>>, moves: seq<Move<T>>, t: Tid, i: nat, k: nat,
                                              call: Call<T>)
    requires IsRun(states, moves) && OneCall(moves, t, i, k, call)
    ensures t in states[k].threads
    ensures CountSteps(moves, t, i, k) + StepsLeft(states[k].threads[t])
            <= (if call.Strong? then 1 else 2) + CountRetries(states, moves, t, i, k)
  {
    assert Enabled(states[k - 1], moves[k - 1]) && states[k] == Next(states[k - 1], moves[k - 1]);
    if k > i + 1 {
      StepsAreRetries(states, moves, t, i, k - 1, call);
    } else {
      assert CountSteps(moves, t, i, i) == CountRetries(states, moves, t, i, i) == 0;
    }
  }

  /** Every call ends: after two accesses (a strong compare-exchange: after one), and one more for each of its spurious
      failures and for each write to the cell in the meantime, it has its result. */
  lemma StepsAreBounded<T>(states: seq<State<T>>, moves: seq<Move<T>>, t: Tid, i: nat, k: nat, call: Call<T>)
    requires IsRun(states, moves) && OneCall(moves, t, i, k, call)
    ensures t in states[k].threads
    ensures CountSteps(moves, t, i, k) + (if states[k].threads[t].Done? then 0 else 1)
            <= (if call.Strong? then 1 else 2) + CountSpurious(states, moves, t, i, k)
               + |Writes(states, moves, k)| - |Writes(states, moves, i)|
  {
    assert Enabled(states[i], moves[i]);
    StepsAreRetries(states, moves, t, i, k, call);
    RetriesAreBounded(states, moves, t, i, k);
  }
}
