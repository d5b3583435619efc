/** Strong compare-exchange, exchange and the fetch operations, built from a load and a weak
    compare-exchange of one cell, under any interference: one access to the cell per transition. */
module AtomicMachine {

  type Tid = nat

  /** `Fetch(f)` stands for the operations that replace the value by a function of it. */
  datatype Call<!T> = Strong(expected: T, desired: T) | Exchange(replacement: T) | Fetch(f: T -> T)

  /** `observed` is what a strong compare-exchange leaves in the caller's `expected`. */
  datatype Result<T> = Swapped(ok: bool, observed: T) | Fetched(value: T)

  datatype Pc<!T> =
    | Begin(call: Call<T>)
    | Swing(call: Call<T>, o: T)
    | Done(result: Result<T>)

  datatype State<!T> = State(cell: T, threads: map<Tid, Pc<T>>)

  /** `Overwrite` is a plain store by code that is not a thread of the model. */
  datatype Action<!T> = Invoke(call: Call<T>) | Internal(spurious: bool) | Return(result: Result<T>) | Overwrite(v: T)

  datatype Move<!T> = Move(t: Tid, a: Action<T>)

  ghost predicate Enabled<T>(s: State<T>, m: Move<T>) {
    match m.a
    case Invoke(_) => m.t !in s.threads
    case Internal(_) => m.t in s.threads && !s.threads[m.t].Done?
    case Return(result) => m.t in s.threads && s.threads[m.t] == Done(result)
    case Overwrite(_) => true
  }

  /** The value that a call writes over `o`. */
  function Replacement<T>(call: Call<T>, o: T): T {
    match call
    case Strong(_, desired) => desired
    case Exchange(replacement) => replacement
    case Fetch(f) => f(o)
  }

  /** The weak compare-exchange of this move succeeds. */
  ghost predicate Succeeds<T>(s: State<T>, m: Move<T>) {
    m.a.Internal? && m.t in s.threads && !m.a.spurious
    && match s.threads[m.t]
       case Begin(call) => call.Strong? && s.cell == call.expected
       case Swing(_, o) => s.cell == o
       case Done(_) => false
  }

  /** One access to the cell. The strong form begins with its compare-exchange, and goes round again only
      when the value it saw is the expected one; the others begin with a load. */
  ghost function Advance<T>(s: State<T>, t: Tid, spurious: bool): State<T>
    requires t in s.threads && !s.threads[t].Done?
  {
    match s.threads[t]
    case Begin(call) =>
      if call.Strong? then
        if s.cell == call.expected && !spurious then
          State(call.desired, s.threads[t := Done(Swapped(true, call.expected))])
        else if call.expected != s.cell then s.(threads := s.threads[t := Done(Swapped(false, s.cell))])
        else s
      else
        s.(threads := s.threads[t := Swing(call, s.cell)])
    case Swing(call, o) =>
      if s.cell == o && !spurious then State(Replacement(call, o), s.threads[t := Done(Fetched(o))])
      else s.(threads := s.threads[t := Swing(call, s.cell)])
  }

  ghost function Next<T>(s: State<T>, m: Move<T>): State<T>
    requires Enabled(s, m)
  {
    match m.a
    case Invoke(call) => s.(threads := s.threads[m.t := Begin(call)])
    case Internal(spurious) => Advance(s, m.t, spurious)
    case Return(_) => s.(threads := s.threads - {m.t})
    case Overwrite(v) => s.(cell := v)
  }

  ghost predicate IsRun<T>(states: seq<State<T>>, moves: seq<Move<T>>) {
    && |states| == |moves| + 1
    && forall i :: 0 <= i < |moves| ==> Enabled(states[i], moves[i]) && states[i + 1] == Next(states[i], moves[i])
  }

  // ---- The order of the writes ----

  /** A write to the cell: by a call that succeeds, or by a plain store. */
  datatype Write<!T> = By(t: Tid, call: Call<T>) | Plain(v: T)

  ghost function CallOf<T>(pc: Pc<T>): Call<T>
    requires !pc.Done?
  {
    pc.call
  }

  /** The writes of the first `k` moves, in the order in which they reach the cell. */
  ghost function Writes<T>(states: seq<State<T>>, moves: seq<Move<T>>, k: nat): seq<Write<T>>
    requires IsRun(states, moves) && k <= |moves|
  {
    if k == 0 then []
    else
      var s, m, before := states[k - 1], moves[k - 1], Writes(states, moves, k - 1);
      if m.a.Overwrite? then before + [Plain(m.a.v)]
      else if Succeeds(s, m) then before + [By(m.t, CallOf(s.threads[m.t]))]
      else before
  }

  /** What a write makes of the value before it. */
  function Written<T>(w: Write<T>, before: T): T {
    match w
    case Plain(v) => v
    case By(_, Strong(_, desired)) => desired
    case By(_, Exchange(replacement)) => replacement
    case By(_, Fetch(f)) => f(before)
  }

  /** The value that a sequence of writes leaves: each call is applied to what the previous ones left. */
  ghost function Fold<T>(start: T, ws: seq<Write<T>>): T {
    if ws == [] then start
    else
      Written(ws[|ws| - 1], Fold(start, ws[..|ws| - 1]))
  }

  lemma FoldSnoc<T>(start: T, ws: seq<Write<T>>, w: Write<T>)
    ensures Fold(start, ws + [w]) == Written(w, Fold(start, ws))
  {
  }

  /** At every instant the cell holds its start value with all completed writes applied in the order of
      their success. */
  lemma {:induction false} CellIsFold<T>(states: seq<State<T>>, moves: seq<Move<T>>, k: nat)
    requires IsRun(states, moves) && k <= |moves|
    ensures states[k].cell == Fold(states[0].cell, Writes(states, moves, k))
  {
    if k > 0 {
      CellIsFold(states, moves, k - 1);
      var s, m, before := states[k - 1], moves[k - 1], Writes(states, moves, k - 1);
      if m.a.Overwrite? {
        FoldSnoc(states[0].cell, before, Plain(m.a.v));
      } else if Succeeds(s, m) {
        FoldSnoc(states[0].cell, before, By(m.t, CallOf(s.threads[m.t])));
      }
    }
  }
}
