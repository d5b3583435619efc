/** The fetch operations as instances of the retry loop, and what any number of them leaves behind. */
module AtomicArithmetic {
  import opened Residues
  import opened AtomicMachine
  import opened AtomicRuns
  import opened SubWord

  // ---- Addition, modulo the number of values of the type ----

  function Adding(c: int, modulus: nat): nat -> nat
    requires modulus > 0
  {
    (o: nat) => Residue(o + c, modulus)
  }

  function FetchAdd(c: int, modulus: nat): Call<nat>
    requires modulus > 0
  {
    Fetch(Adding(c, modulus))
  }

  /** `fetch_sub` adds the negated operand. */
  function FetchSub(c: int, modulus: nat): Call<nat>
    requires modulus > 0
  {
    FetchAdd(-c, modulus)
  }

  function Sum(cs: seq<int>): int {
    if cs == [] then 0 else Sum(cs[..|cs| - 1]) + cs[|cs| - 1]
  }

  /** The writes are `fetch_add` of `cs` or `fetch_sub` of their opposites, in this order. */
  ghost predicate Additions(ws: seq<Write<nat>>, cs: seq<int>, modulus: nat)
    requires modulus > 0
  {
    && |ws| == |cs|
    && forall i :: 0 <= i < |ws| ==>
         && ws[i].By?
         && (ws[i].call == FetchAdd(cs[i], modulus) || ws[i].call == FetchSub(-cs[i], modulus))
  }

  /** Any number of additions and subtractions, by any threads, leave the sum modulo the range of the
      type; none is lost and none counts twice. */
  lemma {:induction false} AdditionsSum(start: nat, ws: seq<Write<nat>>, cs: seq<int>, modulus: nat)
    requires start < modulus && Additions(ws, cs, modulus)
    ensures Fold(start, ws) == Residue(start + Sum(cs), modulus)
  {
    ResidueOfSmall(start, modulus);
    hide Residue;
    if ws != [] {
      var n := |ws| - 1;
      AdditionsSum(start, ws[..n], cs[..n], modulus);
      ResidueOfSum(start + Sum(cs[..n]), cs[n], modulus);
      assert Fold(start, ws) == Adding(cs[n], modulus)(Fold(start, ws[..n]));
    }
  }

  /** The call adds `c` to the cell. */
  ghost predicate Adds(call: Call<nat>, c: int, modulus: nat)
    requires modulus > 0
  {
    call == FetchAdd(c, modulus) || call == FetchSub(-c, modulus)
  }

  /** Every call of the run is a `fetch_add` or a `fetch_sub`, and nobody else writes. */
  ghost predicate OnlyAdds(moves: seq<Move<nat>>, modulus: nat)
    requires modulus > 0
  {
    forall j :: 0 <= j < |moves| ==>
                  !moves[j].a.Overwrite? && (moves[j].a.Invoke? ==> exists c :: Adds(moves[j].a.call, c, modulus))
  }

  lemma WriteAdds(moves: seq<Move<nat>>, k: nat, w: Write<nat>, modulus: nat)
    requires 0 < modulus && OnlyAdds(moves, modulus) && WriteIsInvoked(moves, k, w)
    ensures w.By? && exists c :: Adds(w.call, c, modulus)
  {
    hide Adds;
  }

  /** The counter: in a run in which every call is a `fetch_add` or a `fetch_sub` the cell holds at every instant the
      start value plus the sum of the operands of the calls completed so far. */
  lemma CounterRun(states: seq<State<nat>>, moves: seq<Move<nat>>, k: nat, modulus: nat) returns (cs: seq<int>)
    requires IsRun(states, moves) && k <= |moves| && states[0].cell < modulus && states[0].threads == map[]
    requires OnlyAdds(moves, modulus)
    ensures Additions(Writes(states, moves, k), cs, modulus)
    ensures states[k].cell == Residue(states[0].cell + Sum(cs), modulus)
  {
    var ws := Writes(states, moves, k);
    WritesAreInvoked(states, moves, k);
    CellIsFold(states, moves, k);
    hide Residue, Writes, Fold, Sum, IsRun, Adds, OnlyAdds, WriteIsInvoked;
    cs := OperandsOf(moves, k, ws, modulus);
    AdditionsSum(states[0].cell, ws, cs, modulus);
  }

  lemma OperandsOf(moves: seq<Move<nat>>, k: nat, ws: seq<Write<nat>>, modulus: nat) returns (cs: seq<int>)
    requires 0 < modulus && OnlyAdds(moves, modulus)
    requires forall i :: 0 <= i < |ws| ==> WriteIsInvoked(moves, k, ws[i])
    ensures Additions(ws, cs, modulus)
  {
    hide OnlyAdds, WriteIsInvoked;
    cs := [];
    while |cs| < |ws|
      invariant |cs| <= |ws| && Additions(ws[..|cs|], cs, modulus)
    {
      WriteAdds(moves, k, ws[|cs|], modulus);
      var c :| Adds(ws[|cs|].call, c, modulus);
      cs := cs + [c];
    }
  }

  // ---- Bitwise operations ----

  function Oring(c: Bits): Bits -> Bits {
    (o: Bits) => seq(|o|, i requires 0 <= i < |o| => o[i] || (i < |c| && c[i]))
  }

  function Anding(c: Bits): Bits -> Bits {
    (o: Bits) => seq(|o|, i requires 0 <= i < |o| => o[i] && i < |c| && c[i])
  }

  function Xoring(c: Bits): Bits -> Bits {
    (o: Bits) => seq(|o|, i requires 0 <= i < |o| => o[i] != (i < |c| && c[i]))
  }

  datatype Logic = LogicOr | LogicAnd | LogicXor

  function FetchLogic(op: Logic, c: Bits): Call<Bits> {
    match op
    case LogicOr => Fetch(Oring(c))
    case LogicAnd => Fetch(Anding(c))
    case LogicXor => Fetch(Xoring(c))
  }

  ghost predicate LogicWrites(ws: seq<Write<Bits>>, op: Logic, cs: seq<Bits>, width: nat) {
    && |ws| == |cs|
    && forall i :: 0 <= i < |ws| ==> ws[i].By? && ws[i].call == FetchLogic(op, cs[i]) && |cs[i]| == width
  }

  /** How many of the operands have bit `b` set. */
  function SetCount(cs: seq<Bits>, b: nat): nat {
    if cs == [] then 0
    else SetCount(cs[..|cs| - 1], b) + if b < |cs[|cs| - 1]| && cs[|cs| - 1][b] then 1 else 0
  }

  /** One operation, bit by bit. */
  function OnBit(op: Logic, before: bool, operand: bool): bool {
    match op
    case LogicOr => before || operand
    case LogicAnd => before && operand
    case LogicXor => before != operand
  }

  lemma LogicBit(op: Logic, c: Bits, o: Bits, b: nat)
    requires |c| == |o| && b < |o|
    ensures var r := Replacement(FetchLogic(op, c), o); |r| == |o| && r[b] == OnBit(op, o[b], c[b])
  {
  }

  /** Any number of concurrent `fetch_or` set exactly the bits that one of them names, any number of
      `fetch_and` keep exactly those that all of them name, and `fetch_xor` flips each bit as often as it
      is named: the order of success does not matter. */
  lemma {:induction false} LogicFold(start: Bits, ws: seq<Write<Bits>>, op: Logic, cs: seq<Bits>, b: nat)
    requires LogicWrites(ws, op, cs, |start|) && b < |start|
    ensures |Fold(start, ws)| == |start|
    ensures Fold(start, ws)[b] == Combined(op, start[b], SetCount(cs, b), |cs|)
    ensures SetCount(cs, b) <= |cs|
  {
    if ws != [] {
      var n := |ws| - 1;
      LogicFold(start, ws[..n], op, cs[..n], b);
      var before, count := Fold(start, ws[..n]), SetCount(cs[..n], b);
      assert ws[n].By? && ws[n].call == FetchLogic(op, cs[n]) && |cs[n]| == |start|;
      assert Fold(start, ws) == Written(ws[n], before) == Replacement(FetchLogic(op, cs[n]), before);
      assert SetCount(cs, b) == count + if cs[n][b] then 1 else 0;
      hide *;
      LogicBit(op, cs[n], before, b);
      CombinedStep(op, start[b], count, n, cs[n][b]);
    }
  }

  /** A bit after `n` operations of which `count` have it set in their operand. */
  predicate Combined(op: Logic, start: bool, count: nat, n: nat) {
    match op
    case LogicOr => start || count > 0
    case LogicAnd => start && count == n
    case LogicXor => start != (count % 2 == 1)
  }

  lemma CombinedStep(op: Logic, start: bool, count: nat, n: nat, operand: bool)
    requires count <= n
    ensures OnBit(op, Combined(op, start, count, n), operand)
            == Combined(op, start, count + if operand then 1 else 0, n + 1)
  {
  }

  /** Every call of the run is the same bitwise operation with some operand, and nobody else writes. */
  ghost predicate OnlyLogic(moves: seq<Move<Bits>>, op: Logic, width: nat) {
    forall j :: 0 <= j < |moves| ==>
                  && !moves[j].a.Overwrite?
                  && (moves[j].a.Invoke? ==> exists c :: |c| == width && moves[j].a.call == FetchLogic(op, c))
  }

  lemma WriteIsLogic(moves: seq<Move<Bits>>, k: nat, w: Write<Bits>, op: Logic, width: nat)
    requires OnlyLogic(moves, op, width) && WriteIsInvoked(moves, k, w)
    ensures w.By? && exists c :: |c| == width && w.call == FetchLogic(op, c)
  {
    hide FetchLogic;
  }

  lemma LogicOperandsOf(moves: seq<Move<Bits>>, k: nat, ws: seq<Write<Bits>>, op: Logic, width: nat)
    returns (cs: seq<Bits>)
    requires OnlyLogic(moves, op, width)
    requires forall i :: 0 <= i < |ws| ==> WriteIsInvoked(moves, k, ws[i])
    ensures LogicWrites(ws, op, cs, width)
  {
    hide OnlyLogic, WriteIsInvoked, FetchLogic;
    cs := [];
    while |cs| < |ws|
      invariant |cs| <= |ws| && LogicWrites(ws[..|cs|], op, cs, width)
    {
      WriteIsLogic(moves, k, ws[|cs|], op, width);
      var c :| |c| == width && ws[|cs|].call == FetchLogic(op, c);
      cs := cs + [c];
    }
  }

  /** Flags: in a run in which all calls are `fetch_or` (or all `fetch_and`, or all `fetch_xor`) each bit of the cell
      is, at every instant, what the operands of the completed calls make of it, whatever their order. */
  lemma FlagsRun(states: seq<State<Bits>>, moves: seq<Move<Bits>>, k: nat, op: Logic, b: nat) returns (cs: seq<Bits>)
    requires IsRun(states, moves) && k <= |moves| && b < |states[0].cell| && states[0].threads == map[]
    requires OnlyLogic(moves, op, |states[0].cell|)
    ensures LogicWrites(Writes(states, moves, k), op, cs, |states[0].cell|)
    ensures |states[k].cell| == |states[0].cell|
    ensures states[k].cell[b] == Combined(op, states[0].cell[b], SetCount(cs, b), |cs|)
  {
    var ws := Writes(states, moves, k);
    WritesAreInvoked(states, moves, k);
    CellIsFold(states, moves, k);
    hide Writes, Fold, IsRun, OnlyLogic, WriteIsInvoked, FetchLogic, Combined, SetCount;
    cs := LogicOperandsOf(moves, k, ws, op, |states[0].cell|);
    LogicFold(states[0].cell, ws, op, cs, b);
  }
}
