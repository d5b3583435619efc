/** The retry loops in the form of the code, run by one thread against a finite script of what the other
    threads do before each of its accesses. */
module AtomicCell {
  import opened Residues
  import opened AtomicArithmetic
  import opened SubWord

  /** The values that others write before the next access, and whether a weak compare-exchange there
      fails for no reason. */
  datatype Turn<T> = Turn(writes: seq<T>, spurious: bool)

  /** What the others write at their next turn. */
  function Others<T>(turns: seq<Turn<T>>): seq<T> {
    if turns == [] then [] else turns[0].writes
  }

  function Rest<T>(turns: seq<Turn<T>>): seq<Turn<T>> {
    if turns == [] then [] else turns[1..]
  }

  /** Whether a weak compare-exchange at the next turn fails for no reason. */
  predicate Spurious<T>(turns: seq<Turn<T>>) {
    turns != [] && turns[0].spurious
  }

  /** What the cell holds after the next turn. */
  function After<T>(trace: seq<T>, turns: seq<Turn<T>>): T
    requires trace != []
  {
    if Others(turns) == [] then trace[|trace| - 1] else Others(turns)[|Others(turns)| - 1]
  }

  /** All that the others write in these turns. */
  function Foreign<T>(turns: seq<Turn<T>>): seq<T> {
    if turns == [] then [] else Foreign(turns[..|turns| - 1]) + turns[|turns| - 1].writes
  }

  /** From one history and script to another only the others have written, in the turns that they had. */
  ghost predicate OnlyOthers<T>(trace: seq<T>, turns: seq<Turn<T>>, trace': seq<T>, turns': seq<Turn<T>>) {
    var n := |turns| - |turns'|;
    n >= 0 && turns' == turns[n..] && trace' == trace + Foreign(turns[..n])
  }

  lemma NoTurnYet<T>(trace: seq<T>, turns: seq<Turn<T>>)
    ensures OnlyOthers(trace, turns, trace, turns) && OnlyOthers(trace, turns, trace + Others(turns), Rest(turns))
  {
    OneMoreTurn(trace, turns, trace, turns);
  }

  lemma OneMoreTurn<T>(trace: seq<T>, turns: seq<Turn<T>>, trace': seq<T>, turns': seq<Turn<T>>)
    requires OnlyOthers(trace, turns, trace', turns')
    ensures OnlyOthers(trace, turns, trace' + Others(turns'), Rest(turns'))
  {
    if turns' != [] {
      var n := |turns| - |turns'|;
      assert turns[..n + 1][..n] == turns[..n];
      assert Rest(turns') == turns[n + 1..];
    }
  }

  class AtomicCell<T(==)> {
    var value: T
    var turns: seq<Turn<T>>
    /** Every value that the cell has held, oldest first. */
    ghost var trace: seq<T>

    ghost predicate Valid()
      reads this
    {
      trace != [] && trace[|trace| - 1] == value
    }

    /** Since `trace0` and `turns0` this thread has written once, `v` over `before`, as the last write of all. */
    ghost predicate WroteOnce(trace0: seq<T>, turns0: seq<Turn<T>>, before: T, v: T)
      reads this
    {
      && |trace| > 1 && trace[|trace| - 2] == before && trace[|trace| - 1] == v
      && OnlyOthers(trace0, turns0, trace[..|trace| - 1], turns)
    }

    constructor (v: T, script: seq<Turn<T>>)
      ensures Valid() && value == v && turns == script && trace == [v]
    {
      value, turns, trace := v, script, [v];
    }

    /** The others take their turn. */
    method Interfere() returns (spurious: bool)
      requires Valid()
      modifies this
      ensures Valid() && trace == old(trace) + Others(old(turns)) && turns == Rest(old(turns))
      ensures spurious <==> Spurious(old(turns))
    {
      spurious := false;
      if turns != [] {
        var turn := turns[0];
        turns, spurious := turns[1..], turn.spurious;
        if turn.writes != [] {
          value := turn.writes[|turn.writes| - 1];
          trace := trace + turn.writes;
        }
      }
    }

    method Load() returns (v: T)
      requires Valid()
      modifies this
      ensures Valid() && v == value
      ensures trace == old(trace) + Others(old(turns)) && turns == Rest(old(turns))
    {
      var _ := Interfere();
      v := value;
    }

    /** The operation that the platform provides: `seen` is every value up to its own instant. */
    method CompareExchangeWeak(expected: T, desired: T) returns (ok: bool, observed: T)
      requires Valid()
      modifies this
      ensures Valid() && turns == Rest(old(turns))
      ensures var seen := old(trace) + Others(old(turns));
              && observed == seen[|seen| - 1]
              && (ok <==> observed == expected && !Spurious(old(turns)))
              && trace == if ok then seen + [desired] else seen
    {
      var spurious := Interfere();
      observed := value;
      ok := value == expected && !spurious;
      if ok {
        value := desired;
        trace := trace + [desired];
      }
    }

    /** Success is one write over the expected value; failure is no write by this call, and `expected` is
        left with the present value, which differs from the one asked for. */
    method CompareExchangeStrong(expected0: T, desired: T) returns (ok: bool, expected: T)
      requires Valid()
      modifies this
      ensures Valid()
      ensures ok ==> expected == expected0 && WroteOnce(old(trace), old(turns), expected0, desired)
      ensures !ok ==> expected != expected0 && value == expected && OnlyOthers(old(trace), old(turns), trace, turns)
    {
      hide OnlyOthers;
      NoTurnYet(trace, turns);
      expected := expected0;
      var expectedSave := expected;
      while true
        invariant Valid() && expected == expectedSave && OnlyOthers(old(trace), old(turns), trace, turns)
        decreases |turns|
      {
        OneMoreTurn(old(trace), old(turns), trace, turns);
        ghost var seen := trace + Others(turns);
        ok, expected := CompareExchangeWeak(expected, desired);
        if ok {
          assert trace[..|trace| - 1] == seen;
          return;
        }
        if expectedSave != expected {
          return;
        }
        expected := expectedSave;
      }
    }

    method Exchange(replacement: T) returns (o: T)
      requires Valid()
      modifies this
      ensures Valid() && WroteOnce(old(trace), old(turns), o, replacement)
    {
      hide OnlyOthers;
      NoTurnYet(trace, turns);
      o := Load();
      var ok := false;
      while !ok
        invariant Valid()
        invariant if ok then WroteOnce(old(trace), old(turns), o, replacement)
                  else OnlyOthers(old(trace), old(turns), trace, turns)
        decreases !ok, |turns|, o != value
      {
        OneMoreTurn(old(trace), old(turns), trace, turns);
        ghost var seen := trace + Others(turns);
        ok, o := CompareExchangeWeak(o, replacement);
        assert ok ==> trace[..|trace| - 1] == seen;
      }
    }

    /** The loop of `fetch_add`, `fetch_and`, `fetch_or` and `fetch_xor`, which differ in `f`. */
    method Fetch(f: T -> T) returns (o: T)
      requires Valid()
      modifies this
      ensures Valid() && WroteOnce(old(trace), old(turns), o, f(o))
    {
      hide OnlyOthers;
      NoTurnYet(trace, turns);
      o := Load();
      var ok := false;
      while !ok
        invariant Valid()
        invariant if ok then WroteOnce(old(trace), old(turns), o, f(o))
                  else OnlyOthers(old(trace), old(turns), trace, turns)
        decreases !ok, |turns|, o != value
      {
        var n := f(o);
        OneMoreTurn(old(trace), old(turns), trace, turns);
        ghost var seen := trace + Others(turns);
        ok, o := CompareExchangeWeak(o, n);
        assert ok ==> trace[..|trace| - 1] == seen;
      }
    }
  }

  method FetchAdd(cell: AtomicCell<nat>, c: int, modulus: nat) returns (o: nat)
    requires cell.Valid() && modulus > 0
    modifies cell
    ensures cell.Valid() && cell.WroteOnce(old(cell.trace), old(cell.turns), o, Residue(o + c, modulus))
  {
    o := cell.Fetch(Adding(c, modulus));
  }

  method FetchSub(cell: AtomicCell<nat>, c: int, modulus: nat) returns (o: nat)
    requires cell.Valid() && modulus > 0
    modifies cell
    ensures cell.Valid() && cell.WroteOnce(old(cell.trace), old(cell.turns), o, Residue(o - c, modulus))
  {
    o := FetchAdd(cell, -c, modulus);
  }

  // ---- An object of one or a few bytes inside the word ----

  /** Whoever writes to the cell writes words. */
  ghost predicate HoldsWords(cell: AtomicCell<Bits>, width: nat)
    reads cell
  {
    && (forall i :: 0 <= i < |cell.trace| ==> |cell.trace[i]| == width)
    && forall i, j :: 0 <= i < |cell.turns| && 0 <= j < |cell.turns[i].writes| ==> |cell.turns[i].writes[j]| == width
  }

  method LoadLane(p: Platform, base: AtomicCell<Bits>, l: Lane) returns (x: Bits)
    requires base.Valid() && ValidLane(p, l) && HoldsWords(base, 8 * p.bytes)
    modifies base
    ensures base.Valid() && HoldsWords(base, 8 * p.bytes)
    ensures OnlyOthers(old(base.trace), old(base.turns), base.trace, base.turns)
    ensures x == Extract(p, l, base.value)
  {
    hide OnlyOthers;
    NoTurnYet(base.trace, base.turns);
    var v := base.Load();
    x := Extract(p, l, v);
  }

  /** The weak compare-exchange of the whole word, as one more step of a call that began at `trace0`. */
  method SwapWord(base: AtomicCell<Bits>, width: nat, ghost trace0: seq<Bits>, ghost turns0: seq<Turn<Bits>>,
                  expected: Bits, desired: Bits)
    returns (ok: bool, observed: Bits)
    requires base.Valid() && HoldsWords(base, width) && |desired| == width
    requires OnlyOthers(trace0, turns0, base.trace, base.turns)
    modifies base
    ensures base.Valid() && HoldsWords(base, width) && |observed| == width
    ensures observed == After(old(base.trace), old(base.turns))
    ensures ok <==> observed == expected && !Spurious(old(base.turns))
    ensures if ok then observed == expected && base.WroteOnce(trace0, turns0, expected, desired)
            else observed == base.value && OnlyOthers(trace0, turns0, base.trace, base.turns)
    ensures if old(base.turns) == [] then
              base.turns == [] && (ok <==> old(base.value) == expected) && (!ok ==> base.value == old(base.value))
            else |base.turns| < |old(base.turns)|
  {
    hide OnlyOthers;
    OneMoreTurn(trace0, turns0, base.trace, base.turns);
    ghost var seen := base.trace + Others(base.turns);
    assert forall i :: 0 <= i < |seen| ==> |seen[i]| == width;
    ok, observed := base.CompareExchangeWeak(expected, desired);
    assert ok ==> base.trace[..|base.trace| - 1] == seen;
  }

  /** A weak compare-exchange of the object: success writes once, the bytes of the object over the word as it was at
      that instant; failure writes nothing and reports what the object then held. It succeeds unless it fails for no
      reason, the object holds another value, or a neighbour has written since the word was loaded. */
  method CompareExchangeWeakLane(p: Platform, base: AtomicCell<Bits>, l: Lane, expected0: Bits, desired: Bits)
    returns (ok: bool, expected: Bits)
    requires base.Valid() && ValidLane(p, l) && HoldsWords(base, 8 * p.bytes)
    requires |expected0| == |desired| == 8 * l.size
    modifies base
    ensures base.Valid() && HoldsWords(base, 8 * p.bytes)
    ensures ok ==> expected == expected0 && |base.trace| > 1
                   && var before := base.trace[|base.trace| - 2];
                      && |before| == 8 * p.bytes && Extract(p, l, before) == expected0
                      && base.WroteOnce(old(base.trace), old(base.turns), before, Insert(p, l, before, desired))
    ensures !ok ==> expected == Extract(p, l, base.value)
                    && OnlyOthers(old(base.trace), old(base.turns), base.trace, base.turns)
    ensures var trace, rest := old(base.trace) + Others(old(base.turns)), Rest(old(base.turns));
            && |After(old(base.trace), old(base.turns))| == 8 * p.bytes
            && (ok <==> After(trace, rest) == Insert(p, l, After(old(base.trace), old(base.turns)), expected0)
                        && !Spurious(rest))
    ensures old(base.turns) == [] && Extract(p, l, old(base.value)) == expected0 ==> ok
  {
    hide Insert, Extract, ValidLane, OnlyOthers;
    NoTurnYet(base.trace, base.turns);
    var expectedWord := base.Load();
    ExtractThenInsert(p, l, expectedWord);
    InsertThenExtract(p, l, expectedWord, expected0);
    InsertLength(p, l, expectedWord, expected0);
    expectedWord := Insert(p, l, expectedWord, expected0);
    var desiredWord := Insert(p, l, expectedWord, desired);
    InsertLength(p, l, expectedWord, desired);
    ok, expectedWord := SwapWord(base, 8 * p.bytes, old(base.trace), old(base.turns), expectedWord, desiredWord);
    expected := Extract(p, l, expectedWord);
  }

  /** A store of the object writes once, the bytes of the object over the word as it was at that instant. */
  method StoreLane(p: Platform, base: AtomicCell<Bits>, l: Lane, v: Bits)
    requires base.Valid() && ValidLane(p, l) && HoldsWords(base, 8 * p.bytes) && |v| == 8 * l.size
    modifies base
    ensures base.Valid() && HoldsWords(base, 8 * p.bytes) && |base.trace| > 1
    ensures var before := base.trace[|base.trace| - 2];
            && |before| == 8 * p.bytes
            && base.WroteOnce(old(base.trace), old(base.turns), before, Insert(p, l, before, v))
  {
    hide Insert, ValidLane, OnlyOthers;
    NoTurnYet(base.trace, base.turns);
    var expected := base.Load();
    assert |expected| == 8 * p.bytes && HoldsWords(base, 8 * p.bytes);
    hide HoldsWords;
    var ok := false;
    while !ok
      invariant base.Valid() && HoldsWords(base, 8 * p.bytes) && |expected| == 8 * p.bytes
      invariant if ok then base.WroteOnce(old(base.trace), old(base.turns), expected, Insert(p, l, expected, v))
                else OnlyOthers(old(base.trace), old(base.turns), base.trace, base.turns)
      decreases !ok, |base.turns|, expected != base.value
    {
      var desired := Insert(p, l, expected, v);
      InsertLength(p, l, expected, v);
      ok, expected := SwapWord(base, 8 * p.bytes, old(base.trace), old(base.turns), expected, desired);
    }
  }
}
