/** Remainders by a divisor that is not a constant. */
module Residues {

  function Residue(a: int, modulus: nat): nat
    requires modulus > 0
  {
    a % modulus
  }

  lemma MultipleInRange(modulus: int, k: int)
    requires 0 < modulus && -modulus < modulus * k < modulus
    ensures k == 0
  {
  }

  lemma ResidueOfSmall(a: nat, modulus: nat)
    requires a < modulus
    ensures Residue(a, modulus) == a
  {
  }

  /** Reducing one operand of a sum does not change the residue. */
  lemma ResidueOfSum(a: int, b: int, modulus: nat)
    requires modulus > 0
    ensures Residue(Residue(a, modulus) + b, modulus) == Residue(a + b, modulus)
  {
    var q, r := a / modulus, a % modulus;
    var q1, r1, q2, r2 := (r + b) / modulus, (r + b) % modulus, (a + b) / modulus, (a + b) % modulus;
    var k := q + q1 - q2;
    assert modulus * k == r2 - r1 by {
      assert a == modulus * q + r && r + b == modulus * q1 + r1 && a + b == modulus * q2 + r2;
      assert modulus * k == modulus * q + modulus * q1 - modulus * q2;
    }
    MultipleInRange(modulus, k);
  }

  /** Nor does subtracting the modulus once. */
  lemma SubtractOnce(a: int, modulus: nat)
    requires modulus > 0
    ensures Residue(a - modulus, modulus) == Residue(a, modulus)
  {
    var q, r, q1, r1 := a / modulus, a % modulus, (a - modulus) / modulus, (a - modulus) % modulus;
    assert modulus * (q - 1 - q1) == r1 - r by {
      assert a == modulus * q + r && a - modulus == modulus * q1 + r1;
      assert modulus * (q - 1 - q1) == modulus * q - modulus - modulus * q1;
    }
    MultipleInRange(modulus, q - 1 - q1);
  }
}
