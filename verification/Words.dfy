/** Bits of a 64-bit word, addressed by position. */
module Words {
  /** A bit position as a shift count. */
  function ShiftCount(i: nat): (b: bv8)
    ensures (i < 2 ==> b < 2) && (i < 4 ==> b < 4) && (i < 8 ==> b < 8)
    ensures (i < 16 ==> b < 16) && (i < 32 ==> b < 32) && (i < 64 ==> b < 64)
  {
    if i == 0 then 0 else ShiftCount(i / 2) + ShiftCount(i / 2) + if i % 2 == 1 then 1 else 0
  }

  lemma DoubledEqual(x: bv8, y: bv8, a: bool, b: bool)
    requires x < 64 && y < 64
    requires x + x + (if a then 1 else 0) == y + y + (if b then 1 else 0)
    ensures x == y && a == b
  {
  }

  lemma {:induction false} ShiftCountInjective(i: nat, j: nat)
    requires i < 64 && j < 64 && ShiftCount(i) == ShiftCount(j)
    ensures i == j
  {
    if i > 0 || j > 0 {
      DoubledEqual(ShiftCount(i / 2), ShiftCount(j / 2), i % 2 == 1, j % 2 == 1);
      ShiftCountInjective(i / 2, j / 2);
    }
  }

  function Mask(shift: bv8): bv64
    requires shift < 64
  {
    (1 as bv64) << shift
  }

  function Union(a: bv64, b: bv64): bv64 { a | b }

  predicate Meets(a: bv64, b: bv64) { a & b != 0 }

  predicate BitOf(w: bv64, i: nat)
    requires i < 64
  {
    Meets(w, Mask(ShiftCount(i)))
  }

  lemma UnionKeeps(a: bv64, b: bv64, m: bv64)
    requires Meets(a, m) || Meets(b, m)
    ensures Meets(Union(a, b), m)
  {
    UnionDistributes(a, b, m);
    OrZero(a & m, b & m);
  }

  lemma UnionAddsNothing(a: bv64, b: bv64, m: bv64)
    requires !Meets(a, m) && !Meets(b, m)
    ensures !Meets(Union(a, b), m)
  {
    UnionDistributes(a, b, m);
    OrZero(a & m, b & m);
  }

  lemma UnionDistributes(a: bv64, b: bv64, m: bv64)
    ensures Union(a, b) & m == (a & m) | (b & m)
  {
  }

  lemma OrZero(x: bv64, y: bv64)
    ensures x | y == 0 <==> x == 0 && y == 0
  {
  }

  lemma ShiftsMeet(a: bv8, b: bv8)
    requires a < 64 && b < 64
    ensures Meets(Mask(a), Mask(b)) <==> a == b
  {
  }

  lemma ShiftedBits(w: bv64, a: bv8, b: bv8)
    requires a < 64 && b < 64
    ensures Meets(Union(w, Mask(a)), Mask(b)) <==> a == b || Meets(w, Mask(b))
  {
    hide Union, Meets, Mask;
    ShiftsMeet(a, b);
    UnionMeets(w, Mask(a), Mask(b));
  }

  lemma UnionMeets(a: bv64, b: bv64, m: bv64)
    ensures Meets(Union(a, b), m) <==> Meets(a, m) || Meets(b, m)
  {
    hide Meets, Union;
    if Meets(a, m) || Meets(b, m) {
      UnionKeeps(a, b, m);
    } else {
      UnionAddsNothing(a, b, m);
    }
  }

  /** Or-ing in one mask sets that bit and no other. */
  lemma SetBit(w: bv64, i: nat, j: nat)
    requires i < 64 && j < 64
    ensures BitOf(Union(w, Mask(ShiftCount(i))), j) <==> i == j || BitOf(w, j)
  {
    hide Mask, Union, Meets, ShiftCount;
    if ShiftCount(i) == ShiftCount(j) {
      ShiftCountInjective(i, j);
    }
    ShiftedBits(w, ShiftCount(i), ShiftCount(j));
  }

  lemma UnionBit(a: bv64, b: bv64, i: nat)
    requires i < 64
    ensures BitOf(Union(a, b), i) <==> BitOf(a, i) || BitOf(b, i)
  {
    hide Mask, Union, Meets, ShiftCount;
    UnionMeets(a, b, Mask(ShiftCount(i)));
  }
}
