/** Single-bit masks of a 32-bit word: what setting or clearing bit i does to every bit j. */
module Bits {

  /** The C expression `1<<b`, for b below 32. */
  function Mask(b: nat): bv32 {
    if b == 0 then 1 else Mask(b - 1) + Mask(b - 1)
  }

  predicate Hit(w: bv32, m: bv32) {
    w & m != 0
  }

  predicate Bit(w: bv32, b: nat) {
    Hit(w, Mask(b))
  }

  /** No mask below bit 31 is the top bit, so doubling it does not overflow. */
  lemma {:induction false} MaskTable(b: nat)
    requires b < 31
    ensures Mask(b) != 0x8000_0000
  {
    assert Mask(0) == 0x1 && Mask(1) == 0x2 && Mask(2) == 0x4 && Mask(3) == 0x8;
    assert Mask(4) == 0x10 && Mask(5) == 0x20 && Mask(6) == 0x40 && Mask(7) == 0x80;
    assert Mask(8) == 0x100 && Mask(9) == 0x200 && Mask(10) == 0x400 && Mask(11) == 0x800;
    assert Mask(12) == 0x1000 && Mask(13) == 0x2000 && Mask(14) == 0x4000 && Mask(15) == 0x8000;
    assert Mask(16) == 0x10000 && Mask(17) == 0x20000 && Mask(18) == 0x40000 && Mask(19) == 0x80000;
    assert Mask(20) == 0x100000 && Mask(21) == 0x200000 && Mask(22) == 0x400000 && Mask(23) == 0x800000;
    assert Mask(24) == 0x1000000 && Mask(25) == 0x2000000 && Mask(26) == 0x4000000 && Mask(27) == 0x8000000;
    assert Mask(28) == 0x10000000 && Mask(29) == 0x20000000 && Mask(30) == 0x40000000;
  }

  lemma Doubling(x: bv32, m: bv32)
    requires m != 0 && m & (m - 1) == 0 && m != 0x8000_0000
    ensures m + m != 0 && (m + m) & (m + m - 1) == 0
    ensures x == m || x & (m - 1) == x ==> x & (m + m - 1) == x && x & (m + m) == 0 && (m + m) & x == 0
  {}

  lemma {:induction false} MaskIsPower(b: nat)
    requires b < 32
    ensures Mask(b) != 0 && Mask(b) & (Mask(b) - 1) == 0
  {
    if b > 0 {
      MaskIsPower(b - 1);
      MaskTable(b - 1);
      Doubling(Mask(b - 1), Mask(b - 1));
    }
  }

  lemma {:induction false} MaskBelow(i: nat, j: nat)
    requires i < j < 32
    ensures Mask(i) & (Mask(j) - 1) == Mask(i)
    ensures Mask(i) & Mask(j) == 0 && Mask(j) & Mask(i) == 0
  {
    if i < j - 1 {
      MaskBelow(i, j - 1);
    }
    MaskIsPower(j - 1);
    MaskTable(j - 1);
    Doubling(Mask(i), Mask(j - 1));
  }

  /** Distinct bits have disjoint masks. */
  lemma MasksDisjoint(i: nat, j: nat, x: bv32, m: bv32)
    requires i < 32 && j < 32 && i != j && x == Mask(i) && m == Mask(j)
    ensures x & m == 0
  {
    if i < j {
      MaskBelow(i, j);
    } else {
      MaskBelow(j, i);
    }
  }

  lemma SetSame(w: bv32, m: bv32)
    requires m != 0
    ensures Hit(w | m, m)
  {
    assert (w | m) & m == m;
  }

  lemma ClearSame(w: bv32, m: bv32)
    ensures !Hit(w & !m, m)
  {}

  lemma SetOther(w: bv32, m: bv32, n: bv32)
    requires m & n == 0
    ensures Hit(w | m, n) == Hit(w, n)
  {
    assert (w | m) & n == w & n;
  }

  lemma ClearOther(w: bv32, m: bv32, n: bv32)
    requires m & n == 0
    ensures Hit(w & !m, n) == Hit(w, n)
  {
    assert (w & !m) & n == w & n;
  }

  lemma SetMask(w: bv32, m: bv32, i: nat, j: nat, n: bv32)
    requires i < 32 && j < 32 && m == Mask(i) && n == Mask(j)
    ensures Hit(w | m, n) == (i == j || Hit(w, n))
  {
    hide Hit;
    if i == j {
      MaskIsPower(i);
      SetSame(w, m);
    } else {
      MasksDisjoint(i, j, m, n);
      SetOther(w, m, n);
    }
  }

  lemma ClearMask(w: bv32, m: bv32, i: nat, j: nat, n: bv32)
    requires i < 32 && j < 32 && m == Mask(i) && n == Mask(j)
    ensures Hit(w & !m, n) == (i != j && Hit(w, n))
  {
    hide Hit;
    if i == j {
      ClearSame(w, m);
    } else {
      MasksDisjoint(i, j, m, n);
      ClearOther(w, m, n);
    }
  }

  /** Setting bit i sets bit i and leaves every other bit alone. */
  lemma SetBit(w: bv32, after: bv32, i: nat)
    requires i < 32 && after == w | Mask(i)
    ensures forall j: nat :: j < 32 ==> Bit(after, j) == (i == j || Bit(w, j))
  {
    hide Hit, Mask;
    forall j: nat | j < 32 ensures Bit(after, j) == (i == j || Bit(w, j)) {
      SetMask(w, Mask(i), i, j, Mask(j));
    }
  }

  /** Clearing bit i clears bit i and leaves every other bit alone. */
  lemma ClearBit(w: bv32, after: bv32, i: nat)
    requires i < 32 && after == w & !Mask(i)
    ensures forall j: nat :: j < 32 ==> Bit(after, j) == (i != j && Bit(w, j))
  {
    hide Hit, Mask;
    forall j: nat | j < 32 ensures Bit(after, j) == (i != j && Bit(w, j)) {
      ClearMask(w, Mask(i), i, j, Mask(j));
    }
  }
}
