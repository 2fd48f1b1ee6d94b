// Bitwise operations on naturals, defined bit by bit, and what the masks of the source do.
module Bits {
  import opened Words

  function BitAnd(x: nat, y: nat): nat {
    if x % 2 == 1 && y % 2 == 1 then 1 else 0
  }

  function BitOr(x: nat, y: nat): nat {
    if x % 2 == 1 || y % 2 == 1 then 1 else 0
  }

  function And(a: nat, b: nat): nat
    decreases a
  {
    if a == 0 then 0 else BitAnd(a, b) + 2 * And(a / 2, b / 2)
  }

  function Or(a: nat, b: nat): nat
    decreases a
  {
    if a == 0 then b else BitOr(a, b) + 2 * Or(a / 2, b / 2)
  }

  /** A left shift by `n` bits. */
  function Shl(x: nat, n: nat): nat {
    if n == 0 then x else 2 * Shl(x, n - 1)
  }

  lemma ShlValues(x: nat)
    ensures Shl(x, 4) == 0x10 * x && Shl(x, 8) == 0x100 * x
    ensures Shl(x, 16) == 0x1_0000 * x && Shl(x, 32) == 0x1_0000_0000 * x
    ensures Shl(x, 7) == 0x80 * x && Shl(x, 15) == 0x8000 * x && Shl(x, 31) == 0x8000_0000 * x
  {
    ShlLow(x);
    ShlAdd(x, 8, 7);
    ShlAdd(x, 8, 8);
    ShlLow(Shl(x, 8));
    ShlAdd(x, 16, 15);
    ShlAdd(x, 16, 16);
    ShlAdd(Shl(x, 16), 8, 7);
    ShlAdd(Shl(x, 16), 8, 8);
    ShlLow(Shl(x, 16));
    ShlLow(Shl(Shl(x, 16), 8));
  }

  lemma ShlLow(x: nat)
    ensures Shl(x, 3) == 8 * x && Shl(x, 4) == 16 * x
    ensures Shl(x, 7) == 128 * x && Shl(x, 8) == 256 * x
  {
    assert Shl(x, 1) == 2 * x && Shl(x, 2) == 4 * x;
    assert Shl(x, 5) == 2 * Shl(x, 4) && Shl(x, 6) == 2 * Shl(x, 5) && Shl(x, 7) == 2 * Shl(x, 6);
  }

  lemma {:induction false} ShlAdd(x: nat, i: nat, j: nat)
    ensures Shl(x, i + j) == Shl(Shl(x, i), j)
    decreases j
  {
    if j > 0 {
      ShlAdd(x, i, j - 1);
    }
  }

  lemma {:induction false} AndZero(a: nat)
    ensures And(a, 0) == 0
    decreases a
  {
    if a > 0 {
      AndZero(a / 2);
    }
  }

  lemma {:induction false} OrZero(a: nat)
    ensures Or(a, 0) == a
    decreases a
  {
    if a > 0 {
      OrZero(a / 2);
    }
  }

  /** The low `n` bits. */
  function Low(x: nat, n: nat): nat
    decreases n
  {
    if n == 0 then 0 else x % 2 + 2 * Low(x / 2, n - 1)
  }

  // One bit of each operand at a time.

  lemma AndUnfold(lx: nat, hx: nat, ly: nat, hy: nat)
    requires lx < 2 && ly < 2
    ensures And(lx + 2 * hx, ly + 2 * hy) == (if lx == 1 && ly == 1 then 1 else 0) + 2 * And(hx, hy)
  {
    var x, y := lx + 2 * hx, ly + 2 * hy;
    assert x % 2 == lx && x / 2 == hx && y % 2 == ly && y / 2 == hy;
  }

  lemma OrUnfold(lx: nat, hx: nat, ly: nat, hy: nat)
    requires lx < 2 && ly < 2
    ensures Or(lx + 2 * hx, ly + 2 * hy) == (if lx == 1 || ly == 1 then 1 else 0) + 2 * Or(hx, hy)
  {
    var x, y := lx + 2 * hx, ly + 2 * hy;
    assert x % 2 == lx && x / 2 == hx && y % 2 == ly && y / 2 == hy;
  }

  /** Bits that do not overlap can be added instead of or-ed. */
  lemma {:induction false} OrDisjoint(lo: nat, hi: nat, k: nat)
    requires lo < Pow2(k)
    ensures Or(lo, Shl(hi, k)) == lo + Shl(hi, k)
    decreases k
  {
    if k > 0 {
      OrDisjoint(lo / 2, hi, k - 1);
      OrUnfold(lo % 2, lo / 2, 0, Shl(hi, k - 1));
    }
  }

  /** Testing the top bit of a number of `k + 1` bits; ones above it in the mask do not matter. */
  lemma {:induction false} AndTopBit(x: nat, hi: nat, k: nat)
    requires x < 2 * Pow2(k) && hi % 2 == 1
    ensures And(x, Shl(hi, k)) == if x >= Pow2(k) then Pow2(k) else 0
    decreases k
  {
    if k == 0 {
      assert x == 0 || x == 1;
    } else {
      AndTopBit(x / 2, hi, k - 1);
      AndUnfold(x % 2, x / 2, 0, Shl(hi, k - 1));
    }
  }

  // ----- splitting off the low byte -----

  lemma JoinHalf(x0: nat, x1: nat, n: nat)
    requires n > 0
    ensures (x0 + Shl(x1, n)) % 2 == x0 % 2 && (x0 + Shl(x1, n)) / 2 == x0 / 2 + Shl(x1, n - 1)
  {
  }

  lemma AndPeel(x: nat, y: nat)
    ensures And(x, y) == BitAnd(x, y) + 2 * And(x / 2, y / 2)
  {
  }

  lemma {:induction false} AndJoin(a0: nat, a1: nat, b0: nat, b1: nat, n: nat)
    requires a0 < Pow2(n) && b0 < Pow2(n)
    ensures And(a0 + Shl(a1, n), b0 + Shl(b1, n)) == And(a0, b0) + Shl(And(a1, b1), n)
    decreases n
  {
    if n > 0 {
      JoinHalf(a0, a1, n);
      JoinHalf(b0, b1, n);
      AndPeel(a0, b0);
      AndPeel(a0 + Shl(a1, n), b0 + Shl(b1, n));
      AndJoin(a0 / 2, a1, b0 / 2, b1, n - 1);
    }
  }

  lemma OrPeel(x: nat, y: nat)
    ensures Or(x, y) == BitOr(x, y) + 2 * Or(x / 2, y / 2)
  {
  }

  lemma {:induction false} OrJoin(a0: nat, a1: nat, b0: nat, b1: nat, n: nat)
    requires a0 < Pow2(n) && b0 < Pow2(n)
    ensures Or(a0 + Shl(a1, n), b0 + Shl(b1, n)) == Or(a0, b0) + Shl(Or(a1, b1), n)
    decreases n
  {
    if n > 0 {
      JoinHalf(a0, a1, n);
      JoinHalf(b0, b1, n);
      OrPeel(a0, b0);
      OrPeel(a0 + Shl(a1, n), b0 + Shl(b1, n));
      OrJoin(a0 / 2, a1, b0 / 2, b1, n - 1);
    }
  }

  lemma AndByte(a: nat, b: nat)
    ensures And(a, b) == And(a % 256, b % 256) + 256 * And(a / 256, b / 256)
  {
    assert Pow2(8) == 256;
    AndJoin(a % 256, a / 256, b % 256, b / 256, 8);
    ShlLow(a / 256);
    ShlLow(b / 256);
    ShlLow(And(a / 256, b / 256));
  }

  lemma OrByte(a: nat, b: nat)
    ensures Or(a, b) == Or(a % 256, b % 256) + 256 * Or(a / 256, b / 256)
  {
    assert Pow2(8) == 256;
    OrJoin(a % 256, a / 256, b % 256, b / 256, 8);
    ShlLow(a / 256);
    ShlLow(b / 256);
    ShlLow(Or(a / 256, b / 256));
  }

  /** A mask of `n` ones keeps the low `n` bits. */
  lemma {:induction false} AndLowMask(x: nat, n: nat)
    ensures And(x, Pow2(n) - 1) == Low(x, n)
    decreases n
  {
    if n == 0 {
      AndZero(x);
    } else {
      AndLowMask(x / 2, n - 1);
      AndUnfold(x % 2, x / 2, 1, Pow2(n - 1) - 1);
    }
  }

  lemma {:induction false} LowAll(x: nat, n: nat)
    requires x < Pow2(n)
    ensures Low(x, n) == x
    decreases n
  {
    if n > 0 {
      LowAll(x / 2, n - 1);
    }
  }

  lemma ByteAnd255(x: nat)
    requires x < 256
    ensures And(x, 255) == x && And(x, 0) == 0
  {
    assert Pow2(8) == 256;
    AndLowMask(x, 8);
    LowAll(x, 8);
    AndZero(x);
  }

  lemma {:induction false} AndOnes(x: nat, n: nat)
    requires x < Pow256(n)
    ensures And(x, Pow256(n) - 1) == x
    decreases n
  {
    if n > 0 {
      AndByte(x, Pow256(n) - 1);
      ByteAnd255(x % 256);
      AndOnes(x / 256, n - 1);
    }
  }

  // ----- replacing one byte of a word -----

  function ReplaceByte(w: nat, k: nat, d: byte): nat
    decreases k
  {
    if k == 0 then w / 256 * 256 + d else w % 256 + 256 * ReplaceByte(w / 256, k - 1, d)
  }

  /** All ones but for byte `k` of an `n`-byte word. */
  function ByteMask(n: nat, k: nat): nat
    requires k < n
  {
    if k == 0 then 256 * (Pow256(n - 1) - 1) else 255 + 256 * ByteMask(n - 1, k - 1)
  }

  /** It is the complement of 0xff shifted up by `k` bytes. */
  lemma {:induction false} ByteMaskIsComplement(n: nat, k: nat)
    requires k < n
    ensures ByteMask(n, k) == Pow256(n) - 1 - 0xff * Pow256(k)
    decreases k
  {
    if k > 0 {
      ByteMaskIsComplement(n - 1, k - 1);
    }
  }

  /** Clearing byte `k` with its mask. */
  lemma {:induction false} MaskClearsByte(w: nat, n: nat, k: nat)
    requires w < Pow256(n) && k < n
    ensures And(w, ByteMask(n, k)) == ReplaceByte(w, k, 0)
    decreases k
  {
    var mask := ByteMask(n, k);
    AndByte(w, mask);
    ByteAnd255(w % 256);
    if k == 0 {
      assert mask % 256 == 0 && mask / 256 == Pow256(n - 1) - 1;
      AndOnes(w / 256, n - 1);
    } else {
      assert mask % 256 == 255 && mask / 256 == ByteMask(n - 1, k - 1);
      MaskClearsByte(w / 256, n - 1, k - 1);
    }
  }

  lemma OrFillsLow(w: nat, d: byte)
    ensures Or(w / 256 * 256, d) == w / 256 * 256 + d
  {
    var v := w / 256 * 256;
    assert v % 256 == 0 && v / 256 == w / 256;
    OrByte(v, d);
    OrZero(w / 256);
  }

  lemma OrFillsHigh(w: nat, v: nat, h: nat)
    ensures Or(w % 256 + 256 * v, 256 * h) == w % 256 + 256 * Or(v, h)
  {
    var x, y := w % 256 + 256 * v, 256 * h;
    assert x % 256 == w % 256 && x / 256 == v && y % 256 == 0 && y / 256 == h;
    OrByte(x, y);
    OrZero(w % 256);
  }

  /** Or-ing a byte into a cleared place. */
  lemma {:induction false} OrFillsByte(w: nat, k: nat, d: byte)
    ensures Or(ReplaceByte(w, k, 0), d * Pow256(k)) == ReplaceByte(w, k, d)
    decreases k
  {
    if k == 0 {
      OrFillsLow(w, d);
    } else {
      OrFillsByte(w / 256, k - 1, d);
      ShiftOneMore(d, k);
      OrFillsHigh(w, ReplaceByte(w / 256, k - 1, 0), d * Pow256(k - 1));
    }
  }

  lemma ShiftOneMore(d: nat, k: nat)
    requires k > 0
    ensures d * Pow256(k) == 256 * (d * Pow256(k - 1))
  {
  }

  lemma {:induction false} ByteOfReplaced(w: nat, k: nat, d: byte, j: nat)
    ensures ByteOf(ReplaceByte(w, k, d), j) == if j == k then d else ByteOf(w, j)
    decreases k
  {
    var v := ReplaceByte(w, k, d);
    if k == 0 {
      assert v % 256 == d && v / 256 == w / 256;
    } else {
      assert v % 256 == w % 256 && v / 256 == ReplaceByte(w / 256, k - 1, d);
      if j > 0 {
        ByteOfReplaced(w / 256, k - 1, d, j - 1);
      }
    }
  }

  lemma {:induction false} ReplaceBound(w: nat, n: nat, k: nat, d: byte)
    requires w < Pow256(n) && k < n
    ensures ReplaceByte(w, k, d) < Pow256(n)
    decreases k
  {
    if k > 0 {
      ReplaceBound(w / 256, n - 1, k - 1, d);
    }
  }
}
