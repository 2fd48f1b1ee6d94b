// Page-table entries of Sv39, as the generator of the simulator's page table builds, packs and
// prints them (sim/l1d/generate_mem.py; the layout is that of section 4.4.1 of the RISC-V
// Privileged Architecture v1.12).
module Ptes {
  import opened Words

  datatype Pte = Pte(
    n: nat, pbmt: nat, reserved: nat, ppn2: nat, ppn1: nat, ppn0: nat,
    rsw: nat, d: nat, a: nat, g: nat, u: nat, x: nat, w: nat, r: nat, v: nat)

  const PPN_RANGE: nat := 0x1000_0000_0000

  /** An entry for a page number; a leaf may be read, written and executed. */
  function MakePte(ppn: nat, vld: bool, leaf: bool): Pte {
    if !vld then Pte(0, 0, 0, 0, 0, 0, 0, 0, 0, 0, 0, 0, 0, 0, 0)
    else
      var rwx := if leaf then 1 else 0;
      Pte(0, 0, 0, ppn / 0x4_0000, ppn / 0x200 % 0x200, ppn % 0x200, 0, 1, 1, 0, 1, rwx, rwx, rwx, 1)
  }

  function GetPpn(p: Pte): nat {
    p.ppn2 * 0x4_0000 + p.ppn1 * 0x200 + p.ppn0
  }

  /** The fields shifted into place and added up. */
  function Pack(p: Pte): nat {
    p.n * 0x8000_0000_0000_0000 + p.pbmt * 0x2000_0000_0000_0000 + p.reserved * 0x40_0000_0000_0000
    + p.ppn2 * 0x1000_0000 + p.ppn1 * 0x8_0000 + p.ppn0 * 0x400
    + p.rsw * 0x100 + p.d * 0x80 + p.a * 0x40 + p.g * 0x20 + p.u * 0x10 + p.x * 8 + p.w * 4 + p.r * 2 + p.v
  }

  /** Every field fits the bits that are set aside for it. */
  predicate InRange(p: Pte) {
    && p.n < 2 && p.pbmt < 4 && p.reserved < 0x80
    && p.ppn2 < 0x400_0000 && p.ppn1 < 0x200 && p.ppn0 < 0x200
    && p.rsw < 4 && p.d < 2 && p.a < 2 && p.g < 2 && p.u < 2 && p.x < 2 && p.w < 2 && p.r < 2 && p.v < 2
  }

  /** The fields of a word, each at its bit position. */
  function Unpack(word: nat): Pte {
    Pte(
      word / 0x8000_0000_0000_0000 % 2, word / 0x2000_0000_0000_0000 % 4, word / 0x40_0000_0000_0000 % 0x80,
      word / 0x1000_0000 % 0x400_0000, word / 0x8_0000 % 0x200, word / 0x400 % 0x200,
      word / 0x100 % 4, word / 0x80 % 2, word / 0x40 % 2,
      word / 0x20 % 2, word / 0x10 % 2, word / 8 % 2,
      word / 4 % 2, word / 2 % 2, word % 2)
  }

  lemma NoLargerQuotient(q: nat, r: nat, hi: nat, lo: nat, k: nat)
    requires q * k + r == hi * k + lo && lo < k
    ensures q <= hi
  {
    if q > hi {
      OneMoreTime(q, hi, k);
    }
  }

  lemma OneMoreTime(q: nat, hi: nat, k: nat)
    requires q > hi
    ensures q * k >= hi * k + k
  {
    var d := q - hi - 1;
    assert q * k == hi * k + d * k + k;
    assert d * k >= 0;
  }

  /** The quotient and remainder of a sum whose low part is less than the divisor. */
  lemma QuotientIs(lo: nat, k: nat, hi: nat)
    requires lo < k
    ensures (lo + k * hi) / k == hi && (lo + k * hi) % k == lo
  {
    var sum := lo + k * hi;
    var q, r := sum / k, sum % k;
    Euclid(sum, k);
    NoLargerQuotient(q, r, hi, lo, k);
    NoLargerQuotient(hi, lo, q, r, k);
  }

  lemma Euclid(sum: nat, k: nat)
    requires k > 0
    ensures sum / k * k + sum % k == sum && 0 <= sum % k < k && sum / k >= 0
  {
  }

  /** A field stands where it was put. */
  lemma FieldAt(word: nat, lo: nat, k: nat, f: nat, b: nat, rest: nat)
    requires lo < k && f < b && word == lo + k * (f + b * rest)
    ensures word / k % b == f
  {
    QuotientIs(lo, k, f + b * rest);
    QuotientIs(f, b, rest);
  }

  /** The fields above the flags. */
  function UpperPart(p: Pte): nat {
    p.ppn0 + 0x200 * (p.ppn1 + 0x200 * (p.ppn2 + 0x400_0000 * (p.reserved + 0x80 * (p.pbmt + 4 * p.n))))
  }

  function FlagPart(p: Pte): nat {
    p.v + p.r * 2 + p.w * 4 + p.x * 8 + p.u * 0x10 + p.g * 0x20 + p.a * 0x40 + p.d * 0x80 + p.rsw * 0x100
  }

  lemma PackParts(p: Pte)
    ensures Pack(p) == FlagPart(p) + 0x400 * UpperPart(p)
  {
  }

  lemma UnpackFlags(p: Pte, up: nat, word: nat)
    requires InRange(p) && word == FlagPart(p) + 0x400 * up
    ensures var q := Unpack(word);
            && q.v == p.v && q.r == p.r && q.w == p.w && q.x == p.x && q.u == p.u && q.g == p.g
            && q.a == p.a && q.d == p.d && q.rsw == p.rsw
  {
    var t8 := p.rsw + 4 * up;
    var t7 := p.d + 2 * t8;
    var t6 := p.a + 2 * t7;
    var t5 := p.g + 2 * t6;
    var t4 := p.u + 2 * t5;
    var t3 := p.x + 2 * t4;
    var t2 := p.w + 2 * t3;
    var t1 := p.r + 2 * t2;
    FieldAt(word, 0, 1, p.v, 2, t1);
    FieldAt(word, p.v, 2, p.r, 2, t2);
    FieldAt(word, p.v + p.r * 2, 4, p.w, 2, t3);
    FieldAt(word, p.v + p.r * 2 + p.w * 4, 8, p.x, 2, t4);
    var l4 := p.v + p.r * 2 + p.w * 4 + p.x * 8;
    FieldAt(word, l4, 0x10, p.u, 2, t5);
    FieldAt(word, l4 + p.u * 0x10, 0x20, p.g, 2, t6);
    FieldAt(word, l4 + p.u * 0x10 + p.g * 0x20, 0x40, p.a, 2, t7);
    var l7 := l4 + p.u * 0x10 + p.g * 0x20 + p.a * 0x40;
    FieldAt(word, l7, 0x80, p.d, 2, t8);
    FieldAt(word, l7 + p.d * 0x80, 0x100, p.rsw, 4, up);
  }

  lemma UnpackUpper(p: Pte, low: nat, word: nat)
    requires InRange(p) && low < 0x400 && word == low + 0x400 * UpperPart(p)
    ensures var q := Unpack(word);
            && q.ppn0 == p.ppn0 && q.ppn1 == p.ppn1 && q.ppn2 == p.ppn2
            && q.reserved == p.reserved && q.pbmt == p.pbmt && q.n == p.n
  {
    var t13 := p.pbmt + 4 * p.n;
    var t12 := p.reserved + 0x80 * t13;
    var t11 := p.ppn2 + 0x400_0000 * t12;
    FieldAt(word, low, 0x400, p.ppn0, 0x200, p.ppn1 + 0x200 * t11);
    var l10 := low + 0x400 * p.ppn0;
    FieldAt(word, l10, 0x8_0000, p.ppn1, 0x200, t11);
    var l11 := l10 + 0x8_0000 * p.ppn1;
    FieldAt(word, l11, 0x1000_0000, p.ppn2, 0x400_0000, t12);
    var l12 := l11 + 0x1000_0000 * p.ppn2;
    FieldAt(word, l12, 0x40_0000_0000_0000, p.reserved, 0x80, t13);
    var l13 := l12 + 0x40_0000_0000_0000 * p.reserved;
    FieldAt(word, l13, 0x2000_0000_0000_0000, p.pbmt, 4, p.n);
    FieldAt(word, l13 + 0x2000_0000_0000_0000 * p.pbmt, 0x8000_0000_0000_0000, p.n, 2, 0);
  }

  /** Packing loses nothing of an entry whose fields are in range. */
  lemma UnpackPack(p: Pte)
    requires InRange(p)
    ensures Unpack(Pack(p)) == p && Pack(p) < 0x1_0000_0000_0000_0000
  {
    PackParts(p);
    UnpackFlags(p, UpperPart(p), Pack(p));
    UnpackUpper(p, FlagPart(p), Pack(p));
  }

  /** A generated entry is in range, and its three parts make up the page number it was given. */
  lemma MadePte(ppn: nat, vld: bool, leaf: bool)
    requires ppn < PPN_RANGE
    ensures InRange(MakePte(ppn, vld, leaf))
    ensures vld ==> GetPpn(MakePte(ppn, vld, leaf)) == ppn
  {
    assert ppn / 0x200 / 0x200 == ppn / 0x4_0000;
  }

  /** So the word of a generated entry gives back the page number and the flags. */
  lemma MadePteRoundTrip(ppn: nat, leaf: bool)
    requires ppn < PPN_RANGE
    ensures var q := Unpack(Pack(MakePte(ppn, true, leaf)));
            && GetPpn(q) == ppn && q == MakePte(ppn, true, leaf)
            && q.v == 1 && q.r == q.w == q.x == (if leaf then 1 else 0)
            && q.u == q.a == q.d == 1 && q.g == q.rsw == q.n == q.pbmt == q.reserved == 0
  {
    MadePte(ppn, true, leaf);
    UnpackPack(MakePte(ppn, true, leaf));
  }

  // ----- printing -----

  /** `n` hexadecimal digits, highest first. */
  function HexDigits(w: nat, n: nat): (ds: seq<nat>)
    ensures |ds| == n
    ensures forall k | 0 <= k < n :: ds[k] < 16
    decreases n
  {
    if n == 0 then [] else HexDigits(w / 16, n - 1) + [w % 16]
  }

  lemma HexTwoMore(w: nat, n: nat)
    ensures HexDigits(w, n + 2) == HexDigits(w / 16 / 16, n) + [w / 16 % 16, w % 16]
  {
    assert HexDigits(w, n + 2) == HexDigits(w / 16, n + 1) + [w % 16];
    assert HexDigits(w / 16, n + 1) == HexDigits(w / 16 / 16, n) + [w / 16 % 16];
  }

  /** The slice of two digits counted `j` pairs from the end is byte `j` of the number. */
  lemma {:induction false} HexPairIsByte(w: nat, n: nat, j: nat)
    requires j < n
    ensures var ds := HexDigits(w, 2 * n); ds[2 * (n - 1 - j)] * 16 + ds[2 * (n - 1 - j) + 1] == ByteOf(w, j)
    decreases n
  {
    var ds := HexDigits(w, 2 * n);
    var up := HexDigits(w / 16 / 16, 2 * n - 2);
    HexTwoMore(w, 2 * n - 2);
    assert w / 16 / 16 == w / 256;
    if j > 0 {
      HexPairIsByte(w / 256, n - 1, j - 1);
      var k := 2 * (n - 1 - j);
      assert ds[k] == up[k] && ds[k + 1] == up[k + 1];
    }
  }
}
