// The value a load instruction returns, by the book: the bytes at the address as a number,
// zero-extended or sign-extended to 64 bits (section 5.3 of the RISC-V Unprivileged ISA 20191213).
module Loads {
  import opened Words
  import opened FlatMemory
  import opened L1dTypes
  import opened Bits

  const WORD_RANGE: nat := 0x1_0000_0000_0000_0000

  function LoadSize(op: nat): (n: nat)
    ensures n == 1 || n == 2 || n == 4 || n == 8
  {
    if op == LDU_LH || op == LDU_LHU then 2
    else if op == LDU_LW || op == LDU_LWU then 4
    else if op == LDU_LD then 8
    else 1
  }

  predicate IsUnsigned(op: nat) {
    op == LDU_LD || op == LDU_LBU || op == LDU_LHU || op == LDU_LWU
  }

  function StoreSize(op: nat): (n: nat)
    ensures n == 1 || n == 2 || n == 4 || n == 8
  {
    if op == STU_SH then 2 else if op == STU_SW then 4 else if op == STU_SD then 8 else 1
  }

  /** Two's complement: the number `v` of `n` bytes read as signed, then cut to 64 bits. */
  function SignExtend(v: nat, n: nat): u64 {
    (if 2 * v >= Pow256(n) then v - Pow256(n) else v) % WORD_RANGE
  }

  function LoadValue(m: Mem, a: nat, op: nat): u64 {
    var v := LoadBytes(m, a, LoadSize(op));
    if IsUnsigned(op) then v % WORD_RANGE else SignExtend(v, LoadSize(op))
  }

  lemma LoadFits(m: Mem, a: nat, n: nat)
    requires n == 1 || n == 2 || n == 4 || n == 8
    ensures LoadBytes(m, a, n) < WORD_RANGE
    ensures n == 1 ==> LoadBytes(m, a, n) < 0x100
    ensures n == 2 ==> LoadBytes(m, a, n) < 0x1_0000
    ensures n == 4 ==> LoadBytes(m, a, n) < 0x1_0000_0000
  {
    LoadBytesBound(m, a, n);
    Pow256Values();
  }

  // The sign test and the sign mask of the three signed widths, as the source writes them.

  lemma SignByte(v: nat)
    requires v < 0x100
    ensures SignExtend(v, 1) == if And(v, 0x80) == 0x80 then Or(v, 0xffff_ffff_ffff_ff00) else v
  {
    Pow256Values();
    Pow2Values();
    ShlValues(1);
    ShlValues(0xff_ffff_ffff_ffff);
    AndTopBit(v, 1, 7);
    OrDisjoint(v, 0xff_ffff_ffff_ffff, 8);
  }

  lemma SignHalf(v: nat)
    requires v < 0x1_0000
    ensures SignExtend(v, 2) == if And(v, 0x8000) == 0x8000 then Or(v, 0xffff_ffff_ffff_0000) else v
  {
    Pow256Values();
    Pow2Values();
    ShlValues(1);
    ShlValues(0xffff_ffff_ffff);
    AndTopBit(v, 1, 15);
    OrDisjoint(v, 0xffff_ffff_ffff, 16);
  }

  lemma SignWord(v: nat)
    requires v < 0x1_0000_0000
    ensures SignExtend(v, 4) == if And(v, 0x8000_0000) == 0x8000_0000 then Or(v, 0xffff_ffff_0000_0000) else v
  {
    Pow256Values();
    Pow2Values();
    ShlValues(1);
    ShlValues(0xffff_ffff);
    AndTopBit(v, 1, 31);
    OrDisjoint(v, 0xffff_ffff, 32);
  }

  lemma Pow2Values()
    ensures Pow2(7) == 0x80 && Pow2(8) == 0x100 && Pow2(15) == 0x8000 && Pow2(16) == 0x1_0000
    ensures Pow2(31) == 0x8000_0000 && Pow2(32) == 0x1_0000_0000
  {
    assert Pow2(8) == 0x100;
    assert Pow2(12) == 0x1000;
    assert Pow2(16) == 0x1_0000;
    assert Pow2(20) == 0x10_0000;
    assert Pow2(24) == 0x100_0000;
    assert Pow2(28) == 0x1000_0000;
  }

  // ----- the same, spelled out -----

  /** Byte `i` above an address. */
  function ByteAt(m: Mem, a: nat, i: nat): byte {
    m[(a + i) % 0x1_0000]
  }

  function HalfAt(m: Mem, a: nat): nat {
    ByteAt(m, a, 0) + 0x100 * ByteAt(m, a, 1)
  }

  function WordAt(m: Mem, a: nat): nat {
    HalfAt(m, a) + 0x1_0000 * HalfAt(m, a + 2)
  }

  lemma {:induction false} WindowValue(m: Mem, a: nat, n: nat)
    requires n > 0
    ensures LoadBytes(m, a, n) == ByteAt(m, a, 0) + 256 * LoadBytes(m, a + 1, n - 1)
  {
    assert Window(m, a, n)[1..] == Window(m, a + 1, n - 1);
  }

  lemma BytesOfTwo(m: Mem, a: nat, n: nat)
    requires n >= 2
    ensures LoadBytes(m, a, n) == HalfAt(m, a) + 0x1_0000 * LoadBytes(m, a + 2, n - 2)
  {
    WindowValue(m, a, n);
    WindowValue(m, a + 1, n - 1);
  }

  lemma NoBytes(m: Mem, a: nat)
    ensures LoadBytes(m, a, 0) == 0
  {
  }

  lemma FewBytes(m: Mem, a: nat)
    ensures LoadBytes(m, a, 1) == ByteAt(m, a, 0) && LoadBytes(m, a, 2) == HalfAt(m, a)
    ensures LoadBytes(m, a, 4) == WordAt(m, a)
  {
    WindowValue(m, a, 1);
    NoBytes(m, a + 1);
    BytesOfTwo(m, a, 2);
    BytesOfTwo(m, a, 4);
    BytesOfTwo(m, a + 2, 2);
    NoBytes(m, a + 2);
    NoBytes(m, a + 4);
  }

  lemma EightBytes(m: Mem, a: nat)
    ensures LoadBytes(m, a, 8) == WordAt(m, a) + 0x1_0000_0000 * WordAt(m, a + 4)
  {
    BytesOfTwo(m, a, 8);
    BytesOfTwo(m, a + 2, 6);
    FewBytes(m, a + 4);
  }

  /** What each of the seven loads returns: lb, lh and lw fill the register up with the sign, lbu,
      lhu and lwu with zeros, and ld takes two words, the low one first. */
  function Loaded(m: Mem, a: nat, op: nat): nat {
    var b, h, w := ByteAt(m, a, 0), HalfAt(m, a), WordAt(m, a);
    if op == 0 then (if b < 0x80 then b else b + 0xffff_ffff_ffff_ff00)
    else if op == 1 then (if h < 0x8000 then h else h + 0xffff_ffff_ffff_0000)
    else if op == 2 then (if w < 0x8000_0000 then w else w + 0xffff_ffff_0000_0000)
    else if op == 3 then w + 0x1_0000_0000 * WordAt(m, a + 4)
    else if op == 4 then b
    else if op == 5 then h
    else w
  }

  lemma SignTable(v: nat, n: nat)
    ensures n == 1 && v < 0x100 ==> SignExtend(v, n) == if v < 0x80 then v else v + 0xffff_ffff_ffff_ff00
    ensures n == 2 && v < 0x1_0000 ==> SignExtend(v, n) == if v < 0x8000 then v else v + 0xffff_ffff_ffff_0000
    ensures n == 4 && v < 0x1_0000_0000 ==>
              SignExtend(v, n) == if v < 0x8000_0000 then v else v + 0xffff_ffff_0000_0000
  {
    Pow256Values();
  }

  lemma SizedBytes(m: Mem, a: nat, n: nat)
    ensures n == 1 ==> LoadBytes(m, a, n) == ByteAt(m, a, 0)
    ensures n == 2 ==> LoadBytes(m, a, n) == HalfAt(m, a)
    ensures n == 4 ==> LoadBytes(m, a, n) == WordAt(m, a)
    ensures n == 8 ==> LoadBytes(m, a, n) == WordAt(m, a) + 0x1_0000_0000 * WordAt(m, a + 4)
  {
    FewBytes(m, a);
    EightBytes(m, a);
  }

  /** The value a load is checked against is the one spelled out. */
  lemma LoadTable(m: Mem, a: nat, op: nat)
    requires op < 7
    ensures LoadValue(m, a, op) == Loaded(m, a, op)
  {
    var n := LoadSize(op);
    SizedBytes(m, a, n);
    SignTable(LoadBytes(m, a, n), n);
  }

  /** How many bytes sb, sh, sw and sd store. */
  predicate StoreWidth(op: nat, n: nat) {
    (op == 0 && n == 1) || (op == 1 && n == 2) || (op == 2 && n == 4) || (op == 3 && n == 8)
  }

  /** A store puts the low bytes of its data, as many as it is wide, at its address and the ones
      above it, and changes no other byte. */
  lemma StoreTable(m: Mem, a: nat, op: nat, n: nat, data: nat, p: nat)
    requires StoreWidth(op, n) && p < 0x1_0000
    ensures var k := (p - a) % 0x1_0000;
            StoreBytes(m, a, StoreSize(op), data)[p] == if k < n then ByteOf(data, k) else m[p]
  {
    StoreBytesAt(m, a, n, data, p);
  }

  lemma AlignedByte(a: nat, i: nat)
    requires a % 4 == 0 && i < 4
    ensures var r := a % 0x1_0000; (a + i) % 0x1_0000 == r + i && (r + i) / 4 * 4 == r && (r + i) % 4 == i
  {
    var r, q := a % 0x1_0000, a / 0x1_0000;
    assert a == 0x1_0000 * q + r;
    assert r % 4 == 0;
  }

  lemma ImageWindow(a: nat, n: nat)
    requires a % 4 == 0 && n == 4
    ensures Window(InitialImage(), a, n) == LeBytes(a % 0x1_0000, n)
  {
    forall i | 0 <= i < n
      ensures Window(InitialImage(), a, n)[i] == LeBytes(a % 0x1_0000, n)[i]
    {
      LeBytesAt(a % 0x1_0000, n, i);
      AlignedByte(a, i);
    }
  }

  /** In the image every memory starts with, the word at an aligned address is the address. */
  lemma ImageWords(a: nat, n: nat)
    requires a % 4 == 0 && n == 4
    ensures LoadBytes(InitialImage(), a, n) == a % 0x1_0000
  {
    ImageWindow(a, n);
    Pow256Values();
    LeRoundTrip(a % 0x1_0000, n);
  }
}
