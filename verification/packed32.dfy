// The golden memory of the older test bench (sim/perfect_mem.hpp): bytes packed into
// 32-bit words. Only the first half of the words can be reached through a 16-bit address.
module Packed32 {
  import opened Words
  import opened Bits
  import opened FlatMemory

  const PERFECT_MEM_MAX_SIZE: nat := 32768

  type Words32 = ws: seq<u32> | |ws| == PERFECT_MEM_MAX_SIZE witness seq(PERFECT_MEM_MAX_SIZE, i => 0)

  function View32(ws: Words32): Mem {
    seq(MEM_MAX_SIZE, p requires 0 <= p < MEM_MAX_SIZE => ByteOf(ws[p / 4], p % 4))
  }

  function Initial32(): Words32 {
    seq(PERFECT_MEM_MAX_SIZE, i requires 0 <= i < PERFECT_MEM_MAX_SIZE => i * 4)
  }

  lemma InitialView32()
    ensures View32(Initial32()) == InitialImage()
  {
  }

  // ----- one word -----

  /** 0xffffffff ^ (0xff << 8*k) */
  function Mask32(k: nat): u32
    requires k < 4
  {
    Mask32Fits(k);
    0xffff_ffff - 0xff * Pow256(k)
  }

  lemma Mask32Fits(k: nat)
    requires k < 4
    ensures 0xff * Pow256(k) <= 0xffff_ffff
    ensures 0xffff_ffff - 0xff * Pow256(k) == ByteMask(4, k)
  {
    Pow256Values();
    ByteMaskIsComplement(4, k);
  }

  function PutByte32(w: u32, k: nat, d: byte): nat
    requires k < 4
  {
    d * Pow256(k) + And(w, Mask32(k))
  }

  lemma {:induction false} AddFillsByte(w: nat, k: nat, d: byte)
    ensures d * Pow256(k) + ReplaceByte(w, k, 0) == ReplaceByte(w, k, d)
    decreases k
  {
    if k > 0 {
      AddFillsByte(w / 256, k - 1, d);
      ShiftOneMore(d, k);
    }
  }

  lemma PutIsReplace32(w: u32, k: nat, d: byte)
    requires k < 4
    ensures PutByte32(w, k, d) == ReplaceByte(w, k, d) <= 0xffff_ffff
  {
    Pow256Values();
    Mask32Fits(k);
    MaskClearsByte(w, 4, k);
    AddFillsByte(w, k, d);
    ReplaceBound(w, 4, k, d);
  }

  function PutHalf32(w: u32, upper: bool, d: u16): nat {
    if upper then d * 0x1_0000 + And(w, 0x0000_ffff) else d + And(w, 0xffff_0000)
  }

  lemma OnesHalf(x: u16)
    ensures And(x, 0xffff) == x
  {
    Pow256Values();
    AndOnes(x, 2);
  }

  /** What the two half-word masks keep. */
  lemma HalfMasks(w: u32)
    ensures And(w, 0x0000_ffff) == w % 0x1_0000
    ensures And(w, 0xffff_0000) == w / 0x1_0000 * 0x1_0000
  {
    var lo, hi := w % 0x1_0000, w / 0x1_0000;
    Pow2Half();
    HalfShifts(hi);
    AndJoin(lo, hi, 0, 0xffff, 16);
    AndJoin(lo, hi, 0xffff, 0, 16);
    AndZero(lo);
    AndZero(hi);
    OnesHalf(lo);
    OnesHalf(hi);
  }

  lemma Pow2Half()
    ensures Pow2(16) == 0x1_0000
  {
    assert Pow2(8) == 0x100;
    assert Pow2(12) == 0x1000;
  }

  lemma HalfShifts(hi: nat)
    ensures Shl(hi, 16) == hi * 0x1_0000 && Shl(0xffff, 16) == 0xffff_0000 && Shl(0, 16) == 0
  {
    ShlValues(hi);
    ShlValues(0xffff);
    ShlValues(0);
  }

  lemma PutHalfHalves(w: u32, upper: bool, d: u16)
    ensures PutHalf32(w, upper, d) ==
            (if upper then d else w / 0x1_0000) * 0x1_0000 + (if upper then w % 0x1_0000 else d)
  {
    HalfMasks(w);
  }

  lemma PutHalfBytes(w: u32, upper: bool, d: u16, j: nat)
    ensures PutHalf32(w, upper, d) <= 0xffff_ffff
    ensures j < 4 ==> ByteOf(PutHalf32(w, upper, d), j) ==
                      if upper <==> j >= 2 then ByteOf(d, j % 2) else ByteOf(w, j)
  {
    var lo, hi := w % 0x1_0000, w / 0x1_0000;
    PutHalfHalves(w, upper, d);
    assert w == hi * 0x1_0000 + lo;
    HalvesOfWord(lo, hi, j);
    HalvesOfWord(if upper then lo else d, if upper then d else hi, j);
    assert j < 4 ==> j % 2 == if j < 2 then j else j - 2;
  }

  lemma HalvesOfWord(lo: u16, hi: u16, j: nat)
    ensures ByteOf(hi * 0x1_0000 + lo, j) == if j < 2 then ByteOf(lo, j) else ByteOf(hi, j - 2)
  {
    Pow256Values();
    Shl8Values(hi);
    JoinedByte(lo, hi, 2, j);
  }

  // ----- the stores -----

  function Write8(ws: Words32, a: u16, data: nat): Words32 {
    PutIsReplace32(ws[a / 4], a % 4, data % 0x100);
    ws[a / 4 := PutByte32(ws[a / 4], a % 4, data % 0x100)]
  }

  function Write16(ws: Words32, a: u16, data: nat): Words32 {
    PutHalfBytes(ws[a / 4], a % 4 != 0, data % 0x1_0000, 0);
    ws[a / 4 := PutHalf32(ws[a / 4], a % 4 != 0, data % 0x1_0000)]
  }

  function Write32(ws: Words32, a: u16, data: nat): Words32 {
    ws[a / 4 := data % 0x1_0000_0000]
  }

  function Write64(ws: Words32, a: u16, data: u64): Words32 {
    ws[a / 4 + 1 := data / 0x1_0000_0000][a / 4 := data % 0x1_0000_0000]
  }

  /** Store `n` low bytes of `data` at an aligned address. */
  function Write(ws: Words32, a: u16, n: nat, data: u64): Words32 {
    if n == 1 then Write8(ws, a, data)
    else if n == 2 then Write16(ws, a, data)
    else if n == 4 then Write32(ws, a, data)
    else Write64(ws, a, data)
  }

  predicate AccessSize(n: nat) {
    n == 1 || n == 2 || n == 4 || n == 8
  }

  lemma WriteByte(ws: Words32, a: u16, n: nat, data: u64, p: nat)
    requires AccessSize(n) && a % n == 0 && p < MEM_MAX_SIZE
    ensures View32(Write(ws, a, n, data))[p] == if a <= p < a + n then ByteOf(data, p - a) else View32(ws)[p]
  {
    if n == 1 {
      WriteByte8(ws, a, data, p);
    } else if n == 2 {
      WriteByte16(ws, a, data, p);
    } else if n == 4 {
      WriteByte32(ws, a, data, p);
    } else {
      WriteByte64(ws, a, data, p);
    }
  }

  lemma StoredAt(m: Mem, a: u16, n: nat, data: nat, p: nat)
    requires AccessSize(n) && a % n == 0 && p < MEM_MAX_SIZE
    ensures StoreBytes(m, a, n, data)[p] == if a <= p < a + n then ByteOf(data, p - a) else m[p]
  {
    StoreBytesAt(m, a, n, data, p);
    NoWrap(a, n, p);
  }

  /** Every width of store writes its own bytes of the view, little-endian, and no others. */
  lemma WriteView32(ws: Words32, a: u16, n: nat, data: u64)
    requires AccessSize(n) && a % n == 0
    ensures View32(Write(ws, a, n, data)) == StoreBytes(View32(ws), a, n, data)
  {
    forall p | 0 <= p < MEM_MAX_SIZE
      ensures View32(Write(ws, a, n, data))[p] == StoreBytes(View32(ws), a, n, data)[p]
    {
      WriteByte(ws, a, n, data, p);
      StoredAt(View32(ws), a, n, data, p);
    }
  }

  /** An aligned access never wraps at the top of memory. */
  lemma NoWrap(a: u16, n: nat, p: nat)
    requires AccessSize(n) && a % n == 0 && p < MEM_MAX_SIZE
    ensures Offset(a, p) < n <==> a <= p < a + n
    ensures a <= p ==> Offset(a, p) == p - a
  {
  }

  lemma WriteByte8(ws: Words32, a: u16, data: nat, p: nat)
    requires p < MEM_MAX_SIZE
    ensures View32(Write8(ws, a, data))[p] == if p == a then ByteOf(data, 0) else View32(ws)[p]
  {
    PutIsReplace32(ws[a / 4], a % 4, data % 0x100);
    ByteOfReplaced(ws[a / 4], a % 4, data % 0x100, p % 4);
  }

  lemma WriteByte16(ws: Words32, a: u16, data: nat, p: nat)
    requires a % 2 == 0 && p < MEM_MAX_SIZE
    ensures View32(Write16(ws, a, data))[p] == if a <= p < a + 2 then ByteOf(data, p - a) else View32(ws)[p]
  {
    var d := data % 0x1_0000;
    PutHalfBytes(ws[a / 4], a % 4 != 0, d, p % 4);
    if a <= p < a + 2 {
      LowHalfByte(data, p - a);
      assert p / 4 == a / 4 && (a % 4 != 0 <==> p % 4 >= 2) && p % 4 % 2 == p - a;
    } else if p / 4 == a / 4 {
      assert !(a % 4 != 0 <==> p % 4 >= 2);
    }
  }

  lemma LowHalfByte(data: nat, k: nat)
    requires k < 2
    ensures ByteOf(data % 0x1_0000, k) == ByteOf(data, k)
  {
    Pow256Values();
    Shl8Values(data / 0x1_0000);
    JoinedByte(data % 0x1_0000, data / 0x1_0000, 2, k);
  }

  lemma WriteByte32(ws: Words32, a: u16, data: nat, p: nat)
    requires a % 4 == 0 && p < MEM_MAX_SIZE
    ensures View32(Write32(ws, a, data))[p] == if a <= p < a + 4 then ByteOf(data, p - a) else View32(ws)[p]
  {
    if a <= p < a + 4 {
      HalvesByte(data % 0x1_0000_0000, data / 0x1_0000_0000, p - a);
      assert p / 4 == a / 4 && p % 4 == p - a;
    }
  }

  lemma WriteByte64(ws: Words32, a: u16, data: u64, p: nat)
    requires a % 8 == 0 && p < MEM_MAX_SIZE
    ensures View32(Write64(ws, a, data))[p] == if a <= p < a + 8 then ByteOf(data, p - a) else View32(ws)[p]
  {
    if a <= p < a + 8 {
      HalvesByte(data % 0x1_0000_0000, data / 0x1_0000_0000, p - a);
      assert p / 4 == a / 4 + (p - a) / 4 && p % 4 == (p - a) % 4;
    }
  }

  // ----- the peeks -----

  /** The number that the peek of width `n` computes. */
  function Peek(ws: Words32, a: u16, n: nat): nat {
    var w: nat := ws[a / 4];
    if n == 1 then ByteOf(w, a % 4)
    else if n == 2 then (if a % 4 == 0 then w % 0x1_0000 else w / 0x1_0000)
    else if n == 4 then w
    else Join32(ws[a / 4 + 1], w)
  }

  function Join32(hi: nat, lo: nat): nat {
    hi * 0x1_0000_0000 + lo
  }

  /** Each width of peek reads its own bytes of the view, little-endian. */
  lemma PeekView32(ws: Words32, a: u16, n: nat)
    requires AccessSize(n) && a % n == 0
    ensures Peek(ws, a, n) == LoadBytes(View32(ws), a, n)
  {
    var v := Peek(ws, a, n);
    PeekFits(ws, a, n);
    forall j | 0 <= j < n
      ensures Window(View32(ws), a, n)[j] == LeBytes(v, n)[j]
    {
      PeekByte(ws, a, n, j);
      LeBytesAt(v, n, j);
    }
    assert Window(View32(ws), a, n) == LeBytes(v, n);
    LeRoundTrip(v, n);
  }

  lemma PeekFits(ws: Words32, a: u16, n: nat)
    requires AccessSize(n)
    ensures Peek(ws, a, n) < Pow256(n)
  {
    Pow256Values();
  }

  lemma PeekByte(ws: Words32, a: u16, n: nat, j: nat)
    requires AccessSize(n) && a % n == 0 && j < n
    ensures View32(ws)[(a + j) % MEM_MAX_SIZE] == ByteOf(Peek(ws, a, n), j)
  {
    AlignedFacts(a, n);
    InAlignedWord(a, n, j);
    PeekPart(ws, a, n, j);
  }

  lemma PeekPart(ws: Words32, a: u16, n: nat, j: nat)
    requires AccessSize(n) && j < n
    requires (n == 2 ==> a % 4 == 0 || a % 4 == 2) && (n >= 4 ==> a % 4 == 0)
    ensures ByteOf(Peek(ws, a, n), j) == if j < 4 then ByteOf(ws[a / 4], a % 4 + j) else ByteOf(ws[a / 4 + 1], j - 4)
  {
    if n == 2 {
      PeekHalfByte(ws[a / 4], a % 4 != 0, j);
    } else if n == 8 {
      HalvesByte(ws[a / 4], ws[a / 4 + 1], j);
    }
  }

  lemma PeekHalfByte(w: u32, upper: bool, j: nat)
    requires j < 2
    ensures ByteOf(if upper then w / 0x1_0000 else w % 0x1_0000, j) == ByteOf(w, if upper then 2 + j else j)
  {
    var lo, hi := w % 0x1_0000, w / 0x1_0000;
    HalvesOfWord(lo, hi, j);
    HalvesOfWord(lo, hi, 2 + j);
    assert hi * 0x1_0000 + lo == w;
  }

  /** An aligned access stays inside its word, or its pair of words, and inside the memory. */
  lemma AlignedFacts(a: u16, n: nat)
    requires AccessSize(n) && a % n == 0
    ensures n == 2 ==> a % 4 == 0 || a % 4 == 2
    ensures n >= 4 ==> a % 4 == 0
    ensures a + n <= MEM_MAX_SIZE
  {
    if n == 2 {
      assert a % 2 == 0;
    } else if n == 4 {
      assert a % 4 == 0;
    } else if n == 8 {
      assert a % 8 == 0;
    }
  }

  /** Which word, and which byte of it, byte `j` of an aligned access is. */
  lemma InAlignedWord(a: u16, n: nat, j: nat)
    requires AccessSize(n) && j < n && a + n <= MEM_MAX_SIZE
    requires (n == 2 ==> a % 4 == 0 || a % 4 == 2) && (n >= 4 ==> a % 4 == 0)
    ensures (a + j) % MEM_MAX_SIZE == a + j
    ensures (a + j) / 4 == a / 4 + (if j < 4 then 0 else 1)
    ensures (a + j) % 4 == if j < 4 then a % 4 + j else j - 4
  {
    if j < 4 {
      Quarter(a / 4, a % 4 + j);
    } else {
      Quarter(a / 4 + 1, j - 4);
    }
  }

  lemma Quarter(q: nat, s: nat)
    requires s < 4
    ensures (4 * q + s) / 4 == q && (4 * q + s) % 4 == s
  {
  }
}
