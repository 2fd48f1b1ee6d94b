// The memory of the LSU unit test (sim/lsu_ut/fake_mem.cpp): bytes packed into 64-bit words,
// read and written through shifts and masks.
module Packed64 {
  import opened Words
  import opened Bits
  import opened FlatMemory
  import opened L1dTypes
  import opened Loads

  const WORDS64: nat := 8192

  type Words64 = ws: seq<u64> | |ws| == WORDS64 witness seq(WORDS64, i => 0)

  /** The bytes the words stand for. */
  function View64(ws: Words64): Mem {
    seq(MEM_MAX_SIZE, p requires 0 <= p < MEM_MAX_SIZE => ByteOf(ws[p / 8], p % 8))
  }

  function Initial64(): Words64 {
    seq(WORDS64, i requires 0 <= i < WORDS64 => (i * 8 + 4) * 0x1_0000_0000 + i * 8)
  }

  /** All ones but for byte `k`: ~(0xff << 8*k). */
  function Mask64(k: nat): u64
    requires k < 8
  {
    MaskFits(k);
    0xffff_ffff_ffff_ffff - 0xff * Pow256(k)
  }

  lemma MaskFits(k: nat)
    requires k < 8
    ensures 0xff * Pow256(k) <= 0xffff_ffff_ffff_ffff
    ensures 0xffff_ffff_ffff_ffff - 0xff * Pow256(k) == ByteMask(8, k)
  {
    Pow256Values();
    ByteMaskIsComplement(8, k);
  }

  /** Clear the byte with a mask, or the new one in. */
  function PutByte64(w: u64, k: nat, d: byte): (r: u64)
    requires k < 8
  {
    PutIsReplace(w, k, d);
    PutWord(w, k, d)
  }

  function PutWord(w: u64, k: nat, d: byte): nat
    requires k < 8
  {
    Or(And(w, Mask64(k)), d * Pow256(k))
  }

  lemma ClearByte(w: u64, k: nat)
    requires k < 8
    ensures And(w, Mask64(k)) == ReplaceByte(w, k, 0)
  {
    Pow256Values();
    MaskFits(k);
    MaskClearsByte(w, 8, k);
  }

  lemma ReplaceFits(w: u64, k: nat, d: byte)
    requires k < 8
    ensures ReplaceByte(w, k, d) <= 0xffff_ffff_ffff_ffff
  {
    Pow256Values();
    ReplaceBound(w, 8, k, d);
  }

  lemma PutIsReplace(w: u64, k: nat, d: byte)
    requires k < 8
    ensures PutWord(w, k, d) == ReplaceByte(w, k, d) <= 0xffff_ffff_ffff_ffff
  {
    ClearByte(w, k);
    OrFillsByte(w, k, d);
    ReplaceFits(w, k, d);
  }

  /** Shifting a word right by whole bytes and masking with 0xff picks one byte. */
  lemma ShiftAndMask(w: nat, k: nat)
    ensures And(Shr8(w, k), 0xff) == ByteOf(w, k)
  {
    ByteOfShr8(w, k, 0);
    AndByte(Shr8(w, k), 0xff);
    ByteAnd255(Shr8(w, k) % 256);
    AndZero(Shr8(w, k) / 256);
  }

  function SetByte64(ws: Words64, paddr: nat, d: byte): Words64 {
    var p := paddr % MEM_MAX_SIZE;
    ws[p / 8 := PutByte64(ws[p / 8], p % 8, d)]
  }

  /** Writing a packed byte writes that byte of the view and no other. */
  lemma SetByteView64(ws: Words64, paddr: nat, d: byte)
    ensures View64(SetByte64(ws, paddr, d)) == View64(ws)[paddr % MEM_MAX_SIZE := d]
  {
    var p := paddr % MEM_MAX_SIZE;
    forall q | 0 <= q < MEM_MAX_SIZE
      ensures View64(SetByte64(ws, paddr, d))[q] == if q == p then d else View64(ws)[q]
    {
      if q / 8 == p / 8 {
        PutIsReplace(ws[p / 8], p % 8, d);
        ByteOfReplaced(ws[p / 8], p % 8, d, q % 8);
        assert q % 8 == p % 8 ==> q == p;
      }
    }
  }

  /** The byte loop of a store. */
  function Store64(ws: Words64, paddr: nat, n: nat, data: nat): Words64 {
    if n == 0 then ws else SetByte64(Store64(ws, paddr, n - 1, data), paddr + n - 1, ByteOf(data, n - 1))
  }

  lemma {:induction false} StoreView64(ws: Words64, paddr: nat, n: nat, data: nat)
    ensures View64(Store64(ws, paddr, n, data)) == StoreBytes(View64(ws), paddr, n, data)
  {
    if n > 0 {
      StoreView64(ws, paddr, n - 1, data);
      SetByteView64(Store64(ws, paddr, n - 1, data), paddr + n - 1, ByteOf(data, n - 1));
    }
  }

  lemma DoubleSplits(m: Mem, paddr: nat, data: u64, n: nat)
    requires n == 4
    ensures StoreBytes(m, paddr, n + n, data) ==
            StoreBytes(StoreBytes(m, paddr, n, data % 0x1_0000_0000), paddr + n, n, data / 0x1_0000_0000)
  {
    StoreSplits(m, paddr, n, n, data);
    LowHalf(m, paddr, n, data);
    HighHalf(data);
  }

  /** A store of eight bytes is a store of the low four and one of the high four. */
  lemma SdIsTwoSw(ws: Words64, paddr: nat, data: u64)
    ensures var n := 4;
            View64(Store64(ws, paddr, n + n, data)) ==
            View64(Store64(Store64(ws, paddr, n, data % 0x1_0000_0000), paddr + n, n, data / 0x1_0000_0000))
  {
    var n := 4;
    StoreView64(ws, paddr, n + n, data);
    StoreView64(ws, paddr, n, data % 0x1_0000_0000);
    StoreView64(Store64(ws, paddr, n, data % 0x1_0000_0000), paddr + n, n, data / 0x1_0000_0000);
    DoubleSplits(View64(ws), paddr, data, n);
  }

  lemma HighHalf(data: u64)
    ensures Shr8(data, 4) == data / 0x1_0000_0000
  {
    assert Shr8(data, 2) == data / 0x1_0000;
  }

  lemma {:induction false} StoreSame(m: Mem, a: nat, n: nat, data: nat, data': nat)
    requires forall k | 0 <= k < n :: ByteOf(data, k) == ByteOf(data', k)
    ensures StoreBytes(m, a, n, data) == StoreBytes(m, a, n, data')
    decreases n
  {
    if n > 0 {
      StoreSame(m, a, n - 1, data, data');
    }
  }

  lemma LowHalf(m: Mem, paddr: nat, n: nat, data: u64)
    requires n == 4
    ensures StoreBytes(m, paddr, n, data % 0x1_0000_0000) == StoreBytes(m, paddr, n, data)
  {
    var hi, lo := data / 0x1_0000_0000, data % 0x1_0000_0000;
    forall k | 0 <= k < n
      ensures ByteOf(lo, k) == ByteOf(data, k)
    {
      HalvesByte(lo, hi, k);
      assert hi * 0x1_0000_0000 + lo == data;
    }
    StoreSame(m, paddr, n, lo, data);
  }

  /** The constructor's words are the common image. */
  lemma InitialView64()
    ensures View64(Initial64()) == InitialImage()
  {
    forall p | 0 <= p < MEM_MAX_SIZE
      ensures View64(Initial64())[p] == InitialImage()[p]
    {
      InitialByte64(p / 8, p % 8);
      assert p / 4 * 4 == p / 8 * 8 + p % 8 / 4 * 4 && p % 4 == p % 8 % 4;
    }
  }

  lemma InitialByte64(i: nat, k: nat)
    requires i < WORDS64 && k < 8
    ensures ByteOf((i * 8 + 4) * 0x1_0000_0000 + i * 8, k) == ByteOf(i * 8 + k / 4 * 4, k % 4)
  {
    HalvesByte(i * 8, i * 8 + 4, k);
  }

  lemma WindowIsWord(ws: Words64, paddr: nat)
    requires paddr % 8 == 0 && paddr < MEM_MAX_SIZE
    ensures Window(View64(ws), paddr, BEAT_BYTES) == LeBytes(ws[paddr / 8], BEAT_BYTES)
  {
    forall j | 0 <= j < BEAT_BYTES
      ensures Window(View64(ws), paddr, BEAT_BYTES)[j] == LeBytes(ws[paddr / 8], BEAT_BYTES)[j]
    {
      InWord(paddr, j);
      LeBytesAt(ws[paddr / 8], BEAT_BYTES, j);
    }
  }

  lemma InWord(paddr: nat, j: nat)
    requires paddr % 8 == 0 && paddr < MEM_MAX_SIZE && j < 8
    ensures (paddr + j) % MEM_MAX_SIZE == paddr + j
    ensures (paddr + j) / 8 == paddr / 8 && (paddr + j) % 8 == j
  {
    assert paddr == 8 * (paddr / 8);
  }

  lemma WordFits(w: u64, n: nat)
    requires n == BEAT_BYTES
    ensures w < Pow256(n)
  {
    Pow256Values();
  }

  /** A whole word is the composition of its eight bytes. */
  lemma WordIsBytes(ws: Words64, paddr: nat)
    requires paddr % 8 == 0 && paddr < MEM_MAX_SIZE
    ensures LoadBytes(View64(ws), paddr, BEAT_BYTES) == ws[paddr / 8]
  {
    WindowIsWord(ws, paddr);
    WordFits(ws[paddr / 8], BEAT_BYTES);
    LeRoundTrip(ws[paddr / 8], BEAT_BYTES);
  }

  /** What the load loop holds once it has taken the `i` top bytes and shifted for the next. */
  function Gathered(bs: seq<byte>, i: nat): nat
    requires i <= |bs|
  {
    if i == 0 || i == |bs| then LeValue(bs[|bs| - i..]) else 256 * LeValue(bs[|bs| - i..])
  }

  lemma GatherStep(bs: seq<byte>, i: nat)
    requires i < |bs|
    ensures Gathered(bs, i + 1) ==
            if i < |bs| - 1 then 256 * (Gathered(bs, i) + bs[|bs| - 1 - i]) else Gathered(bs, i) + bs[|bs| - 1 - i]
  {
    var k := |bs| - 1 - i;
    assert bs[k..][1..] == bs[k + 1..];
  }

  // ----- the simulator object -----

  class PackedMemory {
    const mem: array<u64>
    var visitTime: u64

    ghost predicate Shape() {
      mem.Length == WORDS64
    }

    ghost function View(): Mem
      requires Shape()
      reads mem
    {
      View64(mem[..])
    }

    constructor ()
      ensures Shape() && fresh(mem) && View() == InitialImage() && visitTime == 0
    {
      mem := new u64[WORDS64](_ => 0);
      visitTime := 0;
      new;
      var i := 0;
      while i < WORDS64
        invariant 0 <= i <= WORDS64
        invariant forall k | 0 <= k < i :: mem[k] == Initial64()[k]
        modifies mem
      {
        mem[i] := (i * 8 + 4) * 0x1_0000_0000 + i * 8;
        i := i + 1;
      }
      assert mem[..] == Initial64();
      InitialView64();
    }

    method Visit()
      modifies this`visitTime
      ensures visitTime == (old(visitTime) + 1) % 0x1_0000_0000_0000_0000
    {
      visitTime := (visitTime + 1) % 0x1_0000_0000_0000_0000;
    }

    method GetByte(paddr: nat) returns (b: byte)
      requires Shape()
      ensures b == View()[paddr % MEM_MAX_SIZE]
    {
      var p := paddr % MEM_MAX_SIZE;
      ShiftAndMask(mem[p / 8], p % 8);
      b := And(Shr8(mem[p / 8], p % 8), 0xff);
    }

    method SetByte(paddr: nat, data: byte)
      requires Shape()
      modifies mem
      ensures View() == old(View())[paddr % MEM_MAX_SIZE := data]
      ensures mem[..] == SetByte64(old(mem[..]), paddr, data)
    {
      SetByteView64(mem[..], paddr, data);
      var p := paddr % MEM_MAX_SIZE;
      mem[p / 8] := PutByte64(mem[p / 8], p % 8, data);
    }

    /** The loads of two and four bytes: bytes from the top down, shifting as they come. */
    method Gather(paddr: nat, n: nat) returns (anws: nat)
      requires Shape() && n > 0
      ensures anws == LoadBytes(View(), paddr, n)
    {
      ghost var bs := Window(View(), paddr, n);
      anws := 0;
      var i := 0;
      while i < n
        invariant 0 <= i <= n
        invariant anws == Gathered(bs, i)
      {
        var b := GetByte(paddr + (n - 1 - i));
        GatherStep(bs, i);
        anws := anws + b;
        if i < n - 1 {
          anws := anws * 256;
        }
        i := i + 1;
      }
      assert bs[0..] == bs;
    }

    method Load(paddr: u16, op: nat) returns (r: Result<u64, MemError>)
      requires Shape() && op <= LDU_LWU
      modifies this`visitTime
      ensures r == if paddr % LoadSize(op) != 0 then Err(Misaligned) else Ok(LoadValue(View(), paddr, op))
      ensures visitTime == if r.Ok? then (old(visitTime) + 1) % 0x1_0000_0000_0000_0000 else old(visitTime)
    {
      if op == LDU_LB {
        r := Lb(paddr);
      } else if op == LDU_LH {
        r := Lh(paddr);
      } else if op == LDU_LW {
        r := Lw(paddr);
      } else if op == LDU_LD {
        r := Ld(paddr);
      } else if op == LDU_LBU {
        r := Lbu(paddr);
      } else if op == LDU_LHU {
        r := Lhu(paddr);
      } else {
        r := Lwu(paddr);
      }
    }

    method Lb(paddr: u16) returns (r: Result<u64, MemError>)
      requires Shape()
      modifies this`visitTime
      ensures r == Ok(LoadValue(View(), paddr, LDU_LB))
      ensures visitTime == (old(visitTime) + 1) % 0x1_0000_0000_0000_0000
    {
      var anws := Gather(paddr, 1);
      Visit();
      LoadFits(View(), paddr, 1);
      SignTestByte(anws);
      if And(anws, 0x80) != 0 {
        anws := Or(anws, 0xffff_ffff_ffff_ff00);
      }
      r := Ok(anws);
    }

    method Lh(paddr: u16) returns (r: Result<u64, MemError>)
      requires Shape()
      modifies this`visitTime
      ensures r == if paddr % 2 != 0 then Err(Misaligned) else Ok(LoadValue(View(), paddr, LDU_LH))
      ensures visitTime == if r.Ok? then (old(visitTime) + 1) % 0x1_0000_0000_0000_0000 else old(visitTime)
    {
      if paddr % 2 != 0 {
        return Err(Misaligned);
      }
      Visit();
      var anws := Gather(paddr, 2);
      LoadFits(View(), paddr, 2);
      SignTestHalf(anws);
      if And(anws, 0x8000) != 0 {
        anws := Or(anws, 0xffff_ffff_ffff_0000);
      }
      r := Ok(anws);
    }

    /** The sign test shifts a signed one into its sign bit, so its mask reaches up to bit 63. */
    method Lw(paddr: u16) returns (r: Result<u64, MemError>)
      requires Shape()
      modifies this`visitTime
      ensures r == if paddr % 4 != 0 then Err(Misaligned) else Ok(LoadValue(View(), paddr, LDU_LW))
      ensures visitTime == if r.Ok? then (old(visitTime) + 1) % 0x1_0000_0000_0000_0000 else old(visitTime)
    {
      if paddr % 4 != 0 {
        return Err(Misaligned);
      }
      Visit();
      var anws := Gather(paddr, 4);
      LoadFits(View(), paddr, 4);
      SignTestWord(anws);
      if And(anws, 0xffff_ffff_8000_0000) != 0 {
        anws := Or(anws, 0xffff_ffff_0000_0000);
      }
      r := Ok(anws);
    }

    method Ld(paddr: u16) returns (r: Result<u64, MemError>)
      requires Shape()
      modifies this`visitTime
      ensures r == if paddr % 8 != 0 then Err(Misaligned) else Ok(LoadValue(View(), paddr, LDU_LD))
      ensures visitTime == if r.Ok? then (old(visitTime) + 1) % 0x1_0000_0000_0000_0000 else old(visitTime)
    {
      if paddr % 8 != 0 {
        return Err(Misaligned);
      }
      Visit();
      WordIsBytes(mem[..], paddr);
      r := Ok(mem[paddr / 8]);
    }

    method Lbu(paddr: u16) returns (r: Result<u64, MemError>)
      requires Shape()
      modifies this`visitTime
      ensures r == Ok(LoadValue(View(), paddr, LDU_LBU))
      ensures visitTime == (old(visitTime) + 1) % 0x1_0000_0000_0000_0000
    {
      Visit();
      var anws := Gather(paddr, 1);
      LoadFits(View(), paddr, 1);
      r := Ok(anws);
    }

    method Lhu(paddr: u16) returns (r: Result<u64, MemError>)
      requires Shape()
      modifies this`visitTime
      ensures r == if paddr % 2 != 0 then Err(Misaligned) else Ok(LoadValue(View(), paddr, LDU_LHU))
      ensures visitTime == if r.Ok? then (old(visitTime) + 1) % 0x1_0000_0000_0000_0000 else old(visitTime)
    {
      if paddr % 2 != 0 {
        return Err(Misaligned);
      }
      Visit();
      var anws := Gather(paddr, 2);
      LoadFits(View(), paddr, 2);
      r := Ok(anws);
    }

    method Lwu(paddr: u16) returns (r: Result<u64, MemError>)
      requires Shape()
      modifies this`visitTime
      ensures r == if paddr % 4 != 0 then Err(Misaligned) else Ok(LoadValue(View(), paddr, LDU_LWU))
      ensures visitTime == if r.Ok? then (old(visitTime) + 1) % 0x1_0000_0000_0000_0000 else old(visitTime)
    {
      if paddr % 4 != 0 {
        return Err(Misaligned);
      }
      Visit();
      var anws := Gather(paddr, 4);
      LoadFits(View(), paddr, 4);
      r := Ok(anws);
    }

    method StoreLoop(paddr: u16, n: nat, data: u64)
      requires Shape()
      modifies mem
      ensures mem[..] == Store64(old(mem[..]), paddr, n, data)
    {
      var i := 0;
      while i < n
        invariant 0 <= i <= n
        invariant mem[..] == Store64(old(mem[..]), paddr, i, data)
      {
        SetByte(paddr + i, ByteOf(data, i));
        i := i + 1;
      }
    }

    /** sb, sh, sw and sd: alignment check, then the byte loop. */
    method Store(paddr: u16, n: nat, data: u64) returns (err: Option<MemError>)
      requires Shape() && (n == 1 || n == 2 || n == 4 || n == 8)
      modifies this`visitTime, mem
      ensures err == if paddr % n != 0 then Some(Misaligned) else None
      ensures mem[..] == if paddr % n != 0 then old(mem[..]) else Store64(old(mem[..]), paddr, n, data)
      ensures visitTime == if err.None? then (old(visitTime) + 1) % 0x1_0000_0000_0000_0000 else old(visitTime)
    {
      err := None;
      if paddr % n != 0 {
        return Some(Misaligned);
      }
      Visit();
      StoreLoop(paddr, n, data);
    }
  }

  // The sign tests as the loads write them.

  lemma SignTestByte(v: nat)
    requires v < 0x100
    ensures SignExtend(v, 1) == if And(v, 0x80) != 0 then Or(v, 0xffff_ffff_ffff_ff00) else v
  {
    TopBit(v, 7);
    SignByte(v);
  }

  lemma SignTestHalf(v: nat)
    requires v < 0x1_0000
    ensures SignExtend(v, 2) == if And(v, 0x8000) != 0 then Or(v, 0xffff_ffff_ffff_0000) else v
  {
    TopBit(v, 15);
    SignHalf(v);
  }

  lemma SignTestWord(v: nat)
    requires v < 0x1_0000_0000
    ensures SignExtend(v, 4) == if And(v, 0xffff_ffff_8000_0000) != 0 then Or(v, 0xffff_ffff_0000_0000) else v
  {
    TopBit(v, 31);
    SignWord(v);
  }

  lemma TopBit(v: nat, k: nat)
    requires (k == 7 && v < 0x100) || (k == 15 && v < 0x1_0000) || (k == 31 && v < 0x1_0000_0000)
    ensures k == 7 ==> And(v, 0x80) == 0 || And(v, 0x80) == 0x80
    ensures k == 15 ==> And(v, 0x8000) == 0 || And(v, 0x8000) == 0x8000
    ensures k == 31 ==> And(v, 0xffff_ffff_8000_0000) == And(v, 0x8000_0000)
    ensures k == 31 ==> And(v, 0x8000_0000) == 0 || And(v, 0x8000_0000) == 0x8000_0000
  {
    Pow2Values();
    ShlValues(1);
    ShlValues(0x1_ffff_ffff);
    AndTopBit(v, 1, k);
    AndTopBit(v, 0x1_ffff_ffff, k);
  }
}
