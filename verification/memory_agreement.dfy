// The simulator keeps the same 64 KiB in three forms: bytes, 32-bit words and 64-bit words.
// Whatever aligned stores are run against them, they stay one and the same memory.
module MemoryAgreement {
  import opened Words
  import opened FlatMemory
  import opened L1dTypes
  import opened Loads
  import P32 = Packed32
  import P64 = Packed64

  datatype Access = Access(addr: u16, size: nat, data: u64)

  predicate Aligned(s: Access) {
    P32.AccessSize(s.size) && s.addr % s.size == 0
  }

  function RunFlat(m: Mem, ss: seq<Access>): Mem
    decreases ss
  {
    if ss == [] then m else RunFlat(StoreBytes(m, ss[0].addr, ss[0].size, ss[0].data), ss[1..])
  }

  function Run64(ws: P64.Words64, ss: seq<Access>): P64.Words64
    decreases ss
  {
    if ss == [] then ws else Run64(P64.Store64(ws, ss[0].addr, ss[0].size, ss[0].data), ss[1..])
  }

  function Run32(ws: P32.Words32, ss: seq<Access>): P32.Words32
    decreases ss
  {
    if ss == [] then ws else Run32(P32.Write(ws, ss[0].addr, ss[0].size, ss[0].data), ss[1..])
  }

  lemma {:induction false} RunView64(ws: P64.Words64, ss: seq<Access>)
    ensures P64.View64(Run64(ws, ss)) == RunFlat(P64.View64(ws), ss)
    decreases ss
  {
    if ss != [] {
      P64.StoreView64(ws, ss[0].addr, ss[0].size, ss[0].data);
      RunView64(P64.Store64(ws, ss[0].addr, ss[0].size, ss[0].data), ss[1..]);
    }
  }

  lemma {:induction false} RunView32(ws: P32.Words32, ss: seq<Access>)
    requires forall s | s in ss :: Aligned(s)
    ensures P32.View32(Run32(ws, ss)) == RunFlat(P32.View32(ws), ss)
    decreases ss
  {
    if ss != [] {
      assert ss[0] in ss;
      P32.WriteView32(ws, ss[0].addr, ss[0].size, ss[0].data);
      RunView32(P32.Write(ws, ss[0].addr, ss[0].size, ss[0].data), ss[1..]);
    }
  }

  /** From the constructors' images, any run of aligned stores leaves the same bytes in all three. */
  lemma StoresAgree(ss: seq<Access>)
    requires forall s | s in ss :: Aligned(s)
    ensures P64.View64(Run64(P64.Initial64(), ss)) == RunFlat(InitialImage(), ss)
    ensures P32.View32(Run32(P32.Initial32(), ss)) == RunFlat(InitialImage(), ss)
  {
    P64.InitialView64();
    P32.InitialView32();
    RunView64(P64.Initial64(), ss);
    RunView32(P32.Initial32(), ss);
  }

  /** So every aligned load of any width reads the same number from all three. */
  lemma LoadsAgree(ss: seq<Access>, a: u16, n: nat)
    requires forall s | s in ss :: Aligned(s)
    requires P32.AccessSize(n) && a % n == 0
    ensures var m := RunFlat(InitialImage(), ss);
            P32.Peek(Run32(P32.Initial32(), ss), a, n) == LoadBytes(m, a, n) ==
            LoadBytes(P64.View64(Run64(P64.Initial64(), ss)), a, n)
    ensures n == BEAT_BYTES ==>
              Run64(P64.Initial64(), ss)[a / n] == P32.Peek(Run32(P32.Initial32(), ss), a, n)
  {
    StoresAgree(ss);
    P32.PeekView32(Run32(P32.Initial32(), ss), a, n);
    if n == BEAT_BYTES {
      P64.WordIsBytes(Run64(P64.Initial64(), ss), a);
    }
  }

  /** Each eight-byte store replaced by one of its low word and one of its high word. */
  function SplitDoubles(ss: seq<Access>): seq<Access> {
    if ss == [] then []
    else if ss[0].size == BEAT_BYTES && ss[0].addr + 4 < MEM_MAX_SIZE then
      [Access(ss[0].addr, 4, ss[0].data % 0x1_0000_0000),
       Access(ss[0].addr + 4, 4, ss[0].data / 0x1_0000_0000)] + SplitDoubles(ss[1..])
    else [ss[0]] + SplitDoubles(ss[1..])
  }

  /** A golden memory that splits doubles keeps up with a memory that does not. */
  lemma {:induction false} SplittingIsInvisible(ws: P64.Words64, ss: seq<Access>)
    ensures P64.View64(Run64(ws, SplitDoubles(ss))) == P64.View64(Run64(ws, ss))
  {
    RunView64(ws, SplitDoubles(ss));
    RunView64(ws, ss);
    SplitFlat(P64.View64(ws), ss);
  }

  lemma {:induction false} SplitFlat(m: Mem, ss: seq<Access>)
    ensures RunFlat(m, SplitDoubles(ss)) == RunFlat(m, ss)
    decreases ss
  {
    if ss != [] {
      var s, rest := ss[0], SplitDoubles(ss[1..]);
      SplitFlat(StoreBytes(m, s.addr, s.size, s.data), ss[1..]);
      if s.size == BEAT_BYTES && s.addr + 4 < MEM_MAX_SIZE {
        var lo := Access(s.addr, 4, s.data % 0x1_0000_0000);
        var hi := Access(s.addr + 4, 4, s.data / 0x1_0000_0000);
        SplitOne(m, s);
        RunTwo(m, lo, hi, rest);
      } else {
        RunOne(m, s, rest);
      }
    }
  }

  lemma SplitOne(m: Mem, s: Access)
    requires s.size == BEAT_BYTES
    ensures StoreBytes(StoreBytes(m, s.addr, 4, s.data % 0x1_0000_0000), s.addr + 4, 4, s.data / 0x1_0000_0000)
            == StoreBytes(m, s.addr, s.size, s.data)
  {
    var n := 4;
    P64.DoubleSplits(m, s.addr, s.data, n);
    assert n + n == s.size;
  }

  lemma RunOne(m: Mem, s: Access, rest: seq<Access>)
    ensures RunFlat(m, [s] + rest) == RunFlat(StoreBytes(m, s.addr, s.size, s.data), rest)
  {
    assert ([s] + rest)[1..] == rest;
  }

  lemma RunTwo(m: Mem, s: Access, t: Access, rest: seq<Access>)
    ensures RunFlat(m, [s, t] + rest) ==
            RunFlat(StoreBytes(StoreBytes(m, s.addr, s.size, s.data), t.addr, t.size, t.data), rest)
  {
    assert [s, t] + rest == [s] + ([t] + rest);
    RunOne(m, s, [t] + rest);
    RunOne(StoreBytes(m, s.addr, s.size, s.data), t, rest);
  }
}
