// The memory object of the older test bench (sim/perfect_mem.hpp).
module PerfectMemory {
  import opened Words
  import opened Bits
  import opened FlatMemory
  import opened Packed32
  import opened DelaySearch

  const MSHR_DEPTH: nat := 2

  datatype ReqEntry = ReqEntry(data: u64, lsqIndex: u32, addr: u16, valid: bool, delay: u16)

  /** The delays of the other slots, whether those slots are valid or not. */
  function OtherDelays(q: seq<ReqEntry>, index: nat): set<nat> {
    set i | 0 <= i < |q| && i != index :: q[i].delay as nat
  }

  class PerfectMem {
    const mem: array<u32>
    const reqQue: array<ReqEntry>
    var wbAck: u32

    ghost predicate Shape() {
      mem.Length == PERFECT_MEM_MAX_SIZE && reqQue.Length == MSHR_DEPTH
    }

    constructor ()
      ensures Shape() && fresh(mem) && fresh(reqQue) && wbAck == 0
      ensures mem[..] == Initial32() && View32(mem[..]) == InitialImage()
    {
      mem := new u32[PERFECT_MEM_MAX_SIZE](_ => 0);
      reqQue := new ReqEntry[MSHR_DEPTH](_ => ReqEntry(0, 0, 0, false, 0));
      wbAck := 0;
      new;
      var i := 0;
      while i < PERFECT_MEM_MAX_SIZE
        invariant 0 <= i <= PERFECT_MEM_MAX_SIZE
        invariant forall k | 0 <= k < i :: mem[k] == Initial32()[k]
        modifies mem
      {
        mem[i] := i * 4;
        i := i + 1;
      }
      assert mem[..] == Initial32();
      InitialView32();
    }

    /** write8, write16, write32 and write64: check the alignment, write, start the acknowledge. */
    method WriteN(a: u16, n: nat, data: u64) returns (err: Option<MemError>)
      requires Shape() && AccessSize(n)
      modifies mem, this`wbAck
      ensures err == if a % n != 0 then Some(Misaligned) else None
      ensures err.None? ==> View32(mem[..]) == StoreBytes(View32(old(mem[..])), a, n, data)
      ensures err.None? ==> mem[..] == Write(old(mem[..]), a, n, data)
      ensures err.None? ==> wbAck == if old(wbAck) == 0 then 1 else old(wbAck)
      ensures err.Some? ==> mem[..] == old(mem[..]) && wbAck == old(wbAck)
    {
      err := None;
      if a % n != 0 {
        return Some(Misaligned);
      }
      ghost var before: Words32 := mem[..];
      WriteView32(before, a, n, data);
      if n == 8 {
        mem[a / 4 + 1] := data / 0x1_0000_0000;
        mem[a / 4] := data % 0x1_0000_0000;
      } else if n == 4 {
        mem[a / 4] := data % 0x1_0000_0000;
      } else if n == 2 {
        PutHalfBytes(mem[a / 4], a % 4 != 0, data % 0x1_0000, 0);
        if a % 4 == 0 {
          mem[a / 4] := data % 0x1_0000 + And(mem[a / 4], 0xffff_0000);
        } else {
          mem[a / 4] := data % 0x1_0000 * 0x1_0000 + And(mem[a / 4], 0x0000_ffff);
        }
      } else {
        PutIsReplace32(mem[a / 4], a % 4, data % 0x100);
        mem[a / 4] := data % 0x100 * Pow256(a % 4) + And(mem[a / 4], Mask32(a % 4));
      }
      assert mem[..] == Write(before, a, n, data);
      if wbAck == 0 {
        wbAck := 1;
      }
    }

    /** peek8, peek16, peek32 and peek64. */
    method PeekN(a: u16, n: nat) returns (r: Result<nat, MemError>)
      requires Shape() && AccessSize(n)
      ensures r == if a % n != 0 then Err(Misaligned) else Ok(LoadBytes(View32(mem[..]), a, n))
    {
      if a % n != 0 {
        return Err(Misaligned);
      }
      PeekView32(mem[..], a, n);
      if n == 8 {
        r := Ok(Join32(mem[a / 4 + 1], mem[a / 4]));
      } else if n == 4 {
        r := Ok(mem[a / 4]);
      } else if n == 2 {
        r := Ok(if a % 4 == 0 then mem[a / 4] % 0x1_0000 else mem[a / 4] / 0x1_0000);
      } else {
        r := Ok(ByteOf(mem[a / 4], a % 4));
      }
    }

    /** Bump one slot's delay, in sixteen bits, until no other slot has it: at most once. */
    method HandleDelayConflict(index: nat)
      requires Shape() && index < MSHR_DEPTH
      modifies reqQue
      ensures IsFirstFree(reqQue[index].delay, old(reqQue[index].delay), OtherDelays(old(reqQue[..]), index))
      ensures old(reqQue[index].delay) < 0xffff ==>
                IsLeastFree(reqQue[index].delay, old(reqQue[index].delay), OtherDelays(old(reqQue[..]), index))
      ensures reqQue[index].delay == old(reqQue[index].delay) ||
              reqQue[index].delay == Bumped(old(reqQue[index].delay), 1)
      ensures reqQue[..] == old(reqQue[..])[index := old(reqQue[index]).(delay := reqQue[index].delay)]
    {
      ghost var used := OtherDelays(reqQue[..], index);
      ghost var start, n := reqQue[index].delay, 0;
      ghost var other := reqQue[1 - index].delay;
      OneOther(reqQue[..], index);
      assert start == Bumped(start, 0);
      var flag := true;
      while flag
        invariant reqQue[..] == old(reqQue[..])[index := old(reqQue[index]).(delay := reqQue[index].delay)]
        invariant n <= 1 && reqQue[index].delay == Bumped(start, n)
        invariant forall k | 0 <= k < n :: Bumped(start, k) in used
        invariant !flag ==> reqQue[index].delay as nat !in used
        decreases 1 - n, flag
      {
        flag := Conflicts(index);
        OthersSame(old(reqQue[..]), index, reqQue[index]);
        if flag {
          OneBumpIsEnough(start, n, other);
          reqQue[index] := reqQue[index].(delay := (reqQue[index].delay + 1) % 0x1_0000);
          n := n + 1;
        }
      }
      FirstIsLeast(start, n, used);
    }

    /** The inner loop: does another slot hold the same delay? */
    method Conflicts(index: nat) returns (flag: bool)
      requires Shape() && index < MSHR_DEPTH
      ensures flag <==> reqQue[index].delay as nat in OtherDelays(reqQue[..], index)
    {
      flag := false;
      var i := 0;
      while i < MSHR_DEPTH
        invariant 0 <= i <= MSHR_DEPTH
        invariant flag <==> exists k | 0 <= k < i :: k != index && reqQue[k].delay == reqQue[index].delay
      {
        if index != i && reqQue[index].delay == reqQue[i].delay {
          flag := true;
        }
        i := i + 1;
      }
    }
  }

  lemma OneOther(q: seq<ReqEntry>, index: nat)
    requires |q| == MSHR_DEPTH && index < MSHR_DEPTH
    ensures OtherDelays(q, index) == {q[1 - index].delay as nat}
  {
  }

  /** Without a wrap-around the first free delay is the least. */
  lemma FirstIsLeast(start: u16, n: nat, used: set<nat>)
    requires n <= 1 && Bumped(start, n) !in used && forall k | 0 <= k < n :: Bumped(start, k) in used
    ensures start < 0xffff ==> IsLeastFree(Bumped(start, n), start, used)
  {
    if n == 1 {
      assert Bumped(start, 0) in used;
    }
  }

  /** With one other slot a bumped delay is free. */
  lemma OneBumpIsEnough(start: u16, n: nat, other: u16)
    requires n <= 1 && Bumped(start, n) == other && (n == 1 ==> Bumped(start, 0) == other)
    ensures n == 0
  {
  }

  lemma OthersSame(q: seq<ReqEntry>, index: nat, e: ReqEntry)
    requires index < |q|
    ensures OtherDelays(q[index := e], index) == OtherDelays(q, index)
  {
    var q' := q[index := e];
    assert forall i | 0 <= i < |q| && i != index :: q'[i].delay == q[i].delay;
  }
}
