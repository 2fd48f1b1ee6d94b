// The monitor of the L1D test bench (sim/l1d/monitor.cpp): it generates random requests, hands
// out physical registers, and checks every commit against a golden memory.
module L1dMonitor {
  import opened Words
  import opened Bits
  import opened FlatMemory
  import opened L1dTypes
  import opened Loads
  import opened Axi

  type Roll = x: int | 0 <= x < 0x8000_0000

  /** The draws one edge may make from `rand()`. */
  datatype Rolls = Rolls(gen: Roll, ls: Roll, fence: Roll, op: Roll, offset: Roll, hi: Roll, lo: Roll, delay: Roll)

  datatype MonState = MonState(
    issQue: seq<Req>,
    reqVld: bool,
    req: Req,
    reqIssNum: u32,
    respCommNum: u32,
    freeList: seq<u8>,
    testcaseMax: u64,
    mem: Mem)

  datatype MonIn = MonIn(rcuReady: bool, resp: Option<Req>, rolls: Rolls)

  datatype MonError = CommitInWrongOrder | LoadFail

  function InitialFreeList(): seq<u8> {
    seq(63, i requires 0 <= i < 63 => i + 1)
  }

  function InitMon(testcaseMax: u64): MonState {
    MonState([], false, NO_REQ, 0, 0, InitialFreeList(), testcaseMax, InitialImage())
  }

  function Next(n: u32): u32 {
    if n == 0xffff_ffff then 0 else n + 1
  }

  /** Front and rest of the free list; the list is never empty where they are used. */
  function Front(l: seq<u8>): u8 {
    if l == [] then 0 else l[0]
  }

  function Rest(l: seq<u8>): seq<u8> {
    if l == [] then [] else l[1..]
  }

  function Accept(s: MonState, rcuReady: bool): MonState {
    if rcuReady && s.reqVld then
      s.(freeList := if s.req.isStore then s.freeList else Rest(s.freeList),
         reqIssNum := Next(s.reqIssNum),
         reqVld := false,
         issQue := s.issQue + [s.req])
    else s
  }

  predicate Generates(s: MonState, r: Rolls) {
    r.gen % 3 == 0 && s.reqIssNum < s.testcaseMax
  }

  function NewReq(r: Rolls, rd: u8): Req {
    var st := r.ls % 2 == 1;
    var offset := r.offset % 0x1_0000;
    Req(DATA_PADDR_BASE + (offset - offset % 8),
        if st then r.hi * 0x1_0000_0000 + r.lo else 0,
        0,
        if st then 0 else rd,
        WAKEUP_BASE_DELAY + r.delay % WAKEUP_MAX_DELAY,
        st && r.fence % 10 == 0,
        st,
        if st then r.op % 4 else r.op % 7,
        false, false, false)
  }

  function Generate(s: MonState, r: Rolls): MonState {
    if Generates(s, r) then s.(reqVld := true, req := NewReq(r, Front(s.freeList))) else s
  }

  function Check(s: MonState, resp: Option<Req>): Result<MonState, MonError> {
    if resp.None? then Ok(s)
    else
      var r := resp.value;
      if s.issQue == [] || s.issQue[0].paddr != r.paddr then Err(CommitInWrongOrder)
      else
        var t := s.(respCommNum := Next(s.respCommNum), issQue := s.issQue[1..]);
        if r.isStore then Ok(t.(mem := StoreBytes(s.mem, r.paddr, StoreSize(r.opcode), r.data)))
        else if LoadValue(s.mem, r.paddr, r.opcode) != r.data then Err(LoadFail)
        else Ok(t.(freeList := s.freeList + [r.rdAddr]))
  }

  function MonStep(s: MonState, x: MonIn): Result<MonState, MonError> {
    Check(Generate(Accept(s, x.rcuReady), x.rolls), x.resp)
  }

  predicate UtDone(s: MonState) {
    s.reqIssNum == s.testcaseMax && s.respCommNum == s.testcaseMax
  }

  // ----- the simulator object -----

  class Monitor {
    const perfectMem: FakeMemory
    const testcaseMax: u64
    var issQue: seq<Req>
    var rcuReady: bool
    var reqVld: bool
    var req: Req
    var respVld: bool
    var resp: Req
    var reqIssNum: u32
    var respCommNum: u32
    var freeList: seq<u8>

    constructor (pm: FakeMemory, tm: u64)
      requires pm.Shape() && pm.mem[..] == InitialImage()
      ensures perfectMem == pm && testcaseMax == tm
      ensures State() == InitMon(tm) && !rcuReady && !respVld
    {
      perfectMem, testcaseMax := pm, tm;
      issQue := [];
      rcuReady, reqVld, req, respVld, resp := false, false, NO_REQ, false, NO_REQ;
      reqIssNum, respCommNum := 0, 0;
      var l: seq<u8> := [];
      var i := 1;
      while i < 64
        invariant 1 <= i <= 64
        invariant l == InitialFreeList()[..i - 1]
      {
        l := l + [i];
        i := i + 1;
      }
      freeList := l;
    }

    ghost function State(): MonState
      requires perfectMem.Shape()
      reads this, perfectMem.mem
    {
      MonState(issQue, reqVld, req, reqIssNum, respCommNum, freeList, testcaseMax, perfectMem.mem[..])
    }

    ghost function Sampled(r: Rolls): MonIn
      reads this
    {
      MonIn(rcuReady, if respVld then Some(resp) else None, r)
    }

    method Sample(rdy: bool, vld: bool, r: Req)
      requires perfectMem.Shape()
      modifies this
      ensures State() == old(State())
      ensures rcuReady == rdy && respVld == vld && resp == r
    {
      rcuReady, respVld, resp := rdy, vld, r;
    }

    method UtDoneNow() returns (b: bool)
      requires perfectMem.Shape()
      ensures b == UtDone(State())
    {
      b := reqIssNum == testcaseMax && respCommNum == testcaseMax;
    }

    method DoAccept()
      requires perfectMem.Shape()
      modifies this`freeList, this`reqIssNum, this`reqVld, this`issQue
      ensures State() == Accept(old(State()), rcuReady)
    {
      if rcuReady && reqVld {
        if !req.isStore && freeList != [] {
          freeList := freeList[1..];
        }
        reqIssNum := if reqIssNum == 0xffff_ffff then 0 else reqIssNum + 1;
        reqVld := false;
        issQue := issQue + [req];
      }
    }

    method DoGenerate(r: Rolls)
      requires perfectMem.Shape()
      modifies this`reqVld, this`req
      ensures State() == Generate(old(State()), r)
    {
      if r.gen % 3 == 0 && reqIssNum < testcaseMax {
        reqVld := true;
        req := DrawReq(r, if freeList == [] then 0 else freeList[0]);
      }
    }

    /** The expected value of a load: sum of shifted bytes, then the sign mask of its width. */
    method Expected(paddr: u64, opcode: u8) returns (data: nat)
      requires perfectMem.Shape()
      ensures data == LoadValue(perfectMem.mem[..], paddr, opcode)
    {
      var size, unsign := 0, false;
      if opcode == LDU_LB {
        size, unsign := 0, false;
      } else if opcode == LDU_LH {
        size, unsign := 1, false;
      } else if opcode == LDU_LW {
        size, unsign := 2, false;
      } else if opcode == LDU_LD {
        size, unsign := 3, true;
      } else if opcode == LDU_LBU {
        size, unsign := 0, true;
      } else if opcode == LDU_LHU {
        size, unsign := 1, true;
      } else if opcode == LDU_LWU {
        size, unsign := 2, true;
      }
      var n := if size == 0 then 1 else if size == 1 then 2 else if size == 2 then 4 else 8;
      assert n == LoadSize(opcode) && unsign == IsUnsigned(opcode);
      data := SumBytes(paddr, n);
      LoadFits(perfectMem.mem[..], paddr, n);
      if !unsign {
        data := Signed(data, size);
      }
    }

    method SumBytes(paddr: u64, n: nat) returns (data: nat)
      requires perfectMem.Shape()
      ensures data == LoadBytes(perfectMem.mem[..], paddr, n)
    {
      data := 0;
      var i := 0;
      while i < n
        invariant 0 <= i <= n
        invariant data == LoadBytes(perfectMem.mem[..], paddr, i)
      {
        var b := perfectMem.GetByte(paddr + i);
        LoadStep(perfectMem.mem[..], paddr, i);
        data := data + b * Pow256(i);
        i := i + 1;
      }
    }

    method DoStore(paddr: u64, data: u64, opcode: u8)
      requires perfectMem.Shape()
      modifies perfectMem.mem
      ensures perfectMem.mem[..] == StoreBytes(old(perfectMem.mem[..]), paddr, StoreSize(opcode), data)
    {
      var size := 0;
      if opcode == STU_SB {
        size := 0;
      } else if opcode == STU_SH {
        size := 1;
      } else if opcode == STU_SW {
        size := 2;
      } else if opcode == STU_SD {
        size := 3;
      }
      var n := if size == 0 then 1 else if size == 1 then 2 else if size == 2 then 4 else 8;
      assert n == StoreSize(opcode);
      var i := 0;
      while i < n
        invariant 0 <= i <= n
        invariant perfectMem.mem[..] == StoreBytes(old(perfectMem.mem[..]), paddr, i, data)
      {
        perfectMem.SetByte(paddr + i, ByteOf(data, i));
        i := i + 1;
      }
    }

    method DoCheck() returns (err: Option<MonError>)
      requires perfectMem.Shape()
      modifies this`respVld, this`respCommNum, this`issQue, this`freeList, perfectMem.mem
      ensures match Check(old(State()), if old(respVld) then Some(resp) else None)
              case Ok(s) => err == None && State() == s
              case Err(e) => err == Some(e)
    {
      err := None;
      if respVld {
        respVld := false;
        respCommNum := if respCommNum == 0xffff_ffff then 0 else respCommNum + 1;
        if issQue == [] || issQue[0].paddr != resp.paddr {
          return Some(CommitInWrongOrder);
        }
        issQue := issQue[1..];
        if !resp.isStore {
          freeList := freeList + [resp.rdAddr];
        }
        if !resp.isStore {
          var data := Expected(resp.paddr, resp.opcode);
          if data != resp.data {
            return Some(LoadFail);
          }
        } else {
          DoStore(resp.paddr, resp.data, resp.opcode);
        }
      }
    }

    /** One rising clock edge; an error is the exception that ends the simulation. */
    method Eval(r: Rolls) returns (err: Option<MonError>)
      requires perfectMem.Shape()
      modifies this, perfectMem.mem
      ensures match MonStep(old(State()), old(Sampled(r)))
              case Ok(s) => err == None && State() == s
              case Err(e) => err == Some(e)
    {
      DoAccept();
      DoGenerate(r);
      err := DoCheck();
    }
  }

  /** A random request: a double-word of the 64 KiB from 0x8000_0000 on, the one the drawn offset
      falls into; a store with the two draws as the halves of its data and a fence in one of ten
      draws, a load with the register `rd`; and a delay of one to five edges. */
  method DrawReq(r: Rolls, rd: u8) returns (q: Req)
    ensures q == NewReq(r, rd)
    ensures q.isStore <==> r.ls % 2 == 1
    ensures q.paddr % 8 == 0 && q.paddr <= 0x8000_0000 + r.offset % 0x1_0000 < q.paddr + 8
    ensures 0x8000_0000 <= q.paddr <= 0x8000_ffff
    ensures if q.isStore then q.data / 0x1_0000_0000 == r.hi && q.data % 0x1_0000_0000 == r.lo else q.data == 0
    ensures q.isFenced <==> q.isStore && r.fence % 10 == 0
    ensures q.opcode == if q.isStore then r.op % 4 else r.op % 7
    ensures 1 <= q.delay <= 5 && (q.delay - 1 - r.delay) % 5 == 0
    ensures Unprocessed(q) && q.robIndex == 0 && q.rdAddr == if q.isStore then 0 else rd
  {
    Halves(r.hi, r.lo);
    var ls := r.ls % 2 == 1;
    var isFenced := if ls then r.fence % 10 == 0 else false;
    var op := if ls then r.op % 4 else r.op % 7;
    var paddr: u64 := DATA_PADDR_BASE + r.offset % 0x1_0000;
    var data: u64 := 0;
    if ls {
      data := r.hi * 0x1_0000_0000 + r.lo;
    }
    var rdAddr: u8 := if ls then 0 else rd;
    var delay := WAKEUP_BASE_DELAY + r.delay % WAKEUP_MAX_DELAY;
    paddr := paddr - paddr % 8;
    q := Req(paddr, data, 0, rdAddr, delay, isFenced, ls, op, false, false, false);
  }

  /** The check of a commit fails in two ways: the order is wrong exactly if nothing is issued or the
      first request issued has another address, and then nothing else is looked at; otherwise a load
      fails exactly if it does not carry the value at its address. */
  lemma CheckFailsIff(s: MonState, r: Req)
    requires r.opcode < 7
    ensures Check(s, Some(r)) == Err(CommitInWrongOrder) <==> s.issQue == [] || s.issQue[0].paddr != r.paddr
    ensures Check(s, Some(r)) == Err(LoadFail) <==>
            s.issQue != [] && s.issQue[0].paddr == r.paddr && !r.isStore && r.data != Loaded(s.mem, r.paddr, r.opcode)
  {
    LoadTable(s.mem, r.paddr, r.opcode);
  }

  lemma Halves(hi: u32, lo: u32)
    ensures (hi * 0x1_0000_0000 + lo) / 0x1_0000_0000 == hi && (hi * 0x1_0000_0000 + lo) % 0x1_0000_0000 == lo
  {
  }

  /** Every load and every store the bench can be asked for is drawn by some numbers: any aligned
      data address, any opcode of its kind, any delay, any 31-bit halves, fenced or not. */
  lemma EveryRequestIsDrawn(q: Req, rd: u8, hi: Roll, lo: Roll) returns (r: Rolls)
    requires 0x8000_0000 <= q.paddr <= 0x8000_ffff && q.paddr % 8 == 0 && 1 <= q.delay <= 5
    requires Unprocessed(q) && q.robIndex == 0 && q.rdAddr == if q.isStore then 0 else rd
    requires if q.isStore then q.opcode < 4 && q.data == hi * 0x1_0000_0000 + lo
             else q.opcode < 7 && q.data == 0 && !q.isFenced
    ensures r.gen % 3 == 0 && NewReq(r, rd) == q
  {
    r := Rolls(0, if q.isStore then 1 else 0, if q.isFenced then 0 else 1, q.opcode, q.paddr - 0x8000_0000,
               hi, lo, q.delay - 1);
    assert r.offset % 8 == 0;
  }

  /** After an edge that throws nothing a request is on offer exactly if one has been drawn at it,
      which needs one draw in three and a quota not used up, or one was on offer and was not taken;
      a new one takes the place of the old. */
  lemma OfferedIff(s: MonState, x: MonIn)
    requires MonStep(s, x).Ok?
    ensures var t := MonStep(s, x).value;
            var taken := s.reqVld && x.rcuReady;
            var count := if taken then (s.reqIssNum + 1) % 0x1_0000_0000 else s.reqIssNum;
            var drawn := x.rolls.gen % 3 == 0 && count < s.testcaseMax;
            && t.reqIssNum == count
            && (t.reqVld <==> drawn || (s.reqVld && !taken))
            && (drawn ==> t.req == NewReq(x.rolls, Front(Accept(s, x.rcuReady).freeList)))
            && (!drawn ==> t.req == s.req)
  {
  }

  /** The sign mask, applied when the top bit of the width is set. */
  method Signed(v: nat, size: nat) returns (data: u64)
    requires size <= 2
    requires v < if size == 0 then 0x100 else if size == 1 then 0x1_0000 else 0x1_0000_0000
    ensures data == SignExtend(v, if size == 0 then 1 else if size == 1 then 2 else 4)
  {
    SignMaskFits(v, size);
    data := v;
    if size == 0 && And(v, 0x80) == 0x80 {
      data := Or(v, 0xffff_ffff_ffff_ff00);
    } else if size == 1 && And(v, 0x8000) == 0x8000 {
      data := Or(v, 0xffff_ffff_ffff_0000);
    } else if size == 2 && And(v, 0x8000_0000) == 0x8000_0000 {
      data := Or(v, 0xffff_ffff_0000_0000);
    }
  }

  lemma SignMaskFits(v: nat, size: nat)
    requires size <= 2
    requires v < if size == 0 then 0x100 else if size == 1 then 0x1_0000 else 0x1_0000_0000
    ensures size == 0 ==> SignExtend(v, 1) == if And(v, 0x80) == 0x80 then Or(v, 0xffff_ffff_ffff_ff00) else v
    ensures size == 1 ==> SignExtend(v, 2) == if And(v, 0x8000) == 0x8000 then Or(v, 0xffff_ffff_ffff_0000) else v
    ensures size == 2 ==>
              SignExtend(v, 4) == if And(v, 0x8000_0000) == 0x8000_0000 then Or(v, 0xffff_ffff_0000_0000) else v
  {
    if size == 0 {
      SignByte(v);
    } else if size == 1 {
      SignHalf(v);
    } else {
      SignWord(v);
    }
  }
}
