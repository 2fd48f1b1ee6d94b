// The fake AXI memory behind the L1D (sim/l1d/fake_mem.cpp): requests wait out a random delay
// in arrival order, write beats are routed to the oldest open write, ready requests are served
// as eight-beat bursts, and one response is offered per clock edge.
module Axi {
  import opened Words
  import opened FlatMemory
  import opened L1dTypes

  datatype AwReq = AwReq(awid: u32, awaddr: u64)
  datatype WReq = WReq(wdata: u64)
  datatype ArReq = ArReq(arid: u32, araddr: u64)
  datatype RResp = RResp(rid: u32, rlast: bool, rdata: u64)
  datatype BResp = BResp(bid: u32)

  /** A queued request: a write with the beats it has so far, or a read. */
  datatype MemReq =
    | Write(aw: AwReq, beats: seq<WReq>, delay: nat)
    | Read(ar: ArReq, delay: nat)

  datatype MemResp = R(r: RResp) | B(b: BResp)

  datatype AxiError = WBeatWithoutAw | InvalidRead | InvalidWrite

  /** The outputs that an edge leaves on the response channels. */
  datatype RespPort = RespPort(rVld: bool, rResp: RResp, bVld: bool, bResp: BResp)

  datatype AxiState = AxiState(mem: Mem, pagetable: Mem, waitQ: seq<MemReq>, respQ: seq<MemResp>, port: RespPort)

  datatype AxiIn = AxiIn(
    aw: Option<AwReq>, awDraw: nat,
    ar: Option<ArReq>, arDraw: nat,
    w: Option<WReq>,
    rRdy: bool, bRdy: bool)

  const IDLE_PORT: RespPort := RespPort(false, RResp(0, false, 0), false, BResp(0))

  // ----- the wait queue -----

  function WaitDelay(draw: nat): nat {
    MEM_BASE_DELAY + draw % MEM_MAX_DELAY
  }

  function AcceptAw(q: seq<MemReq>, x: AxiIn): seq<MemReq> {
    if x.aw.Some? then q + [Write(x.aw.value, [], WaitDelay(x.awDraw))] else q
  }

  function AcceptAr(q: seq<MemReq>, x: AxiIn): seq<MemReq> {
    if x.ar.Some? then q + [Read(x.ar.value, WaitDelay(x.arDraw))] else q
  }

  predicate Open(r: MemReq) {
    r.Write? && |r.beats| < BURST_NUM
  }

  function FirstOpen(q: seq<MemReq>): (k: nat)
    ensures k <= |q|
    ensures k < |q| ==> Open(q[k])
    ensures forall i | 0 <= i < k :: !Open(q[i])
  {
    if q == [] || Open(q[0]) then 0 else 1 + FirstOpen(q[1..])
  }

  function RouteBeat(q: seq<MemReq>, w: WReq): Result<seq<MemReq>, AxiError> {
    var k := FirstOpen(q);
    if k < |q| then Ok(q[k := q[k].(beats := q[k].beats + [w])]) else Err(WBeatWithoutAw)
  }

  function RouteW(q: seq<MemReq>, w: Option<WReq>): Result<seq<MemReq>, AxiError> {
    if w.Some? then RouteBeat(q, w.value) else Ok(q)
  }

  function Ticked(r: MemReq): MemReq {
    if r.delay > 0 then r.(delay := r.delay - 1) else r
  }

  function CountDown(q: seq<MemReq>): seq<MemReq> {
    seq(|q|, i requires 0 <= i < |q| => Ticked(q[i]))
  }

  /** Has everything it needs to be served. */
  predicate Serviceable(r: MemReq) {
    r.Read? || |r.beats| == BURST_NUM
  }

  predicate Ready(r: MemReq) {
    r.delay == 0 && Serviceable(r)
  }

  /** How many requests leave the front of the wait queue at this edge. */
  function ReadyCount(q: seq<MemReq>): (k: nat)
    ensures k <= |q|
    ensures forall i | 0 <= i < k :: Ready(q[i])
    ensures k < |q| ==> !Ready(q[k])
  {
    if q == [] || !Ready(q[0]) then 0 else 1 + ReadyCount(q[1..])
  }

  // ----- service -----

  predicate InData(a: u64) {
    DATA_PADDR_BASE <= a < DATA_PADDR_UPPER
  }

  predicate InPagetable(a: u64) {
    PAGETABLE_PADDR_BASE <= a < PAGETABLE_PADDR_UPPER
  }

  /** The eight bytes from `a` on as one beat. */
  function LoadBeat(m: Mem, a: nat): u64 {
    LoadBytesBound(m, a, BEAT_BYTES);
    Pow256Values();
    LoadBytes(m, a, BEAT_BYTES)
  }

  function ReadBeat(m: Mem, ar: ArReq, i: nat): MemResp {
    R(RResp(ar.arid, i == BURST_NUM - 1, LoadBeat(m, ar.araddr + i * 8)))
  }

  function ReadBurst(m: Mem, ar: ArReq, n: nat): (rs: seq<MemResp>)
    ensures |rs| == n
  {
    seq(n, i requires 0 <= i => ReadBeat(m, ar, i))
  }

  function WriteBurst(m: Mem, a: nat, ws: seq<WReq>): Mem {
    if ws == [] then m
    else
      var n := |ws| - 1;
      StoreBytes(WriteBurst(m, a, ws[..n]), a + n * 8, BEAT_BYTES, ws[n].wdata)
  }

  datatype Served = Served(mem: Mem, resps: seq<MemResp>)

  function ServeOne(m: Mem, pagetable: Mem, r: MemReq): Result<Served, AxiError> {
    match r
    case Read(ar, _) =>
      if InData(ar.araddr) then Ok(Served(m, ReadBurst(m, ar, BURST_NUM)))
      else if InPagetable(ar.araddr) then Ok(Served(m, ReadBurst(pagetable, ar, BURST_NUM)))
      else Err(InvalidRead)
    case Write(aw, beats, _) =>
      if InData(aw.awaddr) then Ok(Served(WriteBurst(m, aw.awaddr, beats), [B(BResp(aw.awid))]))
      else Err(InvalidWrite)
  }

  function ServeAll(m: Mem, pagetable: Mem, rs: seq<MemReq>): Result<Served, AxiError>
    decreases |rs|
  {
    if rs == [] then Ok(Served(m, []))
    else
      match ServeOne(m, pagetable, rs[0])
      case Err(e) => Err(e)
      case Ok(first) =>
        match ServeAll(first.mem, pagetable, rs[1..])
        case Err(e) => Err(e)
        case Ok(rest) => Ok(Served(rest.mem, first.resps + rest.resps))
  }

  // ----- responses -----

  /** What is driven on the response channels when `respQ` is waiting. */
  function Drive(respQ: seq<MemResp>, port: RespPort): RespPort {
    if respQ == [] then port.(rVld := false, bVld := false)
    else match respQ[0]
      case B(b) => port.(rVld := false, bVld := true, bResp := b)
      case R(r) => port.(rVld := true, rResp := r, bVld := false)
  }

  predicate Pops(respQ: seq<MemResp>, x: AxiIn) {
    respQ != [] && (if respQ[0].B? then x.bRdy else x.rRdy)
  }

  // ----- one clock step -----

  function WaitingThen(s: AxiState, x: AxiIn): Result<seq<MemReq>, AxiError> {
    match RouteW(AcceptAr(AcceptAw(s.waitQ, x), x), x.w)
    case Err(e) => Err(e)
    case Ok(q) => Ok(CountDown(q))
  }

  function SendResp(s: AxiState, x: AxiIn): AxiState {
    s.(port := Drive(s.respQ, s.port), respQ := if Pops(s.respQ, x) then s.respQ[1..] else s.respQ)
  }

  function ServeReady(s: AxiState): Result<AxiState, AxiError> {
    var k := ReadyCount(s.waitQ);
    match ServeAll(s.mem, s.pagetable, s.waitQ[..k])
    case Err(e) => Err(e)
    case Ok(done) => Ok(s.(mem := done.mem, waitQ := s.waitQ[k..], respQ := s.respQ + done.resps))
  }

  function AxiStep(s: AxiState, x: AxiIn): Result<AxiState, AxiError> {
    match WaitingThen(s, x)
    case Err(e) => Err(e)
    case Ok(q) =>
      match ServeReady(s.(waitQ := q))
      case Err(e) => Err(e)
      case Ok(s') => Ok(SendResp(s', x))
  }

  /** Serving two batches one after the other is serving them as one. */
  lemma {:induction false} ServeAllAppend(m: Mem, pagetable: Mem, a: seq<MemReq>, b: seq<MemReq>)
    ensures ServeAll(m, pagetable, a + b) ==
            match ServeAll(m, pagetable, a)
            case Err(e) => Err(e)
            case Ok(x) =>
              match ServeAll(x.mem, pagetable, b)
              case Err(e) => Err(e)
              case Ok(y) => Ok(Served(y.mem, x.resps + y.resps))
    decreases |a|
  {
    if a == [] {
      assert a + b == b;
      match ServeAll(m, pagetable, b) {
        case Err(_) =>
        case Ok(y) => assert [] + y.resps == y.resps;
      }
    } else {
      assert (a + b)[1..] == a[1..] + b;
      match ServeOne(m, pagetable, a[0]) {
        case Err(_) =>
        case Ok(first) =>
          ServeAllAppend(first.mem, pagetable, a[1..], b);
          match ServeAll(first.mem, pagetable, a[1..]) {
            case Err(_) =>
            case Ok(x) =>
              match ServeAll(x.mem, pagetable, b) {
                case Err(_) =>
                case Ok(y) => assert first.resps + (x.resps + y.resps) == (first.resps + x.resps) + y.resps;
              }
          }
      }
    }
  }

  // ----- the simulator object -----

  class FakeMemory {
    const mem: array<byte>
    const pagetable: array<byte>
    var reqQ: seq<MemReq>
    var waitQ: seq<MemReq>
    var respQ: seq<MemResp>
    var awVld: bool
    var awReq: AwReq
    var arVld: bool
    var arReq: ArReq
    var wVld: bool
    var wReq: WReq
    var rVld: bool
    var rRdy: bool
    var rResp: RResp
    var bVld: bool
    var bRdy: bool
    var bResp: BResp

    ghost predicate Shape()
    {
      mem.Length == MEM_MAX_SIZE && pagetable.Length == MEM_MAX_SIZE && mem != pagetable
    }

    /** Between edges the service queue is drained. */
    ghost predicate Valid()
      reads this
    {
      Shape() && reqQ == []
    }

    ghost function State(): AxiState
      requires Shape()
      reads this, mem, pagetable
    {
      AxiState(mem[..], pagetable[..], waitQ, respQ, RespPort(rVld, rResp, bVld, bResp))
    }

    ghost function Sampled(awDraw: nat, arDraw: nat): AxiIn
      reads this
    {
      AxiIn(if awVld then Some(awReq) else None, awDraw, if arVld then Some(arReq) else None, arDraw,
            if wVld then Some(wReq) else None, rRdy, bRdy)
    }

    /** The data image is the same for every instance; the page table comes from a byte list. */
    constructor (bytes: seq<byte>)
      requires |bytes| < MEM_MAX_SIZE
      ensures Valid() && fresh(mem) && fresh(pagetable)
      ensures mem[..] == InitialImage()
      ensures pagetable[..] == bytes + seq(MEM_MAX_SIZE - |bytes|, i => 0)
      ensures waitQ == [] && respQ == [] && RespPort(rVld, rResp, bVld, bResp) == IDLE_PORT
      ensures Sampled(0, 0) == AxiIn(None, 0, None, 0, None, false, false)
    {
      mem := new byte[MEM_MAX_SIZE](_ => 0);
      pagetable := new byte[MEM_MAX_SIZE](_ => 0);
      reqQ, waitQ, respQ := [], [], [];
      awVld, arVld, wVld, rVld, bVld, rRdy, bRdy := false, false, false, false, false, false, false;
      awReq, arReq, wReq := AwReq(0, 0), ArReq(0, 0), WReq(0);
      rResp, bResp := RResp(0, false, 0), BResp(0);
      new;
      FillImage();
      var i := 0;
      while i < |bytes|
        invariant 0 <= i <= |bytes|
        invariant mem[..] == InitialImage()
        invariant pagetable[..i] == bytes[..i]
        invariant forall k | i <= k < MEM_MAX_SIZE :: pagetable[k] == 0
        modifies pagetable
      {
        pagetable[i] := bytes[i];
        i := i + 1;
      }
      assert pagetable[..] == pagetable[..i] + pagetable[i..];
    }

    method FillImage()
      requires Shape()
      modifies mem
      ensures mem[..] == InitialImage()
    {
      var addr := 0;
      var i := 0;
      while i < MEM_MAX_SIZE / 4
        invariant 0 <= i <= MEM_MAX_SIZE / 4 && addr == 4 * i
        invariant forall k | 0 <= k < 4 * i :: mem[k] == InitialImage()[k]
      {
        var j := 0;
        while j < 4
          invariant 0 <= j <= 4
          invariant forall k | 0 <= k < 4 * i + j :: mem[k] == InitialImage()[k]
        {
          mem[i * 4 + j] := ByteOf(addr, j);
          assert (4 * i + j) / 4 * 4 == addr && (4 * i + j) % 4 == j;
          j := j + 1;
        }
        addr := addr + 4;
        i := i + 1;
      }
    }

    method GetByte(paddr: nat) returns (b: byte)
      requires Shape()
      ensures b == mem[paddr % MEM_MAX_SIZE]
    {
      b := mem[paddr % MEM_MAX_SIZE];
    }

    method SetByte(paddr: nat, data: byte)
      requires Shape()
      modifies mem
      ensures mem[..] == old(mem[..])[paddr % MEM_MAX_SIZE := data]
    {
      mem[paddr % MEM_MAX_SIZE] := data;
    }

    /** The setters the driver calls before every edge. */
    method Sample(x: AxiIn)
      modifies this
      ensures Sampled(x.awDraw, x.arDraw) == x
      ensures unchanged(`reqQ) && unchanged(`waitQ) && unchanged(`respQ)
      ensures unchanged(`rVld) && unchanged(`rResp) && unchanged(`bVld) && unchanged(`bResp)
    {
      awVld, arVld, wVld := x.aw.Some?, x.ar.Some?, x.w.Some?;
      if x.aw.Some? { awReq := x.aw.value; }
      if x.ar.Some? { arReq := x.ar.value; }
      if x.w.Some? { wReq := x.w.value; }
      rRdy, bRdy := x.rRdy, x.bRdy;
    }

    method Accept(awDraw: nat, arDraw: nat)
      modifies this`waitQ
      ensures var x := old(Sampled(awDraw, arDraw)); waitQ == AcceptAr(AcceptAw(old(waitQ), x), x)
    {
      if awVld {
        waitQ := waitQ + [Write(awReq, [], MEM_BASE_DELAY + awDraw % MEM_MAX_DELAY)];
      }
      if arVld {
        waitQ := waitQ + [Read(arReq, MEM_BASE_DELAY + arDraw % MEM_MAX_DELAY)];
      }
    }

    method Route() returns (err: Option<AxiError>)
      modifies this`waitQ
      ensures match RouteW(old(waitQ), if wVld then Some(wReq) else None)
              case Ok(q) => err == None && waitQ == q
              case Err(e) => err == Some(e) && waitQ == old(waitQ)
    {
      err := None;
      if wVld {
        var flag := false;
        var i := 0;
        while i < |waitQ|
          invariant 0 <= i <= |waitQ|
          invariant !flag && waitQ == old(waitQ)
          invariant forall j | 0 <= j < i :: !Open(waitQ[j])
        {
          if waitQ[i].Write? && |waitQ[i].beats| < 8 {
            flag := true;
            waitQ := waitQ[i := waitQ[i].(beats := waitQ[i].beats + [wReq])];
            break;
          }
          i := i + 1;
        }
        if !flag {
          err := Some(WBeatWithoutAw);
        }
      }
    }

    method TickAll()
      modifies this`waitQ
      ensures waitQ == CountDown(old(waitQ))
    {
      var i := 0;
      while i < |waitQ|
        invariant 0 <= i <= |waitQ| == |old(waitQ)|
        invariant forall j | 0 <= j < i :: waitQ[j] == Ticked(old(waitQ)[j])
        invariant forall j | i <= j < |waitQ| :: waitQ[j] == old(waitQ)[j]
      {
        if waitQ[i].delay > 0 {
          waitQ := waitQ[i := waitQ[i].(delay := waitQ[i].delay - 1)];
        }
        i := i + 1;
      }
    }

    /** Moves the ready requests over; all that arrives in the service queue is serviceable. */
    method MoveReady()
      requires reqQ == []
      modifies this`waitQ, this`reqQ
      ensures var k := ReadyCount(old(waitQ)); reqQ == old(waitQ)[..k] && waitQ == old(waitQ)[k..]
      ensures forall i | 0 <= i < |reqQ| :: Serviceable(reqQ[i])
    {
      ghost var q := waitQ;
      ghost var n := 0;
      while |waitQ| > 0 && waitQ[0].delay == 0 && (waitQ[0].Read? || (waitQ[0].Write? && |waitQ[0].beats| == 8))
        invariant n <= ReadyCount(q) && reqQ == q[..n] && waitQ == q[n..]
        decreases |waitQ|
      {
        reqQ := reqQ + [waitQ[0]];
        waitQ := waitQ[1..];
        n := n + 1;
      }
    }

    /** One beat of a read burst: the byte loop with its address check. */
    method FetchBeat(ar: ArReq, i: nat) returns (err: Option<AxiError>, data: nat)
      requires Shape()
      ensures !InData(ar.araddr) && !InPagetable(ar.araddr) ==> err == Some(InvalidRead)
      ensures InData(ar.araddr) ==> err == None && data == LoadBytes(mem[..], ar.araddr + i * 8, BEAT_BYTES)
      ensures !InData(ar.araddr) && InPagetable(ar.araddr) ==>
                err == None && data == LoadBytes(pagetable[..], ar.araddr + i * 8, BEAT_BYTES)
    {
      err := None;
      ghost var source := if InData(ar.araddr) then mem[..] else pagetable[..];
      data := 0;
      var j := 0;
      while j < BURST_SIZE / 8
        invariant 0 <= j <= BURST_SIZE / 8
        invariant j > 0 ==> InData(ar.araddr) || InPagetable(ar.araddr)
        invariant data == LoadBytes(source, ar.araddr + i * 8, j)
      {
        var at := (ar.araddr + i * 8 + j) % MEM_MAX_SIZE;
        var b: byte;
        if DATA_PADDR_BASE <= ar.araddr && ar.araddr < DATA_PADDR_UPPER {
          b := mem[at];
        } else if PAGETABLE_PADDR_BASE <= ar.araddr && ar.araddr < PAGETABLE_PADDR_UPPER {
          b := pagetable[at];
        } else {
          return Some(InvalidRead), 0;
        }
        LoadStep(source, ar.araddr + i * 8, j);
        data := data + b * Pow256(j);
        j := j + 1;
      }
    }

    method ServeRead(ar: ArReq) returns (err: Option<AxiError>)
      requires Shape()
      modifies this`respQ
      ensures match ServeOne(mem[..], pagetable[..], Read(ar, 0))
              case Ok(done) => err == None && respQ == old(respQ) + done.resps
              case Err(e) => err == Some(e) && respQ == old(respQ)
    {
      err := None;
      ghost var source := if InData(ar.araddr) then mem[..] else pagetable[..];
      assert old(respQ) + ReadBurst(source, ar, 0) == old(respQ);
      var i := 0;
      while i < BURST_NUM
        invariant 0 <= i <= BURST_NUM
        invariant i > 0 ==> InData(ar.araddr) || InPagetable(ar.araddr)
        invariant err == None && respQ == old(respQ) + ReadBurst(source, ar, i)
      {
        var data;
        err, data := FetchBeat(ar, i);
        if err.Some? {
          return;
        }
        LoadBytesBound(source, ar.araddr + i * 8, BEAT_BYTES);
        Pow256Values();
        respQ := respQ + [R(RResp(ar.arid, i == BURST_NUM - 1, data))];
        assert ReadBurst(source, ar, i + 1) == ReadBurst(source, ar, i) + [ReadBeat(source, ar, i)];
        i := i + 1;
      }
    }

    /** One beat of a write burst. */
    method StoreBeat(aw: AwReq, i: nat, w: WReq) returns (err: Option<AxiError>)
      requires Shape()
      modifies mem
      ensures InData(aw.awaddr) ==>
                err == None && mem[..] == StoreBytes(old(mem[..]), aw.awaddr + i * 8, BEAT_BYTES, w.wdata)
      ensures !InData(aw.awaddr) ==> err == Some(InvalidWrite) && mem[..] == old(mem[..])
    {
      err := None;
      var j := 0;
      while j < BURST_SIZE / 8
        invariant 0 <= j <= BURST_SIZE / 8
        invariant j > 0 ==> InData(aw.awaddr)
        invariant mem[..] == StoreBytes(old(mem[..]), aw.awaddr + i * 8, j, w.wdata)
      {
        if DATA_PADDR_BASE <= aw.awaddr && aw.awaddr < DATA_PADDR_UPPER {
          mem[(aw.awaddr + i * 8 + j) % MEM_MAX_SIZE] := ByteOf(w.wdata, j);
        } else {
          return Some(InvalidWrite);
        }
        j := j + 1;
      }
    }

    method StoreBurst(aw: AwReq, beats: seq<WReq>) returns (err: Option<AxiError>)
      requires Shape() && |beats| == BURST_NUM
      modifies mem
      ensures InData(aw.awaddr) ==> err == None && mem[..] == WriteBurst(old(mem[..]), aw.awaddr, beats)
      ensures !InData(aw.awaddr) ==> err == Some(InvalidWrite) && mem[..] == old(mem[..])
    {
      err := None;
      ghost var m := mem[..];
      var i := 0;
      assert beats[..0] == [];
      while i < BURST_NUM
        invariant 0 <= i <= BURST_NUM
        invariant i > 0 ==> InData(aw.awaddr)
        invariant err == None && mem[..] == WriteBurst(m, aw.awaddr, beats[..i])
      {
        WriteBurstStep(m, aw.awaddr, beats, i);
        err := StoreBeat(aw, i, beats[i]);
        if err.Some? {
          return;
        }
        i := i + 1;
      }
      assert beats[..i] == beats;
    }

    method ServeWrite(aw: AwReq, beats: seq<WReq>) returns (err: Option<AxiError>)
      requires Shape() && |beats| == BURST_NUM
      modifies this`respQ, mem
      ensures match ServeOne(old(mem[..]), pagetable[..], Write(aw, beats, 0))
              case Ok(done) => err == None && mem[..] == done.mem && respQ == old(respQ) + done.resps
              case Err(e) => err == Some(e) && mem[..] == old(mem[..]) && respQ == old(respQ)
    {
      err := StoreBurst(aw, beats);
      if err.None? {
        respQ := respQ + [B(BResp(aw.awid))];
      }
    }

    method ServeFront() returns (err: Option<AxiError>)
      requires Shape() && |reqQ| > 0 && Serviceable(reqQ[0])
      modifies this`reqQ, this`respQ, mem
      ensures reqQ == old(reqQ)[1..]
      ensures match ServeOne(old(mem[..]), pagetable[..], old(reqQ)[0])
              case Ok(done) => err == None && mem[..] == done.mem && respQ == old(respQ) + done.resps
              case Err(e) => err == Some(e)
    {
      var req := reqQ[0];
      reqQ := reqQ[1..];
      if req.Read? {
        err := ServeRead(req.ar);
      } else {
        err := ServeWrite(req.aw, req.beats);
      }
    }

    /** Serves until nothing is left to serve; it stops because everything moved is serviceable. */
    method Drain() returns (err: Option<AxiError>)
      requires Shape()
      requires forall i | 0 <= i < |reqQ| :: Serviceable(reqQ[i])
      modifies this`reqQ, this`respQ, mem
      ensures match ServeAll(old(mem[..]), pagetable[..], old(reqQ))
              case Ok(done) => err == None && reqQ == [] && mem[..] == done.mem && respQ == old(respQ) + done.resps
              case Err(e) => err == Some(e)
    {
      err := None;
      ghost var whole := ServeAll(mem[..], pagetable[..], reqQ);
      ghost var sent: seq<MemResp> := [];
      PrefixedNone(whole);
      while |reqQ| > 0
        invariant forall i | 0 <= i < |reqQ| :: Serviceable(reqQ[i])
        invariant whole == Prefixed(sent, ServeAll(mem[..], pagetable[..], reqQ))
        invariant err == None && respQ == old(respQ) + sent
        decreases |reqQ|
      {
        ghost var one := ServeOne(mem[..], pagetable[..], reqQ[0]);
        PrefixedStep(mem[..], pagetable[..], reqQ, sent);
        err := ServeFront();
        if err.Some? {
          return;
        }
        sent := sent + one.value.resps;
      }
    }

    method Send()
      modifies this`rVld, this`rResp, this`bVld, this`bResp, this`respQ
      ensures RespPort(rVld, rResp, bVld, bResp) == Drive(old(respQ), old(RespPort(rVld, rResp, bVld, bResp)))
      ensures respQ == if Pops(old(respQ), old(Sampled(0, 0))) then old(respQ)[1..] else old(respQ)
    {
      bVld := false;
      rVld := false;
      if |respQ| > 0 {
        if respQ[0].B? {
          bVld := true;
          bResp := respQ[0].b;
          if bRdy {
            respQ := respQ[1..];
          }
        } else if respQ[0].R? {
          rVld := true;
          rResp := respQ[0].r;
          if rRdy {
            respQ := respQ[1..];
          }
        }
      }
    }

    method Wait(awDraw: nat, arDraw: nat) returns (err: Option<AxiError>)
      requires Shape()
      modifies this`waitQ
      ensures match WaitingThen(old(State()), old(Sampled(awDraw, arDraw)))
              case Ok(q) => err == None && waitQ == q
              case Err(e) => err == Some(e)
    {
      Accept(awDraw, arDraw);
      err := Route();
      if err.None? {
        TickAll();
      }
    }

    method Serve() returns (err: Option<AxiError>)
      requires Valid()
      modifies this`reqQ, this`waitQ, this`respQ, mem
      ensures match ServeReady(old(State()))
              case Ok(s) => err == None && Valid() && State() == s
              case Err(e) => err == Some(e)
    {
      MoveReady();
      err := Drain();
    }

    method DoSend()
      requires Valid()
      modifies this`rVld, this`rResp, this`bVld, this`bResp, this`respQ
      ensures Valid() && State() == SendResp(old(State()), old(Sampled(0, 0)))
    {
      Send();
    }

    /** One rising clock edge; an error is the exception that ends the simulation. */
    method Eval(awDraw: nat, arDraw: nat) returns (err: Option<AxiError>)
      requires Valid()
      modifies this`reqQ, this`waitQ, this`respQ, this`rVld, this`rResp, this`bVld, this`bResp, mem
      ensures match AxiStep(old(State()), old(Sampled(awDraw, arDraw)))
              case Ok(s) => err == None && Valid() && State() == s
              case Err(e) => err == Some(e)
    {
      ghost var s0, x := State(), Sampled(awDraw, arDraw);
      err := Wait(awDraw, arDraw);
      if err.Some? {
        return;
      }
      assert State() == s0.(waitQ := WaitingThen(s0, x).value);
      err := Serve();
      if err.Some? {
        return;
      }
      assert Sampled(0, 0) == x.(awDraw := 0, arDraw := 0);
      DoSend();
    }
  }

  /** One more byte of the load loop. */
  lemma LoadStep(m: Mem, a: nat, j: nat)
    ensures LoadBytes(m, a, j + 1) == LoadBytes(m, a, j) + m[(a + j) % MEM_MAX_SIZE] * Pow256(j)
  {
    assert Window(m, a, j + 1) == Window(m, a, j) + [m[(a + j) % MEM_MAX_SIZE]];
    LeSnoc(Window(m, a, j), m[(a + j) % MEM_MAX_SIZE]);
  }

  /** One more beat of a write burst. */
  lemma WriteBurstStep(m: Mem, a: nat, ws: seq<WReq>, i: nat)
    requires i < |ws|
    ensures WriteBurst(m, a, ws[..i + 1]) == StoreBytes(WriteBurst(m, a, ws[..i]), a + i * 8, BEAT_BYTES, ws[i].wdata)
  {
    assert ws[..i + 1][..i] == ws[..i];
  }

  /** An outcome with the responses already sent put in front. */
  function Prefixed(sent: seq<MemResp>, r: Result<Served, AxiError>): Result<Served, AxiError> {
    match r
    case Err(e) => Err(e)
    case Ok(d) => Ok(Served(d.mem, sent + d.resps))
  }

  lemma PrefixedNone(r: Result<Served, AxiError>)
    ensures Prefixed([], r) == r
  {
    match r {
      case Err(_) =>
      case Ok(d) => assert [] + d.resps == d.resps;
    }
  }

  /** One turn of the service loop. */
  lemma PrefixedStep(m: Mem, pagetable: Mem, rs: seq<MemReq>, sent: seq<MemResp>)
    requires |rs| > 0
    ensures match ServeOne(m, pagetable, rs[0])
            case Err(e) => Prefixed(sent, ServeAll(m, pagetable, rs)) == Err(e)
            case Ok(one) =>
              Prefixed(sent, ServeAll(m, pagetable, rs))
              == Prefixed(sent + one.resps, ServeAll(one.mem, pagetable, rs[1..]))
  {
    match ServeOne(m, pagetable, rs[0]) {
      case Err(_) =>
      case Ok(one) =>
        match ServeAll(one.mem, pagetable, rs[1..]) {
          case Err(_) =>
          case Ok(rest) => assert sent + (one.resps + rest.resps) == (sent + one.resps) + rest.resps;
        }
    }
  }
}
