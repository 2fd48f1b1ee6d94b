// The fake L1D cache of the LSU unit test (sim/lsu_ut/fake_cache.cpp): it gives every
// request a response slot some clock edges ahead, executes it one edge after accepting it
// unless it is killed, and answers when the slot comes up.
module Cache {
  import opened Words
  import opened FlatMemory
  import opened L1dTypes
  import opened Loads
  import opened DelaySearch
  import opened Packed64

  const CACHE_HIT_BASE_DELAY: nat := 3
  const CACHE_MISS_BASE_DELAY: nat := 5
  const CACHE_MISS_MAX_DELAY: nat := 30
  const MAX_CACHE_SIZE: nat := 16

  datatype Line = Line(
    paddr: u64,
    data: u64,
    robIndex: u8,
    rdAddr: u8,
    delay: u16,
    isFenced: bool,
    isStore: bool,
    opcode: u8)

  const NO_LINE: Line := Line(0, 0, 0, 0, 0, false, false, 0)

  /** The arguments of a `req` call, and the random number it draws. */
  datatype Call = Call(
    vi: u64, vo: u64, pt: u64, pa: u64, data: u64, robIndex: u8, rdAddr: u8,
    isFenced: bool, isStore: bool, opcode: u8, draw: nat)

  datatype CacheError = MisalignedAccess | MultiResp

  datatype CacheState = CacheState(
    lines: seq<Line>,
    hitSet: set<u64>,
    delaySet: set<nat>,
    mem: Mem,
    hskQ: bool,
    req: Line,
    ldRespVld: bool,
    ldResp: Line,
    stRespVld: bool,
    stResp: Line,
    l1dReqVld: bool,
    l1dReqIsFenced: bool,
    l1dReqRobIndex: u8)

  /** What the driver does before a clock edge. */
  datatype CacheIn = CacheIn(kill: bool, call: Option<Call>)

  const INIT_CACHE: CacheState :=
    CacheState([], {}, {}, InitialImage(), false, NO_LINE, false, NO_LINE, false, NO_LINE, false, false, 0)

  function Delays(ls: seq<Line>): set<nat> {
    set i | 0 <= i < |ls| :: ls[i].delay as nat
  }

  // ----- taking a request -----

  /** Page offset and index are six bits each. */
  function PaddrOf(c: Call): u64 {
    if c.isStore then c.pa
    else (c.vo + c.vi * 0x40 + c.pt * 0x1000) % 0x1_0000_0000_0000_0000
  }

  function MissDelay(draw: nat, used: set<nat>): u16 {
    LeastFree(CACHE_MISS_BASE_DELAY + draw % CACHE_MISS_MAX_DELAY, used) % 0x1_0000
  }

  /** No miss waits longer than this, so sixteen bits are plenty. */
  lemma MissDelayBound(draw: nat, used: set<nat>)
    requires |used| <= MAX_CACHE_SIZE
    ensures MissDelay(draw, used) <= 34 + MAX_CACHE_SIZE
    ensures IsLeastFree(MissDelay(draw, used), CACHE_MISS_BASE_DELAY + draw % CACHE_MISS_MAX_DELAY, used)
  {
    var r := LeastFree(CACHE_MISS_BASE_DELAY + draw % CACHE_MISS_MAX_DELAY, used);
    assert r <= 34 + MAX_CACHE_SIZE;
  }

  function Latched(s: CacheState, c: Call): Line {
    var delay := if c.pt in s.hitSet then CACHE_HIT_BASE_DELAY else MissDelay(c.draw, s.delaySet);
    Line(PaddrOf(c), c.data, c.robIndex, c.rdAddr, delay, c.isFenced, c.isStore, c.opcode)
  }

  /** What a request latched for a call is: a load for the byte `vo` of the line `vi` of the page
      `pt`, a store for its physical address; and everything else as the call has it. */
  predicate Names(l: Line, c: Call) {
    && (l.isStore <==> c.isStore) && (l.isFenced <==> c.isFenced) && l.opcode == c.opcode
    && l.data == c.data && l.robIndex == c.robIndex && l.rdAddr == c.rdAddr
    && if c.isStore then l.paddr == c.pa
       else c.vo < 64 && c.vi < 64 && c.pt < 0x10_0000_0000_0000 ==>
         l.paddr % 64 == c.vo && l.paddr / 64 % 64 == c.vi && l.paddr / 4096 == c.pt
  }

  lemma AddressParts(vo: nat, vi: nat, pt: nat)
    requires vo < 64 && vi < 64
    ensures var a := vo + vi * 0x40 + pt * 0x1000; a % 64 == vo && a / 64 % 64 == vi && a / 4096 == pt
  {
    var a := vo + vi * 0x40 + pt * 0x1000;
    assert a == 64 * (vi + 64 * pt) + vo;
    assert a / 64 == 64 * pt + vi;
  }

  /** The request latched is the one called for. It waits three edges if its tag is in the hit set;
      if not, the least number of edges, from a draw of 5 to 34 on, that no queued request waits. */
  lemma LatchedNames(s: CacheState, c: Call)
    requires |s.delaySet| <= 16
    ensures Names(Latched(s, c), c)
    ensures c.pt in s.hitSet ==> Latched(s, c).delay == 3
    ensures c.pt !in s.hitSet ==>
              var d := Latched(s, c).delay;
              && 5 + c.draw % 30 <= d <= 50 && d !in s.delaySet
              && forall e | 5 + c.draw % 30 <= e < d :: e in s.delaySet
  {
    MissDelayBound(c.draw, s.delaySet);
    if c.vo < 64 && c.vi < 64 && c.pt < 0x10_0000_0000_0000 {
      AddressParts(c.vo, c.vi, c.pt);
    }
  }

  // ----- executing a request -----

  function AccessSize(l: Line): nat {
    if l.isStore then (if l.opcode <= STU_SD then StoreSize(l.opcode) else 1)
    else if l.opcode <= LDU_LWU then LoadSize(l.opcode) else 1
  }

  predicate Misplaced(l: Line) {
    l.paddr % 0x1_0000 % AccessSize(l) != 0
  }

  /** The memory after a request. */
  function Effect(m: Mem, l: Line): Mem {
    if l.isStore && l.opcode <= STU_SD then StoreBytes(m, l.paddr % 0x1_0000, StoreSize(l.opcode), l.data) else m
  }

  /** The request with what a load read. */
  function Filled(m: Mem, l: Line): Line {
    if !l.isStore && l.opcode <= LDU_LWU then l.(data := LoadValue(m, l.paddr % 0x1_0000, l.opcode)) else l
  }

  /** The width of an access, in bytes; an opcode the source does not know counts as one. */
  predicate Width(l: Line, n: nat) {
    n == if l.isStore then (if l.opcode == 1 then 2 else if l.opcode == 2 then 4 else if l.opcode == 3 then 8 else 1)
         else (if l.opcode == 1 || l.opcode == 5 then 2 else if l.opcode == 2 || l.opcode == 6 then 4
               else if l.opcode == 3 then 8 else 1)
  }

  /** A store of a known opcode writes as many low bytes of its data as it is wide, at its address
      in the 64 KiB; nothing else writes. A load of a known opcode fills in the value there;
      nothing else is filled in. Either is refused exactly if its width does not divide the address. */
  lemma RequestDoes(m: Mem, l: Line, n: nat, p: nat)
    requires Width(l, n) && p < 0x1_0000
    ensures Misplaced(l) <==> l.paddr % 0x1_0000 % n != 0
    ensures var k := (p - l.paddr % 0x1_0000) % 0x1_0000;
            Effect(m, l)[p] == if l.isStore && l.opcode < 4 && k < n then ByteOf(l.data, k) else m[p]
    ensures Filled(m, l) ==
            if !l.isStore && l.opcode < 7 then l.(data := LoadValue(m, l.paddr % 0x1_0000, l.opcode)) else l
  {
    if l.isStore && l.opcode < 4 {
      StoreTable(m, l.paddr % 0x1_0000, l.opcode, n, l.data, p);
    }
  }

  function Last(ls: seq<Line>): Line
    requires ls != []
  {
    ls[|ls| - 1]
  }

  function Front(ls: seq<Line>): seq<Line>
    requires ls != []
  {
    ls[..|ls| - 1]
  }

  /** Last edge's request, the last of the list, is executed or killed. */
  function Settle(s: CacheState, kill: bool): Result<CacheState, CacheError> {
    var quiet := s.(ldRespVld := false, stRespVld := false, l1dReqVld := false);
    if !s.hskQ || s.lines == [] then Ok(quiet)
    else if kill then Ok(quiet.(lines := Front(s.lines)))
    else
      var l := Last(s.lines);
      if Misplaced(l) then Err(MisalignedAccess)
      else
        Ok(quiet.(
          lines := Front(s.lines) + [Filled(s.mem, l)],
          mem := Effect(s.mem, l),
          stRespVld := l.isStore,
          stResp := if l.isStore then l else s.stResp,
          l1dReqVld := true,
          l1dReqIsFenced := l.isFenced,
          l1dReqRobIndex := l.robIndex))
  }

  function Accept(s: CacheState, vld: bool): CacheState {
    if vld && |s.lines| < MAX_CACHE_SIZE then
      s.(hskQ := true, lines := s.lines + [s.req], delaySet := s.delaySet + {s.req.delay as nat})
    else s.(hskQ := false)
  }

  // ----- counting down and answering -----

  datatype Swept = Swept(kept: seq<Line>, gone: seq<Line>, ld: Option<Line>)

  function SweepOne(w: Swept, l: Line): Result<Swept, CacheError> {
    if l.delay != 0 then Ok(w.(kept := w.kept + [l.(delay := l.delay - 1)]))
    else if w.ld.Some? then Err(MultiResp)
    else Ok(w.(gone := w.gone + [l], ld := if l.isStore then None else Some(l)))
  }

  /** The pass over the list, front to back. */
  function Sweep(ls: seq<Line>): Result<Swept, CacheError> {
    if ls == [] then Ok(Swept([], [], None))
    else
      match Sweep(Front(ls))
      case Err(e) => Err(e)
      case Ok(w) => SweepOne(w, Last(ls))
  }

  function Paddrs(ls: seq<Line>): set<u64> {
    set l | l in ls :: l.paddr
  }

  function Answer(s: CacheState): Result<CacheState, CacheError> {
    match Sweep(s.lines)
    case Err(e) => Err(e)
    case Ok(w) =>
      Ok(s.(lines := w.kept,
            hitSet := s.hitSet + Paddrs(w.gone),
            delaySet := Delays(w.kept),
            ldRespVld := w.ld.Some?,
            ldResp := if w.ld.Some? then w.ld.value else s.ldResp))
  }

  function Sampled(s: CacheState, x: CacheIn): CacheState {
    if x.call.Some? then s.(req := Latched(s, x.call.value)) else s
  }

  function EvalStep(s: CacheState, kill: bool, vld: bool): Result<CacheState, CacheError> {
    match Settle(s, kill)
    case Err(e) => Err(e)
    case Ok(s1) => Answer(Accept(s1, vld))
  }

  /** One clock step: the driver's calls, then `eval`. */
  function CacheStep(s: CacheState, x: CacheIn): Result<CacheState, CacheError> {
    EvalStep(Sampled(s, x), x.kill, x.call.Some?)
  }

  /** A run of the cache. */
  function CacheRun(s: CacheState, xs: seq<CacheIn>): Result<CacheState, CacheError>
    decreases xs
  {
    if xs == [] then Ok(s)
    else
      match CacheStep(s, xs[0])
      case Err(e) => Err(e)
      case Ok(t) => CacheRun(t, xs[1..])
  }

  // ----- the simulator object -----

  /** What every eval leaves behind. */
  ghost predicate Settled(s: CacheState) {
    && |s.lines| <= MAX_CACHE_SIZE
    && s.delaySet == Delays(s.lines)
    && (s.hskQ ==> s.lines != [])
  }

  class FakeL1DCache {
    const realMem: PackedMemory
    var lines: seq<Line>
    var hitSet: set<u64>
    var delaySet: set<nat>
    var reqVld: bool
    var hskQ: bool
    var req: Line
    var killReq: bool
    var ldRespVld: bool
    var ldResp: Line
    var stRespVld: bool
    var stResp: Line
    var l1dReqVld: bool
    var l1dReqIsFenced: bool
    var l1dReqRobIndex: u8

    ghost function State(): CacheState
      requires realMem.Shape()
      reads this, realMem, realMem.mem
    {
      CacheState(lines, hitSet, delaySet, realMem.View(), hskQ, req, ldRespVld, ldResp, stRespVld, stResp,
                 l1dReqVld, l1dReqIsFenced, l1dReqRobIndex)
    }

    ghost predicate Valid()
      reads this, realMem, realMem.mem
    {
      realMem.Shape() && Settled(State())
    }

    constructor (mem: PackedMemory)
      requires mem.Shape()
      ensures Valid() && realMem == mem && !reqVld && !killReq
      ensures State() == INIT_CACHE.(mem := mem.View())
    {
      realMem := mem;
      lines, hitSet, delaySet := [], {}, {};
      reqVld, hskQ, req, killReq := false, false, NO_LINE, false;
      ldRespVld, ldResp, stRespVld, stResp := false, NO_LINE, false, NO_LINE;
      l1dReqVld, l1dReqIsFenced, l1dReqRobIndex := false, false, 0;
    }

    method Ready() returns (rdy: bool)
      ensures rdy <==> |lines| < MAX_CACHE_SIZE
    {
      rdy := |lines| < MAX_CACHE_SIZE;
    }

    method SetReqVld(vld: bool)
      modifies this`reqVld
      ensures reqVld == vld
    {
      reqVld := vld;
    }

    method SetKillReq(kill: bool)
      modifies this`killReq
      ensures killReq == kill
    {
      killReq := kill;
    }

    /** Latch a request; on a miss, look for a slot no queued request has. */
    method SetReq(c: Call)
      requires Valid()
      modifies this`req
      ensures Valid() && State() == old(State()).(req := Latched(old(State()), c))
      ensures Names(req, c) && req.delay >= CACHE_HIT_BASE_DELAY
    {
      LatchedWaits(State(), c);
      FewDelays(lines);
      LatchedNames(State(), c);
      var paddr := PaddrOf(c);
      var delay: u16 := CACHE_HIT_BASE_DELAY;
      if c.pt !in hitSet {
        delay := FindSlot(c.draw);
      }
      req := Line(paddr, c.data, c.robIndex, c.rdAddr, delay, c.isFenced, c.isStore, c.opcode);
    }

    method FindSlot(draw: nat) returns (delay: u16)
      requires Valid()
      ensures delay == MissDelay(draw, delaySet)
    {
      delay := CACHE_MISS_BASE_DELAY + draw % CACHE_MISS_MAX_DELAY;
      ghost var start := delay;
      FewDelays(lines);
      while delay in delaySet
        invariant start <= delay <= start + |delaySet| && TakenBetween(start, delay, delaySet)
        decreases start + |delaySet| - delay
      {
        assert TakenBetween(start, delay + 1, delaySet);
        RunOfTaken(start, delay + 1, delaySet);
        delay := delay + 1;
      }
      LeastFreeUnique(delay, LeastFree(start, delaySet), start, delaySet);
    }

    /** One clock edge. The driver never raises a request without latching it first, so its delay
        is that of `SetReq`. */
    method Eval() returns (err: Option<CacheError>)
      requires Valid() && (reqVld ==> req.delay > 0)
      modifies this, realMem, realMem.mem
      ensures realMem.Shape()
      ensures match EvalStep(old(State()), old(killReq), old(reqVld))
              case Ok(s) => err == None && Valid() && State() == s
              case Err(e) => err == Some(e)
      ensures err.None? ==> !killReq && reqVld == (old(reqVld) && !hskQ)
    {
      ghost var s, kill, vld := State(), killReq, reqVld;
      EvalSettles(s, kill, vld);
      err := SettleLast();
      if err.Some? {
        return;
      }
      killReq := false;
      AcceptNew();
      err := AnswerDue();
    }

    /** What the driver does around one clock edge: raise and latch a request if the LSU has one,
        pass on its kill signal, and evaluate. */
    method ClockStep(x: CacheIn) returns (err: Option<CacheError>)
      requires Valid()
      modifies this, realMem, realMem.mem
      ensures match CacheStep(old(State()), x)
              case Ok(s) => err == None && Valid() && State() == s
              case Err(e) => err == Some(e)
    {
      Raise(x);
      err := Eval();
    }

    /** The driver's calls before an edge. */
    method Raise(x: CacheIn)
      requires Valid()
      modifies this`req, this`reqVld, this`killReq
      ensures Valid() && State() == Sampled(old(State()), x)
      ensures reqVld == x.call.Some? && killReq == x.kill && (reqVld ==> req.delay > 0)
    {
      SetReqVld(x.call.Some?);
      if x.call.Some? {
        SetReq(x.call.value);
      }
      SetKillReq(x.kill);
    }

    /** The request accepted one edge ago takes effect or is dropped. */
    method SettleLast() returns (err: Option<CacheError>)
      requires realMem.Shape() && (hskQ ==> lines != [])
      modifies this`lines, this`ldRespVld, this`stRespVld, this`stResp, this`l1dReqVld, this`l1dReqIsFenced,
               this`l1dReqRobIndex, this`killReq, realMem, realMem.mem
      ensures realMem.Shape()
      ensures match Settle(old(State()), old(killReq))
              case Ok(s) => err == None && State() == s
              case Err(e) => err == Some(e)
    {
      ldRespVld, stRespVld, l1dReqVld := false, false, false;
      err := None;
      if hskQ && !killReq {
        err := ExecuteLast();
      } else if killReq && hskQ {
        killReq := false;
        lines := Front(lines);
      }
    }

    method AcceptNew()
      requires realMem.Shape()
      modifies this`lines, this`delaySet, this`hskQ, this`reqVld
      ensures State() == Accept(old(State()), old(reqVld))
      ensures reqVld == (old(reqVld) && !hskQ)
    {
      hskQ := reqVld && |lines| < MAX_CACHE_SIZE;
      if hskQ {
        reqVld := false;
        lines := lines + [req];
        delaySet := delaySet + {req.delay as nat};
      }
    }

    method AnswerDue() returns (err: Option<CacheError>)
      requires realMem.Shape() && !ldRespVld
      modifies this`lines, this`hitSet, this`delaySet, this`ldRespVld, this`ldResp
      ensures match Answer(old(State()))
              case Ok(s) => err == None && State() == s
              case Err(e) => err == Some(e)
    {
      ghost var all := lines;
      err := SweepLines();
      if err.None? {
        assert lines == Sweep(all).value.kept;
        RenewDelays();
      }
    }

    method ExecuteLast() returns (err: Option<CacheError>)
      requires realMem.Shape() && hskQ && lines != []
      requires !ldRespVld && !stRespVld && !l1dReqVld
      modifies this`lines, this`stRespVld, this`stResp, this`l1dReqVld, this`l1dReqIsFenced, this`l1dReqRobIndex,
               realMem, realMem.mem
      ensures realMem.Shape()
      ensures match Settle(old(State()), false)
              case Ok(s) => err == None && State() == s
              case Err(e) => err == Some(e)
    {
      err := None;
      var l := Last(lines);
      if l.isStore {
        err := ExecuteStore(l);
        if err.Some? {
          return;
        }
        stRespVld := true;
        stResp := l;
        assert lines == Front(lines) + [l];
      } else {
        var done := ExecuteLoad(l);
        if done.Err? {
          return Some(done.error);
        }
        lines := Front(lines) + [done.value];
      }
      l1dReqVld := true;
      l1dReqIsFenced := l.isFenced;
      l1dReqRobIndex := l.robIndex;
    }

    method ExecuteStore(l: Line) returns (err: Option<CacheError>)
      requires realMem.Shape() && l.isStore
      modifies realMem, realMem.mem
      ensures err == if Misplaced(l) then Some(MisalignedAccess) else None
      ensures err.None? ==> realMem.View() == Effect(old(realMem.View()), l)
    {
      err := None;
      if l.opcode <= STU_SD {
        ghost var before: Words64 := realMem.mem[..];
        var bad := realMem.Store(l.paddr % 0x1_0000, StoreSize(l.opcode), l.data);
        if bad.Some? {
          return Some(MisalignedAccess);
        }
        StoreView64(before, l.paddr % 0x1_0000, StoreSize(l.opcode), l.data);
      }
    }

    method ExecuteLoad(l: Line) returns (r: Result<Line, CacheError>)
      requires realMem.Shape() && !l.isStore
      modifies realMem`visitTime
      ensures r == if Misplaced(l) then Err(MisalignedAccess) else Ok(Filled(realMem.View(), l))
    {
      r := Ok(l);
      if l.opcode <= LDU_LWU {
        var value := realMem.Load(l.paddr % 0x1_0000, l.opcode);
        r := if value.Ok? then Ok(l.(data := value.value)) else Err(MisalignedAccess);
      }
    }

    /** How far the pass has come: `rest` is still to be looked at. */
    ghost predicate SweptTo(w: Swept, rest: seq<Line>, hits: set<u64>, resp: Line)
      reads this
    {
      && lines == w.kept + rest
      && hitSet == hits + Paddrs(w.gone)
      && ldRespVld == w.ld.Some?
      && ldResp == if w.ld.Some? then w.ld.value else resp
    }

    /** Count down, answer and drop the lines whose slot has come. */
    method SweepLines() returns (err: Option<CacheError>)
      requires !ldRespVld
      modifies this`lines, this`hitSet, this`ldRespVld, this`ldResp
      ensures match Sweep(old(lines))
              case Ok(w) => err == None && SweptTo(w, [], old(hitSet), old(ldResp))
              case Err(e) => err == Some(e)
    {
      err := None;
      ghost var hits, resp := hitSet, ldResp;
      ghost var w, passed, rest := Swept([], [], None), [], lines;
      var i := 0;
      while i < |lines|
        invariant passed + rest == old(lines) && Sweep(passed) == Ok(w)
        invariant SweptTo(w, rest, hits, resp) && i == |w.kept|
        decreases |rest|
        modifies this`lines, this`hitSet, this`ldRespVld, this`ldResp
      {
        ghost var l, tail := rest[0], rest[1..];
        SweepTurn(passed, l, tail);
        assert rest == [l] + tail;
        if lines[i].delay == 0 && ldRespVld {
          return Some(MultiResp);
        }
        i := SweepLine(i, w, l, tail, hits, resp);
        w, passed, rest := SweepOne(w, l).value, passed + [l], tail;
      }
      assert passed + rest == passed;
    }

    /** One turn of the pass, when it does not throw; the next line to look at. */
    method SweepLine(i: nat, ghost w: Swept, ghost l: Line, ghost rest: seq<Line>,
                     ghost hits: set<u64>, ghost resp: Line)
      returns (next: nat)
      requires SweptTo(w, [l] + rest, hits, resp) && i == |w.kept| && SweepOne(w, l).Ok?
      modifies this`lines, this`hitSet, this`ldRespVld, this`ldResp
      ensures var w' := SweepOne(w, l).value; SweptTo(w', rest, hits, resp) && next == |w'.kept|
    {
      CutAt(w.kept, l, l.(delay := if l.delay == 0 then 0 else l.delay - 1), rest);
      if lines[i].delay == 0 {
        if !lines[i].isStore {
          ldRespVld := true;
          ldResp := lines[i];
        }
        hitSet := hitSet + {lines[i].paddr};
        lines := lines[..i] + lines[i + 1..];
        next := i;
      } else {
        lines := lines[i := lines[i].(delay := lines[i].delay - 1)];
        next := i + 1;
      }
    }

    method RenewDelays()
      modifies this`delaySet
      ensures delaySet == Delays(lines)
    {
      delaySet := {};
      var i := 0;
      while i < |lines|
        invariant 0 <= i <= |lines| && delaySet == Delays(lines[..i])
      {
        assert lines[..i + 1] == lines[..i] + [lines[i]];
        delaySet := delaySet + {lines[i].delay as nat};
        i := i + 1;
      }
      assert lines[..i] == lines;
    }
  }

  /** Settling, accepting and answering leave a list that fits, and its delays. */
  lemma EvalSettles(s: CacheState, kill: bool, vld: bool)
    requires Settled(s) && (vld ==> s.req.delay > 0)
    ensures EvalStep(s, kill, vld).Ok? ==> Settled(EvalStep(s, kill, vld).value)
  {
    if EvalStep(s, kill, vld).Ok? {
      var s1 := Settle(s, kill).value;
      var s2 := Accept(s1, vld);
      SweepShrinks(s2.lines);
      if s2.hskQ {
        assert Last(s2.lines) == s.req;
      }
    }
  }

  lemma CutAt<T>(a: seq<T>, x: T, y: T, b: seq<T>)
    ensures (a + ([x] + b))[|a|] == x
    ensures (a + ([x] + b))[..|a|] + (a + ([x] + b))[|a| + 1..] == a + b
    ensures (a + ([x] + b))[|a| := y] == (a + [y]) + b
  {
  }

  /** One line further, and no further when that throws. */
  lemma SweepTurn(passed: seq<Line>, l: Line, tail: seq<Line>)
    ensures Sweep(passed + [l]) == match Sweep(passed) case Err(e) => Err(e) case Ok(w) => SweepOne(w, l)
    ensures passed + ([l] + tail) == (passed + [l]) + tail
    ensures Sweep(passed + [l]).Err? ==> Sweep(passed + ([l] + tail)) == Sweep(passed + [l])
  {
    assert Front(passed + [l]) == passed;
    assert passed + ([l] + tail) == (passed + [l]) + tail;
    if Sweep(passed + [l]).Err? {
      SweepStops(passed + [l], tail);
    }
  }

  /** Once the pass has thrown, it has thrown. */
  lemma {:induction false} SweepStops(passed: seq<Line>, rest: seq<Line>)
    requires Sweep(passed).Err?
    ensures Sweep(passed + rest) == Sweep(passed)
    decreases |rest|
  {
    if rest == [] {
      assert passed + rest == passed;
    } else {
      assert Front(passed + rest) == passed + Front(rest);
      SweepStops(passed, Front(rest));
    }
  }

  lemma {:induction false} FewDelays(ls: seq<Line>)
    ensures |Delays(ls)| <= |ls|
  {
    if ls != [] {
      FewDelays(Front(ls));
      assert Delays(ls) == Delays(Front(ls)) + {Last(ls).delay as nat};
    }
  }

  /** Any request the driver latches waits at least one edge. */
  lemma LatchedWaits(s: CacheState, c: Call)
    requires Settled(s)
    ensures Latched(s, c).delay >= CACHE_HIT_BASE_DELAY
  {
    FewDelays(s.lines);
    MissDelayBound(c.draw, s.delaySet);
  }

  lemma {:induction false} SweepShrinks(ls: seq<Line>)
    requires Sweep(ls).Ok?
    ensures |Sweep(ls).value.kept| + |Sweep(ls).value.gone| == |ls|
  {
    if ls != [] {
      SweepShrinks(Front(ls));
    }
  }
}
