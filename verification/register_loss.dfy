// What happens to the register free list when the design under test does not complete a load
// with the register it was given.
module RegisterLoss {
  import opened Words
  import opened FlatMemory
  import opened L1dTypes
  import opened Loads
  import opened Rcu
  import opened Axi
  import opened L1dMonitor
  import opened Testbench
  import opened Golden

  lemma SwapOne(a: multiset<u8>, b: multiset<u8>, x: u8, y: u8)
    ensures a + multiset{x} + b == a + (multiset{y} + b) <==> x == y
  {
    if a + multiset{x} + b == a + (multiset{y} + b) {
      assert (a + multiset{x} + b)[x] == (a + (multiset{y} + b))[x];
    }
  }

  /** A load that passes its check leaves the registers, free and in flight together, as they were
      exactly if it commits with the register it carried. */
  lemma CommitConservesIff(m: MonState, r: Req)
    requires m.issQue != [] && !m.issQue[0].isStore && !r.isStore && Check(m, Some(r)).Ok?
    ensures Registers(Check(m, Some(r)).value) == Registers(m) <==> r.rdAddr == m.issQue[0].rdAddr
  {
    assert multiset(m.freeList + [r.rdAddr]) == multiset(m.freeList) + multiset{r.rdAddr};
    SwapOne(multiset(m.freeList), LoadRegs(m.issQue[1..]), r.rdAddr, m.issQue[0].rdAddr);
  }

  // ----- a run that loses a register -----

  const QUIET: Rolls := Rolls(1, 0, 0, 0, 0, 0, 0, 0)
  const DRAW: Rolls := Rolls(0, 0, 0, 4, 0, 0, 0, 0)
  const NO_BUS: AxiIn := AxiIn(None, 0, None, 0, None, false, false)

  function Wait(): EnvIn {
    EnvIn(false, None, NO_BUS, QUIET)
  }

  /** The LSU takes the load and completes it at once, with register 5 instead of 1. */
  function Swap(): EnvIn {
    EnvIn(true, Some(LsuResp(0, 0, 5)), NO_BUS, QUIET)
  }

  function LossRun(): seq<EnvIn> {
    [EnvIn(false, None, NO_BUS, DRAW), Wait(), Swap(), Wait(), Wait()]
  }

  /** The load drawn: an unsigned byte at the first data address, for register 1. */
  const LOAD: Req := Req(DATA_PADDR_BASE, 0, 0, 1, 1, false, false, LDU_LBU, false, false, false)

  lemma Drawn(max: u64)
    requires max > 0
    ensures MonStep(InitMon(max), MonIn(true, None, DRAW)) == Ok(InitMon(max).(reqVld := true, req := LOAD))
  {
  }

  lemma Accepted(max: u64)
    requires max > 0
    ensures MonStep(InitMon(max).(reqVld := true, req := LOAD), MonIn(true, None, QUIET)) ==
            Ok(InitMon(max).(req := LOAD, reqIssNum := 1, issQue := [LOAD], freeList := InitialFreeList()[1..]))
  {
    assert [] + [LOAD] == [LOAD];
  }

  lemma Enqueued()
    ensures RcuStep(INIT_RCU, RcuIn(false, None, Some(LOAD))) ==
            RcuState([LOAD], true, LOAD, false, NO_REQ, false, 0)
  {
    var s := INIT_RCU.(queue := [LOAD]);
    assert [] + [LOAD] == [LOAD];
    assert Enqueue(INIT_RCU, Some(LOAD)) == s;
    assert FirstDue([LOAD]) == 1 by { assert [LOAD][1..] == []; }
    assert Wakeup(s).queue == [LOAD];
    assert Issue(Wakeup(s)) == s.(lsuReqVld := true, lsuReq := LOAD);
  }

  lemma TakenAndSwapped()
    ensures RcuStep(RcuState([LOAD], true, LOAD, false, NO_REQ, false, 0), RcuIn(true, Some(LsuResp(0, 0, 5)), None)) ==
            RcuState([LOAD.(rdAddr := 5, issued := true, done := true, delay := 0)],
                     false, LOAD, false, NO_REQ, false, 0)
  {
    var s := RcuState([LOAD], true, LOAD, false, NO_REQ, false, 0);
    var s1 := s.(lsuReqVld := false, queue := [LOAD.(issued := true)]);
    assert Handshake(s, true) == s1;
    var r := LOAD.(rdAddr := 5, issued := true, done := true);
    var s2 := s1.(queue := [r]);
    assert Complete(s1, Some(LsuResp(0, 0, 5))) == s2;
    assert FirstDue([r]) == 1 by { assert [r][1..] == []; }
    var s3 := s2.(queue := [r.(delay := 0)]);
    assert Wakeup(s2) == s3;
    assert FirstUnissued(s3.queue) == 1 by { assert s3.queue[1..] == []; }
  }

  lemma WokenAndCommitted(r: Req)
    requires r == LOAD.(rdAddr := 5, issued := true, done := true, delay := 0)
    ensures RcuStep(RcuState([r], false, LOAD, false, NO_REQ, false, 0), RcuIn(false, None, None)) ==
            RcuState([], false, LOAD, true, r.(awake := true), true, 0)
  {
    var s := RcuState([r], false, LOAD, false, NO_REQ, false, 0);
    var s1 := s.(queue := [r.(awake := true)], wakeUpVld := true, wakeUpRobIndex := 0);
    assert Wakeup(s) == s1;
    assert FirstUnissued(s1.queue) == 1 by { assert s1.queue[1..] == []; }
    assert s1.queue[1..] == [];
  }

  lemma LoadIsZero()
    ensures LoadValue(InitialImage(), DATA_PADDR_BASE, LDU_LBU) == 0
  {
    var bs := Window(InitialImage(), DATA_PADDR_BASE, 1);
    assert bs == [0];
    assert [0][1..] == [];
    assert LeValue([0]) == 0 + 256 * LeValue([]);
  }

  lemma PassesCheck(max: u64, r: Req)
    requires max > 0 && SameOp(r, LOAD) && r.rdAddr == 5 && r.data == 0
    ensures var m := InitMon(max).(req := LOAD, reqIssNum := 1, issQue := [LOAD], freeList := InitialFreeList()[1..]);
            MonStep(m, MonIn(true, Some(r), QUIET)) ==
            Ok(m.(respCommNum := 1, issQue := [], freeList := InitialFreeList()[1..] + [5]))
  {
    LoadIsZero();
    assert [LOAD][1..] == [];
  }

  /** The bench step when the bus is idle. */
  lemma QuietStep(s: TbState, e: EnvIn, mon: MonState, rcu: RcuState)
    requires e.axi == NO_BUS && s.mem.waitQ == [] && s.mem.respQ == [] && s.mem.port == IDLE_PORT
    requires MonStep(s.mon, MonSample(s, e)) == Ok(mon) && RcuStep(s.rcu, RcuSample(s, e)) == rcu
    ensures TbStep(s, e) == Ok(TbState(mon, rcu, s.mem))
  {
    IdleMemory(s.mem);
  }

  /** The bench after `n` edges of the run. */
  function After(max: u64, pt: Mem, n: nat): TbState {
    var mem := AxiState(InitialImage(), pt, [], [], IDLE_PORT);
    var r := LOAD.(rdAddr := 5, issued := true, done := true, delay := 0);
    var m0 := InitMon(max);
    var m2 := m0.(req := LOAD, reqIssNum := 1, issQue := [LOAD], freeList := InitialFreeList()[1..]);
    if n == 0 then TbState(m0, INIT_RCU, mem)
    else if n == 1 then TbState(m0.(reqVld := true, req := LOAD), INIT_RCU, mem)
    else if n == 2 then TbState(m2, RcuState([LOAD], true, LOAD, false, NO_REQ, false, 0), mem)
    else if n == 3 then TbState(m2, RcuState([r], false, LOAD, false, NO_REQ, false, 0), mem)
    else if n == 4 then TbState(m2, RcuState([], false, LOAD, true, r.(awake := true), true, 0), mem)
    else
      TbState(m2.(respCommNum := 1, issQue := [], freeList := InitialFreeList()[1..] + [5]),
              RcuState([], false, LOAD, false, r.(awake := true), false, 0), mem)
  }

  lemma FirstHalf(max: u64, pt: Mem)
    requires max > 0
    ensures TbStep(After(max, pt, 0), LossRun()[0]) == Ok(After(max, pt, 1))
    ensures TbStep(After(max, pt, 1), LossRun()[1]) == Ok(After(max, pt, 2))
  {
    Drawn(max);
    assert RcuStep(INIT_RCU, RcuIn(false, None, None)) == INIT_RCU;
    QuietStep(After(max, pt, 0), LossRun()[0], After(max, pt, 1).mon, After(max, pt, 1).rcu);
    Accepted(max);
    Enqueued();
    QuietStep(After(max, pt, 1), LossRun()[1], After(max, pt, 2).mon, After(max, pt, 2).rcu);
  }

  lemma NothingNew(m: MonState, rdy: bool)
    requires !m.reqVld
    ensures MonStep(m, MonIn(rdy, None, QUIET)) == Ok(m)
  {
  }

  lemma SecondHalf(max: u64, pt: Mem)
    requires max > 0
    ensures TbStep(After(max, pt, 2), LossRun()[2]) == Ok(After(max, pt, 3))
    ensures TbStep(After(max, pt, 3), LossRun()[3]) == Ok(After(max, pt, 4))
  {
    NothingNew(After(max, pt, 2).mon, true);
    TakenAndSwapped();
    QuietStep(After(max, pt, 2), LossRun()[2], After(max, pt, 3).mon, After(max, pt, 3).rcu);
    WokenAndCommitted(After(max, pt, 3).rcu.queue[0]);
    QuietStep(After(max, pt, 3), LossRun()[3], After(max, pt, 4).mon, After(max, pt, 4).rcu);
  }

  lemma LastEdge(max: u64, pt: Mem)
    requires max > 0
    ensures TbStep(After(max, pt, 4), LossRun()[4]) == Ok(After(max, pt, 5))
  {
    var s := After(max, pt, 4);
    PassesCheck(max, s.rcu.newComm);
    assert RcuStep(s.rcu, RcuIn(false, None, None)) == After(max, pt, 5).rcu;
    QuietStep(s, LossRun()[4], After(max, pt, 5).mon, After(max, pt, 5).rcu);
  }

  lemma {:induction false} StepsAreRun(s: TbState, es: seq<EnvIn>, ts: seq<TbState>, n: nat)
    requires n <= |es| < |ts| && ts[0] == s
    requires forall i | 0 <= i < |es| :: TbStep(ts[i], es[i]) == Ok(ts[i + 1])
    ensures TbRun(s, es[..n]) == Ok(ts[n])
    decreases n
  {
    if n > 0 {
      StepsAreRun(s, es, ts, n - 1);
      TbRunNext(s, es, n - 1, ts[n - 1]);
    }
  }

  lemma EachStep(max: u64, pt: Mem, n: nat)
    requires max > 0 && n < 5
    ensures TbStep(After(max, pt, n), LossRun()[n]) == Ok(After(max, pt, n + 1))
  {
    if n <= 1 {
      FirstHalf(max, pt);
    } else if n <= 3 {
      SecondHalf(max, pt);
    } else {
      LastEdge(max, pt);
    }
  }

  lemma LossTrace(max: u64, pt: Mem, es: seq<EnvIn>) returns (ts: seq<TbState>)
    requires max > 0 && es == LossRun()
    ensures |es| == 5 && |ts| == 6 && ts[0] == InitTb(max, pt) && ts[5] == After(max, pt, 5)
    ensures forall i | 0 <= i < |es| :: TbStep(ts[i], es[i]) == Ok(ts[i + 1])
  {
    ts := seq(6, n requires 0 <= n => After(max, pt, n));
    forall n | 0 <= n < |es|
      ensures TbStep(ts[n], es[n]) == Ok(ts[n + 1])
    {
      EachStep(max, pt, n);
    }
  }

  lemma EndsAfterFive(max: u64, pt: Mem, es: seq<EnvIn>)
    requires max > 0 && es == LossRun()
    ensures TbRun(InitTb(max, pt), es) == Ok(After(max, pt, 5))
  {
    var ts := LossTrace(max, pt, es);
    StepsAreRun(InitTb(max, pt), es, ts, |es|);
    assert es[..|es|] == es;
  }

  lemma FreeInTheEnd(l: seq<u8>)
    requires l == InitialFreeList()
    ensures multiset(l[1..] + [5])[1] == 0 && multiset(l[1..] + [5])[5] == 2
  {
    assert l == [l[0]] + l[1..] && l[0] == 1 && l == RegRange(63);
    RangeOnce(63, 1);
    RangeOnce(63, 5);
    assert multiset(l) == multiset{l[0]} + multiset(l[1..]);
    assert multiset(l[1..] + [5]) == multiset(l[1..]) + multiset{5};
  }

  /** So it does happen: with nothing left in flight, register 1 is gone and register 5 is free
      twice. */
  lemma RegistersGetLost(max: u64, pt: Mem, es: seq<EnvIn>)
    requires max > 0 && es == LossRun()
    ensures TbRun(InitTb(max, pt), es).Ok?
    ensures var m := TbRun(InitTb(max, pt), es).value.mon;
            m.issQue == [] && multiset(m.freeList)[1] == 0 && multiset(m.freeList)[5] == 2
  {
    EndsAfterFive(max, pt, es);
    FreeInTheEnd(InitialFreeList());
  }
}
