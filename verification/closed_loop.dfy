// The monitor and the reorder buffer together: in no run, whatever the design under test does,
// do they lose track of each other.
module ClosedLoop {
  import opened Words
  import opened FlatMemory
  import opened L1dTypes
  import opened Rcu
  import opened RobDiscipline
  import opened Axi
  import opened L1dMonitor
  import opened Testbench

  // ----- what the reorder buffer hands through -----

  /** `a` still stands for `b`: the same operation and, with an honest design under test, the
      same register and the same store data. */
  predicate Stands(a: Req, b: Req, honest: bool) {
    SameOp(a, b) && (honest ==> a.rdAddr == b.rdAddr && (b.isStore ==> a.data == b.data))
  }

  ghost predicate StandsAll(a: seq<Req>, b: seq<Req>, honest: bool) {
    |a| == |b| && forall i | 0 <= i < |a| :: Stands(a[i], b[i], honest)
  }

  lemma StandsTransitive(a: seq<Req>, b: seq<Req>, c: seq<Req>, honest: bool)
    requires StandsAll(a, b, honest) && StandsAll(b, c, honest)
    ensures StandsAll(a, c, honest)
  {
  }

  /** The commit on its way to the monitor. */
  function Transit(s: RcuState): seq<Req> {
    if s.newCommVld then [s.newComm] else []
  }

  function NewEntry(s: RcuState, x: RcuIn): seq<Req> {
    if Accepts(s, x.newReq) then [x.newReq.value] else []
  }

  /** A completion names the register of the entry it completes: zero for a store. */
  ghost predicate Echoes(q: seq<Req>, resp: Option<LsuResp>) {
    resp.Some? ==>
      forall i | 0 <= i < |q| && q[i].robIndex == resp.value.robIndex ::
        resp.value.rdAddr == q[i].rdAddr && (q[i].isStore ==> q[i].rdAddr == 0)
  }

  /** The design under test echoes registers at this edge. */
  ghost predicate HonestAt(s: RcuState, x: RcuIn) {
    Echoes(Enqueue(Handshake(s, x.lsuRdy), x.newReq).queue, x.resp)
  }

  lemma HandshakeStands(s: RcuState, rdy: bool, honest: bool)
    ensures StandsAll(Handshake(s, rdy).queue, s.queue, honest)
    ensures Transit(Handshake(s, rdy)) == Transit(s)
  {
  }

  lemma CompleteStands(s: RcuState, resp: Option<LsuResp>, honest: bool)
    requires honest ==> Echoes(s.queue, resp)
    ensures StandsAll(Complete(s, resp).queue, s.queue, honest)
  {
  }

  lemma WakeupStands(s: RcuState, honest: bool)
    ensures StandsAll(Wakeup(s).queue, s.queue, honest)
  {
  }

  lemma AppendStands(q: seq<Req>, p: seq<Req>, r: Req, honest: bool, rob: u8)
    requires StandsAll(q, p, honest)
    ensures StandsAll(q + [r.(robIndex := rob)], p + [r], honest)
  {
  }

  lemma BeforeWakeupStands(s: RcuState, x: RcuIn, honest: bool)
    requires honest ==> HonestAt(s, x)
    ensures StandsAll(BeforeWakeup(s, x).queue, s.queue + NewEntry(s, x), honest)
  {
    var s1 := Handshake(s, x.lsuRdy);
    HandshakeStands(s, x.lsuRdy, honest);
    var s2 := Enqueue(s1, x.newReq);
    if Accepts(s1, x.newReq) {
      AppendStands(s1.queue, s.queue, x.newReq.value, honest, NextRob(s1.queue));
    } else {
      assert s.queue + NewEntry(s, x) == s.queue;
    }
    CompleteStands(s2, x.resp, honest);
    StandsTransitive(BeforeWakeup(s, x).queue, s2.queue, s.queue + NewEntry(s, x), honest);
  }

  lemma CommitSplits(s: RcuState)
    ensures Transit(Commit(s)) + Commit(s).queue == s.queue
  {
  }

  /** One edge moves the head of the queue into transit and appends what was accepted; nothing is
      lost, added or reordered on the way. */
  lemma RcuPassesThrough(s: RcuState, x: RcuIn, honest: bool)
    requires honest ==> HonestAt(s, x)
    ensures var t := RcuStep(s, x); StandsAll(Transit(t) + t.queue, s.queue + NewEntry(s, x), honest)
  {
    var b := BeforeWakeup(s, x);
    BeforeWakeupStands(s, x, honest);
    WakeupStands(b, honest);
    var i := Issue(Wakeup(b));
    assert i.queue == Wakeup(b).queue;
    CommitSplits(i);
    StandsTransitive(i.queue, b.queue, s.queue + NewEntry(s, x), honest);
  }

  // ----- counting registers and requests -----

  function CountLoads(q: seq<Req>): nat {
    if q == [] then 0 else (if q[0].isStore then 0 else 1) + CountLoads(q[1..])
  }

  lemma {:induction false} CountLoadsSnoc(q: seq<Req>, r: Req)
    ensures CountLoads(q + [r]) == CountLoads(q) + if r.isStore then 0 else 1
  {
    if q == [] {
      assert q + [r] == [r];
      assert [r][1..] == [];
    } else {
      assert (q + [r])[1..] == q[1..] + [r];
      CountLoadsSnoc(q[1..], r);
    }
  }

  lemma {:induction false} CountLoadsBound(q: seq<Req>)
    ensures CountLoads(q) <= |q|
  {
    if q != [] {
      CountLoadsBound(q[1..]);
    }
  }

  /** The difference of the two counters, as unsigned 32-bit arithmetic gives it. */
  function Outstanding(iss: u32, com: u32): nat {
    (iss - com) % 0x1_0000_0000
  }

  // ----- the invariant -----

  /** The request on offer is fresh, comes within the quota and carries the register at the head
      of the free list. */
  ghost predicate OfferInv(m: MonState) {
    m.reqVld ==>
      Unprocessed(m.req) && 1 <= m.req.delay <= WAKEUP_MAX_DELAY && m.reqIssNum < m.testcaseMax &&
      m.req.rdAddr == if m.req.isStore then 0 else Front(m.freeList)
  }

  ghost predicate CountInv(m: MonState) {
    m.reqIssNum <= m.testcaseMax &&
    Outstanding(m.reqIssNum, m.respCommNum) == |m.issQue| &&
    |m.freeList| + CountLoads(m.issQue) == 63
  }

  /** The monitor's issue queue is the commit in transit followed by the reorder buffer. */
  ghost predicate LoopInv(s: TbState, honest: bool) {
    RobInv(s.rcu) && OfferInv(s.mon) && CountInv(s.mon) &&
    StandsAll(Transit(s.rcu) + s.rcu.queue, s.mon.issQue, honest)
  }

  lemma QueueBound(s: TbState, honest: bool)
    requires LoopInv(s, honest)
    ensures |s.mon.issQue| <= 17 && |s.mon.freeList| >= 46
  {
    CountLoadsBound(s.mon.issQue);
  }

  /** Both sides accept a request at the same edge, or neither does. */
  lemma AcceptTogether(s: TbState, e: EnvIn)
    ensures MonSample(s, e).rcuReady && s.mon.reqVld <==> Accepts(s.rcu, RcuSample(s, e).newReq)
    ensures Accepts(s.rcu, RcuSample(s, e).newReq) <==> Accepts(Handshake(s.rcu, e.lsuRdy), RcuSample(s, e).newReq)
    ensures NewEntry(s.rcu, RcuSample(s, e)) == if MonSample(s, e).rcuReady && s.mon.reqVld then [s.mon.req] else []
  {
  }

  lemma AcceptKeeps(m: MonState, rdy: bool)
    requires OfferInv(m) && CountInv(m) && |m.issQue| <= 17 && |m.freeList| >= 46
    ensures OfferInv(Accept(m, rdy)) && CountInv(Accept(m, rdy))
    ensures |Accept(m, rdy).freeList| >= 45
    ensures rdy && m.reqVld && !m.req.isStore ==> m.req.rdAddr == m.freeList[0]
  {
    if rdy && m.reqVld {
      CountLoadsSnoc(m.issQue, m.req);
    }
  }

  lemma GenerateKeeps(m: MonState, r: Rolls)
    requires OfferInv(m) && CountInv(m)
    ensures OfferInv(Generate(m, r)) && CountInv(Generate(m, r))
    ensures Generate(m, r).issQue == m.issQue && Generate(m, r).freeList == m.freeList
  {
  }

  lemma CheckKeeps(m: MonState, resp: Option<Req>)
    requires OfferInv(m) && CountInv(m) && |m.issQue| <= 18 && |m.freeList| >= 1
    requires resp.Some? ==> |m.issQue| > 0 && SameOp(resp.value, m.issQue[0])
    ensures match Check(m, resp)
            case Ok(t) =>
              OfferInv(t) && CountInv(t) && t.issQue == if resp.Some? then m.issQue[1..] else m.issQue
            case Err(x) => x == LoadFail
  {
  }

  lemma MonitorKeeps(s: TbState, e: EnvIn, honest: bool)
    requires LoopInv(s, honest)
    ensures match MonStep(s.mon, MonSample(s, e))
            case Ok(t) =>
              OfferInv(t) && CountInv(t) &&
              t.issQue == (s.mon.issQue + NewEntry(s.rcu, RcuSample(s, e)))[|Transit(s.rcu)|..]
            case Err(x) => x == LoadFail
  {
    QueueBound(s, honest);
    AcceptTogether(s, e);
    var x := MonSample(s, e);
    AcceptKeeps(s.mon, x.rcuReady);
    var m1 := Accept(s.mon, x.rcuReady);
    GenerateKeeps(m1, x.rolls);
    assert m1.issQue == s.mon.issQue + NewEntry(s.rcu, RcuSample(s, e));
    if x.resp.Some? {
      assert (Transit(s.rcu) + s.rcu.queue)[0] == s.rcu.newComm;
      assert Stands(s.rcu.newComm, s.mon.issQue[0], honest);
    }
    CheckKeeps(Generate(m1, x.rolls), x.resp);
  }

  lemma DropBoth(transit: seq<Req>, q: seq<Req>, iss: seq<Req>, more: seq<Req>, honest: bool)
    requires StandsAll(transit + q, iss, honest)
    ensures StandsAll(q + more, (iss + more)[|transit|..], honest)
  {
    var a, b := q + more, (iss + more)[|transit|..];
    assert |a| == |b|;
    forall i | 0 <= i < |a|
      ensures Stands(a[i], b[i], honest)
    {
      if i < |q| {
        assert (transit + q)[|transit| + i] == q[i];
        assert b[i] == iss[|transit| + i];
      } else {
        assert a[i] == more[i - |q|] == b[i];
      }
    }
  }

  lemma FreshSample(s: TbState, e: EnvIn)
    requires OfferInv(s.mon)
    ensures FreshInput(RcuSample(s, e))
  {
  }

  /** One clock step keeps monitor and reorder buffer in agreement, and the monitor never throws
      "lsu commit in wrong order". */
  lemma StepKeepsLoop(s: TbState, e: EnvIn, honest: bool)
    requires LoopInv(s, honest) && (honest ==> HonestAt(s.rcu, RcuSample(s, e)))
    ensures match TbStep(s, e)
            case Ok(t) => LoopInv(t, honest)
            case Err(x) => x != FromMonitor(CommitInWrongOrder)
  {
    MonitorKeeps(s, e, honest);
    if TbStep(s, e).Ok? {
      var x := RcuSample(s, e);
      var t := TbStep(s, e).value;
      FreshSample(s, e);
      StepKeepsRobInv(s.rcu, x);
      RcuPassesThrough(s.rcu, x, honest);
      DropBoth(Transit(s.rcu), s.rcu.queue, s.mon.issQue, NewEntry(s.rcu, x), honest);
      StandsTransitive(Transit(t.rcu) + t.rcu.queue, s.rcu.queue + NewEntry(s.rcu, x), t.mon.issQue, honest);
    }
  }

  lemma InitLoop(testcaseMax: u64, pagetable: Mem, honest: bool)
    ensures LoopInv(InitTb(testcaseMax, pagetable), honest)
  {
  }

  /** In every run, for any design under test: the monitor's issue queue is the commit in transit
      followed by the reorder buffer, the counters differ by its length, and whatever ends the
      simulation, it is never "lsu commit in wrong order". */
  lemma {:induction false} NeverOutOfOrder(testcaseMax: u64, pagetable: Mem, es: seq<EnvIn>)
    ensures match TbRun(InitTb(testcaseMax, pagetable), es)
            case Ok(t) => LoopInv(t, false)
            case Err(x) => x != FromMonitor(CommitInWrongOrder)
  {
    var s0 := InitTb(testcaseMax, pagetable);
    if es == [] {
      InitLoop(testcaseMax, pagetable, false);
    } else {
      NeverOutOfOrder(testcaseMax, pagetable, es[..|es| - 1]);
      if TbRun(s0, es[..|es| - 1]).Ok? {
        StepKeepsLoop(TbRun(s0, es[..|es| - 1]).value, es[|es| - 1], false);
      }
    }
  }

  /** When the monitor reports that the test is done, nothing is left anywhere: no request on
      offer, none in the issue queue, none in the reorder buffer, no commit in transit. */
  lemma DoneMeansDrained(testcaseMax: u64, pagetable: Mem, es: seq<EnvIn>)
    requires TbRun(InitTb(testcaseMax, pagetable), es).Ok?
    requires UtDone(TbRun(InitTb(testcaseMax, pagetable), es).value.mon)
    ensures var t := TbRun(InitTb(testcaseMax, pagetable), es).value;
            t.mon.issQue == [] && t.rcu.queue == [] && !t.rcu.newCommVld && !t.mon.reqVld &&
            |t.mon.freeList| == 63
  {
    NeverOutOfOrder(testcaseMax, pagetable, es);
  }

  /** The free list never runs dry: at most 17 requests are in flight. */
  lemma RegistersNeverRunOut(testcaseMax: u64, pagetable: Mem, es: seq<EnvIn>)
    requires TbRun(InitTb(testcaseMax, pagetable), es).Ok?
    ensures var t := TbRun(InitTb(testcaseMax, pagetable), es).value;
            |t.mon.issQue| <= 17 && |t.mon.freeList| >= 46
  {
    NeverOutOfOrder(testcaseMax, pagetable, es);
    QueueBound(TbRun(InitTb(testcaseMax, pagetable), es).value, false);
  }
}
