// The parts of the bench seen on their own: each of them makes the run its own module speaks of,
// on the inputs the driver passes it. So what the bench checks is what the LSU answered, what it
// hands out are the registers that came back, and it is done when everything has been checked.
module BenchRuns {
  import opened Words
  import opened FlatMemory
  import opened L1dTypes
  import opened Loads
  import opened Rcu
  import opened RobDiscipline
  import opened Axi
  import opened L1dMonitor
  import opened Testbench
  import opened ClosedLoop
  import opened Golden
  import AxiRuns
  import RobRuns
  import RobAnswers

  // ----- the memory -----

  function BusInputs(es: seq<EnvIn>): seq<AxiIn> {
    seq(|es|, i requires 0 <= i < |es| => es[i].axi)
  }

  lemma BusInputsNext(es: seq<EnvIn>)
    requires es != []
    ensures BusInputs(es) == BusInputs(es[..|es| - 1]) + [es[|es| - 1].axi]
  {
  }

  lemma BusRunOnce(m: Mem, pagetable: Mem, xs: seq<AxiIn>, x: AxiIn, h: AxiRuns.AxiRun)
    requires AxiRuns.Run(m, pagetable, xs) == Ok(h)
    ensures AxiRuns.Run(m, pagetable, xs + [x]) == AxiRuns.RunStep(h, x)
  {
    assert (xs + [x])[..|xs|] == xs;
  }

  lemma BusRunsOn(s: TbState, e: EnvIn, t: TbState, h: AxiRuns.AxiRun)
    requires h.s == s.mem && TbStep(s, e) == Ok(t)
    ensures AxiRuns.RunStep(h, e.axi).Ok? && AxiRuns.RunStep(h, e.axi).value.s == t.mem
  {
    AxiRuns.RunStepIsStep(h, e.axi);
  }

  /** The bus memory of the bench runs as `AxiRuns` says, on what the hardware puts on the bus. */
  lemma {:induction false} MemoryIsRun(max: u64, pagetable: Mem, es: seq<EnvIn>, t: TbState)
    requires TbRun(InitTb(max, pagetable), es) == Ok(t)
    ensures var run := AxiRuns.Run(InitialImage(), pagetable, BusInputs(es)); run.Ok? && run.value.s == t.mem
    decreases |es|
  {
    if es != [] {
      var before, e := es[..|es| - 1], es[|es| - 1];
      var s := TbRun(InitTb(max, pagetable), before).value;
      MemoryIsRun(max, pagetable, before, s);
      var h := AxiRuns.Run(InitialImage(), pagetable, BusInputs(before)).value;
      BusRunsOn(s, e, t, h);
      BusInputsNext(es);
      BusRunOnce(InitialImage(), pagetable, BusInputs(before), e.axi, h);
    }
  }

  // ----- the reorder buffer -----

  /** What reaches the reorder buffer: what the hardware answers, and what the monitor offers. */
  function BufferInputs(max: u64, pagetable: Mem, es: seq<EnvIn>): seq<RcuIn> {
    if es == [] then []
    else
      var before := es[..|es| - 1];
      BufferInputs(max, pagetable, before) +
      match TbRun(InitTb(max, pagetable), before)
      case Err(_) => []
      case Ok(s) =>
        var e := es[|es| - 1];
        [RcuIn(e.lsuRdy, e.resp, if s.mon.reqVld then Some(s.mon.req) else None)]
  }

  /** The entries enqueued are the requests issued, with an index. */
  ghost predicate Numbered(issued: seq<Req>, enq: seq<Req>) {
    |enq| == |issued| && forall i | 0 <= i < |issued| :: enq[i] == issued[i].(robIndex := enq[i].robIndex)
  }

  /** The commits are those checked and the one in transit. */
  ghost predicate LastInTransit(com: seq<Req>, checked: nat, s: RcuState) {
    |com| == checked + |Transit(s)| && (s.newCommVld ==> com[checked] == s.newComm)
  }

  /** A history of the bench beside the run of its reorder buffer. */
  ghost predicate Beside(h: TbHist, b: RobRuns.RcuRun) {
    b.s == h.s.rcu && Numbered(h.issued, b.enqueued) && LastInTransit(b.committed, h.checked, b.s)
  }

  lemma NumberedMore(issued: seq<Req>, enq: seq<Req>, entry: seq<Req>, queued: seq<Req>)
    requires Numbered(issued, enq) && |queued| == |entry| <= 1
    requires entry != [] ==> queued[0] == entry[0].(robIndex := queued[0].robIndex)
    ensures Numbered(issued + entry, enq + queued)
  {
  }

  lemma NextInTransit(com: seq<Req>, checked: nat, s: RcuState, t: RcuState)
    requires LastInTransit(com, checked, s)
    ensures LastInTransit(com + Transit(t), checked + |Transit(s)|, t)
  {
  }

  /** The same entry is issued by the bench and enqueued by the buffer. */
  lemma EntryEnqueued(s: TbState, e: EnvIn)
    ensures var x := RcuSample(s, e);
            var entry, queued := NewEntry(s.rcu, x), RobRuns.NewEnqueued(Handshake(s.rcu, x.lsuRdy), x.newReq);
            |queued| == |entry| <= 1 &&
            (entry != [] ==> queued[0] == entry[0].(robIndex := queued[0].robIndex))
  {
    AcceptTogether(s, e);
  }

  lemma BufferParts(b: RobRuns.RcuRun, x: RcuIn)
    ensures var b' := RobRuns.RunStep(b, x);
            && b'.s == RcuStep(b.s, x)
            && b'.committed == b.committed + Transit(b'.s)
  {
  }

  lemma StepBeside(h: TbHist, e: EnvIn, b: RobRuns.RcuRun, h': TbHist, b': RobRuns.RcuRun)
    requires Beside(h, b) && HistStep(h, e) == Ok(h') && b' == RobRuns.RunStep(b, RcuSample(h.s, e))
    ensures Beside(h', b')
  {
    var x := RcuSample(h.s, e);
    RobRuns.EnqueuedGrows(b, x);
    EntryEnqueued(h.s, e);
    BufferParts(b, x);
    HistParts(h, e, h');
    NumberedMore(h.issued, b.enqueued, NewEntry(h.s.rcu, x),
                 RobRuns.NewEnqueued(Handshake(h.s.rcu, x.lsuRdy), x.newReq));
    NextInTransit(b.committed, h.checked, h.s.rcu, h'.s.rcu);
  }

  lemma InputsNext(max: u64, pagetable: Mem, es: seq<EnvIn>)
    requires es != [] && HistRun(max, pagetable, es).Ok?
    ensures var before := es[..|es| - 1];
            && HistRun(max, pagetable, before).Ok?
            && BufferInputs(max, pagetable, es) ==
               BufferInputs(max, pagetable, before) + [RcuSample(HistRun(max, pagetable, before).value.s, es[|es| - 1])]
  {
    HistIsRun(max, pagetable, es[..|es| - 1]);
  }

  lemma RunOnce(xs: seq<RcuIn>, x: RcuIn)
    ensures RobRuns.Run(xs + [x]) == RobRuns.RunStep(RobRuns.Run(xs), x)
  {
    assert (xs + [x])[..|xs|] == xs;
  }

  /** The reorder buffer of the bench runs as `RobRuns` says: what it has enqueued is what the bench
      has issued, with an index, and its commits but for the one in transit have been checked. */
  lemma {:induction false} BufferIsRun(max: u64, pagetable: Mem, es: seq<EnvIn>)
    requires HistRun(max, pagetable, es).Ok?
    ensures Beside(HistRun(max, pagetable, es).value, RobRuns.Run(BufferInputs(max, pagetable, es)))
  {
    if es != [] {
      var before := es[..|es| - 1];
      InputsNext(max, pagetable, es);
      BufferIsRun(max, pagetable, before);
      var h := HistRun(max, pagetable, before).value;
      RunOnce(BufferInputs(max, pagetable, before), RcuSample(h.s, es[|es| - 1]));
      StepBeside(h, es[|es| - 1], RobRuns.Run(BufferInputs(max, pagetable, before)),
                 HistRun(max, pagetable, es).value, RobRuns.Run(BufferInputs(max, pagetable, es)));
    }
  }

  lemma LoopHolds(max: u64, pagetable: Mem, es: seq<EnvIn>)
    requires HistRun(max, pagetable, es).Ok?
    ensures LoopInv(HistRun(max, pagetable, es).value.s, false)
  {
    NeverOutOfOrder(max, pagetable, es);
    HistIsRun(max, pagetable, es);
  }

  /** Whatever the hardware does, the requests it passes on are as the reorder buffer needs them. */
  lemma {:induction false} InputsAreTimed(max: u64, pagetable: Mem, es: seq<EnvIn>)
    requires HistRun(max, pagetable, es).Ok?
    ensures RobRuns.TimedInputs(BufferInputs(max, pagetable, es))
    ensures RobRuns.FreshInputs(BufferInputs(max, pagetable, es))
  {
    if es != [] {
      InputsNext(max, pagetable, es);
      InputsAreTimed(max, pagetable, es[..|es| - 1]);
      LoopHolds(max, pagetable, es[..|es| - 1]);
    }
  }

  /** What a step leaves on offer, for any hardware: a request drawn with the numbers of this step,
      if one is drawn and the quota is not used up, with the register then at the head of the free
      list; else the one on offer before, unless the reorder buffer had room and took it. */
  lemma StepOffers(s: TbState, e: EnvIn)
    requires TbStep(s, e).Ok?
    ensures var m, t := s.mon, TbStep(s, e).value.mon;
            var taken := m.reqVld && |s.rcu.queue| < 16;
            var count := if taken then (m.reqIssNum + 1) % 0x1_0000_0000 else m.reqIssNum;
            var drawn := e.rolls.gen % 3 == 0 && count < m.testcaseMax;
            && (t.reqVld <==> drawn || (m.reqVld && !taken))
            && t.req == if !drawn then m.req
                        else NewReq(e.rolls, Front(if taken && !m.req.isStore then Rest(m.freeList) else m.freeList))
  {
    OfferedIff(s.mon, MonSample(s, e));
  }

  // ----- what a load is judged by -----

  /** The completions of the next request to be checked. */
  function Answers(max: u64, pagetable: Mem, es: seq<EnvIn>, n: nat): seq<LsuResp> {
    var given := RobAnswers.Given(BufferInputs(max, pagetable, es));
    if n < |given| then given[n] else []
  }

  /** What the commit in transit shows, and whom it stands for. */
  lemma TransitShows(max: u64, pagetable: Mem, es: seq<EnvIn>)
    requires HistRun(max, pagetable, es).Ok? && HistRun(max, pagetable, es).value.s.rcu.newCommVld
    ensures var h := HistRun(max, pagetable, es).value;
            var answers := Answers(max, pagetable, es, h.checked);
            && h.checked < |h.issued| && answers != []
            && var asked, shown := h.issued[h.checked], h.s.rcu.newComm;
               var last := answers[|answers| - 1];
               && SameOp(shown, asked) && shown.rdAddr == last.rdAddr
               && (last.rdAddr != 0 ==> shown.data == last.data)
               && ((forall c | c in answers :: c.rdAddr == 0) ==> shown.data == asked.data)
  {
    var xs := BufferInputs(max, pagetable, es);
    BufferIsRun(max, pagetable, es);
    InputsAreTimed(max, pagetable, es);
    RobAnswers.CommitsLastAnswer(xs, HistRun(max, pagetable, es).value.checked);
  }

  lemma LoadInFlight(q: seq<Req>)
    requires q != [] && !q[0].isStore
    ensures LoadRegs(q)[q[0].rdAddr] >= 1
  {
  }

  /** With hardware that echoes registers a load in transit shows the data it was answered with
      last. */
  lemma LoadShowsAnswer(max: u64, pagetable: Mem, es: seq<EnvIn>)
    requires HonestRun(max, pagetable, es) && HistRun(max, pagetable, es).Ok?
    requires var rcu := HistRun(max, pagetable, es).value.s.rcu; rcu.newCommVld && !rcu.newComm.isStore
    ensures var h := HistRun(max, pagetable, es).value;
            var answers := Answers(max, pagetable, es, h.checked);
            answers != [] && h.s.rcu.newComm.data == answers[|answers| - 1].data
  {
    var h := HistRun(max, pagetable, es).value;
    TransitShows(max, pagetable, es);
    GoldenRun(max, pagetable, es);
    CommitStands(h.s);
    LoadInFlight(h.s.mon.issQue);
    RegistersConserved(max, pagetable, es, h.s.rcu.newComm.rdAddr);
  }

  /** With hardware that echoes registers, a run ends in "load fail!" exactly when the request in
      transit is a load, and what the LSU answered to it last is not the value of its address in the
      replay of all requests issued before it. */
  lemma WrongAnswerFailsIff(max: u64, pagetable: Mem, es: seq<EnvIn>, e: EnvIn)
    requires HonestRun(max, pagetable, es) && HistRun(max, pagetable, es).Ok?
    ensures var h := HistRun(max, pagetable, es).value;
            var n := h.checked;
            var answers := Answers(max, pagetable, es, n);
            TbStep(h.s, e) == Err(FromMonitor(LoadFail)) <==>
            h.s.rcu.newCommVld && n < |h.issued| && !h.issued[n].isStore && answers != [] &&
            answers[|answers| - 1].data
            != LoadValue(Replay(InitialImage(), h.issued[..n]), h.issued[n].paddr, h.issued[n].opcode)
  {
    var h := HistRun(max, pagetable, es).value;
    LoadFailsIff(max, pagetable, es, e);
    if h.s.rcu.newCommVld {
      TransitShows(max, pagetable, es);
      if !h.s.rcu.newComm.isStore {
        LoadShowsAnswer(max, pagetable, es);
      }
    }
  }

  // ----- the free list -----

  /** The registers of the loads among some requests, in order. */
  function RegsOfLoads(rs: seq<Req>): seq<u8> {
    if rs == [] then []
    else RegsOfLoads(rs[..|rs| - 1]) + (if rs[|rs| - 1].isStore then [] else [rs[|rs| - 1].rdAddr])
  }

  lemma RegsOfMore(rs: seq<Req>, r: Req)
    ensures RegsOfLoads(rs + [r]) == RegsOfLoads(rs) + (if r.isStore then [] else [r.rdAddr])
  {
    assert (rs + [r])[..|rs|] == rs;
  }

  /** Registers handed out and then those still free, against those there were and then those that
      came back. */
  ghost predicate Queued(issued: seq<Req>, free: seq<u8>, commits: seq<Req>) {
    RegsOfLoads(issued) + free == InitialFreeList() + RegsOfLoads(commits)
  }

  lemma HandsOut(issued: seq<Req>, free: seq<u8>, commits: seq<Req>, r: Req)
    requires Queued(issued, free, commits) && free != [] && (!r.isStore ==> r.rdAddr == free[0])
    ensures Queued(issued + [r], if r.isStore then free else free[1..], commits)
  {
    RegsOfMore(issued, r);
    if !r.isStore {
      assert free == [free[0]] + free[1..];
    }
  }

  lemma TakesBack(issued: seq<Req>, free: seq<u8>, commits: seq<Req>, r: Req)
    requires Queued(issued, free, commits)
    ensures Queued(issued, free + (if r.isStore then [] else [r.rdAddr]), commits + [r])
  {
    RegsOfMore(commits, r);
    var back := if r.isStore then [] else [r.rdAddr];
    Associative(RegsOfLoads(issued), free, back);
    Associative(InitialFreeList(), RegsOfLoads(commits), back);
  }

  lemma AcceptQueues(m: MonState, rdy: bool, issued: seq<Req>, commits: seq<Req>)
    requires OfferInv(m) && m.freeList != [] && Queued(issued, m.freeList, commits)
    ensures Queued(issued + (if rdy && m.reqVld then [m.req] else []), Accept(m, rdy).freeList, commits)
  {
    if rdy && m.reqVld {
      HandsOut(issued, m.freeList, commits, m.req);
    } else {
      assert issued + [] == issued;
    }
  }

  lemma CheckQueues(m: MonState, resp: Option<Req>, issued: seq<Req>, commits: seq<Req>)
    requires Queued(issued, m.freeList, commits) && Check(m, resp).Ok?
    ensures Queued(issued, Check(m, resp).value.freeList, commits + (if resp.Some? then [resp.value] else []))
  {
    if resp.Some? {
      TakesBack(issued, m.freeList, commits, resp.value);
      assert m.freeList + [] == m.freeList;
    } else {
      assert commits + [] == commits;
    }
  }

  lemma MonitorQueues(s: TbState, e: EnvIn, issued: seq<Req>, commits: seq<Req>, t: MonState)
    requires LoopInv(s, false) && Queued(issued, s.mon.freeList, commits)
    requires MonStep(s.mon, MonSample(s, e)) == Ok(t)
    ensures Queued(issued + NewEntry(s.rcu, RcuSample(s, e)), t.freeList, commits + Transit(s.rcu))
  {
    QueueBound(s, false);
    AcceptTogether(s, e);
    var x := MonSample(s, e);
    var entry := NewEntry(s.rcu, RcuSample(s, e));
    AcceptQueues(s.mon, x.rcuReady, issued, commits);
    CheckQueues(Generate(Accept(s.mon, x.rcuReady), x.rolls), x.resp, issued + entry, commits);
  }

  /** The commits the bench has checked in a run. */
  function Commits(max: u64, pagetable: Mem, es: seq<EnvIn>): seq<Req> {
    if es == [] then []
    else
      var before := es[..|es| - 1];
      Commits(max, pagetable, before) +
      match TbRun(InitTb(max, pagetable), before)
      case Err(_) => []
      case Ok(s) => Transit(s.rcu)
  }

  /** For any hardware the free list is a queue: registers are handed out in the order 1 to 63 and
      then as they came back, each load issued getting the next one, and each load checked gives
      back the register it committed with. */
  lemma {:induction false} FreeListIsQueue(max: u64, pagetable: Mem, es: seq<EnvIn>)
    requires HistRun(max, pagetable, es).Ok?
    ensures var h := HistRun(max, pagetable, es).value;
            RegsOfLoads(h.issued) + h.s.mon.freeList == InitialFreeList() + RegsOfLoads(Commits(max, pagetable, es))
    ensures |Commits(max, pagetable, es)| == HistRun(max, pagetable, es).value.checked
  {
    if es == [] {
      assert [] + InitialFreeList() == InitialFreeList() == InitialFreeList() + [];
    } else {
      var before, e := es[..|es| - 1], es[|es| - 1];
      FreeListIsQueue(max, pagetable, before);
      LoopHolds(max, pagetable, before);
      HistIsRun(max, pagetable, before);
      var h := HistRun(max, pagetable, before).value;
      MonitorQueues(h.s, e, h.issued, Commits(max, pagetable, before), HistRun(max, pagetable, es).value.s.mon);
    }
  }

  // ----- the end of the test -----

  /** The counters are those of the history, in 32 bits; a quota that fits them is not exceeded. */
  ghost predicate Counted(m: MonState, issued: nat, checked: nat) {
    && m.reqIssNum == issued % 0x1_0000_0000 && m.respCommNum == checked % 0x1_0000_0000
    && (m.testcaseMax < 0x1_0000_0000 ==> issued <= m.testcaseMax)
  }

  lemma MonitorCounts(s: TbState, e: EnvIn, issued: nat, checked: nat, t: MonState)
    requires LoopInv(s, false) && Counted(s.mon, issued, checked) && MonStep(s.mon, MonSample(s, e)) == Ok(t)
    ensures t.testcaseMax == s.mon.testcaseMax
    ensures Counted(t, issued + |NewEntry(s.rcu, RcuSample(s, e))|, checked + |Transit(s.rcu)|)
  {
    AcceptTogether(s, e);
    CountsOn(issued);
    CountsOn(checked);
  }

  lemma CountsOn(n: nat)
    ensures Next(n % 0x1_0000_0000) == (n + 1) % 0x1_0000_0000
  {
  }

  lemma StepCounts(s: TbState, e: EnvIn, issued: nat, checked: nat, t: MonState, issued': nat, checked': nat)
    requires LoopInv(s, false) && Counted(s.mon, issued, checked) && MonStep(s.mon, MonSample(s, e)) == Ok(t)
    requires issued' == issued + |NewEntry(s.rcu, RcuSample(s, e))| && checked' == checked + |Transit(s.rcu)|
    ensures t.testcaseMax == s.mon.testcaseMax && Counted(t, issued', checked')
  {
    MonitorCounts(s, e, issued, checked, t);
  }

  /** The last edge of a run that has thrown nothing. */
  lemma LastEdge(max: u64, pagetable: Mem, es: seq<EnvIn>)
    requires es != [] && HistRun(max, pagetable, es).Ok?
    ensures HistRun(max, pagetable, es[..|es| - 1]).Ok?
    ensures HistStep(HistRun(max, pagetable, es[..|es| - 1]).value, es[|es| - 1]) == HistRun(max, pagetable, es)
  {
  }

  lemma {:induction false} RunCounts(max: u64, pagetable: Mem, es: seq<EnvIn>, h: TbHist)
    requires HistRun(max, pagetable, es) == Ok(h)
    ensures h.s.mon.testcaseMax == max && Counted(h.s.mon, |h.issued|, h.checked)
    decreases |es|
  {
    if es != [] {
      var before, e := es[..|es| - 1], es[|es| - 1];
      LastEdge(max, pagetable, es);
      LoopHolds(max, pagetable, before);
      var g := HistRun(max, pagetable, before).value;
      RunCounts(max, pagetable, before, g);
      HistParts(g, e, h);
      StepCounts(g.s, e, |g.issued|, g.checked, h.s.mon, |h.issued|, h.checked);
    }
  }

  lemma CheckedWereIssued(max: u64, pagetable: Mem, es: seq<EnvIn>)
    requires HistRun(max, pagetable, es).Ok?
    ensures var h := HistRun(max, pagetable, es).value; h.checked <= |h.issued|
  {
    BufferIsRun(max, pagetable, es);
    InputsAreTimed(max, pagetable, es);
    RobRuns.RunIsInOrder(BufferInputs(max, pagetable, es));
  }

  lemma DoneByCounts(m: MonState, issued: nat, checked: nat)
    requires Counted(m, issued, checked) && checked <= issued
    ensures UtDone(m) <==> m.testcaseMax <= 0xffff_ffff && issued == m.testcaseMax && checked == m.testcaseMax
  {
  }

  /** The test reports that it is done exactly when as many requests as asked for have been issued
      and all of them checked; with more asked for than 32 bits can count it never does. */
  lemma DoneIff(max: u64, pagetable: Mem, es: seq<EnvIn>)
    requires HistRun(max, pagetable, es).Ok?
    ensures var h := HistRun(max, pagetable, es).value;
            UtDone(h.s.mon) <==> max <= 0xffff_ffff && |h.issued| == max && h.checked == max
  {
    var h := HistRun(max, pagetable, es).value;
    RunCounts(max, pagetable, es, h);
    CheckedWereIssued(max, pagetable, es);
    DoneByCounts(h.s.mon, |h.issued|, h.checked);
  }
}
