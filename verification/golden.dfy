// The golden memory and the register free list, when the design under test echoes the
// destination registers it was given.
module Golden {
  import opened Words
  import opened FlatMemory
  import opened L1dTypes
  import opened Loads
  import opened Rcu
  import opened RobDiscipline
  import opened Axi
  import opened L1dMonitor
  import opened Testbench
  import opened ClosedLoop

  /** A run with the requests the reorder buffer has accepted and how many of them the monitor
      has checked. */
  datatype TbHist = TbHist(s: TbState, issued: seq<Req>, checked: nat)

  function HistStep(h: TbHist, e: EnvIn): Result<TbHist, TbError> {
    match TbStep(h.s, e)
    case Err(x) => Err(x)
    case Ok(t) =>
      Ok(TbHist(t, h.issued + NewEntry(h.s.rcu, RcuSample(h.s, e)), h.checked + |Transit(h.s.rcu)|))
  }

  function HistRun(testcaseMax: u64, pagetable: Mem, es: seq<EnvIn>): Result<TbHist, TbError> {
    if es == [] then Ok(TbHist(InitTb(testcaseMax, pagetable), [], 0))
    else
      match HistRun(testcaseMax, pagetable, es[..|es| - 1])
      case Err(x) => Err(x)
      case Ok(h) => HistStep(h, es[|es| - 1])
  }

  ghost predicate HonestRun(testcaseMax: u64, pagetable: Mem, es: seq<EnvIn>) {
    es == [] ||
    (HonestRun(testcaseMax, pagetable, es[..|es| - 1]) &&
     match HistRun(testcaseMax, pagetable, es[..|es| - 1])
     case Err(_) => true
     case Ok(h) => HonestAt(h.s.rcu, RcuSample(h.s, es[|es| - 1])))
  }

  /** The history only watches. */
  lemma {:induction false} HistIsRun(testcaseMax: u64, pagetable: Mem, es: seq<EnvIn>)
    ensures match TbRun(InitTb(testcaseMax, pagetable), es)
            case Err(x) => HistRun(testcaseMax, pagetable, es) == Err(x)
            case Ok(t) => HistRun(testcaseMax, pagetable, es).Ok? && HistRun(testcaseMax, pagetable, es).value.s == t
  {
    if es != [] {
      HistIsRun(testcaseMax, pagetable, es[..|es| - 1]);
    }
  }

  lemma HistParts(h: TbHist, e: EnvIn, h': TbHist)
    requires HistStep(h, e) == Ok(h')
    ensures TbStep(h.s, e) == Ok(h'.s)
    ensures MonStep(h.s.mon, MonSample(h.s, e)) == Ok(h'.s.mon) && h'.s.rcu == RcuStep(h.s.rcu, RcuSample(h.s, e))
    ensures h'.issued == h.issued + NewEntry(h.s.rcu, RcuSample(h.s, e))
    ensures h'.checked == h.checked + |Transit(h.s.rcu)|
  {
  }

  // ----- the golden memory -----

  /** Memory after the stores among `rs`, one after the other. */
  function Replay(m: Mem, rs: seq<Req>): Mem {
    if rs == [] then m
    else
      var r := rs[|rs| - 1];
      var before := Replay(m, rs[..|rs| - 1]);
      if r.isStore then StoreBytes(before, r.paddr, StoreSize(r.opcode), r.data) else before
  }

  // ----- registers -----

  function LoadRegs(q: seq<Req>): multiset<u8> {
    if q == [] then multiset{} else (if q[0].isStore then multiset{} else multiset{q[0].rdAddr}) + LoadRegs(q[1..])
  }

  lemma {:induction false} LoadRegsSnoc(q: seq<Req>, r: Req)
    ensures LoadRegs(q + [r]) == LoadRegs(q) + if r.isStore then multiset{} else multiset{r.rdAddr}
  {
    if q == [] {
      assert q + [r] == [r];
      assert [r][1..] == [];
    } else {
      assert (q + [r])[1..] == q[1..] + [r];
      LoadRegsSnoc(q[1..], r);
    }
  }

  /** Registers free or carried by a load in flight. */
  function Registers(m: MonState): multiset<u8> {
    multiset(m.freeList) + LoadRegs(m.issQue)
  }

  lemma RestOfList(l: seq<u8>)
    requires l != []
    ensures multiset(l) == multiset{l[0]} + multiset(l[1..])
  {
    assert l == [l[0]] + l[1..];
  }

  lemma AcceptRegisters(m: MonState, rdy: bool)
    requires OfferInv(m) && |m.freeList| > 0
    ensures Registers(Accept(m, rdy)) == Registers(m)
  {
    if rdy && m.reqVld {
      LoadRegsSnoc(m.issQue, m.req);
      if !m.req.isStore {
        RestOfList(m.freeList);
      }
    }
  }

  lemma CheckRegisters(m: MonState, resp: Option<Req>)
    requires Check(m, resp).Ok?
    requires resp.Some? ==>
               |m.issQue| > 0 && resp.value.isStore == m.issQue[0].isStore && resp.value.rdAddr == m.issQue[0].rdAddr
    ensures Registers(Check(m, resp).value) == Registers(m)
  {
    if resp.Some? && !resp.value.isStore {
      assert multiset(m.freeList + [resp.value.rdAddr]) == multiset(m.freeList) + multiset{resp.value.rdAddr};
    }
  }

  // ----- the invariant -----

  ghost predicate GoldenInv(h: TbHist) {
    LoopInv(h.s, true) &&
    h.checked <= |h.issued| && h.s.mon.issQue == h.issued[h.checked..] &&
    h.s.mon.mem == Replay(InitialImage(), h.issued[..h.checked]) &&
    Registers(h.s.mon) == multiset(InitialFreeList())
  }

  lemma CommitStands(s: TbState)
    requires LoopInv(s, true) && s.rcu.newCommVld
    ensures |s.mon.issQue| > 0 && Stands(s.rcu.newComm, s.mon.issQue[0], true)
  {
    assert (Transit(s.rcu) + s.rcu.queue)[0] == s.rcu.newComm;
  }

  /** The monitor's state after it has accepted and generated: what the check works on. */
  function BeforeCheck(s: TbState, e: EnvIn): MonState {
    Generate(Accept(s.mon, MonSample(s, e).rcuReady), e.rolls)
  }

  lemma BeforeCheckFacts(s: TbState, e: EnvIn)
    requires LoopInv(s, true)
    ensures var m := BeforeCheck(s, e);
            m.mem == s.mon.mem && m.issQue == s.mon.issQue + NewEntry(s.rcu, RcuSample(s, e)) &&
            Registers(m) == Registers(s.mon)
  {
    QueueBound(s, true);
    AcceptTogether(s, e);
    AcceptRegisters(s.mon, MonSample(s, e).rcuReady);
  }

  lemma ReplayNext(issued: seq<Req>, n: nat, r: Req)
    requires n < |issued| && Stands(r, issued[n], true)
    ensures Replay(InitialImage(), issued[..n + 1]) ==
            var before := Replay(InitialImage(), issued[..n]);
            if r.isStore then StoreBytes(before, r.paddr, StoreSize(r.opcode), r.data) else before
  {
    assert issued[..n + 1][..n] == issued[..n];
  }

  lemma IssuedAhead(issued: seq<Req>, n: nat, more: seq<Req>)
    requires n <= |issued|
    ensures (issued + more)[n..] == issued[n..] + more && (issued + more)[..n] == issued[..n]
  {
  }

  /** The check of one commit against the replay of everything issued before it. */
  lemma CheckAgainstReplay(h: TbHist, e: EnvIn)
    requires GoldenInv(h) && h.s.rcu.newCommVld
    ensures var r := h.s.rcu.newComm;
            var before := Replay(InitialImage(), h.issued[..h.checked]);
            h.checked < |h.issued| && SameOp(r, h.issued[h.checked]) &&
            (MonStep(h.s.mon, MonSample(h.s, e)) == Err(LoadFail) <==>
             !r.isStore && r.data != LoadValue(before, r.paddr, r.opcode))
  {
    CommitStands(h.s);
    BeforeCheckFacts(h.s, e);
  }

  lemma DropFirst(issued: seq<Req>, n: nat)
    requires n < |issued|
    ensures issued[n..][0] == issued[n] && issued[n..][1..] == issued[n + 1..]
  {
  }

  /** The check of a commit that stands for the next request issued. */
  lemma CheckGolden(m: MonState, resp: Option<Req>, issued: seq<Req>, n: nat)
    requires n <= |issued| && m.issQue == issued[n..] && m.mem == Replay(InitialImage(), issued[..n])
    requires Check(m, resp).Ok? && (resp.Some? ==> n < |issued| && Stands(resp.value, issued[n], true))
    ensures var t, k := Check(m, resp).value, if resp.Some? then n + 1 else n;
            t.issQue == issued[k..] && t.mem == Replay(InitialImage(), issued[..k]) && Registers(t) == Registers(m)
  {
    if resp.Some? {
      DropFirst(issued, n);
      ReplayNext(issued, n, resp.value);
    }
    CheckRegisters(m, resp);
  }

  lemma MonitorGolden(h: TbHist, e: EnvIn, t: MonState, issued: seq<Req>, checked: nat)
    requires GoldenInv(h) && MonStep(h.s.mon, MonSample(h.s, e)) == Ok(t)
    requires issued == h.issued + NewEntry(h.s.rcu, RcuSample(h.s, e)) && checked == h.checked + |Transit(h.s.rcu)|
    ensures checked <= |issued| && t.issQue == issued[checked..]
    ensures t.mem == Replay(InitialImage(), issued[..checked]) && Registers(t) == Registers(h.s.mon)
  {
    BeforeCheckFacts(h.s, e);
    IssuedAhead(h.issued, h.checked, NewEntry(h.s.rcu, RcuSample(h.s, e)));
    if h.s.rcu.newCommVld {
      CommitStands(h.s);
      DropFirst(h.issued, h.checked);
    }
    CheckGolden(BeforeCheck(h.s, e), MonSample(h.s, e).resp, issued, h.checked);
  }

  lemma StepKeepsGolden(h: TbHist, e: EnvIn, h': TbHist)
    requires GoldenInv(h) && HonestAt(h.s.rcu, RcuSample(h.s, e)) && HistStep(h, e) == Ok(h')
    ensures GoldenInv(h')
  {
    HistParts(h, e, h');
    LoopKept(h.s, e, h'.s);
    MonitorGolden(h, e, h'.s.mon, h'.issued, h'.checked);
  }

  lemma LoopKept(s: TbState, e: EnvIn, t: TbState)
    requires LoopInv(s, true) && HonestAt(s.rcu, RcuSample(s, e)) && TbStep(s, e) == Ok(t)
    ensures LoopInv(t, true)
  {
    StepKeepsLoop(s, e, true);
  }

  /** With a design under test that echoes registers, after any run: the golden memory is the
      replay of the first `checked` requests issued, the issue queue holds the rest, and the free
      registers together with those of the loads in flight are exactly the registers 1 to 63. */
  lemma {:induction false} GoldenRun(testcaseMax: u64, pagetable: Mem, es: seq<EnvIn>)
    requires HonestRun(testcaseMax, pagetable, es) && HistRun(testcaseMax, pagetable, es).Ok?
    ensures GoldenInv(HistRun(testcaseMax, pagetable, es).value)
  {
    if es == [] {
      InitLoop(testcaseMax, pagetable, true);
    } else {
      GoldenRun(testcaseMax, pagetable, es[..|es| - 1]);
      StepKeepsGolden(HistRun(testcaseMax, pagetable, es[..|es| - 1]).value, es[|es| - 1],
                      HistRun(testcaseMax, pagetable, es).value);
    }
  }

  /** A run ends in "load fail!" exactly when the commit in transit is a load whose data is not
      the value of its address in the replay of all requests issued before it. */
  lemma LoadFailsIff(testcaseMax: u64, pagetable: Mem, es: seq<EnvIn>, e: EnvIn)
    requires HonestRun(testcaseMax, pagetable, es) && HistRun(testcaseMax, pagetable, es).Ok?
    ensures var h := HistRun(testcaseMax, pagetable, es).value;
            TbStep(h.s, e) == Err(FromMonitor(LoadFail)) <==>
            h.s.rcu.newCommVld && !h.s.rcu.newComm.isStore &&
            h.checked < |h.issued| && SameOp(h.s.rcu.newComm, h.issued[h.checked]) &&
            h.s.rcu.newComm.data
            != LoadValue(Replay(InitialImage(), h.issued[..h.checked]), h.s.rcu.newComm.paddr, h.s.rcu.newComm.opcode)
  {
    GoldenRun(testcaseMax, pagetable, es);
    var h := HistRun(testcaseMax, pagetable, es).value;
    if h.s.rcu.newCommVld {
      CheckAgainstReplay(h, e);
    }
  }

  function RegRange(n: nat): seq<u8>
    requires n < 64
  {
    seq(n, i requires 0 <= i < n => i + 1)
  }

  lemma {:induction false} RangeOnce(n: nat, r: u8)
    requires n < 64
    ensures multiset(RegRange(n))[r] == if 1 <= r <= n then 1 else 0
  {
    if n > 0 {
      RangeOnce(n - 1, r);
      assert RegRange(n) == RegRange(n - 1) + [n];
    }
  }

  /** No register is ever free twice, or free and in flight, or lost. */
  lemma RegistersConserved(testcaseMax: u64, pagetable: Mem, es: seq<EnvIn>, r: u8)
    requires HonestRun(testcaseMax, pagetable, es) && HistRun(testcaseMax, pagetable, es).Ok?
    ensures var m := HistRun(testcaseMax, pagetable, es).value.s.mon;
            multiset(m.freeList)[r] + LoadRegs(m.issQue)[r] == if 1 <= r <= 63 then 1 else 0
  {
    GoldenRun(testcaseMax, pagetable, es);
    assert InitialFreeList() == RegRange(63);
    RangeOnce(63, r);
  }
}
