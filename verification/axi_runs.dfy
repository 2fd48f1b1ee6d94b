// Whole runs of the AXI memory: whatever the random delays, it behaves like a memory that
// serves the commands one after the other in the order they were accepted.
module AxiRuns {
  import opened Words
  import opened FlatMemory
  import opened L1dTypes
  import opened Axi

  datatype Cmd = WriteCmd(aw: AwReq) | ReadCmd(ar: ArReq)

  /** A run so far: the present state, the commands and write beats accepted, the requests
      served and the responses handed over. */
  datatype AxiRun = AxiRun(
    s: AxiState,
    cmds: seq<Cmd>,
    wstream: seq<WReq>,
    served: seq<MemReq>,
    sent: seq<MemResp>)

  function NewCmds(x: AxiIn): seq<Cmd> {
    (if x.aw.Some? then [WriteCmd(x.aw.value)] else []) + (if x.ar.Some? then [ReadCmd(x.ar.value)] else [])
  }

  function NewBeats(x: AxiIn): seq<WReq> {
    if x.w.Some? then [x.w.value] else []
  }

  function NewSent(respQ: seq<MemResp>, x: AxiIn): seq<MemResp> {
    if Pops(respQ, x) then [respQ[0]] else []
  }

  function RunStep(h: AxiRun, x: AxiIn): Result<AxiRun, AxiError> {
    match WaitingThen(h.s, x)
    case Err(e) => Err(e)
    case Ok(q) =>
      match ServeReady(h.s.(waitQ := q))
      case Err(e) => Err(e)
      case Ok(t) => Ok(AxiRun(
                         SendResp(t, x),
                         h.cmds + NewCmds(x),
                         h.wstream + NewBeats(x),
                         h.served + q[..ReadyCount(q)],
                         h.sent + NewSent(t.respQ, x)))
  }

  function Start(m: Mem, pagetable: Mem): AxiRun {
    AxiRun(AxiState(m, pagetable, [], [], IDLE_PORT), [], [], [], [])
  }

  function Run(m: Mem, pagetable: Mem, xs: seq<AxiIn>): Result<AxiRun, AxiError> {
    if xs == [] then Ok(Start(m, pagetable))
    else
      match Run(m, pagetable, xs[..|xs| - 1])
      case Err(e) => Err(e)
      case Ok(h) => RunStep(h, xs[|xs| - 1])
  }

  /** The history changes nothing: a run step is the simulator's step with its streams logged. */
  lemma RunStepIsStep(h: AxiRun, x: AxiIn)
    ensures match AxiStep(h.s, x)
            case Err(e) => RunStep(h, x) == Err(e)
            case Ok(s) => RunStep(h, x).Ok? && RunStep(h, x).value.s == s
  {
  }

  // ----- the reference: one command after the other -----

  function Writes(cmds: seq<Cmd>): nat {
    if cmds == [] then 0 else (if cmds[0].WriteCmd? then 1 else 0) + Writes(cmds[1..])
  }

  /** Serves the commands in order; the n-th write takes the n-th group of eight write beats. */
  function Sequential(m: Mem, pagetable: Mem, cmds: seq<Cmd>, w: seq<WReq>): Result<Served, AxiError>
    requires BURST_NUM * Writes(cmds) <= |w|
    decreases |cmds|
  {
    if cmds == [] then Ok(Served(m, []))
    else
      match cmds[0]
      case ReadCmd(ar) =>
        if !InData(ar.araddr) && !InPagetable(ar.araddr) then Err(InvalidRead)
        else
          (match Sequential(m, pagetable, cmds[1..], w)
           case Err(e) => Err(e)
           case Ok(d) =>
             Ok(Served(d.mem, ReadBurst(if InData(ar.araddr) then m else pagetable, ar, BURST_NUM) + d.resps)))
      case WriteCmd(aw) =>
        if !InData(aw.awaddr) then Err(InvalidWrite)
        else
          match Sequential(WriteBurst(m, aw.awaddr, w[..BURST_NUM]), pagetable, cmds[1..], w[BURST_NUM..])
          case Err(e) => Err(e)
          case Ok(d) => Ok(Served(d.mem, [B(BResp(aw.awid))] + d.resps))
  }

  // ----- routing of write beats -----

  function CmdOf(r: MemReq): Cmd {
    if r.Write? then WriteCmd(r.aw) else ReadCmd(r.ar)
  }

  function CmdsOf(q: seq<MemReq>): (cs: seq<Cmd>)
    ensures |cs| == |q|
  {
    seq(|q|, i requires 0 <= i < |q| => CmdOf(q[i]))
  }

  function BeatsOf(r: MemReq): seq<WReq> {
    if r.Write? then r.beats else []
  }

  function FlatBeats(q: seq<MemReq>): seq<WReq> {
    if q == [] then [] else BeatsOf(q[0]) + FlatBeats(q[1..])
  }

  /** Beat counts have the form 8,...,8,k,0,...,0: only the first open write may be part full. */
  ghost predicate FillForm(q: seq<MemReq>) {
    (forall i | 0 <= i < |q| :: |BeatsOf(q[i])| <= BURST_NUM) &&
    (forall i | FirstOpen(q) < i < |q| :: BeatsOf(q[i]) == [])
  }

  lemma {:induction false} FlatBeatsAppend(a: seq<MemReq>, b: seq<MemReq>)
    ensures FlatBeats(a + b) == FlatBeats(a) + FlatBeats(b)
  {
    if a == [] {
      assert a + b == b;
    } else {
      assert (a + b)[1..] == a[1..] + b;
      FlatBeatsAppend(a[1..], b);
    }
  }

  lemma {:induction false} FlatBeatsNone(q: seq<MemReq>)
    requires forall i | 0 <= i < |q| :: BeatsOf(q[i]) == []
    ensures FlatBeats(q) == []
  {
    if q != [] {
      FlatBeatsNone(q[1..]);
    }
  }

  lemma {:induction false} FlatBeatsSame(q: seq<MemReq>, q': seq<MemReq>)
    requires |q| == |q'| && forall i | 0 <= i < |q| :: BeatsOf(q'[i]) == BeatsOf(q[i])
    ensures FlatBeats(q') == FlatBeats(q)
  {
    if q != [] {
      FlatBeatsSame(q[1..], q'[1..]);
    }
  }

  /** A beat that goes to the last write with any goes to the end of the concatenated beats. */
  lemma {:induction false} FlatBeatsRouted(q: seq<MemReq>, k: nat, r: MemReq, w: WReq)
    requires k < |q| && BeatsOf(r) == BeatsOf(q[k]) + [w]
    requires forall i | k < i < |q| :: BeatsOf(q[i]) == []
    ensures FlatBeats(q[k := r]) == FlatBeats(q) + [w]
  {
    var q' := q[k := r];
    if k == 0 {
      assert q'[1..] == q[1..];
      FlatBeatsNone(q[1..]);
      assert FlatBeats(q) == BeatsOf(q[0]) + [] == BeatsOf(q[0]);
      assert FlatBeats(q') == BeatsOf(r) + [] == BeatsOf(r);
    } else {
      assert q'[1..] == q[1..][k - 1 := r];
      FlatBeatsRouted(q[1..], k - 1, r, w);
      Associative(BeatsOf(q[0]), FlatBeats(q[1..]), [w]);
    }
  }

  lemma RouteAppends(q: seq<MemReq>, w: WReq)
    requires FillForm(q) && FirstOpen(q) < |q|
    ensures RouteBeat(q, w).Ok?
    ensures FlatBeats(RouteBeat(q, w).value) == FlatBeats(q) + [w]
  {
    var k := FirstOpen(q);
    FlatBeatsRouted(q, k, q[k].(beats := q[k].beats + [w]), w);
  }

  lemma OpenUnique(q: seq<MemReq>, k: nat)
    requires k <= |q| && (forall i | 0 <= i < k :: !Open(q[i])) && (k < |q| ==> Open(q[k]))
    ensures FirstOpen(q) == k
  {
  }

  lemma RouteCmds(q: seq<MemReq>, w: WReq)
    requires FirstOpen(q) < |q|
    ensures CmdsOf(RouteBeat(q, w).value) == CmdsOf(q)
  {
  }

  lemma RouteFillForm(q: seq<MemReq>, w: WReq)
    requires FillForm(q) && FirstOpen(q) < |q|
    ensures FillForm(RouteBeat(q, w).value)
    ensures CmdsOf(RouteBeat(q, w).value) == CmdsOf(q)
  {
    RouteCmds(q, w);
    var k := FirstOpen(q);
    var q' := RouteBeat(q, w).value;
    assert BeatsOf(q'[k]) == BeatsOf(q[k]) + [w];
    assert forall i | 0 <= i < |q| && i != k :: q'[i] == q[i];
    assert k <= FirstOpen(q');
  }

  lemma AppendEmptyStreams(q: seq<MemReq>, r: MemReq)
    requires BeatsOf(r) == []
    ensures FlatBeats(q + [r]) == FlatBeats(q) && CmdsOf(q + [r]) == CmdsOf(q) + [CmdOf(r)]
  {
    FlatBeatsAppend(q, [r]);
    assert [r][1..] == [];
  }

  lemma AppendEmptyFillForm(q: seq<MemReq>, r: MemReq)
    requires FillForm(q) && BeatsOf(r) == []
    ensures FillForm(q + [r])
  {
    var q' := q + [r];
    assert forall i | 0 <= i < |q| :: q'[i] == q[i];
    assert FirstOpen(q') >= FirstOpen(q);
  }

  lemma CountDownSame(q: seq<MemReq>)
    requires FillForm(q)
    ensures FillForm(CountDown(q)) && FlatBeats(CountDown(q)) == FlatBeats(q) && CmdsOf(CountDown(q)) == CmdsOf(q)
  {
    var q' := CountDown(q);
    assert forall i | 0 <= i < |q| :: BeatsOf(q'[i]) == BeatsOf(q[i]) && Open(q'[i]) == Open(q[i]);
    FlatBeatsSame(q, q');
    OpenUnique(q', FirstOpen(q));
  }

  lemma DropFillForm(q: seq<MemReq>, k: nat)
    requires FillForm(q) && k <= |q| && forall i | 0 <= i < k :: !Open(q[i])
    ensures FillForm(q[k..])
  {
    var t := q[k..];
    assert FirstOpen(q) >= k;
    assert forall i | 0 <= i < |t| :: t[i] == q[k + i];
    OpenUnique(t, FirstOpen(q) - k);
  }

  lemma ArrivalsStreams(q: seq<MemReq>, x: AxiIn)
    requires FillForm(q)
    ensures var q2 := AcceptAr(AcceptAw(q, x), x);
            FillForm(q2) && FlatBeats(q2) == FlatBeats(q) && CmdsOf(q2) == CmdsOf(q) + NewCmds(x)
  {
    var q1 := AcceptAw(q, x);
    if x.aw.Some? {
      AppendEmptyFillForm(q, q1[|q|]);
      AppendEmptyStreams(q, q1[|q|]);
    }
    var q2 := AcceptAr(q1, x);
    if x.ar.Some? {
      AppendEmptyFillForm(q1, q2[|q1|]);
      AppendEmptyStreams(q1, q2[|q1|]);
    }
    assert CmdsOf(q2) == CmdsOf(q) + NewCmds(x);
  }

  lemma ArrivalsOpen(q: seq<MemReq>, x: AxiIn)
    ensures var q2 := AcceptAr(AcceptAw(q, x), x);
            FirstOpen(q2) == |q2| <==> FirstOpen(q) == |q| && x.aw.None?
  {
    var q2 := AcceptAr(AcceptAw(q, x), x);
    assert forall i | 0 <= i < |q| :: q2[i] == q[i];
    if FirstOpen(q2) == |q2| {
      if x.aw.Some? {
        assert Open(q2[|q|]);
      }
      OpenUnique(q, |q|);
    } else if x.aw.None? {
      assert FirstOpen(q2) < |q|;
    }
  }

  /** The wait queue after arrivals, routing and count-down; routing fails exactly when a beat
      comes, no address comes with it and every write waiting already has its eight beats. */
  lemma WaitingEffect(s: AxiState, x: AxiIn)
    requires FillForm(s.waitQ)
    ensures match WaitingThen(s, x)
            case Ok(q) =>
              FillForm(q) && CmdsOf(q) == CmdsOf(s.waitQ) + NewCmds(x) &&
              FlatBeats(q) == FlatBeats(s.waitQ) + NewBeats(x)
            case Err(e) => e == WBeatWithoutAw
    ensures WaitingThen(s, x).Err? <==> x.w.Some? && x.aw.None? && FirstOpen(s.waitQ) == |s.waitQ|
  {
    var q2 := AcceptAr(AcceptAw(s.waitQ, x), x);
    ArrivalsStreams(s.waitQ, x);
    ArrivalsOpen(s.waitQ, x);
    if x.w.Some? {
      if FirstOpen(q2) < |q2| {
        RouteAppends(q2, x.w.value);
        RouteFillForm(q2, x.w.value);
        CountDownSame(RouteBeat(q2, x.w.value).value);
      }
    } else {
      CountDownSame(q2);
    }
  }

  // ----- counting beats -----

  lemma {:induction false} WritesAppend(a: seq<Cmd>, b: seq<Cmd>)
    ensures Writes(a + b) == Writes(a) + Writes(b)
  {
    if a == [] {
      assert a + b == b;
    } else {
      assert (a + b)[1..] == a[1..] + b;
      WritesAppend(a[1..], b);
    }
  }

  lemma CmdsOfTail(q: seq<MemReq>)
    requires q != []
    ensures CmdsOf(q)[1..] == CmdsOf(q[1..])
  {
  }

  /** Eight beats for each write would fill the queue; that many are there exactly when none is open. */
  lemma {:induction false} BeatsAgainstWrites(q: seq<MemReq>)
    requires forall i | 0 <= i < |q| :: |BeatsOf(q[i])| <= BURST_NUM
    ensures |FlatBeats(q)| <= BURST_NUM * Writes(CmdsOf(q))
    ensures |FlatBeats(q)| == BURST_NUM * Writes(CmdsOf(q)) <==> FirstOpen(q) == |q|
  {
    if q != [] {
      CmdsOfTail(q);
      BeatsAgainstWrites(q[1..]);
    }
  }

  ghost predicate AllServiceable(q: seq<MemReq>) {
    forall i | 0 <= i < |q| :: Serviceable(q[i])
  }

  lemma ServiceableNotOpen(q: seq<MemReq>)
    requires AllServiceable(q)
    ensures FirstOpen(q) == |q|
    ensures |FlatBeats(q)| == BURST_NUM * Writes(CmdsOf(q))
  {
    OpenUnique(q, |q|);
    BeatsAgainstWrites(q);
  }

  // ----- service in order -----

  /** Serving complete requests is the reference semantics of their commands. */
  lemma {:induction false} ServedIsSequential(m: Mem, pagetable: Mem, q: seq<MemReq>, w: seq<WReq>)
    requires AllServiceable(q) && FlatBeats(q) <= w
    ensures BURST_NUM * Writes(CmdsOf(q)) <= |w|
    ensures Sequential(m, pagetable, CmdsOf(q), w) == ServeAll(m, pagetable, q)
    decreases |q|
  {
    ServiceableNotOpen(q);
    if q != [] {
      CmdsOfTail(q);
      if q[0].Read? {
        assert BeatsOf(q[0]) + FlatBeats(q[1..]) == FlatBeats(q[1..]);
        ServedIsSequential(m, pagetable, q[1..], w);
      } else {
        assert q[0].beats == w[..BURST_NUM];
        assert FlatBeats(q[1..]) <= w[BURST_NUM..];
        ServedIsSequential(WriteBurst(m, q[0].aw.awaddr, q[0].beats), pagetable, q[1..], w[BURST_NUM..]);
      }
    }
  }

  /** What holds after every edge of a run that has not faulted. */
  ghost predicate RunInv(m: Mem, pagetable: Mem, h: AxiRun) {
    FillForm(h.s.waitQ) && AllServiceable(h.served) &&
    CmdsOf(h.served + h.s.waitQ) == h.cmds &&
    FlatBeats(h.served + h.s.waitQ) == h.wstream &&
    h.s.pagetable == pagetable &&
    ServeAll(m, pagetable, h.served) == Ok(Served(h.s.mem, h.sent + h.s.respQ))
  }

  lemma CmdsOfAppend(a: seq<MemReq>, b: seq<MemReq>)
    ensures CmdsOf(a + b) == CmdsOf(a) + CmdsOf(b)
  {
  }

  lemma SplitStreams(a: seq<MemReq>, b: seq<MemReq>)
    ensures CmdsOf(a + b) == CmdsOf(a) + CmdsOf(b)
    ensures FlatBeats(a + b) == FlatBeats(a) + FlatBeats(b)
  {
    FlatBeatsAppend(a, b);
  }

  lemma ServeAllExtends(m: Mem, pagetable: Mem, a: seq<MemReq>, b: seq<MemReq>, sofar: Served, more: Served)
    requires ServeAll(m, pagetable, a) == Ok(sofar) && ServeAll(sofar.mem, pagetable, b) == Ok(more)
    ensures ServeAll(m, pagetable, a + b) == Ok(Served(more.mem, sofar.resps + more.resps))
  {
    ServeAllAppend(m, pagetable, a, b);
  }

  lemma ServedMore(served: seq<MemReq>, more: seq<MemReq>)
    requires AllServiceable(served) && AllServiceable(more)
    ensures AllServiceable(served + more)
  {
  }

  lemma MoveReadyKeeps(served: seq<MemReq>, q: seq<MemReq>)
    requires FillForm(q) && AllServiceable(served)
    ensures var k := ReadyCount(q);
            FillForm(q[k..]) && AllServiceable(served + q[..k]) && (served + q[..k]) + q[k..] == served + q
  {
    var k := ReadyCount(q);
    var moved, rest := q[..k], q[k..];
    DropFillForm(q, k);
    ServedMore(served, moved);
    assert moved + rest == q;
    Associative(served, moved, rest);
  }

  lemma ServeReadyKeeps(m: Mem, s: AxiState, served: seq<MemReq>, sent: seq<MemResp>)
    requires ServeAll(m, s.pagetable, served) == Ok(Served(s.mem, sent + s.respQ))
    requires ServeReady(s).Ok?
    ensures var t := ServeReady(s).value;
            t.waitQ == s.waitQ[ReadyCount(s.waitQ)..] && t.pagetable == s.pagetable &&
            ServeAll(m, s.pagetable, served + s.waitQ[..ReadyCount(s.waitQ)]) == Ok(Served(t.mem, sent + t.respQ))
  {
    var moved := s.waitQ[..ReadyCount(s.waitQ)];
    var done := ServeAll(s.mem, s.pagetable, moved).value;
    ServeAllExtends(m, s.pagetable, served, moved, Served(s.mem, sent + s.respQ), done);
    Associative(sent, s.respQ, done.resps);
  }

  lemma SendKeeps(s: AxiState, x: AxiIn, sent: seq<MemResp>)
    ensures sent + NewSent(s.respQ, x) + SendResp(s, x).respQ == sent + s.respQ
    ensures SendResp(s, x).mem == s.mem && SendResp(s, x).waitQ == s.waitQ && SendResp(s, x).pagetable == s.pagetable
  {
    if Pops(s.respQ, x) {
      assert s.respQ == [s.respQ[0]] + s.respQ[1..];
    }
  }

  lemma CmdsGrow(a: seq<MemReq>, b: seq<MemReq>, q: seq<MemReq>, more: seq<Cmd>)
    requires CmdsOf(q) == CmdsOf(b) + more
    ensures CmdsOf(a + q) == CmdsOf(a + b) + more
  {
    calc {
      CmdsOf(a + q);
      { CmdsOfAppend(a, q); }
      CmdsOf(a) + (CmdsOf(b) + more);
      { Associative(CmdsOf(a), CmdsOf(b), more); }
      (CmdsOf(a) + CmdsOf(b)) + more;
      { CmdsOfAppend(a, b); }
      CmdsOf(a + b) + more;
    }
  }

  lemma BeatsGrow(a: seq<MemReq>, b: seq<MemReq>, q: seq<MemReq>, more: seq<WReq>)
    requires FlatBeats(q) == FlatBeats(b) + more
    ensures FlatBeats(a + q) == FlatBeats(a + b) + more
  {
    calc {
      FlatBeats(a + q);
      { FlatBeatsAppend(a, q); }
      FlatBeats(a) + (FlatBeats(b) + more);
      { Associative(FlatBeats(a), FlatBeats(b), more); }
      (FlatBeats(a) + FlatBeats(b)) + more;
      { FlatBeatsAppend(a, b); }
      FlatBeats(a + b) + more;
    }
  }

  /** The rest of an edge, once the wait queue has been brought up to date. */
  lemma ServeAndSendKeeps(m: Mem, s: AxiState, served: seq<MemReq>, sent: seq<MemResp>, x: AxiIn)
    requires FillForm(s.waitQ) && AllServiceable(served)
    requires ServeAll(m, s.pagetable, served) == Ok(Served(s.mem, sent + s.respQ))
    requires ServeReady(s).Ok?
    ensures var t := ServeReady(s).value;
            var u := SendResp(t, x);
            var served' := served + s.waitQ[..ReadyCount(s.waitQ)];
            FillForm(u.waitQ) && AllServiceable(served') && served' + u.waitQ == served + s.waitQ &&
            u.pagetable == s.pagetable &&
            ServeAll(m, s.pagetable, served') == Ok(Served(u.mem, (sent + NewSent(t.respQ, x)) + u.respQ))
  {
    MoveReadyKeeps(served, s.waitQ);
    ServeReadyKeeps(m, s, served, sent);
    SendKeeps(ServeReady(s).value, x, sent);
  }

  lemma StepKeepsRunInv(m: Mem, pagetable: Mem, h: AxiRun, x: AxiIn)
    requires RunInv(m, pagetable, h) && RunStep(h, x).Ok?
    ensures RunInv(m, pagetable, RunStep(h, x).value)
  {
    WaitingEffect(h.s, x);
    var q := WaitingThen(h.s, x).value;
    ServeAndSendKeeps(m, h.s.(waitQ := q), h.served, h.sent, x);
    CmdsGrow(h.served, h.s.waitQ, q, NewCmds(x));
    BeatsGrow(h.served, h.s.waitQ, q, NewBeats(x));
  }

  /** An edge faults on a stray write beat exactly when every address so far has its eight beats
      and none arrives with this one. */
  lemma StrayBeatFault(m: Mem, pagetable: Mem, h: AxiRun, x: AxiIn)
    requires RunInv(m, pagetable, h)
    ensures RunStep(h, x) == Err(WBeatWithoutAw) <==>
            x.w.Some? && x.aw.None? && |h.wstream| == BURST_NUM * Writes(h.cmds)
  {
    WaitingEffect(h.s, x);
    StrayBeat(h);
    if WaitingThen(h.s, x).Ok? {
      var q := WaitingThen(h.s, x).value;
      ServeNeverStray(h.s.mem, pagetable, q[..ReadyCount(q)]);
    }
  }

  lemma StrayBeat(h: AxiRun)
    requires FillForm(h.s.waitQ) && AllServiceable(h.served)
    requires CmdsOf(h.served + h.s.waitQ) == h.cmds && FlatBeats(h.served + h.s.waitQ) == h.wstream
    ensures FirstOpen(h.s.waitQ) == |h.s.waitQ| <==> |h.wstream| == BURST_NUM * Writes(h.cmds)
  {
    SplitStreams(h.served, h.s.waitQ);
    WritesAppend(CmdsOf(h.served), CmdsOf(h.s.waitQ));
    ServiceableNotOpen(h.served);
    BeatsAgainstWrites(h.s.waitQ);
  }

  lemma {:induction false} ServeNeverStray(m: Mem, pagetable: Mem, rs: seq<MemReq>)
    ensures ServeAll(m, pagetable, rs) != Err(WBeatWithoutAw)
    decreases |rs|
  {
    if rs != [] {
      match ServeOne(m, pagetable, rs[0]) {
        case Err(_) =>
        case Ok(one) => ServeNeverStray(one.mem, pagetable, rs[1..]);
      }
    }
  }

  lemma {:induction false} RunKeepsInv(m: Mem, pagetable: Mem, xs: seq<AxiIn>)
    requires Run(m, pagetable, xs).Ok?
    ensures RunInv(m, pagetable, Run(m, pagetable, xs).value)
  {
    if xs != [] {
      var before := xs[..|xs| - 1];
      RunKeepsInv(m, pagetable, before);
      StepKeepsRunInv(m, pagetable, Run(m, pagetable, before).value, xs[|xs| - 1]);
    }
  }

  // ----- the main results -----

  /** The run is where the reference memory is after the commands it has served. */
  ghost predicate AtReference(m: Mem, pagetable: Mem, h: AxiRun) {
    |h.served| <= |h.cmds| &&
    BURST_NUM * Writes(h.cmds[..|h.served|]) <= |h.wstream| &&
    Sequential(m, pagetable, h.cmds[..|h.served|], h.wstream) == Ok(Served(h.s.mem, h.sent + h.s.respQ))
  }

  /** In every run, whatever the delays: memory and responses are those of the reference memory
      after the first |served| accepted commands, the commands accepted are those served and then
      those waiting, and the write beats of all of them, joined, are the beats received. */
  lemma RefinesSequential(m: Mem, pagetable: Mem, xs: seq<AxiIn>)
    requires Run(m, pagetable, xs).Ok?
    ensures var h := Run(m, pagetable, xs).value;
            h.cmds == CmdsOf(h.served) + CmdsOf(h.s.waitQ) &&
            h.wstream == FlatBeats(h.served) + FlatBeats(h.s.waitQ) &&
            AtReference(m, pagetable, h)
  {
    RunKeepsInv(m, pagetable, xs);
    var h := Run(m, pagetable, xs).value;
    SplitStreams(h.served, h.s.waitQ);
    assert h.cmds[..|h.served|] == CmdsOf(h.served);
    ServedIsSequential(m, pagetable, h.served, h.wstream);
  }

  /** Serving more commands only adds responses. */
  lemma {:induction false} SequentialPrefix(m: Mem, pagetable: Mem, a: seq<Cmd>, b: seq<Cmd>,
                                            w: seq<WReq>, w': seq<WReq>)
    requires a <= b && w <= w'
    requires BURST_NUM * Writes(a) <= |w| && BURST_NUM * Writes(b) <= |w'|
    requires Sequential(m, pagetable, a, w).Ok? && Sequential(m, pagetable, b, w').Ok?
    ensures Sequential(m, pagetable, a, w).value.resps <= Sequential(m, pagetable, b, w').value.resps
    decreases |a|
  {
    if a != [] {
      assert a[0] == b[0] && a[1..] <= b[1..];
      if a[0].ReadCmd? {
        SequentialPrefix(m, pagetable, a[1..], b[1..], w, w');
      } else {
        assert w[..BURST_NUM] == w'[..BURST_NUM];
        SequentialPrefix(WriteBurst(m, a[0].aw.awaddr, w[..BURST_NUM]), pagetable, a[1..], b[1..],
                         w[BURST_NUM..], w'[BURST_NUM..]);
      }
    }
  }

  lemma ComparePrefixes(m: Mem, pagetable: Mem, a: AxiRun, b: AxiRun)
    requires AtReference(m, pagetable, a) && AtReference(m, pagetable, b)
    requires a.cmds == b.cmds && a.wstream == b.wstream
    ensures a.sent <= b.sent || b.sent <= a.sent
    ensures |a.served| == |b.served| ==> a.s.mem == b.s.mem && a.sent + a.s.respQ == b.sent + b.s.respQ
  {
    if |a.served| <= |b.served| {
      SequentialPrefix(m, pagetable, a.cmds[..|a.served|], b.cmds[..|b.served|], a.wstream, b.wstream);
      PrefixesOfOne(a.sent, a.sent + a.s.respQ, b.sent, b.sent + b.s.respQ);
    } else {
      SequentialPrefix(m, pagetable, b.cmds[..|b.served|], a.cmds[..|a.served|], b.wstream, a.wstream);
      PrefixesOfOne(b.sent, b.sent + b.s.respQ, a.sent, a.sent + a.s.respQ);
    }
  }

  lemma PrefixesOfOne<T>(a: seq<T>, a': seq<T>, b: seq<T>, b': seq<T>)
    requires a <= a' <= b' && b <= b'
    ensures a <= b || b <= a
  {
  }

  /** Two runs that were given the same commands and the same write beats, with any delays, any
      interleaving and any ready signals, hand over the same responses as far as both have got. */
  lemma DelaysAreInvisible(m: Mem, pagetable: Mem, xs: seq<AxiIn>, ys: seq<AxiIn>)
    requires Run(m, pagetable, xs).Ok? && Run(m, pagetable, ys).Ok?
    requires Run(m, pagetable, xs).value.cmds == Run(m, pagetable, ys).value.cmds
    requires Run(m, pagetable, xs).value.wstream == Run(m, pagetable, ys).value.wstream
    ensures var a := Run(m, pagetable, xs).value;
            var b := Run(m, pagetable, ys).value;
            a.sent <= b.sent || b.sent <= a.sent
    ensures var a := Run(m, pagetable, xs).value;
            var b := Run(m, pagetable, ys).value;
            |a.served| == |b.served| ==> a.s.mem == b.s.mem && a.sent + a.s.respQ == b.sent + b.s.respQ
  {
    RefinesSequential(m, pagetable, xs);
    RefinesSequential(m, pagetable, ys);
    ComparePrefixes(m, pagetable, Run(m, pagetable, xs).value, Run(m, pagetable, ys).value);
  }
}
