// How long the AXI memory can take: with the write beats that are missing delivered and a
// receiver that is ready, everything accepted is served and answered within a number of edges
// that the queues tell.
module AxiProgress {
  import opened Words
  import opened FlatMemory
  import opened L1dTypes
  import opened Axi
  import opened AxiRuns

  // ----- what the queues tell -----

  function Lack(r: MemReq): nat {
    if Open(r) then BURST_NUM - |r.beats| else 0
  }

  /** The write beats still missing. */
  function Missing(q: seq<MemReq>): nat {
    if q == [] then 0 else Lack(q[0]) + Missing(q[1..])
  }

  function MaxDelay(q: seq<MemReq>): nat {
    if q == [] then 0
    else
      var d := MaxDelay(q[1..]);
      if q[0].delay > d then q[0].delay else d
  }

  /** The responses some requests will get: eight beats for a read, one for a write. */
  function Owed(q: seq<MemReq>): nat {
    if q == [] then 0 else (if q[0].Read? then BURST_NUM else 1) + Owed(q[1..])
  }

  function Larger(a: nat, b: nat): nat {
    if a > b then a else b
  }

  /** Edges until everything waiting is served. */
  function ServiceEdges(q: seq<MemReq>): nat {
    Larger(1, Larger(MaxDelay(q), Missing(q)))
  }

  function Less(n: nat, k: nat): nat {
    if n > k then n - k else 0
  }

  // ----- sums -----

  lemma {:induction false} MissingConcat(a: seq<MemReq>, b: seq<MemReq>)
    ensures Missing(a + b) == Missing(a) + Missing(b)
    decreases |a|
  {
    if a == [] {
      assert a + b == b;
    } else {
      assert (a + b)[1..] == a[1..] + b;
      MissingConcat(a[1..], b);
    }
  }

  lemma {:induction false} OwedConcat(a: seq<MemReq>, b: seq<MemReq>)
    ensures Owed(a + b) == Owed(a) + Owed(b)
    decreases |a|
  {
    if a == [] {
      assert a + b == b;
    } else {
      assert (a + b)[1..] == a[1..] + b;
      OwedConcat(a[1..], b);
    }
  }

  lemma {:induction false} MissingUpdate(q: seq<MemReq>, k: nat, r: MemReq)
    requires k < |q|
    ensures Missing(q[k := r]) + Lack(q[k]) == Missing(q) + Lack(r)
    decreases k
  {
    var q' := q[k := r];
    if k == 0 {
      assert q'[1..] == q[1..];
    } else {
      assert q'[1..] == q[1..][k - 1 := r];
      MissingUpdate(q[1..], k - 1, r);
    }
  }

  lemma {:induction false} NoneMissing(q: seq<MemReq>)
    ensures Missing(q) == 0 <==> forall i | 0 <= i < |q| :: !Open(q[i])
  {
    if q != [] {
      NoneMissing(q[1..]);
      assert forall i | 0 <= i < |q| - 1 :: q[1..][i] == q[i + 1];
    }
  }

  lemma {:induction false} MissingSame(q: seq<MemReq>, q': seq<MemReq>)
    requires |q| == |q'| && forall i | 0 <= i < |q| :: Lack(q'[i]) == Lack(q[i])
    ensures Missing(q') == Missing(q)
  {
    if q != [] {
      MissingSame(q[1..], q'[1..]);
    }
  }

  lemma {:induction false} DelaysAtMost(q: seq<MemReq>)
    ensures forall i | 0 <= i < |q| :: q[i].delay <= MaxDelay(q)
  {
    if q != [] {
      DelaysAtMost(q[1..]);
      assert forall i | 1 <= i < |q| :: q[i] == q[1..][i - 1];
    }
  }

  // ----- the first requests of the wait queue -----

  /** The first `p` requests wait at most `d` edges and lack at most `b` beats. */
  ghost predicate Waits(q: seq<MemReq>, p: nat, d: nat, b: nat) {
    p <= |q| && (forall i | 0 <= i < p :: q[i].delay <= d) && Missing(q[..p]) <= b
  }

  lemma ArrivalsWait(q: seq<MemReq>, x: AxiIn, p: nat, d: nat, b: nat)
    requires Waits(q, p, d, b)
    ensures Waits(AcceptAr(AcceptAw(q, x), x), p, d, b)
  {
    var q' := AcceptAr(AcceptAw(q, x), x);
    assert q <= q';
    assert q'[..p] == q[..p];
  }

  /** A beat goes to the first requests if they lack any. */
  lemma RouteWaits(q: seq<MemReq>, w: WReq, p: nat, d: nat, b: nat)
    requires Waits(q, p, d, b) && RouteBeat(q, w).Ok?
    ensures Waits(RouteBeat(q, w).value, p, d, Less(b, 1))
  {
    var k := FirstOpen(q);
    var r := q[k].(beats := q[k].beats + [w]);
    var q' := q[k := r];
    if k < p {
      assert q'[..p] == q[..p][k := r];
      MissingUpdate(q[..p], k, r);
    } else {
      assert q'[..p] == q[..p];
      NoneMissing(q[..p]);
    }
  }

  lemma TicksWait(q: seq<MemReq>, p: nat, d: nat, b: nat)
    requires Waits(q, p, d, b)
    ensures Waits(CountDown(q), p, Less(d, 1), b)
  {
    MissingSame(q[..p], CountDown(q)[..p]);
  }

  lemma MovedWait(q: seq<MemReq>, p: nat, d: nat, b: nat)
    requires Waits(q, p, d, b) && FillForm(q)
    ensures var k := ReadyCount(q);
            Waits(q[k..], Less(p, k), d, b) && (d == 0 && b == 0 ==> k >= p)
  {
    var k := ReadyCount(q);
    if k < p {
      RestWaits(q, k, p, d, b);
      if d == 0 && b == 0 {
        NothingHolds(q, k, p);
      }
    } else {
      assert q[k..][..0] == [];
    }
  }

  lemma RestWaits(q: seq<MemReq>, k: nat, p: nat, d: nat, b: nat)
    requires Waits(q, p, d, b) && k < p
    ensures Waits(q[k..], p - k, d, b)
  {
    assert q[..p] == q[..k] + q[k..p];
    MissingConcat(q[..k], q[k..p]);
    assert q[k..][..p - k] == q[k..p];
  }

  /** A request that waits no longer and lacks nothing is ready. */
  lemma NothingHolds(q: seq<MemReq>, k: nat, p: nat)
    requires Waits(q, p, 0, 0) && FillForm(q) && k < p
    ensures Ready(q[k])
  {
    NoneMissing(q[..p]);
    assert q[..p][k] == q[k] && |BeatsOf(q[k])| <= BURST_NUM;
  }

  // ----- one edge -----

  lemma WaitingThenWaits(s: AxiState, x: AxiIn, p: nat, d: nat, b: nat)
    requires Waits(s.waitQ, p, d, b) && WaitingThen(s, x).Ok? && (b > 0 ==> x.w.Some?)
    ensures Waits(WaitingThen(s, x).value, p, Less(d, 1), Less(b, 1))
  {
    var q2 := AcceptAr(AcceptAw(s.waitQ, x), x);
    ArrivalsWait(s.waitQ, x, p, d, b);
    if x.w.Some? {
      RouteWaits(q2, x.w.value, p, d, b);
      TicksWait(RouteBeat(q2, x.w.value).value, p, d, Less(b, 1));
    } else {
      TicksWait(q2, p, d, b);
    }
  }

  /** An edge brings the first requests nearer to service, and serves them once nothing is left. */
  lemma EdgeWaits(h: AxiRun, x: AxiIn, p: nat, d: nat, b: nat, t: AxiRun)
    requires FillForm(h.s.waitQ) && Waits(h.s.waitQ, p, d, b) && RunStep(h, x) == Ok(t) && (b > 0 ==> x.w.Some?)
    ensures |h.served| <= |t.served|
    ensures Waits(t.s.waitQ, Less(p, |t.served| - |h.served|), Less(d, 1), Less(b, 1))
    ensures d <= 1 && b <= 1 ==> |t.served| >= |h.served| + p
  {
    WaitingEffect(h.s, x);
    WaitingThenWaits(h.s, x, p, d, b);
    MovedWait(WaitingThen(h.s, x).value, p, Less(d, 1), Less(b, 1));
  }

  // ----- runs that go on -----

  function RunFrom(h: AxiRun, xs: seq<AxiIn>): Result<AxiRun, AxiError>
    decreases xs
  {
    if xs == [] then Ok(h)
    else
      match RunStep(h, xs[0])
      case Err(e) => Err(e)
      case Ok(t) => RunFrom(t, xs[1..])
  }

  /** What only grows. */
  lemma {:induction false} RunGrows(m: Mem, pagetable: Mem, h: AxiRun, xs: seq<AxiIn>)
    requires RunInv(m, pagetable, h) && RunFrom(h, xs).Ok?
    ensures var t := RunFrom(h, xs).value;
            && RunInv(m, pagetable, t)
            && h.served <= t.served && h.cmds <= t.cmds && h.wstream <= t.wstream && h.sent <= t.sent
    decreases xs
  {
    if xs != [] {
      StepKeepsRunInv(m, pagetable, h, xs[0]);
      RunGrows(m, pagetable, RunStep(h, xs[0]).value, xs[1..]);
    }
  }

  ghost predicate BringsBeats(xs: seq<AxiIn>, b: nat) {
    forall t | 0 <= t < b && t < |xs| :: xs[t].w.Some?
  }

  lemma BeatsGoOn(xs: seq<AxiIn>, b: nat)
    requires BringsBeats(xs, b) && xs != []
    ensures b > 0 ==> xs[0].w.Some?
    ensures BringsBeats(xs[1..], Less(b, 1))
  {
    forall t | 0 <= t < Less(b, 1) && t < |xs[1..]|
      ensures xs[1..][t].w.Some?
    {
      assert xs[t + 1].w.Some?;
    }
  }

  lemma EdgeKeepsForm(h: AxiRun, x: AxiIn)
    requires FillForm(h.s.waitQ) && RunStep(h, x).Ok?
    ensures FillForm(RunStep(h, x).value.s.waitQ)
  {
    WaitingEffect(h.s, x);
    MoveReadyKeeps([], WaitingThen(h.s, x).value);
  }

  lemma {:induction false} ServedGrows(h: AxiRun, xs: seq<AxiIn>, end: AxiRun)
    requires RunFrom(h, xs) == Ok(end)
    ensures |end.served| >= |h.served|
    decreases xs
  {
    if xs != [] {
      ServedGrows(RunStep(h, xs[0]).value, xs[1..], end);
    }
  }

  lemma RunFromNext(h: AxiRun, xs: seq<AxiIn>, end: AxiRun) returns (t: AxiRun)
    requires xs != [] && RunFrom(h, xs) == Ok(end)
    ensures RunStep(h, xs[0]) == Ok(t) && RunFrom(t, xs[1..]) == Ok(end)
  {
    t := RunStep(h, xs[0]).value;
  }

  /** With the missing beats delivered one an edge, the first `p` requests are served when the
      longest delay and the number of beats say so. */
  lemma {:induction false} ServedWithin(h: AxiRun, xs: seq<AxiIn>, p: nat, d: nat, b: nat, end: AxiRun)
    requires FillForm(h.s.waitQ) && RunFrom(h, xs) == Ok(end) && Waits(h.s.waitQ, p, d, b) && BringsBeats(xs, b)
    requires |xs| >= Larger(1, Larger(d, b))
    ensures |end.served| >= |h.served| + p
    decreases xs
  {
    var t := RunFromNext(h, xs, end);
    BeatsGoOn(xs, b);
    EdgeWaits(h, xs[0], p, d, b, t);
    if d > 1 || b > 1 {
      EdgeKeepsForm(h, xs[0]);
      ServedWithin(t, xs[1..], Less(p, |t.served| - |h.served|), Less(d, 1), Less(b, 1), end);
    } else {
      ServedGrows(t, xs[1..], end);
    }
  }

  ghost predicate AlwaysReady(xs: seq<AxiIn>) {
    forall x | x in xs :: x.rRdy && x.bRdy
  }

  lemma EdgeSends(h: AxiRun, x: AxiIn, n: nat)
    requires RunStep(h, x).Ok? && x.rRdy && x.bRdy && |h.sent| + |h.s.respQ| >= n
    ensures var t := RunStep(h, x).value;
            |t.sent| + |t.s.respQ| >= n && (|t.sent| > |h.sent| || |h.sent| >= n) && |t.sent| >= |h.sent|
  {
  }

  /** With a receiver that is ready, one response leaves at every edge until `n` have left. */
  lemma {:induction false} SentWithin(h: AxiRun, xs: seq<AxiIn>, n: nat)
    requires RunFrom(h, xs).Ok? && AlwaysReady(xs) && |h.sent| + |h.s.respQ| >= n && |h.sent| + |xs| >= n
    ensures |RunFrom(h, xs).value.sent| >= n
    decreases xs
  {
    if xs != [] {
      assert xs[0] in xs;
      EdgeSends(h, xs[0], n);
      SentWithin(RunStep(h, xs[0]).value, xs[1..], n);
    }
  }

  // ----- the bound -----

  lemma FirstOfConcat(xs: seq<AxiIn>, ys: seq<AxiIn>)
    requires xs != []
    ensures (xs + ys)[0] == xs[0] && (xs + ys)[1..] == xs[1..] + ys
  {
  }

  lemma {:induction false} RunFromConcat(h: AxiRun, xs: seq<AxiIn>, ys: seq<AxiIn>)
    requires RunFrom(h, xs + ys).Ok?
    ensures RunFrom(h, xs).Ok? && RunFrom(RunFrom(h, xs).value, ys) == RunFrom(h, xs + ys)
    decreases xs
  {
    if xs == [] {
      assert xs + ys == ys;
    } else {
      FirstOfConcat(xs, ys);
      assert RunStep(h, xs[0]).Ok?;
      RunFromConcat(RunStep(h, xs[0]).value, xs[1..], ys);
    }
  }

  /** As many responses as the requests are owed. */
  lemma {:induction false} ServedOwe(m: Mem, pagetable: Mem, rs: seq<MemReq>)
    requires ServeAll(m, pagetable, rs).Ok?
    ensures |ServeAll(m, pagetable, rs).value.resps| == Owed(rs)
    decreases |rs|
  {
    if rs != [] {
      ServedOwe(ServeOne(m, pagetable, rs[0]).value.mem, pagetable, rs[1..]);
    }
  }

  /** What is owed depends only on the commands. */
  lemma {:induction false} SameCmdsOwe(a: seq<MemReq>, b: seq<MemReq>)
    requires CmdsOf(a) == CmdsOf(b)
    ensures Owed(a) == Owed(b)
    decreases |a|
  {
    assert |CmdsOf(a)| == |CmdsOf(b)|;
    if a != [] {
      assert CmdsOf(a)[0] == CmdsOf(b)[0];
      CmdsOfTail(a);
      CmdsOfTail(b);
      SameCmdsOwe(a[1..], b[1..]);
    }
  }

  /** Edges until everything accepted is answered: service, then one edge for each response that is
      waiting or still to come. */
  function AnswerEdges(s: AxiState): nat {
    ServiceEdges(s.waitQ) + |s.respQ| + Owed(s.waitQ)
  }

  /** Everything waiting is served within the service edges. */
  lemma AllServedInTime(m: Mem, pagetable: Mem, h: AxiRun, xs: seq<AxiIn>)
    requires RunInv(m, pagetable, h) && RunFrom(h, xs).Ok? && BringsBeats(xs, Missing(h.s.waitQ))
    requires |xs| >= ServiceEdges(h.s.waitQ)
    ensures |RunFrom(h, xs).value.served| >= |h.cmds|
  {
    var q := h.s.waitQ;
    DelaysAtMost(q);
    assert q[..|q|] == q;
    ServedWithin(h, xs, |q|, MaxDelay(q), Missing(q), RunFrom(h, xs).value);
  }

  /** The responses made are at least those owed for the commands of the earlier run. */
  lemma AllMade(m: Mem, pagetable: Mem, h: AxiRun, t: AxiRun)
    requires RunInv(m, pagetable, h) && RunInv(m, pagetable, t) && h.cmds <= t.cmds && |t.served| >= |h.cmds|
    ensures |t.sent| + |t.s.respQ| >= |h.sent| + |h.s.respQ| + Owed(h.s.waitQ)
  {
    var done, rest := t.served[..|h.cmds|], t.served[|h.cmds|..];
    DoneCmds(m, pagetable, h, t);
    ServedOwe(m, pagetable, t.served);
    assert t.served == done + rest;
    OwedConcat(done, rest);
  }

  /** The responses owed for the earlier commands come first among those handed over. */
  lemma PrefixHandedOver(m: Mem, pagetable: Mem, h: AxiRun, t: AxiRun)
    requires RunInv(m, pagetable, h) && RunInv(m, pagetable, t) && h.cmds <= t.cmds && |t.served| >= |h.cmds|
    requires |t.sent| >= |h.sent| + |h.s.respQ| + Owed(h.s.waitQ)
    ensures BURST_NUM * Writes(h.cmds) <= |t.wstream|
    ensures Sequential(m, pagetable, h.cmds, t.wstream).Ok?
    ensures Sequential(m, pagetable, h.cmds, t.wstream).value.resps <= t.sent
  {
    var done, rest := t.served[..|h.cmds|], t.served[|h.cmds|..];
    assert t.served == done + rest;
    DoneCmds(m, pagetable, h, t);
    DoneBeats(done, rest, t.s.waitQ, t.wstream);
    ServedIsSequential(m, pagetable, done, t.wstream);
    ServeAllAppend(m, pagetable, done, rest);
    ServedOwe(m, pagetable, done);
    PrefixOfPrefix(ServeAll(m, pagetable, done).value.resps, t.sent, t.s.respQ);
  }

  lemma PrefixOfPrefix<T>(a: seq<T>, b: seq<T>, c: seq<T>)
    requires a <= b + c && |a| <= |b|
    ensures a <= b
  {
  }

  lemma DoneCmds(m: Mem, pagetable: Mem, h: AxiRun, t: AxiRun)
    requires RunInv(m, pagetable, h) && RunInv(m, pagetable, t) && h.cmds <= t.cmds && |t.served| >= |h.cmds|
    ensures CmdsOf(t.served[..|h.cmds|]) == h.cmds
    ensures Owed(t.served[..|h.cmds|]) == |h.sent| + |h.s.respQ| + Owed(h.s.waitQ)
  {
    var done := t.served[..|h.cmds|];
    CmdsOfAppend(t.served, t.s.waitQ);
    assert CmdsOf(done) == h.cmds == CmdsOf(h.served + h.s.waitQ);
    SameCmdsOwe(done, h.served + h.s.waitQ);
    OwedConcat(h.served, h.s.waitQ);
    ServedOwe(m, pagetable, h.served);
  }

  lemma DoneBeats(done: seq<MemReq>, rest: seq<MemReq>, q: seq<MemReq>, w: seq<WReq>)
    requires FlatBeats((done + rest) + q) == w
    ensures FlatBeats(done) <= w
  {
    FlatBeatsAppend(done + rest, q);
    FlatBeatsAppend(done, rest);
  }

  function Due(h: AxiRun): nat {
    |h.sent| + |h.s.respQ| + Owed(h.s.waitQ)
  }

  lemma HalfWay(m: Mem, pagetable: Mem, h: AxiRun, xs: seq<AxiIn>, mid: AxiRun)
    requires RunInv(m, pagetable, h) && RunFrom(h, xs) == Ok(mid) && BringsBeats(xs, Missing(h.s.waitQ))
    requires |xs| >= ServiceEdges(h.s.waitQ)
    ensures RunInv(m, pagetable, mid) && h.cmds <= mid.cmds && |mid.served| >= |h.cmds|
    ensures |mid.sent| >= |h.sent| && |mid.sent| + |mid.s.respQ| >= Due(h)
  {
    RunGrows(m, pagetable, h, xs);
    AllServedInTime(m, pagetable, h, xs);
    AllMade(m, pagetable, h, mid);
  }

  lemma SecondHalf(m: Mem, pagetable: Mem, mid: AxiRun, xs: seq<AxiIn>, end: AxiRun, n: nat)
    requires RunInv(m, pagetable, mid) && RunFrom(mid, xs) == Ok(end) && AlwaysReady(xs)
    requires |mid.sent| + |mid.s.respQ| >= n && |mid.sent| + |xs| >= n
    ensures RunInv(m, pagetable, end) && mid.cmds <= end.cmds && |end.served| >= |mid.served| && |end.sent| >= n
  {
    RunGrows(m, pagetable, mid, xs);
    SentWithin(mid, xs, n);
  }

  lemma PartsOf(xs: seq<AxiIn>, k: nat, b: nat)
    requires k <= |xs| && BringsBeats(xs, b) && AlwaysReady(xs)
    ensures BringsBeats(xs[..k], b) && AlwaysReady(xs[k..]) && xs == xs[..k] + xs[k..]
  {
  }

  /** From any state of any run: when the missing write beats are delivered one an edge and the
      receiver stays ready, then after the answer edges every command accepted so far has been
      served, and the responses of the reference memory to all of them have been handed over. */
  lemma AnsweredInTime(m: Mem, pagetable: Mem, h: AxiRun, xs: seq<AxiIn>, t: AxiRun)
    requires RunInv(m, pagetable, h) && RunFrom(h, xs) == Ok(t)
    requires BringsBeats(xs, Missing(h.s.waitQ)) && AlwaysReady(xs) && |xs| >= AnswerEdges(h.s)
    ensures |t.served| >= |h.cmds|
    ensures BURST_NUM * Writes(h.cmds) <= |t.wstream|
    ensures Sequential(m, pagetable, h.cmds, t.wstream).Ok?
    ensures Sequential(m, pagetable, h.cmds, t.wstream).value.resps <= t.sent
  {
    var k := ServiceEdges(h.s.waitQ);
    PartsOf(xs, k, Missing(h.s.waitQ));
    RunFromConcat(h, xs[..k], xs[k..]);
    var mid := RunFrom(h, xs[..k]).value;
    HalfWay(m, pagetable, h, xs[..k], mid);
    SecondHalf(m, pagetable, mid, xs[k..], t, Due(h));
    PrefixHandedOver(m, pagetable, h, t);
  }

  /** The same for the runs that start with the simulator. */
  lemma RunAnsweredInTime(m: Mem, pagetable: Mem, before: seq<AxiIn>, xs: seq<AxiIn>, t: AxiRun)
    requires Run(m, pagetable, before).Ok? && RunFrom(Run(m, pagetable, before).value, xs) == Ok(t)
    requires var h := Run(m, pagetable, before).value;
             BringsBeats(xs, Missing(h.s.waitQ)) && AlwaysReady(xs) && |xs| >= AnswerEdges(h.s)
    ensures Run(m, pagetable, before + xs) == Ok(t)
    ensures var h := Run(m, pagetable, before).value;
            && BURST_NUM * Writes(h.cmds) <= |t.wstream|
            && Sequential(m, pagetable, h.cmds, t.wstream).Ok?
            && Sequential(m, pagetable, h.cmds, t.wstream).value.resps <= t.sent
  {
    RunKeepsInv(m, pagetable, before);
    AnsweredInTime(m, pagetable, Run(m, pagetable, before).value, xs, t);
    RunGoesOn(m, pagetable, before, xs);
  }

  lemma {:induction false} RunGoesOn(m: Mem, pagetable: Mem, before: seq<AxiIn>, xs: seq<AxiIn>)
    requires Run(m, pagetable, before).Ok?
    ensures Run(m, pagetable, before + xs) == RunFrom(Run(m, pagetable, before).value, xs)
    decreases xs
  {
    if xs == [] {
      assert before + xs == before;
    } else {
      var next := before + [xs[0]];
      assert next[..|before|] == before && next + xs[1..] == before + xs;
      if Run(m, pagetable, next).Ok? {
        RunGoesOn(m, pagetable, next, xs[1..]);
      } else {
        RunStaysErr(m, pagetable, next, xs[1..]);
      }
    }
  }

  lemma {:induction false} RunStaysErr(m: Mem, pagetable: Mem, xs: seq<AxiIn>, ys: seq<AxiIn>)
    requires Run(m, pagetable, xs).Err?
    ensures Run(m, pagetable, xs + ys) == Run(m, pagetable, xs)
    decreases |ys|
  {
    if ys == [] {
      assert xs + ys == xs;
    } else {
      assert (xs + ys)[..|xs + ys| - 1] == xs + ys[..|ys| - 1];
      RunStaysErr(m, pagetable, xs, ys[..|ys| - 1]);
    }
  }
}
