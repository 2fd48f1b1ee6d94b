// The response channel seen from both ends. The memory drives a response after an edge and
// drops it from its queue when the ready signal it sampled *before* that edge was high; the
// receiver sees the response from then on and takes it at the next edge, with the ready signal
// of that later edge. This module says exactly when the two agree.
module AxiChannel {
  import opened Words
  import opened FlatMemory
  import opened L1dTypes
  import opened Axi
  import opened AxiRuns

  /** One edge on the channel: the response driven after it (its serial number in the response
      stream, and whether it is on the B channel) and the ready signals sampled with it. */
  datatype Beat = Beat(valid: bool, onB: bool, serial: nat, rRdy: bool, bRdy: bool)

  predicate Rdy(b: Beat, onB: bool) {
    if onB then b.bRdy else b.rRdy
  }

  /** The memory drops the response it drives after edge `t`. */
  predicate Popped(tr: seq<Beat>, t: nat)
    requires t < |tr|
  {
    tr[t].valid && Rdy(tr[t], tr[t].onB)
  }

  /** The receiver takes the response driven after edge `t`, at edge `t + 1`. */
  predicate Taken(tr: seq<Beat>, t: nat)
    requires t < |tr|
  {
    t + 1 < |tr| && tr[t].valid && Rdy(tr[t + 1], tr[t].onB)
  }

  predicate Presents(tr: seq<Beat>, t: nat, n: nat)
    requires t < |tr|
  {
    tr[t].valid && tr[t].serial == n
  }

  /** How often the receiver has taken response `n` by edge `upto`. */
  function Takes(tr: seq<Beat>, n: nat, upto: nat): nat
    requires upto <= |tr|
  {
    if upto == 0 then 0
    else Takes(tr, n, upto - 1) + if Presents(tr, upto - 1, n) && Taken(tr, upto - 1) then 1 else 0
  }

  /** A response that is not dropped is driven again, unchanged; dropping moves to the next. */
  ghost predicate ChannelTrace(tr: seq<Beat>) {
    forall t | 0 <= t < |tr| - 1 :: Follows(tr[t], tr[t + 1])
  }

  predicate Follows(b: Beat, c: Beat) {
    if b.valid && Rdy(b, b.onB) then c.serial == b.serial + 1
    else c.serial == b.serial && (b.valid ==> c.valid && c.onB == b.onB)
  }

  lemma {:induction false} SerialGrows(tr: seq<Beat>, t: nat, u: nat)
    requires ChannelTrace(tr) && t <= u < |tr|
    ensures tr[t].serial <= tr[u].serial
    decreases u
  {
    if t < u {
      SerialGrows(tr, t, u - 1);
      assert Follows(tr[u - 1], tr[u]);
    }
  }

  lemma NotTakenEarly(tr: seq<Beat>, b: nat, t: nat)
    requires ChannelTrace(tr) && b < |tr| && t + 1 < b && Presents(tr, t, tr[b].serial)
    ensures !Taken(tr, t)
  {
    assert Follows(tr[t], tr[t + 1]) && Follows(tr[t + 1], tr[t + 2]);
    SerialGrows(tr, t + 1, b);
    SerialGrows(tr, t + 2, b);
  }

  lemma {:induction false} NoTakesEarly(tr: seq<Beat>, b: nat, upto: nat)
    requires ChannelTrace(tr) && upto < b < |tr|
    ensures Takes(tr, tr[b].serial, upto) == 0
    decreases upto
  {
    if upto > 0 {
      NoTakesEarly(tr, b, upto - 1);
      if Presents(tr, upto - 1, tr[b].serial) {
        NotTakenEarly(tr, b, upto - 1);
      }
    }
  }

  lemma {:induction false} NoTakesLate(tr: seq<Beat>, b: nat, upto: nat)
    requires ChannelTrace(tr) && b < upto <= |tr| && Popped(tr, b)
    ensures Takes(tr, tr[b].serial, upto) == Takes(tr, tr[b].serial, b + 1)
    decreases upto
  {
    if upto > b + 1 {
      NoTakesLate(tr, b, upto - 1);
      assert Follows(tr[b], tr[b + 1]);
      SerialGrows(tr, b + 1, upto - 1);
    }
  }

  /** The same response was already driven after the edge before `b`. */
  predicate DrivenBefore(tr: seq<Beat>, b: nat)
    requires b < |tr|
  {
    b > 0 && Presents(tr, b - 1, tr[b].serial)
  }

  /** How often the receiver takes a response the memory dropped at edge `b`: once if it was
      already on the channel, and once more if the receiver is ready at the next edge. */
  lemma TakesOfDropped(tr: seq<Beat>, b: nat)
    requires ChannelTrace(tr) && b + 1 < |tr| && Popped(tr, b)
    ensures Takes(tr, tr[b].serial, |tr|) ==
            (if DrivenBefore(tr, b) then 1 else 0) + (if Rdy(tr[b + 1], tr[b].onB) then 1 else 0)
  {
    NoTakesLate(tr, b, |tr|);
    if b > 0 {
      NoTakesEarly(tr, b, b - 1);
      assert Follows(tr[b - 1], tr[b]);
    }
  }

  /** A response is taken exactly once if and only if readiness at the edge after it was dropped
      says whether it is on the channel for the first time. Ready after an earlier showing
      duplicates it; not ready after a first showing loses it. */
  lemma TakenOnceIff(tr: seq<Beat>, b: nat)
    requires ChannelTrace(tr) && b + 1 < |tr| && Popped(tr, b)
    ensures Takes(tr, tr[b].serial, |tr|) == 1 <==> (Rdy(tr[b + 1], tr[b].onB) <==> !DrivenBefore(tr, b))
  {
    TakesOfDropped(tr, b);
  }

  // ----- the traces of actual runs -----

  /** The channel at one edge of a run. */
  function BeatAt(h: AxiRun, x: AxiIn): Beat
    requires RunStep(h, x).Ok?
  {
    var t := ServeReady(h.s.(waitQ := WaitingThen(h.s, x).value)).value;
    Beat(t.respQ != [], t.respQ != [] && t.respQ[0].B?, |h.sent|, x.rRdy, x.bRdy)
  }

  function Trace(m: Mem, pagetable: Mem, xs: seq<AxiIn>): (tr: seq<Beat>)
    requires Run(m, pagetable, xs).Ok?
    ensures |tr| == |xs|
  {
    if xs == [] then []
    else
      var before := xs[..|xs| - 1];
      Trace(m, pagetable, before) + [BeatAt(Run(m, pagetable, before).value, xs[|xs| - 1])]
  }

  /** The record matches the port: what it says is driven is driven, with the response that has
      this serial number in the stream handed over or waiting. */
  lemma BeatIsPort(h: AxiRun, x: AxiIn)
    requires RunStep(h, x).Ok?
    ensures var h', b := RunStep(h, x).value, BeatAt(h, x);
            var port := h'.s.port;
            (b.valid <==> port.rVld || port.bVld) && !(port.rVld && port.bVld) &&
            (b.valid ==>
               b.serial < |h'.sent + h'.s.respQ| && b.onB == port.bVld &&
               (h'.sent + h'.s.respQ)[b.serial] == if port.bVld then B(port.bResp) else R(port.rResp))
  {
    var t := ServeReady(h.s.(waitQ := WaitingThen(h.s, x).value)).value;
    SendKeeps(t, x, h.sent);
  }

  lemma BeatsFollow(h: AxiRun, x: AxiIn, y: AxiIn)
    requires RunStep(h, x).Ok? && RunStep(RunStep(h, x).value, y).Ok?
    ensures Follows(BeatAt(h, x), BeatAt(RunStep(h, x).value, y))
  {
    var t := ServeReady(h.s.(waitQ := WaitingThen(h.s, x).value)).value;
    var h' := RunStep(h, x).value;
    var u := ServeReady(h'.s.(waitQ := WaitingThen(h'.s, y).value)).value;
    assert h'.s.respQ <= u.respQ;
  }

  lemma ChannelTraceSnoc(tr: seq<Beat>, b: Beat)
    requires ChannelTrace(tr) && (tr != [] ==> Follows(tr[|tr| - 1], b))
    ensures ChannelTrace(tr + [b])
  {
    var tr' := tr + [b];
    forall t | 0 <= t < |tr'| - 1
      ensures Follows(tr'[t], tr'[t + 1])
    {
      if t < |tr| - 1 {
        assert Follows(tr[t], tr[t + 1]);
      }
    }
  }

  lemma LastBeat(m: Mem, pagetable: Mem, xs: seq<AxiIn>)
    requires xs != [] && Run(m, pagetable, xs).Ok?
    ensures Run(m, pagetable, xs[..|xs| - 1]).Ok?
    ensures Trace(m, pagetable, xs)[|xs| - 1] == BeatAt(Run(m, pagetable, xs[..|xs| - 1]).value, xs[|xs| - 1])
  {
  }

  lemma {:induction false} RunIsChannelTrace(m: Mem, pagetable: Mem, xs: seq<AxiIn>)
    requires Run(m, pagetable, xs).Ok?
    ensures ChannelTrace(Trace(m, pagetable, xs))
  {
    if |xs| > 0 {
      var before, x := xs[..|xs| - 1], xs[|xs| - 1];
      RunIsChannelTrace(m, pagetable, before);
      var h := Run(m, pagetable, before).value;
      if |before| > 0 {
        LastBeat(m, pagetable, before);
        BeatsFollow(Run(m, pagetable, before[..|before| - 1]).value, before[|before| - 1], x);
      }
      ChannelTraceSnoc(Trace(m, pagetable, before), BeatAt(h, x));
    }
  }

  /** In every run: a response the memory drops at edge `b` reaches the receiver exactly once if
      and only if the ready signal of the next edge is high just when it was newly driven. */
  lemma DeliveryIsExact(m: Mem, pagetable: Mem, xs: seq<AxiIn>, b: nat)
    requires Run(m, pagetable, xs).Ok? && b + 1 < |xs|
    requires Popped(Trace(m, pagetable, xs), b)
    ensures var tr := Trace(m, pagetable, xs);
            Takes(tr, tr[b].serial, |tr|) == 1 <==> (Rdy(tr[b + 1], tr[b].onB) <==> !DrivenBefore(tr, b))
  {
    RunIsChannelTrace(m, pagetable, xs);
    TakenOnceIff(Trace(m, pagetable, xs), b);
  }

  lemma {:induction false} TraceInputs(m: Mem, pagetable: Mem, xs: seq<AxiIn>, t: nat)
    requires Run(m, pagetable, xs).Ok? && t < |xs|
    ensures Trace(m, pagetable, xs)[t].rRdy == xs[t].rRdy && Trace(m, pagetable, xs)[t].bRdy == xs[t].bRdy
  {
    if t < |xs| - 1 {
      TraceInputs(m, pagetable, xs[..|xs| - 1], t);
    }
  }

  /** A receiver that is always ready gets every response exactly once. */
  lemma AlwaysReadyIsExact(m: Mem, pagetable: Mem, xs: seq<AxiIn>, b: nat)
    requires Run(m, pagetable, xs).Ok? && b + 1 < |xs| && Trace(m, pagetable, xs)[b].valid
    requires forall t | 0 <= t < |xs| :: xs[t].rRdy && xs[t].bRdy
    ensures var tr := Trace(m, pagetable, xs); Takes(tr, tr[b].serial, |tr|) == 1
  {
    var tr := Trace(m, pagetable, xs);
    RunIsChannelTrace(m, pagetable, xs);
    TraceInputs(m, pagetable, xs, b);
    TraceInputs(m, pagetable, xs, b + 1);
    if b > 0 {
      TraceInputs(m, pagetable, xs, b - 1);
      assert Follows(tr[b - 1], tr[b]);
    }
    TakenOnceIff(tr, b);
  }

  // ----- two short runs in which the ends disagree -----

  const ONE_READ: ArReq := ArReq(0, DATA_PADDR_BASE)

  function Idle(rdy: bool): AxiIn {
    AxiIn(None, 0, None, 0, None, rdy, rdy)
  }

  function ReadArriving(): AxiIn {
    Idle(false).(ar := Some(ONE_READ))
  }

  /** One read with the least delay, an idle edge, then three edges with the given ready signals. */
  function ReadThen(r2: bool, r3: bool, r4: bool): seq<AxiIn> {
    [ReadArriving()] + [Idle(false)] + [Idle(r2)] + [Idle(r3)] + [Idle(r4)]
  }

  function Waiting(m: Mem, pagetable: Mem, delay: nat): AxiRun {
    AxiRun(AxiState(m, pagetable, [Read(ONE_READ, delay)], [], IDLE_PORT), [ReadCmd(ONE_READ)], [], [], [])
  }

  /** An edge at which nothing is ready and nothing waits to be sent. */
  lemma QuietStep(h: AxiRun, x: AxiIn, q: seq<MemReq>)
    requires WaitingThen(h.s, x) == Ok(q) && ReadyCount(q) == 0 && h.s.respQ == []
    ensures RunStep(h, x) == Ok(AxiRun(h.s.(waitQ := q, port := Drive([], h.s.port)), h.cmds + NewCmds(x),
                                       h.wstream + NewBeats(x), h.served, h.sent))
    ensures BeatAt(h, x) == Beat(false, false, |h.sent|, x.rRdy, x.bRdy)
  {
    assert q[..0] == [] && q[0..] == q;
    assert h.s.respQ + [] == h.s.respQ && h.served + [] == h.served && h.sent + [] == h.sent;
    assert ServeReady(h.s.(waitQ := q)) == Ok(h.s.(waitQ := q));
  }

  lemma ReadArrives(m: Mem, pagetable: Mem)
    ensures RunStep(Start(m, pagetable), ReadArriving()) == Ok(Waiting(m, pagetable, 2))
    ensures BeatAt(Start(m, pagetable), ReadArriving()) == Beat(false, false, 0, false, false)
  {
    assert [] + [Read(ONE_READ, 3)] == [Read(ONE_READ, 3)];
    assert CountDown([Read(ONE_READ, 3)]) == [Read(ONE_READ, 2)];
    assert [] + NewCmds(ReadArriving()) == [ReadCmd(ONE_READ)] && [] + NewBeats(ReadArriving()) == [];
    QuietStep(Start(m, pagetable), ReadArriving(), [Read(ONE_READ, 2)]);
  }

  lemma ReadWaits(m: Mem, pagetable: Mem)
    ensures RunStep(Waiting(m, pagetable, 2), Idle(false)) == Ok(Waiting(m, pagetable, 1))
    ensures BeatAt(Waiting(m, pagetable, 2), Idle(false)) == Beat(false, false, 0, false, false)
  {
    assert CountDown([Read(ONE_READ, 2)]) == [Read(ONE_READ, 1)];
    assert [ReadCmd(ONE_READ)] + NewCmds(Idle(false)) == [ReadCmd(ONE_READ)];
    assert [] + NewBeats(Idle(false)) == [];
    QuietStep(Waiting(m, pagetable, 2), Idle(false), [Read(ONE_READ, 1)]);
  }

  /** The run has nothing left to serve and its next responses are all read beats. */
  ghost predicate Answering(h: AxiRun, left: nat, sent: nat) {
    h.s.waitQ == [] && |h.s.respQ| >= left && |h.sent| == sent &&
    forall i | 0 <= i < |h.s.respQ| :: h.s.respQ[i].R?
  }

  lemma ServesTheRead(m: Mem, pagetable: Mem)
    ensures var q := [Read(ONE_READ, 0)];
            ReadyCount(q) == 1 && q[..1] == q && q[1..] == [] &&
            ServeAll(m, pagetable, q) == Ok(Served(m, ReadBurst(m, ONE_READ, BURST_NUM)))
  {
    var q := [Read(ONE_READ, 0)];
    assert q[1..] == [];
    assert ReadBurst(m, ONE_READ, BURST_NUM) + [] == ReadBurst(m, ONE_READ, BURST_NUM);
  }

  lemma ReadServed(m: Mem, pagetable: Mem, rdy: bool)
    ensures var h := Waiting(m, pagetable, 1);
            RunStep(h, Idle(rdy)).Ok? &&
            Answering(RunStep(h, Idle(rdy)).value, 7, if rdy then 1 else 0) &&
            BeatAt(h, Idle(rdy)) == Beat(true, false, 0, rdy, rdy)
  {
    var h, q := Waiting(m, pagetable, 1), [Read(ONE_READ, 0)];
    assert CountDown([Read(ONE_READ, 1)]) == q;
    ServesTheRead(m, pagetable);
    var t := ServeReady(h.s.(waitQ := q)).value;
    assert t.respQ == ReadBurst(m, ONE_READ, BURST_NUM);
  }

  lemma AnswerGoesOn(h: AxiRun, left: nat, sent: nat, rdy: bool)
    requires Answering(h, left, sent) && left > 0
    ensures RunStep(h, Idle(rdy)).Ok?
    ensures Answering(RunStep(h, Idle(rdy)).value, left - 1, sent + if rdy then 1 else 0)
    ensures BeatAt(h, Idle(rdy)) == Beat(true, false, sent, rdy, rdy)
  {
    assert CountDown([]) == [];
    assert h.s.respQ + [] == h.s.respQ;
  }

  lemma RunSnoc(m: Mem, pagetable: Mem, xs: seq<AxiIn>, x: AxiIn, h: AxiRun)
    requires Run(m, pagetable, xs) == Ok(h)
    ensures Run(m, pagetable, xs + [x]) == RunStep(h, x)
    ensures RunStep(h, x).Ok? ==> Trace(m, pagetable, xs + [x]) == Trace(m, pagetable, xs) + [BeatAt(h, x)]
  {
    assert (xs + [x])[..|xs|] == xs;
  }

  ghost predicate Reaches(m: Mem, pagetable: Mem, xs: seq<AxiIn>, h: AxiRun, tr: seq<Beat>) {
    Run(m, pagetable, xs) == Ok(h) && Trace(m, pagetable, xs) == tr
  }

  const QUIET: Beat := Beat(false, false, 0, false, false)

  lemma ReachesWaiting(m: Mem, pagetable: Mem)
    ensures Reaches(m, pagetable, [ReadArriving()] + [Idle(false)], Waiting(m, pagetable, 1), [QUIET] + [QUIET])
  {
    assert [] + [ReadArriving()] == [ReadArriving()];
    RunSnoc(m, pagetable, [], ReadArriving(), Start(m, pagetable));
    ReadArrives(m, pagetable);
    RunSnoc(m, pagetable, [ReadArriving()], Idle(false), Waiting(m, pagetable, 2));
    ReadWaits(m, pagetable);
  }

  lemma ReachesServed(m: Mem, pagetable: Mem, rdy: bool) returns (h: AxiRun)
    ensures Reaches(m, pagetable, [ReadArriving()] + [Idle(false)] + [Idle(rdy)], h,
                    [QUIET] + [QUIET] + [Beat(true, false, 0, rdy, rdy)])
    ensures Answering(h, 7, if rdy then 1 else 0)
  {
    ReachesWaiting(m, pagetable);
    RunSnoc(m, pagetable, [ReadArriving()] + [Idle(false)], Idle(rdy), Waiting(m, pagetable, 1));
    ReadServed(m, pagetable, rdy);
    h := RunStep(Waiting(m, pagetable, 1), Idle(rdy)).value;
  }

  lemma ReachesNext(m: Mem, pagetable: Mem, xs: seq<AxiIn>, h: AxiRun, tr: seq<Beat>, left: nat, sent: nat, rdy: bool)
    returns (h': AxiRun)
    requires Reaches(m, pagetable, xs, h, tr) && Answering(h, left, sent) && left > 0
    ensures Reaches(m, pagetable, xs + [Idle(rdy)], h', tr + [Beat(true, false, sent, rdy, rdy)])
    ensures Answering(h', left - 1, sent + if rdy then 1 else 0)
  {
    AnswerGoesOn(h, left, sent, rdy);
    RunSnoc(m, pagetable, xs, Idle(rdy), h);
    h' := RunStep(h, Idle(rdy)).value;
  }

  function ThenTrace(r2: bool, r3: bool, r4: bool): seq<Beat> {
    var n3 := if r2 then 1 else 0;
    var n4 := n3 + if r3 then 1 else 0;
    [QUIET] + [QUIET] + [Beat(true, false, 0, r2, r2)] + [Beat(true, false, n3, r3, r3)] +
    [Beat(true, false, n4, r4, r4)]
  }

  lemma ReadThenTrace(m: Mem, pagetable: Mem, r2: bool, r3: bool, r4: bool) returns (h: AxiRun)
    ensures Reaches(m, pagetable, ReadThen(r2, r3, r4), h, ThenTrace(r2, r3, r4))
  {
    var n3 := if r2 then 1 else 0;
    var h3 := ReachesServed(m, pagetable, r2);
    var x3 := [ReadArriving()] + [Idle(false)] + [Idle(r2)];
    var t3 := [QUIET] + [QUIET] + [Beat(true, false, 0, r2, r2)];
    var h4 := ReachesNext(m, pagetable, x3, h3, t3, 7, n3, r3);
    h := ReachesNext(m, pagetable, x3 + [Idle(r3)], h4, t3 + [Beat(true, false, n3, r3, r3)], 6,
                     n3 + if r3 then 1 else 0, r4);
  }

  lemma ThenTraceTakes()
    ensures var tr := ThenTrace(true, false, true);
            Popped(tr, 2) && tr[2].serial == 0 && Takes(tr, 0, |tr|) == 0
    ensures var tr := ThenTrace(false, true, true);
            Popped(tr, 3) && tr[3].serial == 0 && Takes(tr, 0, |tr|) == 2
  {
    TakesOfDropped(ThenTrace(true, false, true), 2);
    TakesOfDropped(ThenTrace(false, true, true), 3);
  }

  /** Delivery does fail: ready when the first beat of a read is driven and not ready at the next
      edge, the receiver never takes the beat the memory has dropped; not ready and then ready
      twice, it takes the same beat twice. */
  lemma BeatsGetLostAndDoubled(m: Mem, pagetable: Mem)
    ensures Run(m, pagetable, ReadThen(true, false, true)).Ok? && Run(m, pagetable, ReadThen(false, true, true)).Ok?
    ensures var tr := Trace(m, pagetable, ReadThen(true, false, true));
            Popped(tr, 2) && tr[2].serial == 0 && Takes(tr, 0, |tr|) == 0
    ensures var tr := Trace(m, pagetable, ReadThen(false, true, true));
            Popped(tr, 3) && tr[3].serial == 0 && Takes(tr, 0, |tr|) == 2
  {
    var h := ReadThenTrace(m, pagetable, true, false, true);
    var h' := ReadThenTrace(m, pagetable, false, true, true);
    ThenTraceTakes();
  }
}
