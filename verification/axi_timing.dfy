// When the AXI memory serves a command: not before the delay drawn for it is over, and then as
// soon as the commands before it have gone and its write beats are there.
module AxiTiming {
  import opened Words
  import opened FlatMemory
  import opened L1dTypes
  import opened Axi
  import opened AxiRuns

  /** The edge a command came in at, and how many edges it has to wait, that one included. */
  datatype Arrival = Arrival(edge: nat, wait: nat)

  function ArrivalsAt(x: AxiIn, edge: nat): seq<Arrival> {
    (if x.aw.Some? then [Arrival(edge, 3 + x.awDraw % 50)] else []) +
    (if x.ar.Some? then [Arrival(edge, 3 + x.arDraw % 50)] else [])
  }

  /** The arrivals of all commands of a run, in the order of acceptance. */
  function Arrivals(xs: seq<AxiIn>): seq<Arrival> {
    if xs == [] then [] else Arrivals(xs[..|xs| - 1]) + ArrivalsAt(xs[|xs| - 1], |xs| - 1)
  }

  predicate WaitedOut(a: Arrival, now: nat) {
    a.edge + a.wait <= now
  }

  function Remaining(a: Arrival, now: nat): nat {
    if WaitedOut(a, now) then 0 else a.edge + a.wait - now
  }

  ghost predicate Timed(q: seq<MemReq>, arr: seq<Arrival>, now: nat) {
    |q| == |arr| && forall i | 0 <= i < |q| :: q[i].delay == Remaining(arr[i], now)
  }

  ghost predicate AllBy(arr: seq<Arrival>, now: nat) {
    forall a | a in arr :: a.edge <= now
  }

  /** The commands waiting wait out what is left of their delay, those served have done so, and the
      first one waiting has a reason to. */
  ghost predicate TimeInv(q: seq<MemReq>, served: nat, arr: seq<Arrival>, now: nat) {
    && AllBy(arr, now) && served <= |arr| && Timed(q, arr[served..], now)
    && (forall c | 0 <= c < served :: WaitedOut(arr[c], now))
    && (q != [] ==> !Ready(q[0]))
  }

  lemma ArrivalsTimed(q: seq<MemReq>, arr: seq<Arrival>, x: AxiIn, now: nat)
    requires Timed(q, arr, now)
    ensures Timed(AcceptAr(AcceptAw(q, x), x), arr + ArrivalsAt(x, now), now)
  {
  }

  lemma RoutingTimed(q: seq<MemReq>, arr: seq<Arrival>, w: Option<WReq>, now: nat)
    requires Timed(q, arr, now) && RouteW(q, w).Ok?
    ensures Timed(RouteW(q, w).value, arr, now)
  {
  }

  lemma CountDownTimed(q: seq<MemReq>, arr: seq<Arrival>, now: nat)
    requires Timed(q, arr, now) && AllBy(arr, now)
    ensures Timed(CountDown(q), arr, now + 1)
  {
  }

  lemma WaitingTimed(s: AxiState, x: AxiIn, arr: seq<Arrival>, now: nat)
    requires Timed(s.waitQ, arr, now) && WaitingThen(s, x).Ok? && AllBy(arr, now)
    ensures Timed(WaitingThen(s, x).value, arr + ArrivalsAt(x, now), now + 1)
  {
    var q2 := AcceptAr(AcceptAw(s.waitQ, x), x);
    ArrivalsTimed(s.waitQ, arr, x, now);
    RoutingTimed(q2, arr + ArrivalsAt(x, now), x.w, now);
    CountDownTimed(RouteW(q2, x.w).value, arr + ArrivalsAt(x, now), now);
  }

  lemma MovingTimed(q: seq<MemReq>, arr: seq<Arrival>, n: nat, now: nat)
    requires n <= |arr| && Timed(q, arr[n..], now) && AllBy(arr, now)
    requires forall c | 0 <= c < n :: WaitedOut(arr[c], now)
    ensures TimeInv(q[ReadyCount(q)..], n + ReadyCount(q), arr, now)
  {
    var k := ReadyCount(q);
    forall c | n <= c < n + k
      ensures WaitedOut(arr[c], now)
    {
      assert arr[n..][c - n] == arr[c] && Ready(q[c - n]);
    }
    assert arr[n + k..] == arr[n..][k..];
  }

  lemma MoreArrivals(arr: seq<Arrival>, more: seq<Arrival>, n: nat, now: nat)
    requires n <= |arr| && AllBy(arr, now) && AllBy(more, now) && forall c | 0 <= c < n :: WaitedOut(arr[c], now)
    ensures (arr + more)[n..] == arr[n..] + more && AllBy(arr[n..], now) && AllBy(arr + more, now + 1)
    ensures forall c | 0 <= c < n :: WaitedOut((arr + more)[c], now + 1)
  {
  }

  lemma EdgeTimed(s: AxiState, x: AxiIn, n: nat, arr: seq<Arrival>, now: nat, q: seq<MemReq>)
    requires TimeInv(s.waitQ, n, arr, now) && WaitingThen(s, x) == Ok(q)
    ensures TimeInv(q[ReadyCount(q)..], n + ReadyCount(q), arr + ArrivalsAt(x, now), now + 1)
  {
    var more := ArrivalsAt(x, now);
    MoreArrivals(arr, more, n, now);
    WaitingTimed(s, x, arr[n..], now);
    MovingTimed(q, arr + more, n, now + 1);
  }

  lemma StepMoves(h: AxiRun, x: AxiIn)
    requires RunStep(h, x).Ok?
    ensures var q, t := WaitingThen(h.s, x).value, RunStep(h, x).value;
            t.s.waitQ == q[ReadyCount(q)..] && |t.served| == |h.served| + ReadyCount(q)
  {
  }

  lemma {:induction false} RunKeepsTime(m: Mem, pagetable: Mem, xs: seq<AxiIn>)
    requires Run(m, pagetable, xs).Ok?
    ensures var h := Run(m, pagetable, xs).value; TimeInv(h.s.waitQ, |h.served|, Arrivals(xs), |xs|)
  {
    if xs != [] {
      var before, x := xs[..|xs| - 1], xs[|xs| - 1];
      RunKeepsTime(m, pagetable, before);
      var h := Run(m, pagetable, before).value;
      StepMoves(h, x);
      EdgeTimed(h.s, x, |h.served|, Arrivals(before), |before|, WaitingThen(h.s, x).value);
    }
  }

  // ----- which commands are served -----

  /** A read, or a write whose eight beats have come in. */
  predicate HasBeats(h: AxiRun, c: nat)
    requires c < |h.cmds|
  {
    h.cmds[c].ReadCmd? || 8 * Writes(h.cmds[..c + 1]) <= |h.wstream|
  }

  lemma WritesOfPrefix(cmds: seq<Cmd>, c: nat, n: nat)
    requires c <= n <= |cmds|
    ensures Writes(cmds[..c]) <= Writes(cmds[..n])
  {
    assert cmds[..n] == cmds[..c] + cmds[c..n];
    WritesAppend(cmds[..c], cmds[c..n]);
  }

  lemma ServedHasBeats(m: Mem, pagetable: Mem, h: AxiRun, c: nat)
    requires RunInv(m, pagetable, h) && c < |h.served|
    ensures |h.served| <= |h.cmds| && HasBeats(h, c)
  {
    SplitStreams(h.served, h.s.waitQ);
    ServiceableNotOpen(h.served);
    assert h.cmds[..|h.served|] == CmdsOf(h.served);
    WritesOfPrefix(h.cmds, c + 1, |h.served|);
  }

  lemma WritesSnoc(cmds: seq<Cmd>, n: nat)
    requires n < |cmds|
    ensures Writes(cmds[..n + 1]) == Writes(cmds[..n]) + (if cmds[n].WriteCmd? then 1 else 0)
  {
    assert cmds[..n + 1] == cmds[..n] + [cmds[n]];
    WritesAppend(cmds[..n], [cmds[n]]);
    assert [cmds[n]][1..] == [];
  }

  /** The first request waiting has its beats if it can be served. */
  lemma FrontHasBeats(q: seq<MemReq>)
    requires q != [] && FillForm(q) && q[0].Write?
    ensures |FlatBeats(q)| >= 8 <==> |q[0].beats| == 8
  {
    assert BeatsOf(q[0]) == q[0].beats && FlatBeats(q) == q[0].beats + FlatBeats(q[1..]);
    if Open(q[0]) {
      assert forall i | 0 <= i < |q| - 1 :: q[1..][i] == q[i + 1];
      FlatBeatsNone(q[1..]);
    }
  }

  lemma FrontLacksBeats(m: Mem, pagetable: Mem, h: AxiRun)
    requires RunInv(m, pagetable, h) && h.s.waitQ != []
    ensures |h.served| < |h.cmds| && (HasBeats(h, |h.served|) <==> Serviceable(h.s.waitQ[0]))
  {
    var q, n := h.s.waitQ, |h.served|;
    SplitStreams(h.served, q);
    ServiceableNotOpen(h.served);
    assert h.cmds[..n] == CmdsOf(h.served) && h.cmds[n] == CmdOf(q[0]);
    WritesSnoc(h.cmds, n);
    if q[0].Write? {
      FrontHasBeats(q);
    }
  }

  /** In every run a command has been served exactly if it and every command before it has waited
      out the delay drawn for it and, if it is a write, has its eight beats. */
  lemma ServedExactly(m: Mem, pagetable: Mem, xs: seq<AxiIn>, c: nat)
    requires Run(m, pagetable, xs).Ok? && c < |Run(m, pagetable, xs).value.cmds|
    ensures var h, arr := Run(m, pagetable, xs).value, Arrivals(xs);
            && |arr| == |h.cmds|
            && (c < |h.served| <==> forall d | 0 <= d <= c :: WaitedOut(arr[d], |xs|) && HasBeats(h, d))
  {
    RunKeepsInv(m, pagetable, xs);
    RunKeepsTime(m, pagetable, xs);
    var h, arr := Run(m, pagetable, xs).value, Arrivals(xs);
    assert |h.cmds| == |CmdsOf(h.served + h.s.waitQ)|;
    if c < |h.served| {
      forall d | 0 <= d <= c
        ensures WaitedOut(arr[d], |xs|) && HasBeats(h, d)
      {
        ServedHasBeats(m, pagetable, h, d);
      }
    } else {
      FrontLacksBeats(m, pagetable, h);
      assert arr[|h.served|..][0] == arr[|h.served|];
    }
  }
}
