// When an entry of the reorder buffer may wake: not before its delay, counted from the edge at
// which the LSU took it, is over.
module RobTiming {
  import opened Words
  import opened L1dTypes
  import opened Rcu
  import opened RobDiscipline
  import opened RobRuns

  /** The edges at which the LSU took the requests it has taken. */
  function TakenAt(xs: seq<RcuIn>): (edges: seq<nat>)
    ensures |edges| == |Run(xs).accepted|
  {
    if xs == [] then []
    else
      var before, x := xs[..|xs| - 1], xs[|xs| - 1];
      TakenAt(before) + TakenNow(Run(before).s, x, |before|)
  }

  function TakenNow(s: RcuState, x: RcuIn, now: nat): seq<nat> {
    if x.lsuRdy && s.lsuReqVld then [now] else []
  }

  function Left(end: nat, now: nat): nat {
    if end > now then end - now else 0
  }

  /** Where the timer of an entry stands that was taken at edge `at`. */
  predicate Running(e: Req, r: Req, at: nat, now: nat) {
    e.issued && e.delay == Left(at + r.delay, now) && (e.awake ==> at + r.delay < now)
  }

  /** Before an entry is taken its timer stands still. */
  predicate Resting(e: Req, r: Req) {
    !e.issued && !e.awake && e.delay == r.delay >= 1
  }

  ghost predicate LiveTimed(q: seq<Req>, enq: seq<Req>, com: nat, edges: seq<nat>, now: nat) {
    && com <= |edges| <= |enq| == com + |q|
    && forall i | 0 <= i < |q| ::
         if com + i < |edges| then Running(q[i], enq[com + i], edges[com + i], now) else Resting(q[i], enq[com + i])
  }

  ghost predicate CommittedTimed(enq: seq<Req>, com: nat, edges: seq<nat>, now: nat) {
    com <= |edges| <= |enq| && forall c | 0 <= c < com :: edges[c] + enq[c].delay < now
  }

  ghost predicate TimerInv(h: RcuRun, edges: seq<nat>, now: nat) {
    && LiveTimed(h.s.queue, h.enqueued, |h.committed|, edges, now)
    && CommittedTimed(h.enqueued, |h.committed|, edges, now)
  }

  // ----- stage by stage -----

  lemma FirstResting(q: seq<Req>, enq: seq<Req>, com: nat, edges: seq<nat>, now: nat)
    requires LiveTimed(q, enq, com, edges, now)
    ensures FirstUnissued(q) == |edges| - com
  {
    UnissuedUnique(q, |edges| - com);
  }

  lemma HandshakeTimed(s: RcuState, x: RcuIn, enq: seq<Req>, com: nat, edges: seq<nat>, now: nat)
    requires RobInv(s) && LiveTimed(s.queue, enq, com, edges, now)
    ensures LiveTimed(Handshake(s, x.lsuRdy).queue, enq, com, edges + TakenNow(s, x, now), now)
  {
    if x.lsuRdy && s.lsuReqVld {
      FirstResting(s.queue, enq, com, edges, now);
      RobFound(s.queue, FirstUnissued(s.queue));
    } else {
      assert edges + [] == edges;
    }
  }

  lemma EnqueueTimed(q: seq<Req>, r: Req, enq: seq<Req>, com: nat, edges: seq<nat>, now: nat)
    requires LiveTimed(q, enq, com, edges, now) && Unprocessed(r) && r.delay >= 1
    ensures LiveTimed(q + [r], enq + [r], com, edges, now)
  {
  }

  lemma CompleteTimed(s: RcuState, resp: Option<LsuResp>, enq: seq<Req>, com: nat, edges: seq<nat>, now: nat)
    requires LiveTimed(s.queue, enq, com, edges, now)
    ensures LiveTimed(Complete(s, resp).queue, enq, com, edges, now)
  {
  }

  lemma WakeupTimed(s: RcuState, enq: seq<Req>, com: nat, edges: seq<nat>, now: nat)
    requires LiveTimed(s.queue, enq, com, edges, now)
    ensures LiveTimed(Wakeup(s).queue, enq, com, edges, now + 1)
  {
    forall i | 0 <= i < |s.queue|
      ensures var e := Wakeup(s).queue[i];
              if com + i < |edges| then Running(e, enq[com + i], edges[com + i], now + 1) else Resting(e, enq[com + i])
    {
      if com + i < |edges| {
        assert Running(s.queue[i], enq[com + i], edges[com + i], now);
      } else {
        assert Resting(s.queue[i], enq[com + i]);
      }
    }
  }

  lemma HeadTimed(q: seq<Req>, enq: seq<Req>, com: nat, edges: seq<nat>, now: nat)
    requires LiveTimed(q, enq, com, edges, now) && CommittedTimed(enq, com, edges, now) && CanCommit(q)
    ensures LiveTimed(q[1..], enq, com + 1, edges, now) && CommittedTimed(enq, com + 1, edges, now)
  {
    assert com < |edges| && Running(q[0], enq[com], edges[com], now);
    assert forall i | 0 <= i < |q| - 1 :: q[1..][i] == q[i + 1];
  }

  // ----- whole edges -----

  lemma InputsTimed(s: RcuState, x: RcuIn, enq: seq<Req>, com: nat, edges: seq<nat>, now: nat, enq': seq<Req>)
    requires RobInv(s) && TimedInput(x) && LiveTimed(s.queue, enq, com, edges, now)
    requires enq' == enq + NewEnqueued(Handshake(s, x.lsuRdy), x.newReq)
    ensures LiveTimed(BeforeWakeup(s, x).queue, enq', com, edges + TakenNow(s, x, now), now)
  {
    var s1, edges' := Handshake(s, x.lsuRdy), edges + TakenNow(s, x, now);
    HandshakeTimed(s, x, enq, com, edges, now);
    if Accepts(s1, x.newReq) {
      EnqueueTimed(s1.queue, x.newReq.value.(robIndex := NextRob(s1.queue)), enq, com, edges', now);
    } else {
      assert enq' == enq;
    }
    CompleteTimed(Enqueue(s1, x.newReq), x.resp, enq', com, edges', now);
  }

  lemma CommittedLater(enq: seq<Req>, com: nat, edges: seq<nat>, now: nat, enq': seq<Req>, edges': seq<nat>)
    requires CommittedTimed(enq, com, edges, now) && enq <= enq' && edges <= edges' && |edges'| <= |enq'|
    ensures CommittedTimed(enq', com, edges', now + 1)
  {
  }

  lemma CommitTimed(b: RcuState, enq: seq<Req>, com: nat, edges: seq<nat>, now: nat)
    requires LiveTimed(b.queue, enq, com, edges, now) && CommittedTimed(enq, com, edges, now + 1)
    ensures var s := Commit(Issue(Wakeup(b)));
            var com' := if s.newCommVld then com + 1 else com;
            LiveTimed(s.queue, enq, com', edges, now + 1) && CommittedTimed(enq, com', edges, now + 1)
  {
    WakeupTimed(b, enq, com, edges, now);
    if CanCommit(Wakeup(b).queue) {
      HeadTimed(Wakeup(b).queue, enq, com, edges, now + 1);
    }
  }

  lemma StepStreams(h: RcuRun, x: RcuIn)
    ensures var h' := RunStep(h, x);
            && h'.s == Commit(Issue(Wakeup(BeforeWakeup(h.s, x))))
            && h'.enqueued == h.enqueued + NewEnqueued(Handshake(h.s, x.lsuRdy), x.newReq)
            && |h'.committed| == if h'.s.newCommVld then |h.committed| + 1 else |h.committed|
  {
  }

  lemma StepTimed(h: RcuRun, x: RcuIn, edges: seq<nat>, now: nat, enq': seq<Req>)
    requires RobInv(h.s) && TimedInput(x) && TimerInv(h, edges, now) && enq' == RunStep(h, x).enqueued
    ensures TimerInv(RunStep(h, x), edges + TakenNow(h.s, x, now), now + 1)
  {
    var edges' := edges + TakenNow(h.s, x, now);
    StepStreams(h, x);
    InputsTimed(h.s, x, h.enqueued, |h.committed|, edges, now, enq');
    CommittedLater(h.enqueued, |h.committed|, edges, now, enq', edges');
    CommitTimed(BeforeWakeup(h.s, x), enq', |h.committed|, edges', now);
  }

  lemma LastEdge(xs: seq<RcuIn>)
    requires xs != [] && TimedInputs(xs)
    ensures var before, x := xs[..|xs| - 1], xs[|xs| - 1];
            && TimedInputs(before) && TimedInput(x) && Run(xs) == RunStep(Run(before), x)
            && TakenAt(xs) == TakenAt(before) + TakenNow(Run(before).s, x, |before|)
  {
  }

  lemma TimedAreFresh(xs: seq<RcuIn>)
    requires TimedInputs(xs)
    ensures FreshInputs(xs)
  {
  }

  lemma {:induction false} RunTimed(xs: seq<RcuIn>)
    requires TimedInputs(xs)
    ensures TimerInv(Run(xs), TakenAt(xs), |xs|)
  {
    if xs == [] {
      assert TimerInv(START, [], 0);
    } else {
      var before, x := xs[..|xs| - 1], xs[|xs| - 1];
      LastEdge(xs);
      RunTimed(before);
      TimedAreFresh(before);
      RunIsInOrder(before);
      StepTimed(Run(before), x, TakenAt(before), |before|, Run(xs).enqueued);
    }
  }

  /** A serial that has been woken stands for an entry that was taken and has slept out its delay. */
  predicate Slept(h: RcuRun, edges: seq<nat>, now: nat, w: nat) {
    w < |edges| && w < |h.enqueued| && edges[w] + h.enqueued[w].delay < now
  }

  /** Of an entry that was taken and has not committed just what is left of its delay is left. */
  predicate Sleeping(h: RcuRun, edges: seq<nat>, now: nat, w: nat) {
    w < |edges| && w < |h.enqueued| && |h.committed| <= w < |h.committed| + |h.s.queue| &&
    h.s.queue[w - |h.committed|].delay == Left(edges[w] + h.enqueued[w].delay, now)
  }

  lemma WokenSlept(h: RcuRun, edges: seq<nat>, now: nat, w: nat)
    requires TimerInv(h, edges, now) && WokenOnce(h.s.queue, h.woken, |h.committed|) && w in h.woken
    ensures Slept(h, edges, now, w)
  {
    if w >= |h.committed| {
      assert h.s.queue[w - |h.committed|].awake;
    }
  }

  /** In every run an entry is woken only when the LSU has taken it and its delay has run out
      since; until it commits its timer shows what is left of it. */
  lemma NoEarlyWakeup(xs: seq<RcuIn>, w: nat)
    requires TimedInputs(xs)
    ensures w in Run(xs).woken ==> Slept(Run(xs), TakenAt(xs), |xs|, w)
    ensures |Run(xs).committed| <= w < |TakenAt(xs)| ==> Sleeping(Run(xs), TakenAt(xs), |xs|, w)
  {
    RunTimed(xs);
    RunKeepsWakeInv(xs);
    if w in Run(xs).woken {
      WokenSlept(Run(xs), TakenAt(xs), |xs|, w);
    }
    if |Run(xs).committed| <= w < |TakenAt(xs)| {
      TakenSleeps(Run(xs), TakenAt(xs), |xs|, w);
    }
  }

  lemma TakenSleeps(h: RcuRun, edges: seq<nat>, now: nat, w: nat)
    requires TimerInv(h, edges, now) && |h.committed| <= w < |edges|
    ensures Sleeping(h, edges, now, w)
  {
    assert Running(h.s.queue[w - |h.committed|], h.enqueued[w], edges[w], now);
  }
}
