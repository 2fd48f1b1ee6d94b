// Whole runs of the reorder buffer, with the streams that pass through it.
module RobRuns {
  import opened Words
  import opened L1dTypes
  import opened Rcu
  import opened RobDiscipline

  /** A run so far: the present state and everything that was enqueued, taken by the LSU,
      woken (by serial number in enqueue order) and committed. */
  datatype RcuRun = RcuRun(
    s: RcuState,
    enqueued: seq<Req>,
    accepted: seq<Req>,
    woken: seq<nat>,
    committed: seq<Req>)

  const START: RcuRun := RcuRun(INIT_RCU, [], [], [], [])

  /** The serials woken once the wakeup pass has gone over `q`. */
  function WokenBy(q: seq<Req>, woken: seq<nat>, committed: nat): seq<nat> {
    var k := FirstDue(q);
    if k < |q| then woken + [committed + k] else woken
  }

  function RunStep(h: RcuRun, x: RcuIn): RcuRun {
    var shaken := Handshake(h.s, x.lsuRdy);
    var before := BeforeWakeup(h.s, x);
    var s := RcuStep(h.s, x);
    RcuRun(
      s,
      if Accepts(shaken, x.newReq)
      then h.enqueued + [x.newReq.value.(robIndex := NextRob(shaken.queue))] else h.enqueued,
      if x.lsuRdy && h.s.lsuReqVld then h.accepted + [h.s.lsuReq] else h.accepted,
      WokenBy(before.queue, h.woken, |h.committed|),
      if s.newCommVld then h.committed + [s.newComm] else h.committed)
  }

  function Run(xs: seq<RcuIn>): RcuRun {
    if xs == [] then START else RunStep(Run(xs[..|xs| - 1]), xs[|xs| - 1])
  }

  /** The entry made of the request that comes in, if it is accepted. */
  function NewEnqueued(s: RcuState, newReq: Option<Req>): seq<Req> {
    if Accepts(s, newReq) then [newReq.value.(robIndex := NextRob(s.queue))] else []
  }

  lemma EnqueuedGrows(h: RcuRun, x: RcuIn)
    ensures h.enqueued <= RunStep(h, x).enqueued
    ensures RunStep(h, x).enqueued == h.enqueued + NewEnqueued(Handshake(h.s, x.lsuRdy), x.newReq)
  {
  }

  ghost predicate FreshInputs(xs: seq<RcuIn>) {
    forall i | 0 <= i < |xs| :: FreshInput(xs[i])
  }

  // ----- order of the streams -----

  ghost predicate Matches(part: seq<Req>, whole: seq<Req>, from: nat) {
    from + |part| <= |whole| &&
    forall i | 0 <= i < |part| :: SameEntry(part[i], whole[from + i])
  }

  /** Committed entries, then the live ones, are the enqueue stream; the LSU has taken a prefix
      of it that ends at the first unissued entry. */
  ghost predicate InOrder(q: seq<Req>, enqueued: seq<Req>, accepted: seq<Req>, committed: seq<Req>) {
    |enqueued| == |committed| + |q| &&
    Matches(committed, enqueued, 0) &&
    Matches(q, enqueued, |committed|) &&
    |accepted| == |committed| + FirstUnissued(q) &&
    Matches(accepted, enqueued, 0)
  }

  ghost predicate RunInv(h: RcuRun) {
    RobInv(h.s) && Offering(h.s) && InOrder(h.s.queue, h.enqueued, h.accepted, h.committed)
  }

  lemma MatchesSnoc(part: seq<Req>, whole: seq<Req>, from: nat, r: Req, t: Req)
    requires Matches(part, whole, from) && from + |part| == |whole| && SameEntry(r, t)
    ensures Matches(part + [r], whole + [t], from)
  {
  }

  lemma MatchesNext(part: seq<Req>, whole: seq<Req>, r: Req)
    requires Matches(part, whole, 0) && |part| < |whole| && SameEntry(r, whole[|part|])
    ensures Matches(part + [r], whole, 0)
  {
  }

  lemma MatchesSame(q: seq<Req>, q': seq<Req>, whole: seq<Req>, from: nat)
    requires Matches(q, whole, from) && |q| == |q'|
    requires forall i | 0 <= i < |q| :: SameEntry(q'[i], q[i])
    ensures Matches(q', whole, from)
  {
  }

  lemma HandshakeInOrder(s: RcuState, rdy: bool, enq: seq<Req>, acc: seq<Req>, com: seq<Req>)
    requires RobInv(s) && InOrder(s.queue, enq, acc, com)
    ensures InOrder(Handshake(s, rdy).queue, enq, if rdy && s.lsuReqVld then acc + [s.lsuReq] else acc, com)
  {
    HandshakeKeeps(s, rdy);
    MatchesSame(s.queue, Handshake(s, rdy).queue, enq, |com|);
    if rdy && s.lsuReqVld {
      var k := FirstUnissued(s.queue);
      assert SameEntry(s.queue[k], enq[|com| + k]);
      MatchesNext(acc, enq, s.lsuReq);
    }
  }

  lemma EnqueueInOrder(s: RcuState, newReq: Option<Req>, enq: seq<Req>, acc: seq<Req>, com: seq<Req>)
    requires RobInv(s) && InOrder(s.queue, enq, acc, com) && Accepts(s, newReq) && Unprocessed(newReq.value)
    ensures InOrder(Enqueue(s, newReq).queue, enq + [newReq.value.(robIndex := NextRob(s.queue))], acc, com)
  {
    EnqueueKeeps(s, newReq);
    var r := newReq.value.(robIndex := NextRob(s.queue));
    MatchesSnoc(s.queue, enq, |com|, r, r);
  }

  lemma ShapeInOrder(q: seq<Req>, q': seq<Req>, enq: seq<Req>, acc: seq<Req>, com: seq<Req>)
    requires InOrder(q, enq, acc, com) && IssuedPrefix(q) && SameShape(q, q')
    ensures InOrder(q', enq, acc, com)
  {
    UnissuedUnique(q', FirstUnissued(q));
  }

  lemma CommitInOrder(s: RcuState, enq: seq<Req>, acc: seq<Req>, com: seq<Req>)
    requires RobInv(s) && InOrder(s.queue, enq, acc, com) && CanCommit(s.queue)
    ensures InOrder(Commit(s).queue, enq, acc, com + [s.queue[0]])
  {
    CommitKeeps(s);
    var t := s.queue[1..];
    assert forall i | 0 <= i < |t| :: t[i] == s.queue[i + 1];
    assert SameEntry(s.queue[0], enq[|com|]);
  }

  lemma BeforeWakeupInOrder(h: RcuRun, x: RcuIn)
    requires RunInv(h) && FreshInput(x)
    ensures var h' := RunStep(h, x);
            InOrder(BeforeWakeup(h.s, x).queue, h'.enqueued, h'.accepted, h.committed)
  {
    var h' := RunStep(h, x);
    var s1 := Handshake(h.s, x.lsuRdy);
    HandshakeKeeps(h.s, x.lsuRdy);
    HandshakeInOrder(h.s, x.lsuRdy, h.enqueued, h.accepted, h.committed);
    assert InOrder(s1.queue, h.enqueued, h'.accepted, h.committed);
    var s2 := Enqueue(s1, x.newReq);
    EnqueueKeeps(s1, x.newReq);
    if Accepts(s1, x.newReq) {
      EnqueueInOrder(s1, x.newReq, h.enqueued, h'.accepted, h.committed);
    }
    assert InOrder(s2.queue, h'.enqueued, h'.accepted, h.committed);
    CompleteKeeps(s2, x.resp);
    ShapeInOrder(s2.queue, Complete(s2, x.resp).queue, h'.enqueued, h'.accepted, h.committed);
  }

  lemma FromWakeupInOrder(b: RcuState, enq: seq<Req>, acc: seq<Req>, com: seq<Req>)
    requires RobInv(b) && InOrder(b.queue, enq, acc, com)
    ensures var s := Commit(Issue(Wakeup(b)));
            InOrder(s.queue, enq, acc, if s.newCommVld then com + [s.newComm] else com)
  {
    var s4 := Wakeup(b);
    WakeupKeeps(b);
    ShapeInOrder(b.queue, s4.queue, enq, acc, com);
    IssueOffers(s4);
    if CanCommit(s4.queue) {
      CommitInOrder(Issue(s4), enq, acc, com);
    }
  }

  lemma StepInOrder(h: RcuRun, x: RcuIn)
    requires RunInv(h) && FreshInput(x)
    ensures RunInv(RunStep(h, x))
  {
    var h' := RunStep(h, x);
    BeforeWakeupKeeps(h.s, x);
    BeforeWakeupInOrder(h, x);
    FromWakeupInOrder(BeforeWakeup(h.s, x), h'.enqueued, h'.accepted, h.committed);
    StepKeepsRobInv(h.s, x);
  }

  /** In every run, for any LSU: live indices are consecutive and distinct, issued entries are a
      prefix, the request on offer is the oldest unissued one, the stream the LSU has taken is
      the enqueue stream up to that point, each request once, and commits follow it in order. */
  lemma {:induction false} RunIsInOrder(xs: seq<RcuIn>)
    requires FreshInputs(xs)
    ensures RunInv(Run(xs))
  {
    if xs != [] {
      RunIsInOrder(xs[..|xs| - 1]);
      StepInOrder(Run(xs[..|xs| - 1]), xs[|xs| - 1]);
    }
  }

  /** The index a new entry gets: the one after that of the last live entry, 0 if there is none. */
  function IndexAfter(enqueued: seq<Req>, committed: nat): u8 {
    if |enqueued| <= committed then 0 else (enqueued[|enqueued| - 1].robIndex + 1) % 16
  }

  lemma LastEntry(q: seq<Req>, enq: seq<Req>, committed: nat)
    requires Matches(q, enq, committed) && committed + |q| == |enq|
    ensures NextRob(q) == IndexAfter(enq, committed)
  {
    if q != [] {
      assert SameEntry(q[|q| - 1], enq[committed + (|q| - 1)]);
    }
  }

  lemma HandshakeMatches(s: RcuState, rdy: bool, enq: seq<Req>, committed: nat)
    requires RobInv(s) && Matches(s.queue, enq, committed)
    ensures |Handshake(s, rdy).queue| == |s.queue| && Matches(Handshake(s, rdy).queue, enq, committed)
  {
    HandshakeKeeps(s, rdy);
    MatchesSame(s.queue, Handshake(s, rdy).queue, enq, committed);
  }

  lemma AcceptedNow(h: RcuRun, x: RcuIn)
    requires RunInv(h)
    ensures |h.committed| <= |h.enqueued|
    ensures RunStep(h, x).enqueued ==
            if x.newReq.None? || |h.enqueued| - |h.committed| >= 16 then h.enqueued
            else h.enqueued + [x.newReq.value.(robIndex := IndexAfter(h.enqueued, |h.committed|))]
  {
    EnqueuedGrows(h, x);
    HandshakeMatches(h.s, x.lsuRdy, h.enqueued, |h.committed|);
    LastEntry(Handshake(h.s, x.lsuRdy).queue, h.enqueued, |h.committed|);
  }

  /** In every run a request is accepted exactly if fewer than sixteen entries have been enqueued
      and not committed, and gets the index after that of the last of them. */
  lemma AcceptedIff(xs: seq<RcuIn>, x: RcuIn)
    requires FreshInputs(xs)
    ensures var h, t := Run(xs), RunStep(Run(xs), x);
            && |h.committed| <= |h.enqueued|
            && t.enqueued ==
               if x.newReq.None? || |h.enqueued| - |h.committed| >= 16 then h.enqueued
               else h.enqueued + [x.newReq.value.(robIndex := IndexAfter(h.enqueued, |h.committed|))]
  {
    RunIsInOrder(xs);
    AcceptedNow(Run(xs), x);
  }

  // ----- wakeups -----

  function CountAwake(q: seq<Req>): nat {
    if q == [] then 0 else (if q[0].awake then 1 else 0) + CountAwake(q[1..])
  }

  lemma {:induction false} CountSame(q: seq<Req>, q': seq<Req>)
    requires |q| == |q'| && forall i | 0 <= i < |q| :: q'[i].awake == q[i].awake
    ensures CountAwake(q') == CountAwake(q)
  {
    if q != [] {
      CountSame(q[1..], q'[1..]);
    }
  }

  lemma {:induction false} CountOneMore(q: seq<Req>, q': seq<Req>, k: nat)
    requires |q| == |q'| && k < |q| && !q[k].awake && q'[k].awake
    requires forall i | 0 <= i < |q| && i != k :: q'[i].awake == q[i].awake
    ensures CountAwake(q') == CountAwake(q) + 1
  {
    if k == 0 {
      CountSame(q[1..], q'[1..]);
    } else {
      CountOneMore(q[1..], q'[1..], k - 1);
    }
  }

  lemma {:induction false} CountAppend(q: seq<Req>, r: Req)
    requires !r.awake
    ensures CountAwake(q + [r]) == CountAwake(q)
  {
    if q != [] {
      assert (q + [r])[1..] == q[1..] + [r];
      CountAppend(q[1..], r);
    }
  }

  ghost predicate NoDuplicates<T>(xs: seq<T>) {
    forall i, j | 0 <= i < j < |xs| :: xs[i] != xs[j]
  }

  /** The woken serials, each once, are the committed ones and the live awake ones. */
  ghost predicate WokenOnce(q: seq<Req>, woken: seq<nat>, committed: nat) {
    NoDuplicates(woken) &&
    (forall w: nat | w < committed :: w in woken) &&
    (forall i | 0 <= i < |q| :: q[i].awake <==> committed + i in woken) &&
    (forall w | w in woken :: w < committed + |q|) &&
    |woken| == committed + CountAwake(q)
  }

  /** Before it is issued an entry neither sleeps out its delay nor wakes. */
  ghost predicate AsleepUntilIssued(q: seq<Req>) {
    forall i | 0 <= i < |q| && !q[i].issued :: !q[i].awake && q[i].delay >= 1
  }

  ghost predicate WakeInv(h: RcuRun) {
    AsleepUntilIssued(h.s.queue) && WokenOnce(h.s.queue, h.woken, |h.committed|)
  }

  predicate TimedInput(x: RcuIn) {
    x.newReq.Some? ==> Unprocessed(x.newReq.value) && x.newReq.value.delay >= 1
  }

  /** Nothing the wakeup bookkeeping depends on has changed. */
  ghost predicate SameTiming(q: seq<Req>, q': seq<Req>) {
    |q| == |q'| &&
    forall i | 0 <= i < |q| ::
      q'[i].awake == q[i].awake && q'[i].delay == q[i].delay && (q[i].issued ==> q'[i].issued)
  }

  lemma TimingKeeps(q: seq<Req>, q': seq<Req>, woken: seq<nat>, committed: nat)
    requires AsleepUntilIssued(q) && WokenOnce(q, woken, committed) && SameTiming(q, q')
    ensures AsleepUntilIssued(q') && WokenOnce(q', woken, committed)
  {
    CountSame(q, q');
  }

  lemma EnqueueAsleep(q: seq<Req>, r: Req, woken: seq<nat>, committed: nat)
    requires AsleepUntilIssued(q) && WokenOnce(q, woken, committed) && !r.awake && r.delay >= 1
    ensures AsleepUntilIssued(q + [r]) && WokenOnce(q + [r], woken, committed)
  {
    CountAppend(q, r);
  }

  lemma HandshakeTiming(s: RcuState, rdy: bool)
    ensures SameTiming(s.queue, Handshake(s, rdy).queue)
  {
  }

  lemma CompleteTiming(s: RcuState, resp: Option<LsuResp>)
    ensures SameTiming(s.queue, Complete(s, resp).queue)
  {
  }

  lemma EnqueueTiming(s: RcuState, newReq: Option<Req>, woken: seq<nat>, committed: nat)
    requires AsleepUntilIssued(s.queue) && WokenOnce(s.queue, woken, committed)
    requires newReq.Some? ==> Unprocessed(newReq.value) && newReq.value.delay >= 1
    ensures AsleepUntilIssued(Enqueue(s, newReq).queue)
    ensures WokenOnce(Enqueue(s, newReq).queue, woken, committed)
  {
    if Accepts(s, newReq) {
      EnqueueAsleep(s.queue, newReq.value.(robIndex := NextRob(s.queue)), woken, committed);
    }
  }

  lemma BeforeWakeupAsleep(s: RcuState, x: RcuIn, woken: seq<nat>, committed: nat)
    requires AsleepUntilIssued(s.queue) && WokenOnce(s.queue, woken, committed) && TimedInput(x)
    ensures AsleepUntilIssued(BeforeWakeup(s, x).queue)
    ensures WokenOnce(BeforeWakeup(s, x).queue, woken, committed)
  {
    var s1 := Handshake(s, x.lsuRdy);
    HandshakeTiming(s, x.lsuRdy);
    TimingKeeps(s.queue, s1.queue, woken, committed);
    var s2 := Enqueue(s1, x.newReq);
    EnqueueTiming(s1, x.newReq, woken, committed);
    CompleteTiming(s2, x.resp);
    TimingKeeps(s2.queue, Complete(s2, x.resp).queue, woken, committed);
  }

  /** A wakeup only reaches an entry that has been issued and was not awake. */
  lemma WakeupOnlyIssued(s: RcuState)
    requires AsleepUntilIssued(s.queue)
    ensures AsleepUntilIssued(Wakeup(s).queue)
    ensures Wakeup(s).wakeUpVld <==> exists i :: 0 <= i < |s.queue| && Due(s.queue[i])
    ensures Wakeup(s).wakeUpVld ==>
              var k := FirstDue(s.queue);
              s.queue[k].issued && !s.queue[k].awake && Wakeup(s).queue[k].awake
              && Wakeup(s).wakeUpRobIndex == s.queue[k].robIndex
  {
  }

  lemma WakeupWakesOne(s: RcuState, woken: seq<nat>, committed: nat)
    requires AsleepUntilIssued(s.queue) && WokenOnce(s.queue, woken, committed)
    ensures WokenOnce(Wakeup(s).queue, WokenBy(s.queue, woken, committed), committed)
  {
    var k := FirstDue(s.queue);
    var q' := Wakeup(s).queue;
    assert forall i | 0 <= i < |q'| :: q'[i].awake == (s.queue[i].awake || i == k);
    if k < |s.queue| {
      CountOneMore(s.queue, q', k);
      assert committed + k !in woken;
    } else {
      CountSame(s.queue, q');
    }
  }

  lemma CommitWoken(q: seq<Req>, woken: seq<nat>, committed: nat)
    requires WokenOnce(q, woken, committed) && |q| > 0 && q[0].awake
    ensures WokenOnce(q[1..], woken, committed + 1)
  {
    var t := q[1..];
    forall i | 0 <= i < |t|
      ensures t[i].awake <==> committed + 1 + i in woken
    {
      assert t[i] == q[i + 1];
    }
    forall w: nat | w < committed + 1
      ensures w in woken
    {
      if w == committed {
        assert q[0].awake;
      }
    }
  }

  lemma CommitStageWoken(s: RcuState, woken: seq<nat>, committed: nat)
    requires AsleepUntilIssued(s.queue) && WokenOnce(s.queue, woken, committed)
    ensures AsleepUntilIssued(Commit(s).queue)
    ensures WokenOnce(Commit(s).queue, woken, if Commit(s).newCommVld then committed + 1 else committed)
  {
    if CanCommit(s.queue) {
      CommitWoken(s.queue, woken, committed);
    }
  }

  lemma FromWakeupWoken(b: RcuState, woken: seq<nat>, committed: nat)
    requires AsleepUntilIssued(b.queue) && WokenOnce(b.queue, woken, committed)
    ensures var s := Commit(Issue(Wakeup(b)));
            AsleepUntilIssued(s.queue) &&
            WokenOnce(s.queue, WokenBy(b.queue, woken, committed), if s.newCommVld then committed + 1 else committed)
  {
    WakeupOnlyIssued(b);
    WakeupWakesOne(b, woken, committed);
    CommitStageWoken(Issue(Wakeup(b)), WokenBy(b.queue, woken, committed), committed);
  }

  lemma RunStepParts(h: RcuRun, x: RcuIn)
    ensures var h' := RunStep(h, x);
            h'.s == Commit(Issue(Wakeup(BeforeWakeup(h.s, x)))) &&
            h'.woken == WokenBy(BeforeWakeup(h.s, x).queue, h.woken, |h.committed|) &&
            |h'.committed| == if h'.s.newCommVld then |h.committed| + 1 else |h.committed|
  {
  }

  lemma WokenStep(h: RcuRun, h': RcuRun, b: RcuState)
    requires AsleepUntilIssued(b.queue) && WokenOnce(b.queue, h.woken, |h.committed|)
    requires h'.s == Commit(Issue(Wakeup(b))) && h'.woken == WokenBy(b.queue, h.woken, |h.committed|)
    requires |h'.committed| == if h'.s.newCommVld then |h.committed| + 1 else |h.committed|
    ensures WakeInv(h') && |h'.woken| <= |h.woken| + 1
  {
    FromWakeupWoken(b, h.woken, |h.committed|);
  }

  lemma StepKeepsWakeInv(h: RcuRun, x: RcuIn)
    requires WakeInv(h) && TimedInput(x)
    ensures WakeInv(RunStep(h, x))
    ensures |RunStep(h, x).woken| <= |h.woken| + 1
  {
    BeforeWakeupAsleep(h.s, x, h.woken, |h.committed|);
    RunStepParts(h, x);
    WokenStep(h, RunStep(h, x), BeforeWakeup(h.s, x));
  }

  ghost predicate TimedInputs(xs: seq<RcuIn>) {
    forall i | 0 <= i < |xs| :: TimedInput(xs[i])
  }

  lemma {:induction false} RunKeepsWakeInv(xs: seq<RcuIn>)
    requires TimedInputs(xs)
    ensures WakeInv(Run(xs)) && |Run(xs).woken| <= |xs|
  {
    if xs != [] {
      var before := xs[..|xs| - 1];
      RunKeepsWakeInv(before);
      StepKeepsWakeInv(Run(before), xs[|xs| - 1]);
    }
  }

  /** In every run at most one wakeup fires per edge, each entry is woken at most once, and the
      number of wakeups is the number of commits plus the number of live entries awake. */
  lemma WakeupAccounting(xs: seq<RcuIn>)
    requires TimedInputs(xs)
    ensures var h := Run(xs);
            |h.woken| == |h.committed| + CountAwake(h.s.queue) && |h.woken| <= |xs| && NoDuplicates(h.woken)
  {
    RunKeepsWakeInv(xs);
  }
}
