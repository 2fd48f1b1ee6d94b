// The reorder buffer does not get stuck: how soon a completed head commits, and how soon the
// whole buffer drains when the LSU takes and answers what it is offered.
module Progress {
  import opened Words
  import opened L1dTypes
  import opened Rcu
  import opened RobDiscipline

  /** The states a run passes through. */
  ghost predicate IsTrace(tr: seq<RcuState>, xs: seq<RcuIn>) {
    |tr| == |xs| + 1 && forall t | 0 <= t < |xs| :: tr[t + 1] == RcuStep(tr[t], xs[t])
  }

  // ----- the head -----

  predicate HeadReady(q: seq<Req>) {
    |q| > 0 && q[0].issued && q[0].done
  }

  predicate SameHead(r: Req, h: Req) {
    SameEntry(r, h) && r.awake == h.awake && r.delay == h.delay
  }

  lemma HeadInHandshake(s: RcuState, rdy: bool)
    requires HeadReady(s.queue)
    ensures HeadReady(Handshake(s, rdy).queue) && SameHead(Handshake(s, rdy).queue[0], s.queue[0])
  {
  }

  lemma HeadInComplete(s: RcuState, resp: Option<LsuResp>)
    requires HeadReady(s.queue)
    ensures HeadReady(Complete(s, resp).queue) && SameHead(Complete(s, resp).queue[0], s.queue[0])
  {
  }

  lemma HeadBeforeWakeup(s: RcuState, x: RcuIn)
    requires HeadReady(s.queue)
    ensures var q := BeforeWakeup(s, x).queue; HeadReady(q) && SameHead(q[0], s.queue[0])
  {
    HeadInHandshake(s, x.lsuRdy);
    HeadInComplete(Enqueue(Handshake(s, x.lsuRdy), x.newReq), x.resp);
  }

  lemma HeadInWakeup(b: RcuState)
    requires HeadReady(b.queue)
    ensures var q, h := Wakeup(b).queue, b.queue[0];
            HeadReady(q) && SameEntry(q[0], h) &&
            (h.delay == 0 ==> q[0].awake) && (h.awake ==> q[0].awake) &&
            (!h.awake && h.delay > 0 ==> !q[0].awake && q[0].delay == h.delay - 1)
  {
    assert Due(b.queue[0]) ==> FirstDue(b.queue) == 0;
  }

  lemma HeadInCommit(w: RcuState)
    requires HeadReady(w.queue)
    ensures var t := Commit(Issue(w));
            if w.queue[0].awake then t.newCommVld && t.newComm == w.queue[0]
            else !t.newCommVld && t.queue == w.queue
  {
  }

  /** The head wins the wakeup slot as soon as its delay is over, and commits at that edge. */
  lemma HeadStep(s: RcuState, x: RcuIn)
    requires HeadReady(s.queue)
    ensures var t, h := RcuStep(s, x), s.queue[0];
            if h.awake || h.delay == 0 then t.newCommVld && SameEntry(t.newComm, h)
            else !t.newCommVld && HeadReady(t.queue) && SameEntry(t.queue[0], h) &&
                 !t.queue[0].awake && t.queue[0].delay == h.delay - 1
  {
    HeadBeforeWakeup(s, x);
    HeadInWakeup(BeforeWakeup(s, x));
    HeadInCommit(Wakeup(BeforeWakeup(s, x)));
  }

  /** A head that has been issued and answered, with delay d left, does not commit at any of the
      next d edges and commits at the one after, whatever else arrives. */
  lemma {:induction false} HeadCommits(tr: seq<RcuState>, xs: seq<RcuIn>, n: nat)
    requires IsTrace(tr, xs) && HeadReady(tr[0].queue) && !tr[0].queue[0].awake
    requires n <= tr[0].queue[0].delay < |xs|
    ensures HeadReady(tr[n].queue) && SameEntry(tr[n].queue[0], tr[0].queue[0])
    ensures !tr[n].queue[0].awake && tr[n].queue[0].delay == tr[0].queue[0].delay - n
    ensures n > 0 ==> !tr[n].newCommVld
    ensures n == tr[0].queue[0].delay ==> tr[n + 1].newCommVld && SameEntry(tr[n + 1].newComm, tr[0].queue[0])
  {
    if n > 0 {
      HeadCommits(tr, xs, n - 1);
      HeadStep(tr[n - 1], xs[n - 1]);
    }
    HeadStep(tr[n], xs[n]);
  }

  // ----- one draining edge -----

  predicate DrainingInput(x: RcuIn) {
    x.lsuRdy && x.newReq.None?
  }

  predicate DelaysAtMost(q: seq<Req>, d: nat) {
    forall i | 0 <= i < |q| :: q[i].delay <= d
  }

  predicate AllIssued(q: seq<Req>) {
    forall i | 0 <= i < |q| :: q[i].issued
  }

  predicate AllDone(q: seq<Req>) {
    forall i | 0 <= i < |q| :: q[i].done
  }

  predicate Settled(q: seq<Req>) {
    AllIssued(q) && AllDone(q) && DelaysAtMost(q, 0)
  }

  function Unissued(q: seq<Req>): nat {
    |q| - FirstUnissued(q)
  }

  predicate EntryAdvances(r: Req, r': Req) {
    r'.robIndex == r.robIndex && (r.issued ==> r'.issued) && (r.done ==> r'.done) &&
    r'.delay <= r.delay && (r.issued && r.delay > 0 ==> r'.delay < r.delay)
  }

  /** `q'` is `q` with at most its head gone, flags set and delays counted down. */
  ghost predicate Advances(q: seq<Req>, q': seq<Req>) {
    |q'| <= |q| <= |q'| + 1 &&
    forall i | 0 <= i < |q'| :: EntryAdvances(q[|q| - |q'| + i], q'[i])
  }

  predicate InputAdvances(r: Req, r': Req) {
    r'.robIndex == r.robIndex && (r.issued ==> r'.issued) && (r.done ==> r'.done) && r'.delay == r.delay
  }

  ghost predicate InputsAdvance(q: seq<Req>, q': seq<Req>) {
    |q'| == |q| && forall i | 0 <= i < |q| :: InputAdvances(q[i], q'[i])
  }

  lemma HandshakeAdvances(s: RcuState, rdy: bool)
    ensures InputsAdvance(s.queue, Handshake(s, rdy).queue)
  {
  }

  lemma CompleteAdvances(s: RcuState, resp: Option<LsuResp>)
    ensures InputsAdvance(s.queue, Complete(s, resp).queue)
  {
  }

  lemma InputsCompose(q: seq<Req>, p: seq<Req>, r: seq<Req>)
    requires InputsAdvance(q, p) && InputsAdvance(p, r)
    ensures InputsAdvance(q, r)
  {
  }

  lemma BeforeWakeupAdvances(s: RcuState, x: RcuIn)
    requires x.newReq.None?
    ensures InputsAdvance(s.queue, BeforeWakeup(s, x).queue)
  {
    var s1 := Handshake(s, x.lsuRdy);
    HandshakeAdvances(s, x.lsuRdy);
    assert Enqueue(s1, x.newReq) == s1;
    CompleteAdvances(s1, x.resp);
    InputsCompose(s.queue, s1.queue, Complete(s1, x.resp).queue);
  }

  lemma WakeupAdvances(q: seq<Req>, b: RcuState)
    requires InputsAdvance(q, b.queue)
    ensures |Wakeup(b).queue| == |q| && forall i | 0 <= i < |q| :: EntryAdvances(q[i], Wakeup(b).queue[i])
  {
    forall i | 0 <= i < |q|
      ensures EntryAdvances(q[i], Wakeup(b).queue[i])
    {
      assert InputAdvances(q[i], b.queue[i]);
    }
  }

  lemma CommitAdvances(q: seq<Req>, s: RcuState)
    requires |s.queue| == |q| && forall i | 0 <= i < |q| :: EntryAdvances(q[i], s.queue[i])
    ensures Advances(q, Commit(s).queue)
    ensures |Commit(s).queue| == |q| - if Commit(s).newCommVld then 1 else 0
  {
  }

  lemma QueueAdvances(s: RcuState, x: RcuIn)
    requires x.newReq.None?
    ensures Advances(s.queue, RcuStep(s, x).queue)
    ensures |RcuStep(s, x).queue| == |s.queue| - if RcuStep(s, x).newCommVld then 1 else 0
  {
    var b := BeforeWakeup(s, x);
    BeforeWakeupAdvances(s, x);
    WakeupAdvances(s.queue, b);
    CommitAdvances(s.queue, Issue(Wakeup(b)));
  }

  /** While something is unissued, each edge issues one entry. */
  lemma OneIssued(s: RcuState, x: RcuIn)
    requires RobInv(s) && Offering(s) && DrainingInput(x)
    ensures var t := RcuStep(s, x);
            RobInv(t) && Offering(t) && Unissued(t.queue) == if Unissued(s.queue) > 0 then Unissued(s.queue) - 1 else 0
  {
    StepKeepsRobInv(s, x);
    var s1 := Handshake(s, x.lsuRdy);
    HandshakeKeeps(s, x.lsuRdy);
    assert Enqueue(s1, x.newReq) == s1;
    CompleteKeeps(s1, x.resp);
    var s3 := Complete(s1, x.resp);
    ShapeKeeps(s1.queue, s3.queue);
    WakeupKeeps(s3);
    ShapeKeeps(s3.queue, Wakeup(s3).queue);
    IssueOffers(Wakeup(s3));
    CommitKeeps(Issue(Wakeup(s3)));
  }

  /** Once everything is settled each edge commits the head. */
  lemma SettledCommits(s: RcuState, x: RcuIn)
    requires Settled(s.queue) && x.newReq.None? && |s.queue| > 0
    ensures |RcuStep(s, x).queue| == |s.queue| - 1
  {
    QueueAdvances(s, x);
    HeadStep(s, x);
  }

  // ----- many draining edges, on the queues alone -----

  /** What every edge of a draining run does to the queue. */
  ghost predicate DrainStep(q: seq<Req>, q': seq<Req>) {
    Advances(q, q') &&
    Unissued(q') == (if Unissued(q) > 0 then Unissued(q) - 1 else 0) &&
    (Settled(q) && |q| > 0 ==> |q'| == |q| - 1)
  }

  ghost predicate DrainTrace(qs: seq<seq<Req>>) {
    forall t | 0 <= t < |qs| - 1 :: DrainStep(qs[t], qs[t + 1])
  }

  lemma AllIssuedIff(q: seq<Req>)
    ensures AllIssued(q) <==> Unissued(q) == 0
  {
  }

  lemma AdvanceKeeps(q: seq<Req>, q': seq<Req>, d: nat)
    requires Advances(q, q')
    ensures AllIssued(q) ==> AllIssued(q')
    ensures AllDone(q) ==> AllDone(q')
    ensures DelaysAtMost(q, d) ==> DelaysAtMost(q', d)
    ensures AllIssued(q) && DelaysAtMost(q, d) && d > 0 ==> DelaysAtMost(q', d - 1)
  {
    assert forall i | 0 <= i < |q'| :: EntryAdvances(q[|q| - |q'| + i], q'[i]);
  }

  // Phase one: everything gets issued.
  lemma {:induction false} IssuePhase(qs: seq<seq<Req>>, n: nat, d: nat)
    requires DrainTrace(qs) && n < |qs| && DelaysAtMost(qs[0], d)
    ensures |qs[n]| <= |qs[0]| && DelaysAtMost(qs[n], d)
    ensures Unissued(qs[n]) <= if n < |qs[0]| then |qs[0]| - n else 0
  {
    if n > 0 {
      IssuePhase(qs, n - 1, d);
      assert DrainStep(qs[n - 1], qs[n]);
      AdvanceKeeps(qs[n - 1], qs[n], d);
    }
  }

  // Phase two: the delays of issued entries run out.
  lemma {:induction false} DelayPhase(qs: seq<seq<Req>>, n: nat, d: nat)
    requires DrainTrace(qs) && n < |qs| && AllIssued(qs[0]) && DelaysAtMost(qs[0], d)
    ensures AllIssued(qs[n]) && |qs[n]| <= |qs[0]| && DelaysAtMost(qs[n], if n < d then d - n else 0)
  {
    if n > 0 {
      DelayPhase(qs, n - 1, d);
      assert DrainStep(qs[n - 1], qs[n]);
      AdvanceKeeps(qs[n - 1], qs[n], if n - 1 < d then d - (n - 1) else 0);
    }
  }

  lemma {:induction false} StaysDone(qs: seq<seq<Req>>, n: nat)
    requires DrainTrace(qs) && n < |qs| && AllDone(qs[0])
    ensures AllDone(qs[n])
  {
    if n > 0 {
      StaysDone(qs, n - 1);
      assert DrainStep(qs[n - 1], qs[n]);
      AdvanceKeeps(qs[n - 1], qs[n], 0);
    }
  }

  // Phase three: one commit at each edge.
  lemma {:induction false} CommitPhase(qs: seq<seq<Req>>, n: nat)
    requires DrainTrace(qs) && n < |qs| && Settled(qs[0])
    ensures Settled(qs[n]) && |qs[n]| == if n < |qs[0]| then |qs[0]| - n else 0
  {
    if n > 0 {
      CommitPhase(qs, n - 1);
      assert DrainStep(qs[n - 1], qs[n]);
      AdvanceKeeps(qs[n - 1], qs[n], 0);
    }
  }

  /** What is issued is done, or gone, by the later time. */
  predicate LaterDone(q: seq<Req>, later: seq<Req>) {
    forall i, j | 0 <= i < |q| && 0 <= j < |later| && q[i].issued && later[j].robIndex == q[i].robIndex ::
      later[j].done
  }

  /** Entry `j` of a later queue was already there, that much further back. */
  lemma {:induction false} EntriesRemain(qs: seq<seq<Req>>, n: nat, j: nat)
    requires DrainTrace(qs) && n < |qs| && j < |qs[n]|
    ensures |qs[n]| <= |qs[0]| && qs[0][|qs[0]| - |qs[n]| + j].robIndex == qs[n][j].robIndex
  {
    if n > 0 {
      assert DrainStep(qs[n - 1], qs[n]);
      var k := |qs[n - 1]| - |qs[n]| + j;
      assert EntryAdvances(qs[n - 1][k], qs[n][j]);
      EntriesRemain(qs, n - 1, k);
    }
  }

  lemma AnsweredMeansDone(qs: seq<seq<Req>>, n: nat)
    requires DrainTrace(qs) && n < |qs| && AllIssued(qs[0]) && LaterDone(qs[0], qs[n])
    ensures AllDone(qs[n])
  {
    forall j | 0 <= j < |qs[n]|
      ensures qs[n][j].done
    {
      EntriesRemain(qs, n, j);
    }
  }

  lemma DropTrace(qs: seq<seq<Req>>, k: nat)
    requires DrainTrace(qs) && k < |qs|
    ensures DrainTrace(qs[k..])
  {
    forall t | 0 <= t < |qs[k..]| - 1
      ensures DrainStep(qs[k..][t], qs[k..][t + 1])
    {
      assert DrainStep(qs[k + t], qs[k + t + 1]);
    }
  }

  /** Everything is issued by edge |queue|, settled max(n, d) edges later, and gone after |queue|
      more. */
  lemma QueuesDrain(qs: seq<seq<Req>>, n: nat, d: nat)
    requires |qs| > 0 && DrainTrace(qs) && DelaysAtMost(qs[0], d)
    requires |qs| == 2 * |qs[0]| + (if n < d then d else n) + 1
    requires LaterDone(qs[|qs[0]|], qs[|qs[0]| + n])
    ensures qs[|qs| - 1] == []
  {
    var k, m := |qs[0]|, if n < d then d else n;
    IssuePhase(qs, k, d);
    AllIssuedIff(qs[k]);
    var rs := qs[k..];
    DropTrace(qs, k);
    DelayPhase(rs, m, d);
    AnsweredMeansDone(rs, n);
    DropTrace(rs, n);
    StaysDone(rs[n..], m - n);
    DropTrace(rs, m);
    CommitPhase(rs[m..], k);
  }

  lemma StepDrains(s: RcuState, x: RcuIn)
    requires RobInv(s) && Offering(s) && DrainingInput(x)
    ensures DrainStep(s.queue, RcuStep(s, x).queue) && RobInv(RcuStep(s, x)) && Offering(RcuStep(s, x))
  {
    QueueAdvances(s, x);
    OneIssued(s, x);
    if Settled(s.queue) && |s.queue| > 0 {
      SettledCommits(s, x);
    }
  }

  lemma {:induction false} TraceKeepsRobInv(tr: seq<RcuState>, xs: seq<RcuIn>, n: nat)
    requires IsTrace(tr, xs) && n <= |xs| && RobInv(tr[0]) && Offering(tr[0])
    requires forall i | 0 <= i < |xs| :: DrainingInput(xs[i])
    ensures RobInv(tr[n]) && Offering(tr[n])
  {
    if n > 0 {
      TraceKeepsRobInv(tr, xs, n - 1);
      StepDrains(tr[n - 1], xs[n - 1]);
    }
  }

  /** What is issued at some edge is done, or gone, `n` edges later. */
  ghost predicate AnsweredWithin(tr: seq<RcuState>, n: nat) {
    forall t, u | 0 <= t < |tr| && u == t + n && u < |tr| :: LaterDone(tr[t].queue, tr[u].queue)
  }

  /** With an LSU that is always ready and answers within `n` edges, and no new requests, any
      contents of the reorder buffer are committed after 2*|queue| + max(n, d) edges, where `d`
      bounds the wakeup delays. */
  lemma BufferDrains(tr: seq<RcuState>, xs: seq<RcuIn>, n: nat, d: nat)
    requires IsTrace(tr, xs) && RobInv(tr[0]) && Offering(tr[0]) && DelaysAtMost(tr[0].queue, d)
    requires forall i | 0 <= i < |xs| :: DrainingInput(xs[i])
    requires AnsweredWithin(tr, n)
    requires |xs| == 2 * |tr[0].queue| + if n < d then d else n
    ensures tr[|xs|].queue == []
  {
    var qs := seq(|tr|, t requires 0 <= t < |tr| => tr[t].queue);
    forall t | 0 <= t < |qs| - 1
      ensures DrainStep(qs[t], qs[t + 1])
    {
      TraceKeepsRobInv(tr, xs, t);
      StepDrains(tr[t], xs[t]);
    }
    var k := |qs[0]|;
    assert LaterDone(tr[k].queue, tr[k + n].queue);
    QueuesDrain(qs, n, d);
  }
}
