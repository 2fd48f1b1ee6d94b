// What the reorder buffer keeps in every run, whatever the LSU does.
module RobDiscipline {
  import opened Words
  import opened L1dTypes
  import opened Rcu

  // ----- the invariant of one state -----

  ghost predicate Consecutive(q: seq<Req>) {
    |q| <= RCU_MAX_SIZE &&
    forall i | 0 <= i < |q| :: q[i].robIndex == (q[0].robIndex + i) % RCU_MAX_SIZE
  }

  ghost predicate IssuedUpTo(q: seq<Req>, k: nat) {
    k <= |q| && forall i | 0 <= i < |q| :: q[i].issued <==> i < k
  }

  ghost predicate IssuedPrefix(q: seq<Req>) {
    IssuedUpTo(q, FirstUnissued(q))
  }

  /** The pending LSU request is the oldest unissued entry. */
  ghost predicate PendingIsOldest(s: RcuState) {
    s.lsuReqVld ==>
      FirstUnissued(s.queue) < |s.queue| && SameEntry(s.lsuReq, s.queue[FirstUnissued(s.queue)])
  }

  ghost predicate RobInv(s: RcuState) {
    Consecutive(s.queue) && IssuedPrefix(s.queue) && PendingIsOldest(s)
  }

  /** At the end of an edge a request is offered to the LSU exactly when one is left to issue. */
  ghost predicate Offering(s: RcuState) {
    s.lsuReqVld <==> FirstUnissued(s.queue) < |s.queue|
  }

  predicate FreshInput(x: RcuIn) {
    x.newReq.Some? ==> Unprocessed(x.newReq.value)
  }

  lemma ModDistinct(base: nat, i: nat, j: nat)
    requires i < j < i + RCU_MAX_SIZE
    ensures (base + i) % RCU_MAX_SIZE != (base + j) % RCU_MAX_SIZE
  {
  }

  /** Live rob indices never repeat. */
  lemma LiveIndicesDistinct(q: seq<Req>, i: nat, j: nat)
    requires Consecutive(q) && i < |q| && j < |q| && q[i].robIndex == q[j].robIndex
    ensures i == j
  {
    if i < j {
      ModDistinct(q[0].robIndex, i, j);
    } else if j < i {
      ModDistinct(q[0].robIndex, j, i);
    }
  }

  lemma RobFound(q: seq<Req>, k: nat)
    requires Consecutive(q) && k < |q|
    ensures FirstRob(q, q[k].robIndex) == k
  {
    LiveIndicesDistinct(q, FirstRob(q, q[k].robIndex), k);
  }

  lemma UnissuedUnique(q: seq<Req>, k: nat)
    requires k <= |q| && (forall i | 0 <= i < k :: q[i].issued) && (k < |q| ==> !q[k].issued)
    ensures FirstUnissued(q) == k
  {
  }

  // ----- each stage keeps it -----

  lemma HandshakeKeeps(s: RcuState, rdy: bool)
    requires RobInv(s)
    ensures RobInv(Handshake(s, rdy))
    ensures FirstUnissued(Handshake(s, rdy).queue)
            == FirstUnissued(s.queue) + (if rdy && s.lsuReqVld then 1 else 0)
    ensures |Handshake(s, rdy).queue| == |s.queue|
    ensures forall i | 0 <= i < |s.queue| :: SameEntry(Handshake(s, rdy).queue[i], s.queue[i])
  {
    if rdy && s.lsuReqVld {
      var k := FirstUnissued(s.queue);
      RobFound(s.queue, k);
      UnissuedUnique(Handshake(s, rdy).queue, k + 1);
    }
  }

  lemma OneMoreIndex(q: seq<Req>, r: Req)
    requires Consecutive(q) && |q| < RCU_MAX_SIZE && r.robIndex == NextRob(q)
    ensures Consecutive(q + [r])
  {
  }

  lemma OneMoreEntry(q: seq<Req>, r: Req)
    requires Consecutive(q) && IssuedPrefix(q) && |q| < RCU_MAX_SIZE && r.robIndex == NextRob(q) && !r.issued
    ensures Consecutive(q + [r]) && IssuedPrefix(q + [r]) && FirstUnissued(q + [r]) == FirstUnissued(q)
  {
    OneMoreIndex(q, r);
    UnissuedUnique(q + [r], FirstUnissued(q));
  }

  lemma EnqueueKeeps(s: RcuState, newReq: Option<Req>)
    requires RobInv(s)
    requires newReq.Some? ==> Unprocessed(newReq.value)
    ensures RobInv(Enqueue(s, newReq))
    ensures FirstUnissued(Enqueue(s, newReq).queue) == FirstUnissued(s.queue)
  {
    if Accepts(s, newReq) {
      OneMoreEntry(s.queue, newReq.value.(robIndex := NextRob(s.queue)));
    }
  }

  /** Slot by slot the same entry, issued or not: what completion and wakeup leave alone. */
  ghost predicate SameShape(q: seq<Req>, q': seq<Req>) {
    |q| == |q'| &&
    forall i | 0 <= i < |q| :: SameEntry(q'[i], q[i]) && q'[i].issued == q[i].issued
  }

  lemma ShapeKeeps(q: seq<Req>, q': seq<Req>)
    requires Consecutive(q) && IssuedPrefix(q) && SameShape(q, q')
    ensures Consecutive(q') && IssuedPrefix(q') && FirstUnissued(q') == FirstUnissued(q)
  {
    UnissuedUnique(q', FirstUnissued(q));
  }

  lemma CompleteKeeps(s: RcuState, resp: Option<LsuResp>)
    requires RobInv(s)
    ensures RobInv(Complete(s, resp))
    ensures SameShape(s.queue, Complete(s, resp).queue)
  {
    ShapeKeeps(s.queue, Complete(s, resp).queue);
  }

  lemma WakeupShape(s: RcuState)
    ensures SameShape(s.queue, Wakeup(s).queue)
  {
  }

  lemma WakeupKeeps(s: RcuState)
    requires RobInv(s)
    ensures RobInv(Wakeup(s))
    ensures SameShape(s.queue, Wakeup(s).queue)
  {
    WakeupShape(s);
    ShapeKeeps(s.queue, Wakeup(s).queue);
  }

  lemma ConsecutiveTail(q: seq<Req>)
    requires Consecutive(q) && |q| > 0
    ensures Consecutive(q[1..])
  {
    forall i | 0 <= i < |q| - 1
      ensures q[1..][i].robIndex == (q[1..][0].robIndex + i) % RCU_MAX_SIZE
    {
      assert q[1..][i] == q[i + 1];
      assert q[1..][0] == q[1];
    }
  }

  lemma TailKeeps(q: seq<Req>)
    requires IssuedPrefix(q) && |q| > 0 && q[0].issued
    ensures IssuedPrefix(q[1..])
    ensures FirstUnissued(q[1..]) == FirstUnissued(q) - 1
  {
    var t, k := q[1..], FirstUnissued(q) - 1;
    assert IssuedUpTo(t, k);
    UnissuedUnique(t, k);
  }

  lemma CommitKeeps(s: RcuState)
    requires RobInv(s)
    ensures RobInv(Commit(s))
    ensures FirstUnissued(Commit(s).queue)
            == FirstUnissued(s.queue) - (if CanCommit(s.queue) then 1 else 0)
  {
    if CanCommit(s.queue) {
      ConsecutiveTail(s.queue);
      TailKeeps(s.queue);
    }
  }

  lemma BeforeWakeupKeeps(s: RcuState, x: RcuIn)
    requires RobInv(s) && FreshInput(x)
    ensures RobInv(BeforeWakeup(s, x))
  {
    HandshakeKeeps(s, x.lsuRdy);
    EnqueueKeeps(Handshake(s, x.lsuRdy), x.newReq);
    CompleteKeeps(Enqueue(Handshake(s, x.lsuRdy), x.newReq), x.resp);
  }

  lemma IssueOffers(s: RcuState)
    requires RobInv(s)
    ensures RobInv(Issue(s)) && Offering(Issue(s))
  {
  }

  /** One edge keeps the invariant, and afterwards the oldest unissued entry is on offer. */
  lemma StepKeepsRobInv(s: RcuState, x: RcuIn)
    requires RobInv(s) && FreshInput(x)
    ensures RobInv(RcuStep(s, x)) && Offering(RcuStep(s, x))
  {
    BeforeWakeupKeeps(s, x);
    var b := BeforeWakeup(s, x);
    WakeupKeeps(b);
    IssueOffers(Wakeup(b));
    CommitKeeps(Issue(Wakeup(b)));
  }
}
