// What passes through the reorder buffer: which register and which data a request carries when
// it is offered to the LSU and when it commits, and how long it sleeps in between.
module RobAnswers {
  import opened Words
  import opened L1dTypes
  import opened Rcu
  import opened RobDiscipline
  import opened RobRuns

  // ----- what the completions of an entry say -----

  /** The register after some completions: the one the last of them named. */
  function RegisterOf(r: Req, cs: seq<LsuResp>): u8 {
    if cs == [] then r.rdAddr else cs[|cs| - 1].rdAddr
  }

  /** The data after some completions: that of the last one that named a register other than 0. */
  function DataOf(r: Req, cs: seq<LsuResp>): u64 {
    if cs == [] then r.data
    else if cs[|cs| - 1].rdAddr != 0 then cs[|cs| - 1].data
    else DataOf(r, cs[..|cs| - 1])
  }

  predicate Carries(e: Req, r: Req, cs: seq<LsuResp>) {
    SameEntry(e, r) && e.rdAddr == RegisterOf(r, cs) && e.data == DataOf(r, cs)
  }

  /** A completion reaches every live entry with its index. */
  function Give(given: seq<seq<LsuResp>>, enq: seq<Req>, committed: nat, resp: LsuResp): seq<seq<LsuResp>>
    requires |given| == |enq|
  {
    seq(|given|, i requires 0 <= i < |given| =>
      if committed <= i && enq[i].robIndex == resp.robIndex then given[i] + [resp] else given[i])
  }

  function GiveAny(given: seq<seq<LsuResp>>, enq: seq<Req>, committed: nat, resp: Option<LsuResp>): seq<seq<LsuResp>>
    requires |given| == |enq|
  {
    if resp.Some? then Give(given, enq, committed, resp.value) else given
  }

  function Unanswered(n: nat): seq<seq<LsuResp>> {
    seq(n, i => [])
  }

  /** The completions of all entries after an edge, those that came in with it included. */
  function NextGiven(given: seq<seq<LsuResp>>, enq: seq<Req>, committed: nat, resp: Option<LsuResp>): seq<seq<LsuResp>>
    requires |given| <= |enq|
  {
    GiveAny(given + Unanswered(|enq| - |given|), enq, committed, resp)
  }

  /** The completions each entry of the enqueue stream has had in a run. */
  function Given(xs: seq<RcuIn>): (given: seq<seq<LsuResp>>)
    ensures |given| == |Run(xs).enqueued|
  {
    if xs == [] then []
    else
      var before, x := xs[..|xs| - 1], xs[|xs| - 1];
      EnqueuedGrows(Run(before), x);
      NextGiven(Given(before), Run(xs).enqueued, |Run(before).committed|, x.resp)
  }

  /** The completions the request on offer had had when it was put on offer. */
  function Offered(xs: seq<RcuIn>): seq<LsuResp> {
    if xs == [] then []
    else
      var before, x := xs[..|xs| - 1], xs[|xs| - 1];
      if Run(before).s.lsuReqVld && !x.lsuRdy then Offered(before)
      else if |Run(xs).accepted| < |Given(xs)| then Given(xs)[|Run(xs).accepted|]
      else []
  }

  /** The same for the requests the LSU has taken. */
  function Taken(xs: seq<RcuIn>): seq<seq<LsuResp>> {
    if xs == [] then []
    else
      var before, x := xs[..|xs| - 1], xs[|xs| - 1];
      if x.lsuRdy && Run(before).s.lsuReqVld then Taken(before) + [Offered(before)] else Taken(before)
  }

  // ----- the live entries, stage by stage -----

  predicate CarriesLive(e: Req, r: Req, cs: seq<LsuResp>) {
    Carries(e, r, cs) && (e.done <==> cs != [])
  }

  ghost predicate LiveCarry(q: seq<Req>, enq: seq<Req>, given: seq<seq<LsuResp>>, committed: nat) {
    && |given| == |enq| == committed + |q|
    && forall i | 0 <= i < |q| :: CarriesLive(q[i], enq[committed + i], given[committed + i])
  }

  lemma HandshakeCarries(s: RcuState, rdy: bool, enq: seq<Req>, given: seq<seq<LsuResp>>, committed: nat)
    requires LiveCarry(s.queue, enq, given, committed)
    ensures LiveCarry(Handshake(s, rdy).queue, enq, given, committed)
  {
  }

  lemma EnqueueCarries(q: seq<Req>, r: Req, enq: seq<Req>, given: seq<seq<LsuResp>>, committed: nat)
    requires LiveCarry(q, enq, given, committed) && Unprocessed(r)
    ensures LiveCarry(q + [r], enq + [r], given + [[]], committed)
  {
  }

  lemma OneMoreAnswer(e: Req, r: Req, cs: seq<LsuResp>, resp: LsuResp)
    requires CarriesLive(e, r, cs)
    ensures CarriesLive(Completed(e, resp), r, cs + [resp])
  {
    assert (cs + [resp])[..|cs|] == cs;
  }

  lemma CompleteCarries(s: RcuState, resp: Option<LsuResp>, enq: seq<Req>, given: seq<seq<LsuResp>>, committed: nat)
    requires LiveCarry(s.queue, enq, given, committed) && Consecutive(s.queue)
    ensures LiveCarry(Complete(s, resp).queue, enq, GiveAny(given, enq, committed, resp), committed)
  {
    if resp.Some? {
      var q, q', given' := s.queue, Complete(s, resp).queue, Give(given, enq, committed, resp.value);
      var k := FirstRob(q, resp.value.robIndex);
      forall i | 0 <= i < |q|
        ensures CarriesLive(q'[i], enq[committed + i], given'[committed + i])
      {
        assert CarriesLive(q[i], enq[committed + i], given[committed + i]);
        if i == k {
          OneMoreAnswer(q[i], enq[committed + i], given[committed + i], resp.value);
        } else if q[i].robIndex == resp.value.robIndex {
          LiveIndicesDistinct(q, i, k);
        }
      }
    }
  }

  lemma WakeupCarries(s: RcuState, enq: seq<Req>, given: seq<seq<LsuResp>>, committed: nat)
    requires LiveCarry(s.queue, enq, given, committed)
    ensures LiveCarry(Wakeup(s).queue, enq, given, committed)
  {
  }

  // ----- the whole run -----

  /** Everything committed shows its completions, and has had one. */
  ghost predicate AllCarry(com: seq<Req>, enq: seq<Req>, given: seq<seq<LsuResp>>) {
    && |com| <= |enq| == |given|
    && forall i | 0 <= i < |com| :: Carries(com[i], enq[i], given[i]) && given[i] != []
  }

  ghost predicate AnswerInv(h: RcuRun, given: seq<seq<LsuResp>>) {
    LiveCarry(h.s.queue, h.enqueued, given, |h.committed|) && AllCarry(h.committed, h.enqueued, given)
  }

  lemma EnqueueStage(s: RcuState, newReq: Option<Req>, enq: seq<Req>, given: seq<seq<LsuResp>>, committed: nat)
    requires LiveCarry(s.queue, enq, given, committed) && (newReq.Some? ==> Unprocessed(newReq.value))
    ensures var more := NewEnqueued(s, newReq);
            LiveCarry(Enqueue(s, newReq).queue, enq + more, given + Unanswered(|more|), committed)
  {
    if Accepts(s, newReq) {
      EnqueueCarries(s.queue, newReq.value.(robIndex := NextRob(s.queue)), enq, given, committed);
      assert Unanswered(1) == [[]];
    } else {
      assert enq + [] == enq && given + Unanswered(0) == given;
    }
  }

  /** Handshake, enqueue and completion. */
  lemma InputsCarry(s: RcuState, x: RcuIn, enq: seq<Req>, given: seq<seq<LsuResp>>, committed: nat, enq': seq<Req>)
    requires RobInv(s) && FreshInput(x) && LiveCarry(s.queue, enq, given, committed)
    requires enq' == enq + NewEnqueued(Handshake(s, x.lsuRdy), x.newReq)
    ensures LiveCarry(BeforeWakeup(s, x).queue, enq', NextGiven(given, enq', committed, x.resp), committed)
  {
    var s1 := Handshake(s, x.lsuRdy);
    HandshakeKeeps(s, x.lsuRdy);
    HandshakeCarries(s, x.lsuRdy, enq, given, committed);
    EnqueueKeeps(s1, x.newReq);
    EnqueueStage(s1, x.newReq, enq, given, committed);
    CompleteCarries(Enqueue(s1, x.newReq), x.resp, enq', given + Unanswered(|enq'| - |enq|), committed);
  }

  lemma HeadCarries(q: seq<Req>, enq: seq<Req>, given: seq<seq<LsuResp>>, com: seq<Req>)
    requires LiveCarry(q, enq, given, |com|) && AllCarry(com, enq, given) && CanCommit(q)
    ensures LiveCarry(q[1..], enq, given, |com| + 1) && AllCarry(com + [q[0]], enq, given)
  {
    assert CarriesLive(q[0], enq[|com|], given[|com|]);
    assert forall i | 0 <= i < |q| - 1 :: q[1..][i] == q[i + 1];
  }

  /** What the wakeup pass, the issue and the commit make of the live entries. */
  lemma CommitCarries(b: RcuState, enq: seq<Req>, given: seq<seq<LsuResp>>, com: seq<Req>)
    requires LiveCarry(b.queue, enq, given, |com|) && AllCarry(com, enq, given)
    ensures var s := Commit(Issue(Wakeup(b)));
            var com' := if s.newCommVld then com + [s.newComm] else com;
            LiveCarry(s.queue, enq, given, |com'|) && AllCarry(com', enq, given)
  {
    WakeupCarries(b, enq, given, |com|);
    var q := Wakeup(b).queue;
    if CanCommit(q) {
      HeadCarries(q, enq, given, com);
    }
  }

  /** Later entries and completions leave what has committed alone. */
  lemma CommittedKept(com: seq<Req>, enq: seq<Req>, given: seq<seq<LsuResp>>, enq': seq<Req>, resp: Option<LsuResp>)
    requires AllCarry(com, enq, given) && enq <= enq'
    ensures AllCarry(com, enq', NextGiven(given, enq', |com|, resp))
  {
    var given' := NextGiven(given, enq', |com|, resp);
    assert forall i | 0 <= i < |com| :: given'[i] == given[i] && enq'[i] == enq[i];
  }

  lemma StepAnswers(h: RcuRun, x: RcuIn, given: seq<seq<LsuResp>>, enq': seq<Req>)
    requires RunInv(h) && FreshInput(x) && AnswerInv(h, given) && enq' == RunStep(h, x).enqueued
    ensures |given| <= |enq'| && AnswerInv(RunStep(h, x), NextGiven(given, enq', |h.committed|, x.resp))
  {
    EnqueuedGrows(h, x);
    InputsCarry(h.s, x, h.enqueued, given, |h.committed|, enq');
    CommittedKept(h.committed, h.enqueued, given, enq', x.resp);
    CommitCarries(BeforeWakeup(h.s, x), enq', NextGiven(given, enq', |h.committed|, x.resp), h.committed);
    RunStepState(h, x);
  }

  lemma RunStepState(h: RcuRun, x: RcuIn)
    ensures var h' := RunStep(h, x);
            && h'.s == Commit(Issue(Wakeup(BeforeWakeup(h.s, x))))
            && h'.committed == (if h'.s.newCommVld then h.committed + [h'.s.newComm] else h.committed)
            && h'.accepted == if x.lsuRdy && h.s.lsuReqVld then h.accepted + [h.s.lsuReq] else h.accepted
  {
  }

  /** In every run, whatever the LSU answers and when: each entry carries the register its last
      completion named and the data of its last completion that named one, and nothing commits
      that has not been completed. */
  lemma {:induction false} RunAnswers(xs: seq<RcuIn>)
    requires FreshInputs(xs)
    ensures AnswerInv(Run(xs), Given(xs))
  {
    if xs != [] {
      var before := xs[..|xs| - 1];
      RunAnswers(before);
      RunIsInOrder(before);
      StepAnswers(Run(before), xs[|xs| - 1], Given(before), Run(xs).enqueued);
    }
  }

  /** So a commit shows the register and the data the LSU answered with last, its own data if that
      register is 0. */
  lemma CommitsLastAnswer(xs: seq<RcuIn>, i: nat)
    requires FreshInputs(xs) && i < |Run(xs).committed|
    ensures |Run(xs).committed| <= |Run(xs).enqueued| == |Given(xs)| && Given(xs)[i] != []
    ensures var r, asked, answers := Run(xs).committed[i], Run(xs).enqueued[i], Given(xs)[i];
            var last := answers[|answers| - 1];
            && SameEntry(r, asked) && r.rdAddr == last.rdAddr
            && (last.rdAddr != 0 ==> r.data == last.data)
            && ((forall c | c in answers :: c.rdAddr == 0) ==> r.data == asked.data)
  {
    RunAnswers(xs);
    var asked, answers := Run(xs).enqueued[i], Given(xs)[i];
    if forall c | c in answers :: c.rdAddr == 0 {
      NoRegisterNoData(asked, answers);
    }
  }

  lemma {:induction false} NoRegisterNoData(r: Req, cs: seq<LsuResp>)
    requires forall c | c in cs :: c.rdAddr == 0
    ensures DataOf(r, cs) == r.data
  {
    if cs != [] {
      assert cs[|cs| - 1] in cs;
      NoRegisterNoData(r, cs[..|cs| - 1]);
    }
  }

  // ----- what the LSU is offered -----

  function Pending(s: RcuState): Option<Req> {
    if s.lsuReqVld then Some(s.lsuReq) else None
  }

  /** The requests taken, and the one on offer, with the completions they had had. */
  ghost predicate OfferInv(enq: seq<Req>, accepted: seq<Req>, pending: Option<Req>,
                           offered: seq<LsuResp>, taken: seq<seq<LsuResp>>) {
    && |taken| == |accepted| <= |enq|
    && (forall i | 0 <= i < |taken| :: Carries(accepted[i], enq[i], taken[i]))
    && (pending.Some? ==> |accepted| < |enq| && Carries(pending.value, enq[|accepted|], offered))
  }

  lemma OfferTaken(enq: seq<Req>, accepted: seq<Req>, r: Req, offered: seq<LsuResp>, taken: seq<seq<LsuResp>>)
    requires OfferInv(enq, accepted, Some(r), offered, taken)
    ensures OfferInv(enq, accepted + [r], None, [], taken + [offered])
  {
  }

  lemma OfferLater(enq: seq<Req>, accepted: seq<Req>, pending: Option<Req>, offered: seq<LsuResp>,
                   taken: seq<seq<LsuResp>>, enq': seq<Req>)
    requires OfferInv(enq, accepted, pending, offered, taken) && enq <= enq'
    ensures OfferInv(enq', accepted, pending, offered, taken)
  {
  }

  lemma InputsLeavePending(s: RcuState, x: RcuIn)
    ensures Pending(BeforeWakeup(s, x)) == if x.lsuRdy then None else Pending(s)
  {
  }

  lemma IssuePending(b: RcuState, q: seq<Req>)
    requires q == Wakeup(b).queue
    ensures Pending(Commit(Issue(Wakeup(b)))) ==
            if Pending(b).Some? then Pending(b)
            else if FirstUnissued(q) < |q| then Some(q[FirstUnissued(q)])
            else None
  {
    assert Wakeup(b).lsuReqVld == b.lsuReqVld && Wakeup(b).lsuReq == b.lsuReq;
  }

  /** After an edge the request on offer is new, or the one that was on offer and not taken. */
  lemma OfferFrom(s: RcuState, x: RcuIn, q: seq<Req>)
    requires q == Wakeup(BeforeWakeup(s, x)).queue
    ensures var t := RcuStep(s, x);
            if s.lsuReqVld && !x.lsuRdy then Pending(t) == Some(s.lsuReq)
            else Pending(t) == if FirstUnissued(q) < |q| then Some(q[FirstUnissued(q)]) else None
  {
    InputsLeavePending(s, x);
    IssuePending(BeforeWakeup(s, x), q);
  }

  /** The first unissued entry is the next one for the LSU to take. */
  lemma OfferPlace(h: RcuRun, x: RcuIn, q: seq<Req>)
    requires RunInv(h) && FreshInput(x) && q == Wakeup(BeforeWakeup(h.s, x)).queue
    ensures |RunStep(h, x).accepted| == |h.committed| + FirstUnissued(q)
  {
    var b := BeforeWakeup(h.s, x);
    BeforeWakeupKeeps(h.s, x);
    BeforeWakeupInOrder(h, x);
    WakeupKeeps(b);
    ShapeKeeps(b.queue, q);
  }

  lemma NewOffer(q: seq<Req>, enq: seq<Req>, given: seq<seq<LsuResp>>, com: nat, accepted: seq<Req>,
                 taken: seq<seq<LsuResp>>, pending: Option<Req>)
    requires LiveCarry(q, enq, given, com) && |accepted| == com + FirstUnissued(q)
    requires OfferInv(enq, accepted, None, [], taken)
    requires pending == if FirstUnissued(q) < |q| then Some(q[FirstUnissued(q)]) else None
    ensures OfferInv(enq, accepted, pending, if |accepted| < |given| then given[|accepted|] else [], taken)
  {
    if FirstUnissued(q) < |q| {
      assert CarriesLive(q[FirstUnissued(q)], enq[|accepted|], given[|accepted|]);
    }
  }

  lemma NewOfferStep(h: RcuRun, x: RcuIn, given: seq<seq<LsuResp>>, enq: seq<Req>, accepted: seq<Req>,
                     taken: seq<seq<LsuResp>>, given': seq<seq<LsuResp>>)
    requires RunInv(h) && FreshInput(x) && AnswerInv(h, given) && !(h.s.lsuReqVld && !x.lsuRdy)
    requires enq == RunStep(h, x).enqueued && accepted == RunStep(h, x).accepted
    requires |given| <= |enq| && given' == NextGiven(given, enq, |h.committed|, x.resp)
    requires OfferInv(enq, accepted, None, [], taken)
    ensures OfferInv(enq, accepted, Pending(RcuStep(h.s, x)),
                     if |accepted| < |given'| then given'[|accepted|] else [], taken)
  {
    var b := BeforeWakeup(h.s, x);
    var q := Wakeup(b).queue;
    EnqueuedGrows(h, x);
    InputsCarry(h.s, x, h.enqueued, given, |h.committed|, enq);
    WakeupCarries(b, enq, given', |h.committed|);
    OfferFrom(h.s, x, q);
    OfferPlace(h, x, q);
    NewOffer(q, enq, given', |h.committed|, accepted, taken, Pending(RcuStep(h.s, x)));
  }

  ghost predicate OffersRight(h: RcuRun, offered: seq<LsuResp>, taken: seq<seq<LsuResp>>) {
    OfferInv(h.enqueued, h.accepted, Pending(h.s), offered, taken)
  }

  lemma StepOffers(h: RcuRun, x: RcuIn, given: seq<seq<LsuResp>>, offered: seq<LsuResp>, taken: seq<seq<LsuResp>>,
                   h': RcuRun, given': seq<seq<LsuResp>>)
    requires RunInv(h) && FreshInput(x) && AnswerInv(h, given) && OffersRight(h, offered, taken)
    requires h' == RunStep(h, x)
    requires |given| <= |h'.enqueued| && given' == NextGiven(given, h'.enqueued, |h.committed|, x.resp)
    ensures OffersRight(h',
                        if h.s.lsuReqVld && !x.lsuRdy then offered
                        else if |h'.accepted| < |given'| then given'[|h'.accepted|] else [],
                        if x.lsuRdy && h.s.lsuReqVld then taken + [offered] else taken)
  {
    EnqueuedGrows(h, x);
    RunStepState(h, x);
    OfferLater(h.enqueued, h.accepted, Pending(h.s), offered, taken, h'.enqueued);
    if h.s.lsuReqVld && !x.lsuRdy {
      OfferFrom(h.s, x, Wakeup(BeforeWakeup(h.s, x)).queue);
    } else if h.s.lsuReqVld {
      OfferTaken(h'.enqueued, h.accepted, h.s.lsuReq, offered, taken);
      NewOfferStep(h, x, given, h'.enqueued, h'.accepted, taken + [offered], given');
    } else {
      NewOfferStep(h, x, given, h'.enqueued, h'.accepted, taken, given');
    }
  }

  /** In every run the LSU is offered each request with the register and data its entry had when it
      was put on offer. */
  lemma {:induction false} OffersCarry(xs: seq<RcuIn>)
    requires FreshInputs(xs)
    ensures OffersRight(Run(xs), Offered(xs), Taken(xs))
  {
    if xs != [] {
      var before, x := xs[..|xs| - 1], xs[|xs| - 1];
      OffersCarry(before);
      RunAnswers(before);
      RunIsInOrder(before);
      EnqueuedGrows(Run(before), x);
      StepOffers(Run(before), x, Given(before), Offered(before), Taken(before), Run(xs), Given(xs));
    }
  }

  /** The completion is not for an entry the LSU has yet to take. */
  ghost predicate ForTaken(h: RcuRun, resp: Option<LsuResp>) {
    resp.Some? ==>
      forall i | |h.accepted| <= i < |h.enqueued| :: h.enqueued[i].robIndex != resp.value.robIndex
  }

  /** The LSU completes nothing it has not taken. */
  ghost predicate AnswersTaken(xs: seq<RcuIn>) {
    xs == [] || (AnswersTaken(xs[..|xs| - 1]) && ForTaken(Run(xs), xs[|xs| - 1].resp))
  }

  lemma AcceptedGrows(h: RcuRun, x: RcuIn)
    ensures |h.accepted| <= |RunStep(h, x).accepted|
  {
  }

  lemma NothingGiven(given: seq<seq<LsuResp>>, enq: seq<Req>, committed: nat, resp: Option<LsuResp>, from: nat)
    requires |given| <= |enq| && forall i | from <= i < |given| :: given[i] == []
    requires resp.Some? ==> forall i | from <= i < |enq| :: enq[i].robIndex != resp.value.robIndex
    ensures forall i | from <= i < |enq| :: NextGiven(given, enq, committed, resp)[i] == []
  {
  }

  /** Then nothing it has not taken has been completed, and what it takes is what came in. */
  lemma {:induction false} TakenUnanswered(xs: seq<RcuIn>)
    requires AnswersTaken(xs)
    ensures forall i | |Run(xs).accepted| <= i < |Given(xs)| :: Given(xs)[i] == []
    ensures Offered(xs) == [] && forall cs | cs in Taken(xs) :: cs == []
  {
    if xs != [] {
      var before, x := xs[..|xs| - 1], xs[|xs| - 1];
      TakenUnanswered(before);
      AcceptedGrows(Run(before), x);
      EnqueuedGrows(Run(before), x);
      NothingGiven(Given(before), Run(xs).enqueued, |Run(before).committed|, x.resp, |Run(xs).accepted|);
    }
  }

  /** With an LSU that completes only what it has taken, each request it takes has the register and
      the data it came in with. */
  lemma TakenAsEnqueued(xs: seq<RcuIn>, i: nat)
    requires FreshInputs(xs) && AnswersTaken(xs) && i < |Run(xs).accepted|
    ensures |Run(xs).accepted| <= |Run(xs).enqueued|
    ensures var taken, came := Run(xs).accepted[i], Run(xs).enqueued[i];
            SameEntry(taken, came) && taken.rdAddr == came.rdAddr && taken.data == came.data
  {
    OffersCarry(xs);
    TakenUnanswered(xs);
    assert Taken(xs)[i] in Taken(xs);
  }
}
