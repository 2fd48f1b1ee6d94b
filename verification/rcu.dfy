// The fake reorder buffer of the L1D test bench (sim/l1d/fake_rcu.cpp): in-order enqueue,
// issue handshake with the LSU, delayed wakeup, out-of-order completion, in-order commit.
module Rcu {
  import opened Words
  import opened L1dTypes

  datatype RcuState = RcuState(
    queue: seq<Req>,
    lsuReqVld: bool,
    lsuReq: Req,
    newCommVld: bool,
    newComm: Req,
    wakeUpVld: bool,
    wakeUpRobIndex: u8)

  /** What the driver sampled before this clock edge. */
  datatype RcuIn = RcuIn(lsuRdy: bool, resp: Option<LsuResp>, newReq: Option<Req>)

  const INIT_RCU: RcuState := RcuState([], false, NO_REQ, false, NO_REQ, false, 0)

  // ----- searches -----

  function FirstRob(q: seq<Req>, rob: u8): (k: nat)
    ensures k <= |q|
    ensures k < |q| ==> q[k].robIndex == rob
    ensures forall i | 0 <= i < k :: q[i].robIndex != rob
  {
    if q == [] || q[0].robIndex == rob then 0 else 1 + FirstRob(q[1..], rob)
  }

  function FirstUnissued(q: seq<Req>): (k: nat)
    ensures k <= |q|
    ensures k < |q| ==> !q[k].issued
    ensures forall i | 0 <= i < k :: q[i].issued
  {
    if q == [] || !q[0].issued then 0 else 1 + FirstUnissued(q[1..])
  }

  predicate Due(r: Req) {
    r.delay == 0 && !r.awake
  }

  function FirstDue(q: seq<Req>): (k: nat)
    ensures k <= |q|
    ensures k < |q| ==> Due(q[k])
    ensures forall i | 0 <= i < k :: !Due(q[i])
  {
    if q == [] || Due(q[0]) then 0 else 1 + FirstDue(q[1..])
  }

  // ----- one clock step, stage by stage -----

  function Handshake(s: RcuState, rdy: bool): RcuState {
    if rdy && s.lsuReqVld then
      var k := FirstRob(s.queue, s.lsuReq.robIndex);
      s.(lsuReqVld := false,
         queue := if k < |s.queue| then s.queue[k := s.queue[k].(issued := true)] else s.queue)
    else s
  }

  function NextRob(q: seq<Req>): u8 {
    if q == [] then 0 else (q[|q| - 1].robIndex + 1) % RCU_MAX_SIZE
  }

  predicate Accepts(s: RcuState, newReq: Option<Req>) {
    newReq.Some? && |s.queue| < RCU_MAX_SIZE
  }

  function Enqueue(s: RcuState, newReq: Option<Req>): RcuState {
    if Accepts(s, newReq) then
      s.(queue := s.queue + [newReq.value.(robIndex := NextRob(s.queue))])
    else s
  }

  function Completed(r: Req, resp: LsuResp): Req {
    r.(rdAddr := resp.rdAddr, data := if resp.rdAddr != 0 then resp.data else r.data, done := true)
  }

  function Complete(s: RcuState, resp: Option<LsuResp>): RcuState {
    if resp.None? then s
    else
      var k := FirstRob(s.queue, resp.value.robIndex);
      if k < |s.queue| then s.(queue := s.queue[k := Completed(s.queue[k], resp.value)]) else s
  }

  /** An entry after the wakeup pass, when it is or is not the one that gets the wakeup slot. */
  function Ticked(r: Req, chosen: bool): Req {
    if r.delay == 0 then (if chosen then r.(awake := true) else r)
    else if r.issued then r.(delay := r.delay - 1)
    else r
  }

  function Wakeup(s: RcuState): RcuState {
    var q := s.queue;
    var k := FirstDue(q);
    s.(queue := seq(|q|, i requires 0 <= i < |q| => Ticked(q[i], i == k)),
       wakeUpVld := k < |q|,
       wakeUpRobIndex := if k < |q| then q[k].robIndex else s.wakeUpRobIndex)
  }

  function Issue(s: RcuState): RcuState {
    var k := FirstUnissued(s.queue);
    if !s.lsuReqVld && k < |s.queue| then s.(lsuReqVld := true, lsuReq := s.queue[k]) else s
  }

  predicate CanCommit(q: seq<Req>) {
    |q| > 0 && q[0].issued && q[0].done && q[0].awake
  }

  function Commit(s: RcuState): RcuState {
    if CanCommit(s.queue) then
      s.(newCommVld := true, newComm := s.queue[0], queue := s.queue[1..])
    else s.(newCommVld := false)
  }

  /** The state just before the wakeup pass. */
  function BeforeWakeup(s: RcuState, x: RcuIn): RcuState {
    Complete(Enqueue(Handshake(s, x.lsuRdy), x.newReq), x.resp)
  }

  function RcuStep(s: RcuState, x: RcuIn): RcuState {
    Commit(Issue(Wakeup(BeforeWakeup(s, x))))
  }

  // ----- the simulator object -----

  class FakeRcu {
    var queue: seq<Req>
    var lsuReqVld: bool
    var lsuReq: Req
    var lsuRespVld: bool
    var lsuResp: LsuResp
    var newReqVld: bool
    var newReq: Req
    var newCommVld: bool
    var newComm: Req
    var wakeUpVld: bool
    var wakeUpRobIndex: u8
    var lsuRdy: bool

    constructor ()
      ensures State() == INIT_RCU
      ensures !lsuRdy && !lsuRespVld && !newReqVld
    {
      queue := [];
      lsuReqVld, lsuReq := false, NO_REQ;
      lsuRespVld, lsuResp := false, LsuResp(0, 0, 0);
      newReqVld, newReq := false, NO_REQ;
      newCommVld, newComm := false, NO_REQ;
      wakeUpVld, wakeUpRobIndex := false, 0;
      lsuRdy := false;
    }

    ghost function State(): RcuState
      reads this
    {
      RcuState(queue, lsuReqVld, lsuReq, newCommVld, newComm, wakeUpVld, wakeUpRobIndex)
    }

    ghost function Sampled(): RcuIn
      reads this
    {
      RcuIn(lsuRdy, if lsuRespVld then Some(lsuResp) else None, if newReqVld then Some(newReq) else None)
    }

    function RcuRdy(): (r: bool)
      reads this
    {
      |queue| < RCU_MAX_SIZE
    }

    /** The setters the driver calls before every edge. */
    method Sample(rdy: bool, respVld: bool, resp: LsuResp, reqVld: bool, req: Req)
      modifies this
      ensures State() == old(State())
      ensures Sampled() == RcuIn(rdy, if respVld then Some(resp) else None, if reqVld then Some(req) else None)
    {
      lsuRdy, lsuRespVld, lsuResp := rdy, respVld, resp;
      newReqVld, newReq := reqVld, req;
    }

    method DoHandshake()
      modifies this`lsuRdy, this`lsuReqVld, this`queue
      ensures State() == Handshake(old(State()), old(lsuRdy))
    {
      if lsuRdy {
        lsuRdy := false;
        if lsuReqVld {
          lsuReqVld := false;
          var i := 0;
          while i < |queue|
            invariant 0 <= i <= |queue|
            invariant queue == old(queue)
            invariant forall j | 0 <= j < i :: queue[j].robIndex != lsuReq.robIndex
          {
            if queue[i].robIndex == lsuReq.robIndex {
              queue := queue[i := queue[i].(issued := true)];
              break;
            }
            i := i + 1;
          }
        }
      }
    }

    method DoEnqueue()
      modifies this`newReqVld, this`newReq, this`queue
      ensures State() == Enqueue(old(State()), old(Sampled()).newReq)
    {
      if newReqVld && |queue| < RCU_MAX_SIZE {
        newReqVld := false;
        if |queue| != 0 {
          newReq := newReq.(robIndex := (queue[|queue| - 1].robIndex + 1) % RCU_MAX_SIZE);
        } else {
          newReq := newReq.(robIndex := 0);
        }
        queue := queue + [newReq];
      }
    }

    method DoComplete()
      modifies this`lsuRespVld, this`queue
      ensures State() == Complete(old(State()), old(Sampled()).resp)
    {
      if lsuRespVld {
        lsuRespVld := false;
        var i := 0;
        while i < |queue|
          invariant 0 <= i <= |queue|
          invariant queue == old(queue)
          invariant forall j | 0 <= j < i :: queue[j].robIndex != lsuResp.robIndex
        {
          if queue[i].robIndex == lsuResp.robIndex {
            queue := queue[i := queue[i].(rdAddr := lsuResp.rdAddr)];
            if lsuResp.rdAddr != 0 {
              queue := queue[i := queue[i].(data := lsuResp.data)];
            }
            queue := queue[i := queue[i].(done := true)];
            break;
          }
          i := i + 1;
        }
      }
    }

    method DoWakeup()
      modifies this`wakeUpVld, this`wakeUpRobIndex, this`queue
      ensures State() == Wakeup(old(State()))
    {
      wakeUpVld := false;
      ghost var q := queue;
      ghost var k := FirstDue(q);
      var i := 0;
      while i < |queue|
        invariant 0 <= i <= |queue| == |q|
        invariant wakeUpVld == (k < i)
        invariant wakeUpRobIndex == if k < i then q[k].robIndex else old(wakeUpRobIndex)
        invariant forall j | 0 <= j < i :: queue[j] == Ticked(q[j], j == k)
        invariant forall j | i <= j < |q| :: queue[j] == q[j]
      {
        if queue[i].delay == 0 {
          if !wakeUpVld && !queue[i].awake {
            wakeUpVld := true;
            queue := queue[i := queue[i].(awake := true)];
            wakeUpRobIndex := queue[i].robIndex;
          }
        } else {
          if queue[i].issued {
            queue := queue[i := queue[i].(delay := queue[i].delay - 1)];
          }
        }
        i := i + 1;
      }
    }

    method DoIssue()
      modifies this`lsuReqVld, this`lsuReq
      ensures State() == Issue(old(State()))
    {
      if !lsuReqVld {
        var i := 0;
        while i < |queue|
          invariant 0 <= i <= |queue|
          invariant !lsuReqVld && lsuReq == old(lsuReq)
          invariant forall j | 0 <= j < i :: queue[j].issued
        {
          if !queue[i].issued {
            lsuReqVld := true;
            lsuReq := queue[i];
            break;
          }
          i := i + 1;
        }
      }
    }

    method DoCommit()
      modifies this`newCommVld, this`newComm, this`queue
      ensures State() == Commit(old(State()))
    {
      newCommVld := false;
      if |queue| > 0 && queue[0].issued && queue[0].done && queue[0].awake {
        newCommVld := true;
        newComm := queue[0];
        queue := queue[1..];
      }
    }

    method TakeInputs()
      modifies this
      ensures State() == BeforeWakeup(old(State()), old(Sampled()))
    {
      ghost var x := Sampled();
      DoHandshake();
      assert Sampled().newReq == x.newReq && Sampled().resp == x.resp;
      DoEnqueue();
      assert Sampled().resp == x.resp;
      DoComplete();
    }

    /** One rising clock edge. */
    method Eval()
      modifies this
      ensures State() == RcuStep(old(State()), old(Sampled()))
    {
      ghost var before := BeforeWakeup(State(), Sampled());
      TakeInputs();
      assert State() == before;
      DoWakeup();
      DoIssue();
      DoCommit();
    }
  }
}
