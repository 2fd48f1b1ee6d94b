// One clock step of the whole L1D test bench (sim/l1d/l1d.cpp): the driver samples every
// object's outputs, then evaluates the monitor, the reorder buffer and the memories. The
// design under test is an arbitrary environment.
module Testbench {
  import opened Words
  import opened FlatMemory
  import opened L1dTypes
  import opened Rcu
  import opened Axi
  import opened L1dMonitor

  datatype TbState = TbState(mon: MonState, rcu: RcuState, mem: AxiState)

  /** What the design under test drives before an edge, and the draws made during it. */
  datatype EnvIn = EnvIn(lsuRdy: bool, resp: Option<LsuResp>, axi: AxiIn, rolls: Rolls)

  datatype TbError = FromMonitor(m: MonError) | FromMemory(a: AxiError)

  function InitTb(testcaseMax: u64, pagetable: Mem): TbState {
    TbState(InitMon(testcaseMax), INIT_RCU, AxiState(InitialImage(), pagetable, [], [], IDLE_PORT))
  }

  function MonSample(s: TbState, e: EnvIn): MonIn {
    MonIn(|s.rcu.queue| < RCU_MAX_SIZE, if s.rcu.newCommVld then Some(s.rcu.newComm) else None, e.rolls)
  }

  function RcuSample(s: TbState, e: EnvIn): RcuIn {
    RcuIn(e.lsuRdy, e.resp, if s.mon.reqVld then Some(s.mon.req) else None)
  }

  function TbStep(s: TbState, e: EnvIn): Result<TbState, TbError> {
    match MonStep(s.mon, MonSample(s, e))
    case Err(m) => Err(FromMonitor(m))
    case Ok(mon) =>
      match AxiStep(s.mem, e.axi)
      case Err(a) => Err(FromMemory(a))
      case Ok(mem) => Ok(TbState(mon, RcuStep(s.rcu, RcuSample(s, e)), mem))
  }

  function TbRun(s: TbState, es: seq<EnvIn>): Result<TbState, TbError> {
    if es == [] then Ok(s)
    else
      match TbRun(s, es[..|es| - 1])
      case Err(x) => Err(x)
      case Ok(t) => TbStep(t, es[|es| - 1])
  }

  /** After `k` steps nothing has been thrown and the test is not done. */
  predicate GoesOn(s: TbState, es: seq<EnvIn>, k: nat)
    requires k <= |es|
  {
    TbRun(s, es[..k]).Ok? && !UtDone(TbRun(s, es[..k]).value.mon)
  }

  ghost predicate AllGoOn(s: TbState, es: seq<EnvIn>, n: nat) {
    n <= |es| && forall k | 0 <= k < n :: GoesOn(s, es, k)
  }

  lemma GoingOn(s: TbState, es: seq<EnvIn>, n: nat, t: TbState)
    requires n < |es| && AllGoOn(s, es, n) && TbRun(s, es[..n]) == Ok(t) && !UtDone(t.mon)
    ensures AllGoOn(s, es, n + 1)
  {
  }

  lemma TbRunNext(s: TbState, es: seq<EnvIn>, n: nat, t: TbState)
    requires n < |es| && TbRun(s, es[..n]) == Ok(t)
    ensures TbRun(s, es[..n + 1]) == TbStep(t, es[n])
  {
    assert es[..n + 1][..n] == es[..n];
  }

  /** A memory nobody talks to does nothing at an edge. */
  lemma IdleMemory(s: AxiState)
    requires s.waitQ == [] && s.respQ == [] && !s.port.rVld && !s.port.bVld
    ensures AxiStep(s, AxiIn(None, 0, None, 0, None, false, false)) == Ok(s)
  {
    assert CountDown([]) == [];
    var t := s.(waitQ := []);
    assert t.waitQ[..0] == [] && t.waitQ[0..] == [] && s.respQ + [] == [];
    assert ServeReady(t) == Ok(s);
  }

  class Bench {
    const realMem: FakeMemory
    const perfectMem: FakeMemory
    const monitor: Monitor
    const rcu: FakeRcu

    ghost predicate Valid()
      reads this, realMem, perfectMem, monitor, rcu
    {
      realMem.Valid() && perfectMem.Valid() && monitor.perfectMem == perfectMem &&
      realMem != perfectMem && realMem.mem != perfectMem.mem && realMem.pagetable != perfectMem.mem &&
      realMem.mem != perfectMem.pagetable &&
      perfectMem.waitQ == [] && perfectMem.respQ == [] && !perfectMem.rVld && !perfectMem.bVld &&
      perfectMem.Sampled(0, 0) == AxiIn(None, 0, None, 0, None, false, false)
    }

    ghost function State(): TbState
      requires Valid()
      reads this, realMem, perfectMem, monitor, rcu
      reads realMem.mem, realMem.pagetable, perfectMem.mem
    {
      TbState(monitor.State(), rcu.State(), realMem.State())
    }

    constructor (testcaseMax: u64, pagetable: seq<byte>)
      requires |pagetable| < MEM_MAX_SIZE
      ensures Valid()
      ensures fresh(realMem) && fresh(perfectMem) && fresh(monitor) && fresh(rcu)
      ensures State() == InitTb(testcaseMax, pagetable + seq(MEM_MAX_SIZE - |pagetable|, i => 0))
    {
      var rm := new FakeMemory(pagetable);
      var pm := new FakeMemory(pagetable);
      var m := new Monitor(pm, testcaseMax);
      var r := new FakeRcu();
      realMem, perfectMem, monitor, rcu := rm, pm, m, r;
    }

    /** The setter calls of the driver. */
    method SampleAll(e: EnvIn)
      requires Valid()
      modifies realMem, monitor, rcu
      ensures Valid() && State() == old(State())
      ensures monitor.Sampled(e.rolls) == MonSample(old(State()), e)
      ensures rcu.Sampled() == RcuSample(old(State()), e)
      ensures realMem.Sampled(e.axi.awDraw, e.axi.arDraw) == e.axi
    {
      var respVld, resp := e.resp.Some?, if e.resp.Some? then e.resp.value else LsuResp(0, 0, 0);
      var rdy := rcu.RcuRdy();
      monitor.Sample(rdy, rcu.newCommVld, rcu.newComm);
      rcu.Sample(e.lsuRdy, respVld, resp, monitor.reqVld, monitor.req);
      realMem.Sample(e.axi);
    }

    method EvalMonitor(r: Rolls) returns (err: Option<TbError>)
      requires Valid()
      modifies monitor, perfectMem.mem
      ensures match MonStep(old(monitor.State()), old(monitor.Sampled(r)))
              case Ok(s) => err == None && Valid() && monitor.State() == s
              case Err(m) => err == Some(FromMonitor(m))
    {
      var monErr := monitor.Eval(r);
      err := if monErr.Some? then Some(FromMonitor(monErr.value)) else None;
    }

    method EvalRcu()
      requires Valid()
      modifies rcu
      ensures Valid() && rcu.State() == RcuStep(old(rcu.State()), old(rcu.Sampled()))
    {
      rcu.Eval();
    }

    method EvalRealMem(x: AxiIn) returns (err: Option<TbError>)
      requires Valid() && realMem.Sampled(x.awDraw, x.arDraw) == x
      modifies realMem, realMem.mem
      ensures match AxiStep(old(realMem.State()), x)
              case Ok(s) => err == None && Valid() && realMem.State() == s
              case Err(a) => err == Some(FromMemory(a))
    {
      var memErr := realMem.Eval(x.awDraw, x.arDraw);
      err := if memErr.Some? then Some(FromMemory(memErr.value)) else None;
    }

    method EvalPerfectMem()
      requires Valid()
      modifies perfectMem, perfectMem.mem
      ensures Valid() && perfectMem.mem[..] == old(perfectMem.mem[..])
    {
      IdleMemory(perfectMem.State());
      var idleErr := perfectMem.Eval(0, 0);
    }

    /** One clock step; an error ends the simulation. */
    method ClockStep(e: EnvIn) returns (err: Option<TbError>)
      requires Valid()
      modifies realMem, perfectMem, monitor, rcu, realMem.mem, perfectMem.mem
      ensures match TbStep(old(State()), e)
              case Ok(s) => err == None && Valid() && State() == s
              case Err(x) => err == Some(x)
    {
      ghost var s0 := State();
      SampleAll(e);
      err := EvalMonitor(e.rolls);
      if err.Some? {
        return;
      }
      EvalRcu();
      err := EvalRealMem(e.axi);
      if err.Some? {
        return;
      }
      EvalPerfectMem();
    }

    /** One turn of the main loop. */
    method Turn(ghost s0: TbState, es: seq<EnvIn>, n: nat) returns (err: Option<TbError>)
      requires Valid() && n < |es| && TbRun(s0, es[..n]) == Ok(State())
      modifies realMem, perfectMem, monitor, rcu, realMem.mem, perfectMem.mem
      ensures err == None ==> Valid() && TbRun(s0, es[..n + 1]) == Ok(State())
      ensures err.Some? ==> TbRun(s0, es[..n + 1]) == Err(err.value)
    {
      TbRunNext(s0, es, n, State());
      err := ClockStep(es[n]);
    }

    /** The main loop: steps until the monitor is done, the time is up or something is thrown, and
        not further. */
    method Simulate(es: seq<EnvIn>) returns (err: Option<TbError>, n: nat)
      requires Valid()
      modifies realMem, perfectMem, monitor, rcu, realMem.mem, perfectMem.mem
      ensures n <= |es|
      ensures err == None ==> Valid() && TbRun(old(State()), es[..n]) == Ok(State())
      ensures err == None ==> n == |es| || UtDone(State().mon)
      ensures err.Some? ==> n < |es| && TbRun(old(State()), es[..n + 1]) == Err(err.value)
      ensures AllGoOn(old(State()), es, if err == None then n else n + 1)
    {
      err, n := None, 0;
      ghost var s0 := State();
      assert es[..0] == [];
      while n < |es|
        invariant n <= |es| && err == None
        invariant Valid() && TbRun(s0, es[..n]) == Ok(State())
        invariant AllGoOn(s0, es, n)
      {
        var done := monitor.UtDoneNow();
        if done {
          return;
        }
        GoingOn(s0, es, n, State());
        err := Turn(s0, es, n);
        if err.Some? {
          return;
        }
        n := n + 1;
      }
    }
  }
}
