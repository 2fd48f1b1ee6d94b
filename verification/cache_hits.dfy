// What the fixed hit delay does to the response slots once a lookup does hit: the cache
// throws in a run of two loads and a store.
module CacheHits {
  import opened Words
  import opened FlatMemory
  import opened L1dTypes
  import opened Loads
  import opened Cache
  import opened CacheSlots

  function Load(pt: u64): CacheIn {
    CacheIn(false, Some(Call(0, 0, pt, 0, 0, 0, 1, false, false, LDU_LBU, 0)))
  }

  function Store(): CacheIn {
    CacheIn(false, Some(Call(0, 0, 0, 0x8000, 0, 0, 0, false, true, STU_SB, 0)))
  }

  const IDLE: CacheIn := CacheIn(false, None)

  function Idle(n: nat): seq<CacheIn> {
    seq(n, i => IDLE)
  }

  /** Every line one edge nearer. */
  function Nearer(ls: seq<Line>): seq<Line>
    requires forall l | l in ls :: l.delay > 0
  {
    seq(|ls|, i requires 0 <= i < |ls| => assert ls[i] in ls; ls[i].(delay := ls[i].delay - 1))
  }

  lemma {:induction false} SweepNoneDue(ls: seq<Line>)
    requires forall l | l in ls :: l.delay > 0
    ensures Sweep(ls) == Ok(Swept(Nearer(ls), [], None))
  {
    if ls != [] {
      SweepNoneDue(Front(ls));
      assert Last(ls) in ls;
      assert Nearer(ls) == Nearer(Front(ls)) + [Last(ls).(delay := Last(ls).delay - 1)];
    }
  }

  datatype Slot = Slot(delay: nat, isStore: bool, paddr: nat)

  /** The list as far as its slots go. */
  function Slots(ls: seq<Line>): (r: seq<Slot>)
    ensures |r| == |ls|
  {
    seq(|ls|, i requires 0 <= i < |ls| => Slot(ls[i].delay, ls[i].isStore, ls[i].paddr))
  }

  ghost predicate AtLeast(r: seq<Slot>, n: nat) {
    forall i | 0 <= i < |r| :: r[i].delay >= n
  }

  function Closer(r: seq<Slot>, n: nat): seq<Slot> {
    seq(|r|, i requires 0 <= i < |r| => r[i].(delay := if r[i].delay >= n then r[i].delay - n else 0))
  }

  lemma SweepSlots(ls: seq<Line>)
    requires AtLeast(Slots(ls), 1)
    ensures Sweep(ls).Ok? && Sweep(ls).value.gone == [] && Sweep(ls).value.ld == None
    ensures Slots(Sweep(ls).value.kept) == Closer(Slots(ls), 1)
    ensures ls != [] ==> Sweep(ls).value.kept != [] && Last(Sweep(ls).value.kept).paddr == Last(ls).paddr
    ensures ls != [] ==> AccessSize(Last(Sweep(ls).value.kept)) == AccessSize(Last(ls))
  {
    assert forall i | 0 <= i < |ls| :: Slots(ls)[i].delay > 0 && ls[i].delay == Slots(ls)[i].delay;
    SweepNoneDue(ls);
    assert Slots(Nearer(ls)) == Closer(Slots(ls), 1);
  }

  /** What the step below needs to know of a state. */
  ghost predicate Looks(s: CacheState, r: seq<Slot>, hits: set<u64>) {
    && Slots(s.lines) == r && s.hitSet == hits
    && s.delaySet == Delays(s.lines)
    && (s.hskQ ==> s.lines != [] && !Misplaced(Last(s.lines)))
  }

  lemma SettleSlots(s: CacheState, r: seq<Slot>, hits: set<u64>)
    requires Looks(s, r, hits)
    ensures Settle(s, false).Ok?
    ensures var t := Settle(s, false).value; Slots(t.lines) == r && t.hitSet == hits && t.req == s.req
  {
    if s.hskQ {
      var ls := Settle(s, false).value.lines;
      assert forall i | 0 <= i < |ls| :: Slots(ls)[i] == Slots(s.lines)[i];
    }
  }

  lemma AcceptSlots(s: CacheState, vld: bool)
    requires |s.lines| < MAX_CACHE_SIZE
    ensures var t := Accept(s, vld);
            && t.hskQ == vld && t.hitSet == s.hitSet
            && Slots(t.lines) == Slots(s.lines) + (if vld then [Slot(s.req.delay, s.req.isStore, s.req.paddr)] else [])
            && (vld ==> t.lines != [] && Last(t.lines) == s.req)
  {
  }

  lemma AnswerSlots(s: CacheState)
    requires AtLeast(Slots(s.lines), 1) && (s.hskQ ==> s.lines != [] && !Misplaced(Last(s.lines)))
    ensures Answer(s).Ok? && Looks(Answer(s).value, Closer(Slots(s.lines), 1), s.hitSet)
    ensures Answer(s).value.hskQ == s.hskQ
  {
    SweepSlots(s.lines);
  }

  /** An edge without a call, when nothing is due. */
  lemma IdleStep(s: CacheState, r: seq<Slot>, hits: set<u64>)
    requires Looks(s, r, hits) && AtLeast(r, 1) && |r| < MAX_CACHE_SIZE
    ensures CacheStep(s, IDLE).Ok? && Looks(CacheStep(s, IDLE).value, Closer(r, 1), hits)
    ensures !CacheStep(s, IDLE).value.hskQ
  {
    SettleSlots(s, r, hits);
    var s1 := Settle(s, false).value;
    AcceptSlots(s1, false);
    AnswerSlots(Accept(s1, false));
  }

  /** An edge that takes a call, when nothing is due. */
  lemma CallStep(s: CacheState, c: Call, l: Line, r: seq<Slot>, hits: set<u64>)
    requires Looks(s, r, hits) && AtLeast(r, 1) && |r| < MAX_CACHE_SIZE
    requires l == Latched(s, c) && !Misplaced(l) && l.delay > 0
    ensures var x := CacheIn(false, Some(c));
            && CacheStep(s, x).Ok?
            && Looks(CacheStep(s, x).value, Closer(r + [Slot(l.delay, l.isStore, l.paddr)], 1), hits)
  {
    var s0 := s.(req := l);
    assert Looks(s0, r, hits);
    SettleSlots(s0, r, hits);
    var s1 := Settle(s0, false).value;
    AcceptSlots(s1, true);
    AnswerSlots(Accept(s1, true));
  }

  /** Edges without a call, one after another. */
  lemma {:induction false} IdleRun(s: CacheState, n: nat, r: seq<Slot>, hits: set<u64>) returns (t: CacheState)
    requires Looks(s, r, hits) && AtLeast(r, n) && |r| < MAX_CACHE_SIZE
    ensures CacheRun(s, Idle(n)) == Ok(t) && Looks(t, Closer(r, n), hits)
    ensures n > 0 ==> !t.hskQ
    decreases n
  {
    if n == 0 {
      assert Closer(r, 0) == r;
      t := s;
    } else {
      IdleStep(s, r, hits);
      IdleTail(r, n);
      t := IdleRun(CacheStep(s, IDLE).value, n - 1, Closer(r, 1), hits);
    }
  }

  lemma IdleTail(r: seq<Slot>, n: nat)
    requires n > 0 && AtLeast(r, n)
    ensures Idle(n)[0] == IDLE && Idle(n)[1..] == Idle(n - 1)
    ensures AtLeast(r, 1) && AtLeast(Closer(r, 1), n - 1) && Closer(Closer(r, 1), n - 1) == Closer(r, n)
  {
  }

  // ----- the run -----

  /** A call, then edges without one. */
  lemma CallThenIdle(s: CacheState, c: Call, l: Line, r0: seq<Slot>, r: seq<Slot>, n: nat, hits: set<u64>)
    returns (t: CacheState)
    requires Looks(s, r0, hits) && AtLeast(r0, 1) && |r0| < MAX_CACHE_SIZE - 1
    requires l == Latched(s, c) && !Misplaced(l) && l.delay > 0
    requires r == Closer(r0 + [Slot(l.delay, l.isStore, l.paddr)], 1) && AtLeast(r, n)
    ensures CacheRun(s, [CacheIn(false, Some(c))] + Idle(n)) == Ok(t)
    ensures Looks(t, Closer(r, n), hits) && (n > 0 ==> !t.hskQ)
  {
    var x := CacheIn(false, Some(c));
    CallStep(s, c, l, r0, hits);
    t := IdleRun(CacheStep(s, x).value, n, r, hits);
    assert ([x] + Idle(n))[1..] == Idle(n);
  }

  lemma LatchedLoad(s: CacheState, pt: u64) returns (l: Line)
    requires s.lines == [] && s.delaySet == Delays(s.lines) && pt !in s.hitSet && pt < 0x1000
    ensures l == Latched(s, Load(pt).call.value) && !Misplaced(l)
    ensures l.delay == 5 && l.paddr == pt * 0x1000 && !l.isStore
  {
    assert s.delaySet == {};
    assert 0 + 0 * 0x40 + pt * 0x1000 == pt * 0x1000;
    l := Latched(s, Load(pt).call.value);
  }

  /** A load that misses an empty cache: it waits until its slot has come. */
  lemma LoadAlone(s: CacheState, pt: u64, n: nat, hits: set<u64>) returns (t: CacheState)
    requires Looks(s, [], hits) && pt !in hits && pt < 0x1000 && n <= 4
    ensures CacheRun(s, [Load(pt)] + Idle(n)) == Ok(t)
    ensures Looks(t, [Slot(4 - n, false, pt * 0x1000)], hits) && (n > 0 ==> !t.hskQ)
  {
    var c := Load(pt).call.value;
    var l := LatchedLoad(s, pt);
    var r := [Slot(4, false, pt * 0x1000)];
    assert Closer([] + [Slot(5, false, pt * 0x1000)], 1) == r;
    t := CallThenIdle(s, c, l, [], r, n, hits);
  }

  /** Its slot comes: it leaves, and its address is remembered. */
  lemma LoadLeaves(s: CacheState, hits: set<u64>, a: u64)
    requires Looks(s, [Slot(0, false, a)], hits) && !s.hskQ
    ensures CacheStep(s, IDLE).Ok? && Looks(CacheStep(s, IDLE).value, [], hits + {a})
  {
    var ls := s.lines;
    assert Slots(ls)[0] == Slot(0, false, a);
    assert ls == [ls[0]] && Front(ls) == [];
    assert Sweep(ls) == SweepOne(Swept([], [], None), ls[0]);
    assert Paddrs([ls[0]]) == {a};
  }

  lemma LatchedStore(s: CacheState) returns (l: Line)
    requires s.hitSet == {0}
    ensures l == Latched(s, Store().call.value) && !Misplaced(l)
    ensures l.delay == 3 && l.paddr == 0x8000 && l.isStore
  {
    l := Latched(s, Store().call.value);
  }

  /** A store that hits takes the slot three edges ahead, which the load already has. */
  lemma StoreHits(s: CacheState, a: u64) returns (t: CacheState)
    requires Looks(s, [Slot(3, false, a)], {0})
    ensures CacheRun(s, [Store()] + Idle(2)) == Ok(t)
    ensures Looks(t, [Slot(0, false, a), Slot(0, true, 0x8000)], {0}) && !t.hskQ
  {
    var c := Store().call.value;
    var l := LatchedStore(s);
    var r := [Slot(2, false, a), Slot(2, true, 0x8000)];
    assert Closer([Slot(3, false, a)] + [Slot(3, true, 0x8000)], 1) == r;
    t := CallThenIdle(s, c, l, [Slot(3, false, a)], r, 2, {0});
    assert Closer(r, 2) == [Slot(0, false, a), Slot(0, true, 0x8000)];
  }

  lemma BothDue(s: CacheState, a: u64, b: u64)
    requires Looks(s, [Slot(0, false, a), Slot(0, true, b)], {0}) && !s.hskQ
    ensures CacheStep(s, IDLE) == Err(MultiResp)
  {
    var ls := s.lines;
    assert Slots(ls)[0] == Slot(0, false, a) && Slots(ls)[1] == Slot(0, true, b);
    assert ls[0].delay == 0 && !ls[0].isStore && ls[1].delay == 0;
    SweepThrowsIff(ls);
  }

  function HitRun(): seq<CacheIn> {
    ([Load(0)] + Idle(4)) + ([IDLE] + (([Load(1)] + Idle(1)) + (([Store()] + Idle(2)) + [IDLE])))
  }

  /** Once a load of page 0 has been answered, every store hits, and a store two edges after a
      load comes due together with it. */
  lemma HitsCollide()
    ensures CacheRun(INIT_CACHE, HitRun()) == Err(MultiResp)
  {
    assert Looks(INIT_CACHE, [], {});
    var s1 := LoadAlone(INIT_CACHE, 0, 4, {});
    LoadLeaves(s1, {}, 0);
    var s2 := CacheStep(s1, IDLE).value;
    assert {} + {0} == {0};
    var s3 := LoadAlone(s2, 1, 1, {0});
    var s4 := StoreHits(s3, 0x1000);
    BothDue(s4, 0x1000, 0x8000);
    RunConcat(INIT_CACHE, [Load(0)] + Idle(4),
              [IDLE] + (([Load(1)] + Idle(1)) + (([Store()] + Idle(2)) + [IDLE])));
    LastParts(s1, s2, s3, s4);
  }

  lemma LastParts(s1: CacheState, s2: CacheState, s3: CacheState, s4: CacheState)
    requires CacheStep(s1, IDLE) == Ok(s2) && CacheRun(s2, [Load(1)] + Idle(1)) == Ok(s3)
    requires CacheRun(s3, [Store()] + Idle(2)) == Ok(s4) && CacheStep(s4, IDLE).Err?
    ensures CacheRun(s1, [IDLE] + (([Load(1)] + Idle(1)) + (([Store()] + Idle(2)) + [IDLE]))) == CacheStep(s4, IDLE)
  {
    var last := ([Store()] + Idle(2)) + [IDLE];
    var mid := ([Load(1)] + Idle(1)) + last;
    assert ([IDLE] + mid)[1..] == mid;
    RunConcat(s2, [Load(1)] + Idle(1), last);
    RunConcat(s3, [Store()] + Idle(2), [IDLE]);
  }
}
