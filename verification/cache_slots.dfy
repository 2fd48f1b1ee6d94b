// Response slots of the fake cache: when two requests can come due at the same clock edge,
// and why they never do for the addresses the test drives.
module CacheSlots {
  import opened Words
  import opened FlatMemory
  import opened L1dTypes
  import opened Loads
  import opened DelaySearch
  import opened Cache

  ghost predicate Distinct(ls: seq<Line>) {
    forall i, j | 0 <= i < j < |ls| :: ls[i].delay != ls[j].delay
  }

  lemma DistinctSnoc(ls: seq<Line>)
    requires ls != []
    ensures Distinct(ls) <==> Distinct(Front(ls)) && Last(ls).delay !in Delays(Front(ls))
    ensures Delays(ls) == Delays(Front(ls)) + {Last(ls).delay as nat}
  {
    var f := Front(ls);
    if Distinct(ls) {
      assert forall i | 0 <= i < |f| :: f[i] == ls[i] && ls[i].delay != ls[|ls| - 1].delay;
    }
    if Distinct(f) && Last(ls).delay !in Delays(f) {
      assert forall i | 0 <= i < |f| :: f[i].delay as nat in Delays(f);
    }
  }

  // ----- the pass over the list -----

  /** The pass throws exactly when a load that is due is followed by another line that is due. */
  lemma {:induction false} SweepThrowsIff(ls: seq<Line>)
    ensures Sweep(ls).Err? <==> exists i, j | 0 <= i < j < |ls| ::
                                  ls[i].delay == 0 && !ls[i].isStore && ls[j].delay == 0
    ensures Sweep(ls).Err? ==> Sweep(ls).error == MultiResp
    ensures Sweep(ls).Ok? ==>
              (Sweep(ls).value.ld.Some? <==> exists i | 0 <= i < |ls| :: ls[i].delay == 0 && !ls[i].isStore)
  {
    if ls != [] {
      var f, l := Front(ls), Last(ls);
      SweepThrowsIff(f);
      if Sweep(f).Ok? && l.delay == 0 && Sweep(f).value.ld.Some? {
        var i :| 0 <= i < |f| && f[i].delay == 0 && !f[i].isStore;
        assert ls[i].delay == 0 && !ls[i].isStore && ls[|ls| - 1].delay == 0;
      }
      if Sweep(f).Err? {
        var i, j :| 0 <= i < j < |f| && f[i].delay == 0 && !f[i].isStore && f[j].delay == 0;
        assert ls[i].delay == 0 && !ls[i].isStore && ls[j].delay == 0;
      }
      assert forall i | 0 <= i < |f| :: f[i] == ls[i];
    }
  }

  lemma DistinctNeverThrows(ls: seq<Line>)
    requires Distinct(ls)
    ensures Sweep(ls).Ok?
  {
    SweepThrowsIff(ls);
  }

  ghost predicate Lowered(ls: seq<Line>, kept: seq<Line>) {
    forall d: nat :: d in Delays(kept) <==> d + 1 in Delays(ls)
  }

  /** The pass keeps the lines that are not due, each one nearer, and keeps them apart. */
  lemma {:induction false} SweepKeepsApart(ls: seq<Line>)
    requires Sweep(ls).Ok?
    ensures Lowered(ls, Sweep(ls).value.kept)
    ensures Distinct(ls) ==> Distinct(Sweep(ls).value.kept)
  {
    if ls != [] {
      SweepKeepsApart(Front(ls));
      DistinctSnoc(ls);
      var before, w := Sweep(Front(ls)).value, Sweep(ls).value;
      if Last(ls).delay > 0 {
        DistinctSnoc(w.kept);
        assert Front(w.kept) == before.kept;
      }
    }
  }

  // ----- one step -----

  /** Whether this step takes a request, and into a slot that is taken. */
  predicate Collides(s1: CacheState, vld: bool) {
    vld && |s1.lines| < MAX_CACHE_SIZE && s1.req.delay as nat in Delays(s1.lines)
  }

  lemma SettleKeepsApart(s: CacheState, kill: bool)
    requires Distinct(s.lines) && Settle(s, kill).Ok?
    ensures Distinct(Settle(s, kill).value.lines)
    ensures Delays(Settle(s, kill).value.lines) <= Delays(s.lines)
    ensures Settle(s, kill).value.req == s.req && Settle(s, kill).value.hitSet == s.hitSet
  {
    if s.hskQ && s.lines != [] {
      var ls := Settle(s, kill).value.lines;
      DistinctSnoc(s.lines);
      if !kill {
        assert Front(ls) == Front(s.lines);
        DistinctSnoc(ls);
      }
    }
  }

  lemma SweepOfSnoc(ls: seq<Line>, l: Line)
    requires Distinct(ls) && l.delay > 0
    ensures Sweep(ls + [l]).Ok?
    ensures Distinct(Sweep(ls + [l]).value.kept) <==> l.delay !in Delays(ls)
  {
    var all := ls + [l];
    assert Front(all) == ls;
    DistinctNeverThrows(ls);
    SweepKeepsApart(ls);
    var kept := Sweep(all).value.kept;
    assert Front(kept) == Sweep(ls).value.kept;
    DistinctSnoc(kept);
    assert l.delay - 1 in Delays(Front(kept)) <==> l.delay in Delays(ls);
  }

  /** From slots that are apart, an eval never throws for two answers at once, and leaves them
      apart exactly when it does not accept a request into a taken slot. */
  lemma StepKeepsApartIff(s: CacheState, kill: bool, vld: bool)
    requires Distinct(s.lines) && Settle(s, kill).Ok? && (vld ==> s.req.delay > 0)
    ensures EvalStep(s, kill, vld).Ok?
    ensures Distinct(EvalStep(s, kill, vld).value.lines) <==> !Collides(Settle(s, kill).value, vld)
  {
    var s1 := Settle(s, kill).value;
    SettleKeepsApart(s, kill);
    if vld && |s1.lines| < MAX_CACHE_SIZE {
      SweepOfSnoc(s1.lines, s.req);
    } else {
      DistinctNeverThrows(s1.lines);
      SweepKeepsApart(s1.lines);
    }
  }

  /** A request that misses is never put into a taken slot. */
  lemma MissNeverCollides(s: CacheState, x: CacheIn)
    requires Settled(s) && Distinct(s.lines) && Settle(Sampled(s, x), x.kill).Ok?
    requires x.call.Some? ==> x.call.value.pt !in s.hitSet
    ensures !Collides(Settle(Sampled(s, x), x.kill).value, x.call.Some?)
    ensures x.call.Some? ==> Sampled(s, x).req.delay >= CACHE_MISS_BASE_DELAY
  {
    SettleKeepsApart(Sampled(s, x), x.kill);
    if x.call.Some? {
      FewDelays(s.lines);
      MissDelayBound(x.call.value.draw, s.delaySet);
    }
  }

  /** A taken slot is only ever given to a hit, when another line waits three edges ahead. */
  lemma CollidesIffHit(s: CacheState, x: CacheIn)
    requires Settled(s) && Distinct(s.lines) && Settle(Sampled(s, x), x.kill).Ok?
    ensures var s1 := Settle(Sampled(s, x), x.kill).value;
            Collides(s1, x.call.Some?) <==>
            x.call.Some? && |s1.lines| < MAX_CACHE_SIZE && x.call.value.pt in s.hitSet
            && CACHE_HIT_BASE_DELAY in Delays(s1.lines)
  {
    SettleKeepsApart(Sampled(s, x), x.kill);
    if x.call.Some? && x.call.value.pt !in s.hitSet {
      MissNeverCollides(s, x);
    }
  }

  /** From distinct slots no edge throws for two answers, and slots stay distinct exactly if no
      request is accepted that hits while another line waits three edges ahead. */
  lemma SlotsStayApartIff(s: CacheState, x: CacheIn)
    requires Settled(s) && Distinct(s.lines) && Settle(Sampled(s, x), x.kill).Ok?
    ensures CacheStep(s, x).Ok?
    ensures var s1 := Settle(Sampled(s, x), x.kill).value;
            !Distinct(CacheStep(s, x).value.lines) <==>
            x.call.Some? && |s1.lines| < MAX_CACHE_SIZE && x.call.value.pt in s.hitSet
            && CACHE_HIT_BASE_DELAY in Delays(s1.lines)
  {
    if x.call.Some? {
      LatchedWaits(s, x.call.value);
    }
    CollidesIffHit(s, x);
    StepKeepsApartIff(Sampled(s, x), x.kill, x.call.Some?);
  }

  // ----- the addresses the test drives -----

  predicate InDataRange(paddr: nat) {
    DATA_PADDR_BASE <= paddr < DATA_PADDR_UPPER
  }

  /** A call for a data address: index and offset of six bits, a twenty-bit tag for a load and
      none for a store, and the double-word alignment of every generated address. */
  predicate DataCall(c: Call) {
    && InDataRange(PaddrOf(c)) && PaddrOf(c) % 8 == 0
    && if c.isStore then c.pt == 0 else c.vo < 0x40 && c.vi < 0x40 && c.pt < 0x10_0000
  }

  predicate DataIn(x: CacheIn) {
    x.call.Some? ==> DataCall(x.call.value)
  }

  predicate GoodLine(l: Line) {
    InDataRange(l.paddr) && l.paddr % 8 == 0
  }

  ghost predicate SlotInv(s: CacheState) {
    && Settled(s) && Distinct(s.lines)
    && (forall l | l in s.lines :: GoodLine(l))
    && (forall h | h in s.hitSet :: InDataRange(h))
  }

  /** The hit set holds whole addresses, the lookup is by tag: on data addresses it always misses. */
  lemma LookupMisses(s: CacheState, c: Call)
    requires SlotInv(s) && DataCall(c)
    ensures c.pt !in s.hitSet
  {
    assert c.pt < DATA_PADDR_BASE;
  }

  lemma DoubleAligned(a: nat, n: nat)
    requires a % 8 == 0 && (n == 1 || n == 2 || n == 4 || n == 8)
    ensures a % n == 0
  {
    var q := a / 8;
    if n == 2 {
      assert a == 2 * (4 * q);
    } else if n == 4 {
      assert a == 4 * (2 * q);
    }
  }

  lemma GoodNeverMisplaced(l: Line)
    requires GoodLine(l)
    ensures !Misplaced(l)
  {
    assert l.paddr % 0x1_0000 % 8 == 0;
    DoubleAligned(l.paddr % 0x1_0000, AccessSize(l));
  }

  lemma {:induction false} SweepOnlyCounts(ls: seq<Line>)
    requires Sweep(ls).Ok? && (forall l | l in ls :: GoodLine(l))
    ensures forall l | l in Sweep(ls).value.kept :: GoodLine(l)
    ensures forall l | l in Sweep(ls).value.gone :: GoodLine(l)
  {
    if ls != [] {
      SweepOnlyCounts(Front(ls));
      assert Last(ls) in ls;
    }
  }

  lemma SettleKeepsGood(s: CacheState, kill: bool)
    requires forall l | l in s.lines :: GoodLine(l)
    ensures Settle(s, kill).Ok?
    ensures forall l | l in Settle(s, kill).value.lines :: GoodLine(l)
  {
    if s.hskQ && s.lines != [] && !kill {
      assert Last(s.lines) in s.lines;
      GoodNeverMisplaced(Last(s.lines));
    }
  }

  lemma AnswerKeepsGood(s: CacheState)
    requires Answer(s).Ok?
    requires (forall l | l in s.lines :: GoodLine(l)) && (forall h | h in s.hitSet :: InDataRange(h))
    ensures var t := Answer(s).value;
            (forall l | l in t.lines :: GoodLine(l)) && (forall h | h in t.hitSet :: InDataRange(h))
  {
    SweepOnlyCounts(s.lines);
  }

  lemma StepKeepsSlotInv(s: CacheState, x: CacheIn)
    requires SlotInv(s) && DataIn(x)
    ensures CacheStep(s, x).Ok? && SlotInv(CacheStep(s, x).value)
  {
    var s0 := Sampled(s, x);
    if x.call.Some? {
      LookupMisses(s, x.call.value);
    }
    SettleKeepsGood(s0, x.kill);
    MissNeverCollides(s, x);
    StepKeepsApartIff(s0, x.kill, x.call.Some?);
    EvalSettles(s0, x.kill, x.call.Some?);
    SettleKeepsApart(s0, x.kill);
    AnswerKeepsGood(Accept(Settle(s0, x.kill).value, x.call.Some?));
  }

  /** Driven with data addresses the cache never throws, and no two queued requests ever share a slot. */
  lemma {:induction false} NeverThrows(s: CacheState, xs: seq<CacheIn>)
    requires SlotInv(s) && forall x | x in xs :: DataIn(x)
    ensures CacheRun(s, xs).Ok? && SlotInv(CacheRun(s, xs).value)
    decreases xs
  {
    if xs != [] {
      assert xs[0] in xs;
      StepKeepsSlotInv(s, xs[0]);
      NeverThrows(CacheStep(s, xs[0]).value, xs[1..]);
    }
  }

  lemma InitSlotInv()
    ensures SlotInv(INIT_CACHE)
  {
  }

  lemma {:induction false} RunConcat(s: CacheState, xs: seq<CacheIn>, ys: seq<CacheIn>)
    requires CacheRun(s, xs).Ok?
    ensures CacheRun(s, xs + ys) == CacheRun(CacheRun(s, xs).value, ys)
    decreases xs
  {
    if xs == [] {
      assert xs + ys == ys;
    } else {
      assert (xs + ys)[1..] == xs[1..] + ys;
      RunConcat(CacheStep(s, xs[0]).value, xs[1..], ys);
    }
  }
}
