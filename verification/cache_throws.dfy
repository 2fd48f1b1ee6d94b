// When the fake cache throws "l1d has multi resp in a tik": exactly when a request hits while a
// load waits three edges ahead, and is not killed at the next edge.
module CacheThrows {
  import opened Words
  import opened FlatMemory
  import opened L1dTypes
  import opened Cache
  import opened CacheSlots

  /** The lines in slot `d`, front to back: for each whether it is a store. */
  function At(ls: seq<Line>, d: nat): seq<bool> {
    if ls == [] then [] else At(Front(ls), d) + (if Last(ls).delay == d then [Last(ls).isStore] else [])
  }

  function Lowered(l: Line): Line {
    if l.delay > 0 then l.(delay := l.delay - 1) else l
  }

  lemma AtSnoc(ls: seq<Line>, l: Line, d: nat)
    ensures At(ls + [l], d) == At(ls, d) + (if l.delay == d then [l.isStore] else [])
  {
    assert Front(ls + [l]) == ls;
  }

  lemma {:induction false} AtFinds(ls: seq<Line>, d: nat)
    ensures At(ls, d) != [] <==> d in Delays(ls)
  {
    if ls != [] {
      AtFinds(Front(ls), d);
      assert Delays(ls) == Delays(Front(ls)) + {Last(ls).delay as nat};
    }
  }

  // ----- one pass -----

  /** A load of slot 0 with something of that slot behind it. */
  predicate LoadFollowed(due: seq<bool>) {
    exists i | 0 <= i < |due| - 1 :: !due[i]
  }

  lemma LoadFollowedSnoc(due: seq<bool>, b: bool)
    ensures LoadFollowed(due + [b]) <==> false in due
  {
    if false in due {
      var i :| 0 <= i < |due| && due[i] == false;
      assert (due + [b])[i] == false;
    }
    if LoadFollowed(due + [b]) {
      var i :| 0 <= i < |due| && !(due + [b])[i];
      assert due[i] == false;
    }
  }

  lemma LoadFollowedEarlier(due: seq<bool>)
    requires LoadFollowed(due)
    ensures false in due
  {
  }

  /** The pass throws exactly if a due load is followed by a due line. */
  lemma {:induction false} SweepAtZero(ls: seq<Line>)
    ensures Sweep(ls).Err? <==> LoadFollowed(At(ls, 0))
    ensures Sweep(ls).Err? ==> Sweep(ls) == Err(MultiResp)
    ensures Sweep(ls).Ok? ==> (Sweep(ls).value.ld.Some? <==> false in At(ls, 0))
  {
    if ls != [] {
      SweepAtZero(Front(ls));
      var due := At(Front(ls), 0);
      if Last(ls).delay == 0 {
        LoadFollowedSnoc(due, Last(ls).isStore);
        if LoadFollowed(due) {
          LoadFollowedEarlier(due);
        }
      } else {
        assert At(ls, 0) == due;
      }
    }
  }

  /** What it keeps has moved one slot nearer. */
  lemma {:induction false} SweepMovesSlots(ls: seq<Line>, d: nat)
    requires Sweep(ls).Ok?
    ensures At(Sweep(ls).value.kept, d) == At(ls, d + 1)
  {
    if ls != [] {
      SweepMovesSlots(Front(ls), d);
      var before := Sweep(Front(ls)).value.kept;
      if Last(ls).delay > 0 {
        AtSnoc(before, Lowered(Last(ls)), d);
      } else {
        assert At(ls, d + 1) == At(Front(ls), d + 1);
      }
    }
  }

  // ----- what every state keeps -----

  /** From slot 3 on slots are not shared, and the line pending is in slot 2 or later. */
  ghost predicate SlotsInv(s: CacheState) {
    && Settled(s)
    && (forall d | d >= 3 :: |At(s.lines, d)| <= 1)
    && (s.hskQ ==> Last(s.lines).delay >= 2)
  }

  /** Settling takes the killed line out of its slot and leaves every other slot alone. */
  lemma SettleAt(s: CacheState, kill: bool, d: nat)
    requires Settle(s, kill).Ok? && (s.hskQ ==> s.lines != [])
    ensures var t := Settle(s, kill).value;
            At(t.lines, d) == if s.hskQ && kill then At(Front(s.lines), d) else At(s.lines, d)
  {
    if s.hskQ && !kill {
      var ls := Settle(s, kill).value.lines;
      assert Front(ls) == Front(s.lines);
    }
  }

  lemma FrontAt(ls: seq<Line>, d: nat)
    requires ls != []
    ensures |At(Front(ls), d)| <= |At(ls, d)|
    ensures Last(ls).delay != d ==> At(Front(ls), d) == At(ls, d)
  {
  }

  predicate Takes(s1: CacheState, x: CacheIn) {
    x.call.Some? && |s1.lines| < MAX_CACHE_SIZE
  }

  /** The state at an edge once the pending line is executed or killed. */
  function SettledAt(s: CacheState, x: CacheIn): CacheState
    requires Settle(Sampled(s, x), x.kill).Ok?
  {
    Settle(Sampled(s, x), x.kill).value
  }

  /** What the latched request's delay says: three exactly for a hit, otherwise a free slot from
      the fifth on. */
  lemma LatchedSlot(s: CacheState, c: Call)
    requires Settled(s)
    ensures c.pt in s.hitSet ==> Latched(s, c).delay == CACHE_HIT_BASE_DELAY
    ensures c.pt !in s.hitSet ==> Latched(s, c).delay >= CACHE_MISS_BASE_DELAY && Latched(s, c).delay !in s.delaySet
  {
    FewDelays(s.lines);
    MissDelayBound(c.draw, s.delaySet);
  }

  lemma SweepWithNew(ls: seq<Line>, l: Line)
    requires l.delay > 0
    ensures Sweep(ls + [l]).Ok? == Sweep(ls).Ok?
    ensures Sweep(ls).Ok? ==> Sweep(ls + [l]).value.kept == Sweep(ls).value.kept + [Lowered(l)]
    ensures Sweep(ls).Err? ==> Sweep(ls + [l]) == Sweep(ls)
  {
    assert Front(ls + [l]) == ls;
  }

  /** One edge: the settled lines that are not due, each one nearer, and the new request behind. */
  lemma StepLines(s: CacheState, x: CacheIn)
    requires Settled(s) && CacheStep(s, x).Ok?
    ensures var s1, t := SettledAt(s, x), CacheStep(s, x).value;
            && t.hskQ == Takes(s1, x) && Sweep(s1.lines).Ok?
            && t.lines == Sweep(s1.lines).value.kept +
               (if Takes(s1, x) then [Lowered(Latched(s, x.call.value))] else [])
  {
    if Takes(SettledAt(s, x), x) {
      LatchedWaits(s, x.call.value);
      SweepWithNew(SettledAt(s, x).lines, Latched(s, x.call.value));
    }
  }

  /** Every slot moves nearer by one, and the new request is in the slot latched. */
  lemma StepAt(s: CacheState, x: CacheIn, d: nat)
    requires Settled(s) && CacheStep(s, x).Ok?
    ensures var s1, t := SettledAt(s, x), CacheStep(s, x).value;
            && t.hskQ == Takes(s1, x)
            && (t.hskQ ==> t.lines != [] && At(Front(t.lines), d) == At(s1.lines, d + 1)
                           && Last(t.lines).delay == Latched(s, x.call.value).delay - 1)
            && At(t.lines, d) == At(s1.lines, d + 1) +
               (if t.hskQ && Latched(s, x.call.value).delay == d + 1 then [x.call.value.isStore] else [])
  {
    var ls := SettledAt(s, x).lines;
    StepLines(s, x);
    SweepMovesSlots(ls, d);
    if Takes(SettledAt(s, x), x) {
      LatchedWaits(s, x.call.value);
      BehindKept(Sweep(ls).value.kept, Latched(s, x.call.value), d);
    }
  }

  lemma BehindKept(kept: seq<Line>, l: Line, d: nat)
    requires l.delay > 0
    ensures Front(kept + [Lowered(l)]) == kept && Last(kept + [Lowered(l)]).delay == l.delay - 1
    ensures At(kept + [Lowered(l)], d) == At(kept, d) + (if l.delay == d + 1 then [l.isStore] else [])
  {
    AtSnoc(kept, Lowered(l), d);
  }

  lemma NewInFreeSlot(s: CacheState, c: Call, d: nat)
    requires Settled(s) && d >= 3
    ensures Latched(s, c).delay == d + 1 ==> d + 1 !in s.delaySet
  {
    LatchedSlot(s, c);
  }

  lemma SlotStaysSmall(s: CacheState, x: CacheIn, d: nat)
    requires SlotsInv(s) && CacheStep(s, x).Ok? && d >= 3
    ensures |At(CacheStep(s, x).value.lines, d)| <= 1
  {
    StepAt(s, x, d);
    SettledSlotSmall(s, x, d + 1);
    if x.call.Some? {
      NewInFreeSlot(s, x.call.value, d);
    }
  }

  lemma PendingIsFar(s: CacheState, x: CacheIn)
    requires SlotsInv(s) && CacheStep(s, x).Ok?
    ensures var t := CacheStep(s, x).value; t.hskQ ==> t.lines != [] && Last(t.lines).delay >= 2
  {
    StepAt(s, x, 0);
    if x.call.Some? {
      LatchedSlot(s, x.call.value);
    }
  }

  lemma StepKeepsSlotsInv(s: CacheState, x: CacheIn)
    requires SlotsInv(s) && CacheStep(s, x).Ok?
    ensures SlotsInv(CacheStep(s, x).value)
  {
    if x.call.Some? {
      LatchedWaits(s, x.call.value);
    }
    EvalSettles(Sampled(s, x), x.kill, x.call.Some?);
    PendingIsFar(s, x);
    forall d | d >= 3
      ensures |At(CacheStep(s, x).value.lines, d)| <= 1
    {
      SlotStaysSmall(s, x, d);
    }
  }

  lemma SettledSlotSmall(s: CacheState, x: CacheIn, d: nat)
    requires SlotsInv(s) && Settle(Sampled(s, x), x.kill).Ok? && d >= 3
    ensures |At(SettledAt(s, x).lines, d)| <= 1
    ensures d !in s.delaySet ==> At(SettledAt(s, x).lines, d) == []
  {
    SettleAt(Sampled(s, x), x.kill, d);
    AtFinds(s.lines, d);
    if s.hskQ {
      FrontAt(s.lines, d);
    }
  }

  // ----- four edges -----

  /** A request is accepted that hits, while a load waits in the slot every hit gets. */
  predicate HitOnLoad(s: CacheState, x: CacheIn) {
    && Settle(Sampled(s, x), x.kill).Ok?
    && Takes(SettledAt(s, x), x)
    && x.call.value.pt in s.hitSet
    && LoadWaits(SettledAt(s, x).lines)
  }

  predicate LoadWaits(ls: seq<Line>) {
    exists i | 0 <= i < |ls| :: ls[i].delay == CACHE_HIT_BASE_DELAY && !ls[i].isStore
  }

  lemma {:induction false} LoadWaitsAt(ls: seq<Line>)
    ensures LoadWaits(ls) <==> false in At(ls, CACHE_HIT_BASE_DELAY)
    decreases |ls|
  {
    if ls != [] {
      var f := Front(ls);
      LoadWaitsAt(f);
      assert forall i | 0 <= i < |f| :: f[i] == ls[i];
    }
  }

  /** Slots nearer than two are not touched by a kill or by a new request. */
  lemma NearSlot(s: CacheState, x: CacheIn, d: nat)
    requires SlotsInv(s) && CacheStep(s, x).Ok? && d == 0
    ensures At(CacheStep(s, x).value.lines, d) == At(s.lines, d + 1)
  {
    StepAt(s, x, d);
    SettleAt(Sampled(s, x), x.kill, d + 1);
    if s.hskQ {
      FrontAt(s.lines, d + 1);
    }
    if x.call.Some? {
      LatchedSlot(s, x.call.value);
    }
  }

  /** The edge after: the killed request leaves its slot. */
  lemma KillSlot(s: CacheState, y: CacheIn)
    requires SlotsInv(s) && CacheStep(s, y).Ok?
    ensures At(CacheStep(s, y).value.lines, 1) == if s.hskQ && y.kill then At(Front(s.lines), 2) else At(s.lines, 2)
  {
    StepAt(s, y, 1);
    SettleAt(Sampled(s, y), y.kill, 2);
    if y.call.Some? {
      LatchedSlot(s, y.call.value);
    }
  }

  /** Settling leaves the slot that is due alone. */
  lemma SettledDue(s: CacheState, w: CacheIn)
    requires SlotsInv(s) && Settle(Sampled(s, w), w.kill).Ok?
    ensures At(SettledAt(s, w).lines, 0) == At(s.lines, 0)
  {
    SettleAt(Sampled(s, w), w.kill, 0);
    if s.hskQ {
      FrontAt(s.lines, 0);
    }
  }

  /** The edge throws exactly if the pass over the settled lines does. */
  lemma StepThrows(s: CacheState, w: CacheIn)
    requires Settled(s) && Settle(Sampled(s, w), w.kill).Ok?
    ensures CacheStep(s, w) == Err(MultiResp) <==> Sweep(SettledAt(s, w).lines) == Err(MultiResp)
  {
    var s1 := SettledAt(s, w);
    if Takes(s1, w) {
      LatchedWaits(s, w.call.value);
      SweepWithNew(s1.lines, Latched(s, w.call.value));
    }
  }

  /** The edge throws exactly if a load is due and is followed by a line that is due. */
  lemma DueThrows(s: CacheState, w: CacheIn)
    requires SlotsInv(s) && Settle(Sampled(s, w), w.kill).Ok?
    ensures CacheStep(s, w) == Err(MultiResp) <==> LoadFollowed(At(s.lines, 0))
  {
    SettledDue(s, w);
    SweepAtZero(SettledAt(s, w).lines);
    StepThrows(s, w);
  }

  lemma OneOrTwo(one: seq<bool>, b: bool)
    requires |one| <= 1
    ensures !LoadFollowed(one)
    ensures LoadFollowed(one + [b]) <==> false in one
  {
    LoadFollowedSnoc(one, b);
  }

  /** What slot 2 holds after an edge: what slot 3 held, and a hit accepted. */
  lemma FirstEdge(s: CacheState, x: CacheIn, t: CacheState) returns (one: seq<bool>, hit: seq<bool>)
    requires SlotsInv(s) && CacheStep(s, x) == Ok(t)
    ensures SlotsInv(t) && |one| <= 1 && |hit| <= 1 && At(t.lines, 2) == one + hit
    ensures t.hskQ ==> At(Front(t.lines), 2) == one
    ensures hit != [] ==> t.hskQ
    ensures HitOnLoad(s, x) <==> hit != [] && false in one
  {
    StepKeepsSlotsInv(s, x);
    StepAt(s, x, 2);
    var s1 := SettledAt(s, x);
    LoadWaitsAt(s1.lines);
    SettledSlotSmall(s, x, 3);
    one, hit := At(s1.lines, 3), [];
    if Takes(s1, x) {
      LatchedSlot(s, x.call.value);
      hit := if x.call.value.pt in s.hitSet then [x.call.value.isStore] else [];
    }
  }

  /** Three edges after any edge: the slot that a hit got then is due, and the cache throws exactly
      if a hit was accepted behind a waiting load and not killed at the next edge. */
  lemma ThrowsAfterHit(s: CacheState, x: CacheIn, t1: CacheState, y: CacheIn, t2: CacheState, z: CacheIn,
                       t3: CacheState, w: CacheIn)
    requires SlotsInv(s) && CacheStep(s, x) == Ok(t1) && CacheStep(t1, y) == Ok(t2) && CacheStep(t2, z) == Ok(t3)
    requires Settle(Sampled(t3, w), w.kill).Ok?
    ensures CacheStep(t3, w) == Err(MultiResp) <==> HitOnLoad(s, x) && !y.kill
  {
    var one, hit := FirstEdge(s, x, t1);
    var due := DueIs(t1, y, t2, z, t3);
    DueThrows(t3, w);
    assert one + [] == one;
    if hit != [] {
      assert hit == [hit[0]];
      OneOrTwo(one, hit[0]);
    }
    OneOrTwo(one, false);
  }

  lemma DueIs(t1: CacheState, y: CacheIn, t2: CacheState, z: CacheIn, t3: CacheState) returns (due: seq<bool>)
    requires SlotsInv(t1) && CacheStep(t1, y) == Ok(t2) && CacheStep(t2, z) == Ok(t3)
    ensures SlotsInv(t3) && At(t3.lines, 0) == due
    ensures due == if t1.hskQ && y.kill then At(Front(t1.lines), 2) else At(t1.lines, 2)
  {
    StepKeepsSlotsInv(t1, y);
    StepKeepsSlotsInv(t2, z);
    KillSlot(t1, y);
    NearSlot(t2, z, 0);
    due := At(t3.lines, 0);
  }

  // ----- whole runs -----

  lemma {:induction false} RunKeepsSlotsInv(s: CacheState, xs: seq<CacheIn>)
    requires SlotsInv(s) && CacheRun(s, xs).Ok?
    ensures SlotsInv(CacheRun(s, xs).value)
    decreases xs
  {
    if xs != [] {
      StepKeepsSlotsInv(s, xs[0]);
      RunKeepsSlotsInv(CacheStep(s, xs[0]).value, xs[1..]);
    }
  }

  lemma InitSlotsInv()
    ensures SlotsInv(INIT_CACHE)
  {
  }

  function Prefix(xs: seq<CacheIn>, k: nat): Result<CacheState, CacheError>
    requires k <= |xs|
  {
    CacheRun(INIT_CACHE, xs[..k])
  }

  /** One edge more. */
  lemma PrefixNext(xs: seq<CacheIn>, k: nat)
    requires k < |xs| && Prefix(xs, k).Ok?
    ensures Prefix(xs, k + 1) == CacheStep(Prefix(xs, k).value, xs[k])
  {
    var t := Prefix(xs, k).value;
    assert xs[..k + 1] == xs[..k] + [xs[k]];
    RunConcat(INIT_CACHE, xs[..k], [xs[k]]);
    RunOfOne(t, xs[k]);
  }

  lemma RunOfOne(s: CacheState, x: CacheIn)
    ensures CacheRun(s, [x]) == CacheStep(s, x)
  {
    assert [x][1..] == [];
    if CacheStep(s, x).Ok? {
      assert CacheRun(CacheStep(s, x).value, []) == CacheStep(s, x);
    }
  }

  /** A run that has come through `k` edges has come through each of them. */
  lemma {:induction false} PrefixOk(xs: seq<CacheIn>, j: nat, k: nat)
    requires j <= k <= |xs| && Prefix(xs, k).Ok?
    ensures Prefix(xs, j).Ok?
    decreases k - j
  {
    if j < k {
      PrefixBack(xs, k - 1);
      PrefixOk(xs, j, k - 1);
    }
  }

  lemma {:induction false} RunErrs(s: CacheState, xs: seq<CacheIn>, ys: seq<CacheIn>)
    requires CacheRun(s, xs).Err?
    ensures CacheRun(s, xs + ys) == CacheRun(s, xs)
    decreases xs
  {
    if CacheStep(s, xs[0]).Ok? {
      assert (xs + ys)[1..] == xs[1..] + ys;
      RunErrs(CacheStep(s, xs[0]).value, xs[1..], ys);
    }
  }

  lemma PrefixBack(xs: seq<CacheIn>, k: nat)
    requires k < |xs| && Prefix(xs, k + 1).Ok?
    ensures Prefix(xs, k).Ok?
  {
    assert xs[..k + 1] == xs[..k] + [xs[k]];
    if Prefix(xs, k).Err? {
      RunErrs(INIT_CACHE, xs[..k], [xs[k]]);
    }
  }

  /** A run that fails has a first edge at which it does. */
  lemma {:induction false} FirstFailure(xs: seq<CacheIn>, n: nat) returns (e: nat)
    requires n <= |xs| && Prefix(xs, n).Err?
    ensures e < n && Prefix(xs, e).Ok? && CacheStep(Prefix(xs, e).value, xs[e]) == Err(Prefix(xs, n).error)
  {
    if Prefix(xs, n - 1).Ok? {
      e := n - 1;
      PrefixNext(xs, e);
    } else {
      e := FirstFailure(xs, n - 1);
      assert xs[..n] == xs[..n - 1] + [xs[n - 1]];
      RunErrs(INIT_CACHE, xs[..n - 1], [xs[n - 1]]);
    }
  }

  /** The first three edges find nothing due. */
  lemma NothingDueEarly(xs: seq<CacheIn>, e: nat)
    requires e <= 2 && e <= |xs| && Prefix(xs, e).Ok?
    ensures SlotsInv(Prefix(xs, e).value) && At(Prefix(xs, e).value.lines, 0) == []
  {
    InitSlotsInv();
    RunKeepsSlotsInv(INIT_CACHE, xs[..e]);
    if e == 1 {
      StartNext(xs);
      EmptyEarly(xs[0], 0);
    } else if e == 2 {
      PrefixOk(xs, 1, 2);
      StartNext(xs);
      PrefixNext(xs, 1);
      StepKeepsSlotsInv(INIT_CACHE, xs[0]);
      EmptyEarly(xs[0], 1);
      SecondEmpty(Prefix(xs, 1).value, xs[1]);
    }
  }

  lemma StartNext(xs: seq<CacheIn>)
    requires xs != []
    ensures Prefix(xs, 1) == CacheStep(INIT_CACHE, xs[0])
  {
    assert xs[..0] == [];
    PrefixNext(xs, 0);
  }

  lemma SecondEmpty(t1: CacheState, y: CacheIn)
    requires SlotsInv(t1) && At(t1.lines, 1) == [] && CacheStep(t1, y).Ok?
    ensures At(CacheStep(t1, y).value.lines, 0) == []
  {
    NearSlot(t1, y, 0);
  }

  lemma EmptyEarly(x: CacheIn, d: nat)
    requires d <= 1 && CacheStep(INIT_CACHE, x).Ok?
    ensures At(CacheStep(INIT_CACHE, x).value.lines, d) == []
  {
    StepAt(INIT_CACHE, x, d);
    if x.call.Some? {
      LatchedSlot(INIT_CACHE, x.call.value);
    }
  }

  /** Edge `k` of a run accepts a hit behind a waiting load, edge `k + 1` does not kill it, and the
      run gets as far as settling edge `k + 3`. */
  ghost predicate HitComesDue(xs: seq<CacheIn>, k: nat) {
    && k + 3 < |xs| && Prefix(xs, k).Ok? && HitOnLoad(Prefix(xs, k).value, xs[k]) && !xs[k + 1].kill
    && Prefix(xs, k + 3).Ok? && Settle(Sampled(Prefix(xs, k + 3).value, xs[k + 3]), xs[k + 3].kill).Ok?
  }

  lemma DueAfterThree(xs: seq<CacheIn>, k: nat)
    requires k + 3 < |xs| && Prefix(xs, k + 3).Ok?
    requires Settle(Sampled(Prefix(xs, k + 3).value, xs[k + 3]), xs[k + 3].kill).Ok?
    ensures CacheStep(Prefix(xs, k + 3).value, xs[k + 3]) == Err(MultiResp) <==> HitComesDue(xs, k)
  {
    PrefixOk(xs, k, k + 3);
    PrefixOk(xs, k + 1, k + 3);
    PrefixOk(xs, k + 2, k + 3);
    PrefixNext(xs, k);
    PrefixNext(xs, k + 1);
    PrefixNext(xs, k + 2);
    InitSlotsInv();
    RunKeepsSlotsInv(INIT_CACHE, xs[..k]);
    ThrowsAfterHit(Prefix(xs, k).value, xs[k], Prefix(xs, k + 1).value, xs[k + 1], Prefix(xs, k + 2).value, xs[k + 2],
                   Prefix(xs, k + 3).value, xs[k + 3]);
  }

  lemma ThrowHasCause(xs: seq<CacheIn>) returns (k: nat)
    requires CacheRun(INIT_CACHE, xs) == Err(MultiResp)
    ensures HitComesDue(xs, k)
  {
    assert xs[..|xs|] == xs;
    var e := FirstFailure(xs, |xs|);
    var u := Prefix(xs, e).value;
    if e <= 2 {
      NothingDueEarly(xs, e);
      DueThrows(u, xs[e]);
    } else {
      DueAfterThree(xs, e - 3);
    }
    k := e - 3;
  }

  lemma CauseThrows(xs: seq<CacheIn>, k: nat)
    requires HitComesDue(xs, k)
    ensures CacheRun(INIT_CACHE, xs) == Err(MultiResp)
  {
    DueAfterThree(xs, k);
    PrefixNext(xs, k + 3);
    PrefixErrs(INIT_CACHE, xs, k + 4);
  }

  lemma PrefixErrs(s: CacheState, xs: seq<CacheIn>, n: nat)
    requires n <= |xs| && CacheRun(s, xs[..n]).Err?
    ensures CacheRun(s, xs) == CacheRun(s, xs[..n])
  {
    assert xs == xs[..n] + xs[n..];
    RunErrs(s, xs[..n], xs[n..]);
  }

  /** A run ends in "l1d has multi resp in a tik" exactly if some edge in it accepts a hit behind a
      waiting load, the next edge does not kill it, and the run gets as far as the slot. */
  lemma MultiRespIff(xs: seq<CacheIn>)
    ensures CacheRun(INIT_CACHE, xs) == Err(MultiResp) <==> exists k: nat :: HitComesDue(xs, k)
  {
    if CacheRun(INIT_CACHE, xs) == Err(MultiResp) {
      var k := ThrowHasCause(xs);
    }
    if k: nat :| HitComesDue(xs, k) {
      CauseThrows(xs, k);
    }
  }
}
