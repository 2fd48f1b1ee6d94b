// The fake cache seen from the calls it is given: which call each answer belongs to, at which
// edge it comes, and which addresses count as hits afterwards.
module CacheCalls {
  import opened Words
  import opened FlatMemory
  import opened L1dTypes
  import opened Loads
  import opened Cache
  import opened CacheSlots
  import opened CacheRuns

  /** A call the cache has taken: the address it stands for, and the edge its slot is at. */
  datatype Asked = Asked(call: Call, paddr: u64, due: nat)

  /** A run with the calls taken and not killed, and the one taken at the last edge. */
  datatype Watch = Watch(h: History, now: nat, asked: seq<Asked>, pending: seq<Asked>)

  const INIT_WATCH: Watch := Watch(INIT_HISTORY, 0, [], [])

  function AskedAfter(w: Watch, kill: bool): seq<Asked> {
    if kill then w.asked else w.asked + w.pending
  }

  function AskedFor(s: CacheState, c: Call, now: nat): Asked {
    Asked(c, Latched(s, c).paddr, now + Latched(s, c).delay)
  }

  /** The call taken at an edge from `s` to `t`. */
  function NewlyAsked(s: CacheState, x: CacheIn, t: CacheState, now: nat): seq<Asked> {
    if t.hskQ && x.call.Some? then [AskedFor(s, x.call.value, now)] else []
  }

  function WatchStep(w: Watch, x: CacheIn): Result<Watch, CacheError> {
    match HistoryStep(w.h, x)
    case Err(e) => Err(e)
    case Ok(t) =>
      Ok(Watch(t, w.now + 1, AskedAfter(w, x.kill), NewlyAsked(w.h.s, x, t.s, w.now)))
  }

  function WatchRun(w: Watch, xs: seq<CacheIn>): Result<Watch, CacheError>
    decreases xs
  {
    if xs == [] then Ok(w)
    else
      match WatchStep(w, xs[0])
      case Err(e) => Err(e)
      case Ok(t) => WatchRun(t, xs[1..])
  }

  /** Watching changes nothing. */
  lemma {:induction false} WatchIsRun(w: Watch, xs: seq<CacheIn>)
    ensures match HistoryRun(w.h, xs)
            case Err(e) => WatchRun(w, xs) == Err(e)
            case Ok(t) =>
              WatchRun(w, xs).Ok? && WatchRun(w, xs).value.h == t && WatchRun(w, xs).value.now == w.now + |xs|
    decreases xs
  {
    if xs != [] && HistoryStep(w.h, xs[0]).Ok? {
      WatchIsRun(WatchStep(w, xs[0]).value, xs[1..]);
    }
  }

  // ----- calls and requests -----

  ghost predicate AllNamed(done: seq<Line>, asked: seq<Asked>) {
    |done| == |asked| &&
    forall k | 0 <= k < |done| :: Names(done[k], asked[k].call) && done[k].paddr == asked[k].paddr
  }

  ghost predicate CallsInv(h: History, asked: seq<Asked>, pending: seq<Asked>) {
    && AllNamed(h.done, asked)
    && AllNamed(if h.s.hskQ then [h.s.req] else [], pending)
  }

  lemma NamedMore(done: seq<Line>, asked: seq<Asked>, r: seq<Line>, more: seq<Asked>)
    requires AllNamed(done, asked) && AllNamed(r, more)
    ensures AllNamed(done + r, asked + more)
  {
  }

  lemma SettledCalls(h: History, asked: seq<Asked>, pending: seq<Asked>, kill: bool)
    requires CallsInv(h, asked, pending)
    ensures AllNamed(DoneAfter(h, kill), if kill then asked else asked + pending)
  {
    if !kill {
      NamedMore(h.done, asked, if h.s.hskQ then [h.s.req] else [], pending);
      assert h.done + [] == h.done;
    }
  }

  // ----- the stages of an edge -----

  /** The states an edge passes through. */
  ghost predicate Stages(s: CacheState, x: CacheIn, s1: CacheState, s2: CacheState, t: CacheState) {
    Settle(Sampled(s, x), x.kill) == Ok(s1) && s2 == Accept(s1, x.call.Some?) && Answer(s2) == Ok(t)
  }

  lemma StagesOf(s: CacheState, x: CacheIn, t: CacheState) returns (s1: CacheState, s2: CacheState)
    requires CacheStep(s, x) == Ok(t)
    ensures Stages(s, x, s1, s2, t) && BeforeSweep(s, x) == Ok(s2)
  {
    s1 := Settle(Sampled(s, x), x.kill).value;
    s2 := Accept(s1, x.call.Some?);
  }

  /** Whether there is a request to settle. */
  predicate Takes(s: CacheState) {
    s.hskQ && s.lines != []
  }

  lemma SettleFields(s: CacheState, kill: bool, t: CacheState)
    requires Settle(s, kill) == Ok(t)
    ensures t.req == s.req && t.hitSet == s.hitSet && !t.ldRespVld
    ensures |t.lines| == |s.lines| - (if Takes(s) && kill then 1 else 0)
    ensures t.l1dReqVld <==> Takes(s) && !kill
    ensures t.stRespVld <==> Takes(s) && !kill && Last(s.lines).isStore
    ensures t.l1dReqVld ==> t.l1dReqIsFenced == Last(s.lines).isFenced && t.l1dReqRobIndex == Last(s.lines).robIndex
    ensures t.stRespVld ==> t.stResp == Last(s.lines)
  {
  }

  lemma AnswerFields(s: CacheState, t: CacheState)
    requires Answer(s) == Ok(t)
    ensures t.req == s.req && t.hskQ == s.hskQ
    ensures t.l1dReqVld == s.l1dReqVld && t.l1dReqIsFenced == s.l1dReqIsFenced && t.l1dReqRobIndex == s.l1dReqRobIndex
    ensures t.stRespVld == s.stRespVld && t.stResp == s.stResp
    ensures Sweep(s.lines).Ok?
    ensures t.lines == Sweep(s.lines).value.kept && t.hitSet == s.hitSet + Paddrs(Sweep(s.lines).value.gone)
  {
  }

  lemma AcceptFields(s: CacheState, vld: bool)
    ensures var t := Accept(s, vld);
            && t.req == s.req && t.hitSet == s.hitSet
            && (t.hskQ <==> vld && |s.lines| < 16)
            && t.lines == (if t.hskQ then s.lines + [s.req] else s.lines)
            && t.l1dReqVld == s.l1dReqVld && t.l1dReqIsFenced == s.l1dReqIsFenced
            && t.l1dReqRobIndex == s.l1dReqRobIndex && t.stRespVld == s.stRespVld && t.stResp == s.stResp
  {
  }

  /** What an edge leaves latched, and whether it was taken: there was a call, and at most fifteen
      requests were left once the last one had been executed or killed. */
  lemma StepTakes(s: CacheState, x: CacheIn, t: CacheState)
    requires CacheStep(s, x) == Ok(t)
    ensures t.req == Sampled(s, x).req
    ensures t.hskQ <==> x.call.Some? && |s.lines| - (if Takes(s) && x.kill then 1 else 0) < 16
  {
    var s1, s2 := StagesOf(s, x, t);
    SettleFields(Sampled(s, x), x.kill, s1);
    AcceptFields(s1, x.call.Some?);
    AnswerFields(s2, t);
  }

  lemma TakenIsNamed(s: CacheState, x: CacheIn, t: CacheState, now: nat)
    requires Settled(s) && CacheStep(s, x) == Ok(t)
    ensures AllNamed(if t.hskQ then [t.req] else [], NewlyAsked(s, x, t, now))
  {
    StepTakes(s, x, t);
    if x.call.Some? {
      FewDelays(s.lines);
      LatchedNames(s, x.call.value);
    }
  }

  lemma HistoryParts(h: History, x: CacheIn, t: History)
    requires HistoryStep(h, x) == Ok(t)
    ensures CacheStep(h.s, x) == Ok(t.s) && t.done == DoneAfter(h, x.kill)
  {
  }

  lemma StepKeepsCalls(w: Watch, x: CacheIn, t: Watch)
    requires Settled(w.h.s) && CallsInv(w.h, w.asked, w.pending) && WatchStep(w, x) == Ok(t)
    ensures CallsInv(t.h, t.asked, t.pending)
  {
    HistoryParts(w.h, x, t.h);
    SettledCalls(w.h, w.asked, w.pending, x.kill);
    TakenIsNamed(w.h.s, x, t.h.s, w.now);
  }

  // ----- slots -----

  /** Each waiting line stands for one of the calls taken, and its delay is what is left until the
      edge of its slot. */
  ghost predicate Placed(ls: seq<Line>, ids: seq<nat>, slots: seq<Asked>, now: nat) {
    && |ls| == |ids|
    && forall i | 0 <= i < |ls| ::
         ids[i] < |slots| && ls[i].delay + now == slots[ids[i]].due && ls[i].paddr == slots[ids[i]].paddr
  }

  function Addresses(slots: seq<Asked>, ks: seq<nat>): set<u64> {
    set k | k in ks && k < |slots| :: slots[k].paddr
  }

  ghost predicate AllDue(slots: seq<Asked>, ks: seq<nat>, now: nat) {
    forall k | k in ks :: k < |slots| && slots[k].due == now
  }

  lemma PlacedFront(ls: seq<Line>, ids: seq<nat>, slots: seq<Asked>, now: nat)
    requires Placed(ls, ids, slots, now) && ls != []
    ensures Placed(Front(ls), ids[..|ids| - 1], slots, now)
    ensures var k := ids[|ids| - 1];
            k < |slots| && Last(ls).delay + now == slots[k].due && Last(ls).paddr == slots[k].paddr
  {
  }

  lemma PlacedSnoc(ls: seq<Line>, ids: seq<nat>, slots: seq<Asked>, now: nat, l: Line, k: nat)
    requires Placed(ls, ids, slots, now) && k < |slots|
    requires l.delay + now == slots[k].due && l.paddr == slots[k].paddr
    ensures Placed(ls + [l], ids + [k], slots, now)
  {
  }

  lemma AddressesSnoc(slots: seq<Asked>, ks: seq<nat>, k: nat)
    requires k < |slots|
    ensures Addresses(slots, ks + [k]) == Addresses(slots, ks) + {slots[k].paddr}
  {
    assert k in ks + [k];
    assert forall j | j in ks :: j in ks + [k];
  }

  lemma PaddrsSnoc(ls: seq<Line>, l: Line)
    ensures Paddrs(ls + [l]) == Paddrs(ls) + {l.paddr}
  {
    assert l in ls + [l];
    assert forall j | j in ls :: j in ls + [l];
  }

  /** One pass: what stays has its slot later, what goes has it now. */
  lemma {:induction false} SweepPlaced(ls: seq<Line>, ids: seq<nat>, slots: seq<Asked>, now: nat)
    requires Placed(ls, ids, slots, now) && Sweep(ls).Ok?
    ensures Placed(Sweep(ls).value.kept, KeptIds(ls, ids), slots, now + 1)
    ensures AllDue(slots, GoneIds(ls, ids), now)
    ensures Paddrs(Sweep(ls).value.gone) == Addresses(slots, GoneIds(ls, ids))
    decreases |ls|
  {
    if ls != [] {
      var ids', k := ids[..|ids| - 1], ids[|ids| - 1];
      PlacedFront(ls, ids, slots, now);
      SweepPlaced(Front(ls), ids', slots, now);
      var w := Sweep(Front(ls)).value;
      if Last(ls).delay == 0 {
        AddressesSnoc(slots, GoneIds(Front(ls), ids'), k);
        PaddrsSnoc(w.gone, Last(ls));
      } else {
        assert GoneIds(ls, ids) == GoneIds(Front(ls), ids');
        PlacedSnoc(w.kept, KeptIds(Front(ls), ids'), slots, now + 1, Last(ls).(delay := Last(ls).delay - 1), k);
      }
    }
  }

  // ----- settling and accepting -----

  lemma PlacedFewer(ls: seq<Line>, ids: seq<nat>, asked: seq<Asked>, pending: seq<Asked>, now: nat)
    requires Placed(ls, ids, asked + pending, now) && forall i | 0 <= i < |ids| :: ids[i] < |asked|
    ensures Placed(ls, ids, asked, now)
  {
  }

  lemma FilledLast(ls: seq<Line>, l: Line, ids: seq<nat>, slots: seq<Asked>, now: nat)
    requires Placed(ls, ids, slots, now) && ls != [] && l.delay == Last(ls).delay && l.paddr == Last(ls).paddr
    ensures Placed(Front(ls) + [l], ids, slots, now)
  {
  }

  lemma SettlePlaced(m: Mem, w: Watch, s0: CacheState, kill: bool)
    requires CacheInv(m, w.h) && CallsInv(w.h, w.asked, w.pending)
    requires Placed(w.h.s.lines, w.h.ids, w.asked + w.pending, w.now)
    requires s0 == w.h.s.(req := s0.req) && Settle(s0, kill).Ok?
    ensures Placed(Settle(s0, kill).value.lines, SettledIds(w.h, kill), AskedAfter(w, kill), w.now)
  {
    var ls, ids := w.h.s.lines, w.h.ids;
    if w.h.s.hskQ {
      if kill {
        PlacedFront(ls, ids, w.asked + w.pending, w.now);
        assert forall i | 0 <= i < |ids| - 1 :: Matches(m, w.h.done, Front(ls)[i], ids[..|ids| - 1][i]);
        PlacedFewer(Front(ls), ids[..|ids| - 1], w.asked, w.pending, w.now);
      } else {
        FilledLast(ls, Filled(w.h.s.mem, Last(ls)), ids, w.asked + w.pending, w.now);
      }
    } else {
      assert w.asked + w.pending == w.asked;
    }
  }

  lemma AcceptPlaced(s: CacheState, ids: seq<nat>, asked: seq<Asked>, now: nat, r: Asked)
    requires Placed(s.lines, ids, asked, now) && s.req.paddr == r.paddr && now + s.req.delay == r.due
    ensures Placed(s.lines + [s.req], ids + [|asked|], asked + [r], now)
  {
  }

  /** The slots of everything in the list just before the pass over it. */
  lemma MiddlePlaced(s: CacheState, x: CacheIn, s1: CacheState, s2: CacheState, t: CacheState,
                     ids: seq<nat>, asked: seq<Asked>, now: nat)
    requires Stages(s, x, s1, s2, t) && Placed(s1.lines, ids, asked, now)
    ensures Placed(s2.lines, ids + (if s2.hskQ then [|asked|] else []), asked + NewlyAsked(s, x, t, now), now)
  {
    SettleFields(Sampled(s, x), x.kill, s1);
    AcceptFields(s1, x.call.Some?);
    AnswerFields(s2, t);
    if s2.hskQ {
      AcceptPlaced(s1, ids, asked, now, AskedFor(s, x.call.value, now));
    } else {
      assert ids + [] == ids && asked + [] == asked;
    }
  }

  // ----- the invariant -----

  /** The waiting lines have their slots ahead, the requests answered had them before, and the
      addresses of those answered are the hit set. */
  ghost predicate SlotsInv(h: History, slots: seq<Asked>, now: nat) {
    && Placed(h.s.lines, h.ids, slots, now)
    && (forall k | k in h.answered :: k < |slots| && slots[k].due < now)
    && h.s.hitSet == Addresses(slots, h.answered)
  }

  ghost predicate WatchInv(w: Watch) {
    CallsInv(w.h, w.asked, w.pending) && SlotsInv(w.h, w.asked + w.pending, w.now)
  }

  lemma AddressesConcat(slots: seq<Asked>, a: seq<nat>, b: seq<nat>)
    ensures Addresses(slots, a + b) == Addresses(slots, a) + Addresses(slots, b)
  {
    assert forall k :: k in a + b <==> k in a || k in b;
  }

  lemma AddressesKept(slots: seq<Asked>, slots': seq<Asked>, ks: seq<nat>, n: nat)
    requires n <= |slots| && n <= |slots'| && slots[..n] == slots'[..n] && forall k | k in ks :: k < n
    ensures Addresses(slots, ks) == Addresses(slots', ks)
    ensures forall k | k in ks :: slots[k] == slots'[k]
  {
    assert forall k | 0 <= k < n :: slots[k] == slots[..n][k] == slots'[..n][k] == slots'[k];
  }

  /** What the pass does to answers and hits. */
  lemma AnsweredOnTime(h: History, t: History, slots: seq<Asked>, slots': seq<Asked>, n: nat, now: nat,
                       ls: seq<Line>, ids: seq<nat>)
    requires n <= |slots| && n <= |slots'| && slots[..n] == slots'[..n] && forall k | k in h.answered :: k < n
    requires (forall k | k in h.answered :: k < |slots| && slots[k].due < now)
    requires h.s.hitSet == Addresses(slots, h.answered)
    requires Placed(ls, ids, slots', now) && Sweep(ls).Ok?
    requires t.s.lines == Sweep(ls).value.kept && t.ids == KeptIds(ls, ids)
    requires t.answered == h.answered + GoneIds(ls, ids) && t.s.hitSet == h.s.hitSet + Paddrs(Sweep(ls).value.gone)
    ensures SlotsInv(t, slots', now + 1)
  {
    SweepPlaced(ls, ids, slots', now);
    AddressesKept(slots, slots', h.answered, n);
    AddressesConcat(slots', h.answered, GoneIds(ls, ids));
  }

  lemma HistoryNumbers(h: History, x: CacheIn, t: History, s2: CacheState)
    requires HistoryStep(h, x) == Ok(t) && BeforeSweep(h.s, x) == Ok(s2)
    requires |AcceptedIds(h, x, s2.hskQ)| == |s2.lines|
    ensures t.ids == KeptIds(s2.lines, AcceptedIds(h, x, s2.hskQ))
    ensures t.answered == h.answered + GoneIds(s2.lines, AcceptedIds(h, x, s2.hskQ))
  {
  }

  lemma StagesPlaced(m: Mem, w: Watch, x: CacheIn, t: Watch, s1: CacheState, s2: CacheState)
    requires CacheInv(m, w.h) && WatchInv(w) && WatchStep(w, x) == Ok(t) && Stages(w.h.s, x, s1, s2, t.h.s)
    ensures Placed(s2.lines, AcceptedIds(w.h, x, s2.hskQ), t.asked + t.pending, w.now)
  {
    SettlePlaced(m, w, Sampled(w.h.s, x), x.kill);
    SettledCalls(w.h, w.asked, w.pending, x.kill);
    MiddlePlaced(w.h.s, x, s1, s2, t.h.s, SettledIds(w.h, x.kill), AskedAfter(w, x.kill), w.now);
  }

  lemma HitsKept(s: CacheState, x: CacheIn, s1: CacheState, s2: CacheState, t: CacheState)
    requires Stages(s, x, s1, s2, t)
    ensures Sweep(s2.lines).Ok? && t.lines == Sweep(s2.lines).value.kept
    ensures t.hitSet == s.hitSet + Paddrs(Sweep(s2.lines).value.gone)
  {
    SettleFields(Sampled(s, x), x.kill, s1);
    AcceptFields(s1, x.call.Some?);
    AnswerFields(s2, t);
  }

  lemma StepKeepsSlots(m: Mem, w: Watch, x: CacheIn, t: Watch)
    requires CacheInv(m, w.h) && WatchInv(w) && WatchStep(w, x) == Ok(t)
    ensures SlotsInv(t.h, t.asked + t.pending, t.now)
  {
    HistoryParts(w.h, x, t.h);
    var s1, s2 := StagesOf(w.h.s, x, t.h.s);
    StagesPlaced(m, w, x, t, s1, s2);
    HitsKept(w.h.s, x, s1, s2, t.h.s);
    HistoryNumbers(w.h, x, t.h, s2);
    AnsweredOnTime(w.h, t.h, w.asked + w.pending, t.asked + t.pending, |w.asked|, w.now,
                   s2.lines, AcceptedIds(w.h, x, s2.hskQ));
  }

  lemma StepKeepsWatch(m: Mem, w: Watch, x: CacheIn, t: Watch)
    requires CacheInv(m, w.h) && WatchInv(w) && WatchStep(w, x) == Ok(t)
    ensures WatchInv(t)
  {
    StepKeepsCalls(w, x, t);
    StepKeepsSlots(m, w, x, t);
  }

  lemma {:induction false} RunKeepsWatch(m: Mem, w: Watch, xs: seq<CacheIn>)
    requires CacheInv(m, w.h) && WatchInv(w) && WatchRun(w, xs).Ok?
    ensures CacheInv(m, WatchRun(w, xs).value.h) && WatchInv(WatchRun(w, xs).value)
    decreases xs
  {
    if xs != [] {
      var t := WatchStep(w, xs[0]).value;
      StepKeepsCacheInv(m, w.h, xs[0]);
      StepKeepsWatch(m, w, xs[0], t);
      RunKeepsWatch(m, t, xs[1..]);
    }
  }

  // ----- main results -----

  lemma RunWatched(xs: seq<CacheIn>)
    requires WatchRun(INIT_WATCH, xs).Ok?
    ensures var w := WatchRun(INIT_WATCH, xs).value;
            CacheInv(InitialImage(), w.h) && WatchInv(w) && w.now == |xs|
  {
    InitCacheInv();
    RunKeepsWatch(InitialImage(), INIT_WATCH, xs);
    WatchIsRun(INIT_WATCH, xs);
  }

  lemma AnsweredIffPast(m: Mem, w: Watch, k: nat)
    requires CacheInv(m, w.h) && WatchInv(w) && k < |w.asked|
    ensures |w.h.done| == |w.asked| && Names(w.h.done[k], w.asked[k].call)
    ensures k in w.h.answered <==> w.asked[k].due < w.now
  {
    assert (w.asked + w.pending)[k] == w.asked[k];
    if k !in w.h.answered {
      StillWaiting(w.h, k);
      var i :| 0 <= i < |w.h.ids| && w.h.ids[i] == k;
      assert w.h.s.lines[i].delay + w.now == (w.asked + w.pending)[w.h.ids[i]].due;
    }
  }

  /** In every run the requests done are the calls taken and not killed, in order, each with the
      address, data, register and operation of its call, and call `k` has been answered exactly if
      the edge of its slot is past. */
  lemma AnsweredWhenDue(xs: seq<CacheIn>, k: nat)
    requires WatchRun(INIT_WATCH, xs).Ok? && k < |WatchRun(INIT_WATCH, xs).value.asked|
    ensures var w := WatchRun(INIT_WATCH, xs).value;
            && |w.h.done| == |w.asked| && Names(w.h.done[k], w.asked[k].call)
            && (k in w.h.answered <==> w.asked[k].due < |xs|)
  {
    RunWatched(xs);
    AnsweredIffPast(InitialImage(), WatchRun(INIT_WATCH, xs).value, k);
  }

  /** A request done and not answered is still in the list. */
  lemma StillWaiting(h: History, k: nat)
    requires multiset(h.ids) + multiset(h.answered) == multiset(Upto(Issued(h))) && k < Issued(h) && k !in h.answered
    ensures k in h.ids
  {
    UptoOnce(Issued(h), k);
    assert (multiset(h.ids) + multiset(h.answered))[k] == 1;
  }

  lemma HitIffAnswered(m: Mem, w: Watch, a: u64)
    requires CacheInv(m, w.h) && WatchInv(w)
    ensures |w.h.done| == |w.asked|
    ensures a in w.h.s.hitSet <==>
            exists k :: 0 <= k < |w.h.done| && w.asked[k].due < w.now && w.h.done[k].paddr == a
  {
    var slots := w.asked + w.pending;
    assert forall k | 0 <= k < |w.asked| :: slots[k] == w.asked[k] && w.asked[k].paddr == w.h.done[k].paddr;
    if a in w.h.s.hitSet {
      var k :| k in w.h.answered && k < |slots| && slots[k].paddr == a;
      assert k < |w.h.done|;
    }
    if k :| 0 <= k < |w.h.done| && w.asked[k].due < w.now && w.h.done[k].paddr == a {
      AnsweredIffPast(m, w, k);
      assert slots[k].paddr == a;
    }
  }

  /** After any run the hit set holds the addresses answered, and nothing else. */
  lemma HitsAreAnswered(xs: seq<CacheIn>, a: u64)
    requires WatchRun(INIT_WATCH, xs).Ok?
    ensures var w := WatchRun(INIT_WATCH, xs).value;
            && |w.h.done| == |w.asked|
            && (a in w.h.s.hitSet <==>
                exists k :: 0 <= k < |w.h.done| && w.asked[k].due < |xs| && w.h.done[k].paddr == a)
  {
    RunWatched(xs);
    HitIffAnswered(InitialImage(), WatchRun(INIT_WATCH, xs).value, a);
  }

  /** What the request ports show after an edge: a request to the L1D exactly if a call was taken at
      the edge before and is not killed, with its fence and its index, and a store response exactly
      if that call is a store. */
  ghost predicate PortsShow(pending: seq<Asked>, kill: bool, s: CacheState) {
    && (s.l1dReqVld <==> pending != [] && !kill)
    && (s.stRespVld <==> pending != [] && !kill && pending[0].call.isStore)
    && (s.l1dReqVld ==>
          s.l1dReqIsFenced == pending[0].call.isFenced && s.l1dReqRobIndex == pending[0].call.robIndex)
    && (s.stRespVld ==> Names(s.stResp, pending[0].call))
  }

  lemma EdgeShows(m: Mem, w: Watch, x: CacheIn, t: CacheState)
    requires CacheInv(m, w.h) && WatchInv(w) && CacheStep(w.h.s, x) == Ok(t)
    ensures PortsShow(w.pending, x.kill, t)
  {
    var s1, s2 := StagesOf(w.h.s, x, t);
    SettleFields(Sampled(w.h.s, x), x.kill, s1);
    AcceptFields(s1, x.call.Some?);
    AnswerFields(s2, t);
    if w.h.s.hskQ {
      assert Last(w.h.s.lines) == w.h.s.req.(delay := Last(w.h.s.lines).delay);
    }
  }

  lemma PortsShowCall(xs: seq<CacheIn>, x: CacheIn)
    requires WatchRun(INIT_WATCH, xs).Ok? && WatchStep(WatchRun(INIT_WATCH, xs).value, x).Ok?
    ensures var w := WatchRun(INIT_WATCH, xs).value; PortsShow(w.pending, x.kill, WatchStep(w, x).value.h.s)
  {
    RunWatched(xs);
    var w := WatchRun(INIT_WATCH, xs).value;
    HistoryParts(w.h, x, WatchStep(w, x).value.h);
    EdgeShows(InitialImage(), w, x, WatchStep(w, x).value.h.s);
  }
}
