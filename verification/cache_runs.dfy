// The fake cache against a memory that takes one request after another: it executes the
// requests that are accepted and not killed in the order of acceptance, and answers each of
// them once, in whatever order the slots come up.
module CacheRuns {
  import opened Words
  import opened FlatMemory
  import opened L1dTypes
  import opened Loads
  import opened Cache
  import opened CacheSlots

  // ----- the reference -----

  /** The memory after some requests, one by one. */
  function Replay(m: Mem, rs: seq<Line>): Mem {
    if rs == [] then m else Effect(Replay(m, Front(rs)), Last(rs))
  }

  /** Request `k` with what it reads when its turn comes. */
  function Reply(m: Mem, rs: seq<Line>, k: nat): Line
    requires k < |rs|
  {
    Filled(Replay(m, rs[..k]), rs[k])
  }

  /** The load responses for some requests, in the order they are listed. */
  function LoadReplies(m: Mem, rs: seq<Line>, ks: seq<nat>): seq<Line> {
    if ks == [] then [] else LoadReplies(m, rs, ks[..|ks| - 1]) + LoadReply(m, rs, ks[|ks| - 1])
  }

  function LoadReply(m: Mem, rs: seq<Line>, k: nat): seq<Line> {
    if k < |rs| && !rs[k].isStore then [Reply(m, rs, k).(delay := 0)] else []
  }

  /** The store responses, in the order of execution. */
  function StoreReplies(rs: seq<Line>): seq<Line> {
    if rs == [] then [] else StoreReplies(Front(rs)) + (if Last(rs).isStore then [Last(rs).(delay := 0)] else [])
  }

  function Upto(n: nat): seq<nat> {
    seq(n, i requires 0 <= i => i)
  }

  // ----- a run, observed from outside -----

  /** `done` are the requests accepted and not killed, `ids` numbers the waiting lines by their
      place in it, `answered` lists the numbers of those that left; `loads` and `stores` are what
      the two response ports showed. */
  datatype History = History(
    s: CacheState,
    ids: seq<nat>,
    done: seq<Line>,
    answered: seq<nat>,
    loads: seq<Line>,
    stores: seq<Line>)

  const INIT_HISTORY: History := History(INIT_CACHE, [], [], [], [], [])

  function KeptIds(ls: seq<Line>, ids: seq<nat>): seq<nat>
    requires |ls| == |ids|
  {
    if ls == [] then []
    else KeptIds(Front(ls), ids[..|ids| - 1]) + (if Last(ls).delay == 0 then [] else [ids[|ids| - 1]])
  }

  function GoneIds(ls: seq<Line>, ids: seq<nat>): seq<nat>
    requires |ls| == |ids|
  {
    if ls == [] then []
    else GoneIds(Front(ls), ids[..|ids| - 1]) + (if Last(ls).delay == 0 then [ids[|ids| - 1]] else [])
  }

  /** The requests done once this edge has settled the one pending. */
  function DoneAfter(h: History, kill: bool): seq<Line> {
    if h.s.hskQ && !kill then h.done + [h.s.req] else h.done
  }

  function SettledIds(h: History, kill: bool): seq<nat> {
    if h.s.hskQ && kill && h.ids != [] then h.ids[..|h.ids| - 1] else h.ids
  }

  function AcceptedIds(h: History, x: CacheIn, taken: bool): seq<nat> {
    SettledIds(h, x.kill) + (if taken then [|DoneAfter(h, x.kill)|] else [])
  }

  /** The state just before the pass over the list. */
  function BeforeSweep(s: CacheState, x: CacheIn): Result<CacheState, CacheError> {
    match Settle(Sampled(s, x), x.kill)
    case Err(e) => Err(e)
    case Ok(s1) => Ok(Accept(s1, x.call.Some?))
  }

  function HistoryStep(h: History, x: CacheIn): Result<History, CacheError> {
    match BeforeSweep(h.s, x)
    case Err(e) => Err(e)
    case Ok(s2) =>
      var ids := AcceptedIds(h, x, s2.hskQ);
      match CacheStep(h.s, x)
      case Err(e) => Err(e)
      case Ok(t) =>
        Ok(History(
          t,
          if |ids| == |s2.lines| then KeptIds(s2.lines, ids) else [],
          DoneAfter(h, x.kill),
          h.answered + (if |ids| == |s2.lines| then GoneIds(s2.lines, ids) else []),
          h.loads + (if t.ldRespVld then [t.ldResp] else []),
          h.stores + (if t.stRespVld then [t.stResp.(delay := 0)] else [])))
  }

  function HistoryRun(h: History, xs: seq<CacheIn>): Result<History, CacheError>
    decreases xs
  {
    if xs == [] then Ok(h)
    else
      match HistoryStep(h, xs[0])
      case Err(e) => Err(e)
      case Ok(t) => HistoryRun(t, xs[1..])
  }

  // ----- the invariant -----

  /** A waiting line is its request, filled at its turn, with a shorter delay. */
  predicate Matches(m: Mem, done: seq<Line>, l: Line, k: nat) {
    k < |done| && l == Reply(m, done, k).(delay := l.delay)
  }

  ghost predicate AllMatch(m: Mem, done: seq<Line>, ls: seq<Line>, ids: seq<nat>) {
    |ls| == |ids| && forall i | 0 <= i < |ls| :: Matches(m, done, ls[i], ids[i])
  }

  /** The waiting lines, when the last of them may still be pending. */
  ghost predicate Waiting(m: Mem, done: seq<Line>, ls: seq<Line>, ids: seq<nat>, pending: Option<Line>) {
    && |ls| == |ids|
    && if pending.None? then AllMatch(m, done, ls, ids)
       else
         && ls != []
         && Last(ls) == pending.value.(delay := Last(ls).delay)
         && ids[|ids| - 1] == |done|
         && AllMatch(m, done, Front(ls), ids[..|ids| - 1])
  }

  function Pending(s: CacheState): Option<Line> {
    if s.hskQ then Some(s.req) else None
  }

  function Issued(h: History): nat {
    |h.done| + (if h.s.hskQ then 1 else 0)
  }

  ghost predicate Known(done: seq<Line>, ks: seq<nat>) {
    forall k | k in ks :: k < |done|
  }

  ghost predicate Answers(m: Mem, h: History) {
    && Known(h.done, h.answered)
    && h.loads == LoadReplies(m, h.done, h.answered)
    && h.stores == StoreReplies(h.done)
  }

  ghost predicate CacheInv(m: Mem, h: History) {
    && Settled(h.s)
    && h.s.mem == Replay(m, h.done)
    && Waiting(m, h.done, h.s.lines, h.ids, Pending(h.s))
    && multiset(h.ids) + multiset(h.answered) == multiset(Upto(Issued(h)))
    && Answers(m, h)
  }

  // ----- more requests done -----

  lemma ReplayMore(m: Mem, done: seq<Line>, r: Line)
    ensures Replay(m, done + [r]) == Effect(Replay(m, done), r)
    ensures Reply(m, done + [r], |done|) == Filled(Replay(m, done), r)
    ensures StoreReplies(done + [r]) == StoreReplies(done) + (if r.isStore then [r.(delay := 0)] else [])
  {
    assert Front(done + [r]) == done;
    assert (done + [r])[..|done|] == done;
  }

  lemma ReplySame(m: Mem, done: seq<Line>, r: Line, k: nat)
    requires k < |done|
    ensures Reply(m, done + [r], k) == Reply(m, done, k)
  {
    assert (done + [r])[..k] == done[..k];
  }

  lemma MatchMore(m: Mem, done: seq<Line>, r: Line, ls: seq<Line>, ids: seq<nat>)
    requires AllMatch(m, done, ls, ids)
    ensures AllMatch(m, done + [r], ls, ids)
  {
    forall i | 0 <= i < |ls|
      ensures Matches(m, done + [r], ls[i], ids[i])
    {
      assert Matches(m, done, ls[i], ids[i]);
      ReplySame(m, done, r, ids[i]);
    }
  }

  lemma {:induction false} RepliesMore(m: Mem, done: seq<Line>, r: Line, ks: seq<nat>)
    requires Known(done, ks)
    ensures LoadReplies(m, done + [r], ks) == LoadReplies(m, done, ks) && Known(done + [r], ks)
    decreases |ks|
  {
    if ks != [] {
      var ks' := ks[..|ks| - 1];
      assert ks == ks' + [ks[|ks| - 1]];
      assert forall k | k in ks' :: k in ks;
      RepliesMore(m, done, r, ks');
      assert ks[|ks| - 1] in ks;
      ReplySame(m, done, r, ks[|ks| - 1]);
    }
  }

  lemma RepliesSnoc(m: Mem, done: seq<Line>, ks: seq<nat>, k: nat)
    ensures LoadReplies(m, done, ks + [k]) == LoadReplies(m, done, ks) + LoadReply(m, done, k)
  {
    assert (ks + [k])[..|ks|] == ks;
  }

  lemma {:induction false} RepliesConcat(m: Mem, done: seq<Line>, a: seq<nat>, b: seq<nat>)
    ensures LoadReplies(m, done, a + b) == LoadReplies(m, done, a) + LoadReplies(m, done, b)
    decreases |b|
  {
    if b == [] {
      assert a + b == a;
    } else {
      RepliesConcat(m, done, a, b[..|b| - 1]);
      assert b[..|b| - 1] + [b[|b| - 1]] == b;
      RepliesOneMore(m, done, a, b[..|b| - 1], b[|b| - 1]);
    }
  }

  lemma RepliesOneMore(m: Mem, done: seq<Line>, a: seq<nat>, b: seq<nat>, k: nat)
    requires LoadReplies(m, done, a + b) == LoadReplies(m, done, a) + LoadReplies(m, done, b)
    ensures LoadReplies(m, done, a + (b + [k])) == LoadReplies(m, done, a) + LoadReplies(m, done, b + [k])
  {
    assert a + (b + [k]) == (a + b) + [k];
    RepliesSnoc(m, done, a + b, k);
    RepliesSnoc(m, done, b, k);
    Associative(LoadReplies(m, done, a), LoadReplies(m, done, b), LoadReply(m, done, k));
  }

  lemma UptoMore(n: nat)
    ensures Upto(n + 1) == Upto(n) + [n]
    ensures multiset(Upto(n + 1)) == multiset(Upto(n)) + multiset{n}
  {
    assert Upto(n + 1) == Upto(n) + [n];
  }

  // ----- settling -----

  ghost predicate SettledInv(m: Mem, done: seq<Line>, s: CacheState, ids: seq<nat>, answered: seq<nat>) {
    && s.mem == Replay(m, done)
    && AllMatch(m, done, s.lines, ids)
    && multiset(ids) + multiset(answered) == multiset(Upto(|done|))
  }

  lemma SplitLast(ids: seq<nat>)
    requires ids != []
    ensures multiset(ids) == multiset(ids[..|ids| - 1]) + multiset{ids[|ids| - 1]}
  {
    assert ids == ids[..|ids| - 1] + [ids[|ids| - 1]];
  }

  lemma Cancel(a: multiset<nat>, b: multiset<nat>, c: multiset<nat>, n: nat)
    requires a + multiset{n} + b == c + multiset{n}
    ensures a + b == c
  {
    forall x: nat
      ensures (a + b)[x] == c[x]
    {
      assert (a + multiset{n} + b)[x] == (c + multiset{n})[x];
    }
  }

  /** A kill forgets the last accepted request and nothing else. */
  lemma KillKeeps(m: Mem, h: History, s0: CacheState)
    requires CacheInv(m, h) && h.s.hskQ && s0 == h.s.(req := s0.req)
    ensures Settle(s0, true).Ok?
    ensures SettledInv(m, h.done, Settle(s0, true).value, SettledIds(h, true), h.answered)
  {
    SplitLast(h.ids);
    UptoMore(|h.done|);
    Cancel(multiset(SettledIds(h, true)), multiset(h.answered), multiset(Upto(|h.done|)), |h.done|);
  }

  /** Execution appends the last accepted request to those done. */
  lemma ExecuteKeeps(m: Mem, h: History, s0: CacheState)
    requires CacheInv(m, h) && h.s.hskQ && s0 == h.s.(req := s0.req) && Settle(s0, false).Ok?
    ensures SettledInv(m, h.done + [h.s.req], Settle(s0, false).value, h.ids, h.answered)
  {
    var r, ls := h.s.req, h.s.lines;
    var ls' := Settle(s0, false).value.lines;
    ReplayMore(m, h.done, r);
    MatchMore(m, h.done, r, Front(ls), h.ids[..|h.ids| - 1]);
    assert Matches(m, h.done + [r], Last(ls'), |h.done|);
    forall i | 0 <= i < |ls'|
      ensures Matches(m, h.done + [r], ls'[i], h.ids[i])
    {
      if i < |ls| - 1 {
        assert ls'[i] == Front(ls)[i] && h.ids[i] == h.ids[..|h.ids| - 1][i];
      }
    }
    UptoMore(|h.done|);
  }

  // ----- the pass over the list -----

  function Out(ld: Option<Line>): seq<Line> {
    if ld.Some? then [ld.value] else []
  }

  /** The lines that stay still match. */
  lemma {:induction false} SweepMatches(m: Mem, done: seq<Line>, ls: seq<Line>, ids: seq<nat>)
    requires AllMatch(m, done, ls, ids) && Sweep(ls).Ok?
    ensures AllMatch(m, done, Sweep(ls).value.kept, KeptIds(ls, ids)) && Known(done, GoneIds(ls, ids))
    decreases |ls|
  {
    if ls != [] {
      var ids', k := ids[..|ids| - 1], ids[|ids| - 1];
      AllMatchFront(m, done, ls, ids);
      SweepMatches(m, done, Front(ls), ids');
      if Last(ls).delay > 0 {
        var l := Last(ls).(delay := Last(ls).delay - 1);
        assert Matches(m, done, l, k);
        AllMatchSnoc(m, done, Sweep(Front(ls)).value.kept, KeptIds(Front(ls), ids'), l, k);
      }
    }
  }

  /** The pass answers exactly the loads it removes. */
  lemma {:induction false} SweepReplies(m: Mem, done: seq<Line>, ls: seq<Line>, ids: seq<nat>)
    requires AllMatch(m, done, ls, ids) && Sweep(ls).Ok?
    ensures Out(Sweep(ls).value.ld) == LoadReplies(m, done, GoneIds(ls, ids))
    decreases |ls|
  {
    if ls != [] {
      var ids', k := ids[..|ids| - 1], ids[|ids| - 1];
      AllMatchFront(m, done, ls, ids);
      SweepReplies(m, done, Front(ls), ids');
      if Last(ls).delay == 0 {
        RepliesSnoc(m, done, GoneIds(Front(ls), ids'), k);
        DueReply(m, done, Last(ls), k);
      } else {
        assert GoneIds(ls, ids) == GoneIds(Front(ls), ids');
      }
    }
  }

  lemma DueReply(m: Mem, done: seq<Line>, l: Line, k: nat)
    requires Matches(m, done, l, k) && l.delay == 0
    ensures LoadReply(m, done, k) == if l.isStore then [] else [l]
  {
  }

  lemma AllMatchFront(m: Mem, done: seq<Line>, ls: seq<Line>, ids: seq<nat>)
    requires AllMatch(m, done, ls, ids) && ls != []
    ensures AllMatch(m, done, Front(ls), ids[..|ids| - 1]) && Matches(m, done, Last(ls), ids[|ids| - 1])
  {
  }

  lemma AllMatchSnoc(m: Mem, done: seq<Line>, ls: seq<Line>, ids: seq<nat>, l: Line, k: nat)
    requires AllMatch(m, done, ls, ids) && Matches(m, done, l, k)
    ensures AllMatch(m, done, ls + [l], ids + [k])
  {
  }

  /** Every number stays in the list or leaves it. */
  lemma {:induction false} IdsConserved(ls: seq<Line>, ids: seq<nat>)
    requires |ls| == |ids|
    ensures multiset(KeptIds(ls, ids)) + multiset(GoneIds(ls, ids)) == multiset(ids)
    decreases |ls|
  {
    if ls != [] {
      IdsConserved(Front(ls), ids[..|ids| - 1]);
      SplitLast(ids);
    }
  }

  /** The same when the last line has only just been accepted. */
  lemma SweepAnswersPending(m: Mem, done: seq<Line>, ls: seq<Line>, ids: seq<nat>, r: Line)
    requires AllMatch(m, done, ls, ids) && r.delay > 0 && Sweep(ls + [r]).Ok?
    ensures var w, ids' := Sweep(ls + [r]).value, ids + [|done|];
            && Waiting(m, done, w.kept, KeptIds(ls + [r], ids'), Some(r))
            && GoneIds(ls + [r], ids') == GoneIds(ls, ids) && Known(done, GoneIds(ls, ids))
            && Out(w.ld) == LoadReplies(m, done, GoneIds(ls, ids))
  {
    var all, ids' := ls + [r], ids + [|done|];
    assert Front(all) == ls && ids'[..|ids'| - 1] == ids;
    SweepMatches(m, done, ls, ids);
    SweepReplies(m, done, ls, ids);
    var kept := Sweep(ls).value.kept;
    assert Front(kept + [r.(delay := r.delay - 1)]) == kept;
    var kids := KeptIds(ls, ids);
    assert (kids + [|done|])[..|kids|] == kids;
  }

  // ----- one step -----

  /** The last accepted request has been executed or killed, and the next one accepted. */
  ghost predicate AcceptedInv(m: Mem, done: seq<Line>, s: CacheState, ids: seq<nat>, answered: seq<nat>) {
    && s.mem == Replay(m, done)
    && |ids| == |s.lines|
    && (if s.hskQ then s.lines != [] && Last(s.lines) == s.req && ids[|ids| - 1] == |done|
                       && AllMatch(m, done, Front(s.lines), ids[..|ids| - 1])
        else AllMatch(m, done, s.lines, ids))
    && multiset(ids) + multiset(answered) == multiset(Upto(|done| + (if s.hskQ then 1 else 0)))
  }

  lemma TakenKeeps(m: Mem, done: seq<Line>, s: CacheState, ids: seq<nat>, answered: seq<nat>)
    requires SettledInv(m, done, s, ids, answered) && Accept(s, true).hskQ
    ensures AcceptedInv(m, done, Accept(s, true), ids + [|done|], answered)
  {
    var ls, ids' := s.lines + [s.req], ids + [|done|];
    assert Front(ls) == s.lines && ids'[..|ids'| - 1] == ids;
    UptoMore(|done|);
  }

  lemma AcceptKeeps(m: Mem, done: seq<Line>, s: CacheState, ids: seq<nat>, answered: seq<nat>, vld: bool)
    requires SettledInv(m, done, s, ids, answered)
    ensures var t := Accept(s, vld);
            AcceptedInv(m, done, t, ids + (if t.hskQ then [|done|] else []), answered)
  {
    if Accept(s, vld).hskQ {
      TakenKeeps(m, done, s, ids, answered);
    } else {
      assert ids + [] == ids;
    }
  }

  lemma AnswerNumbers(ls: seq<Line>, ids: seq<nat>, answered: seq<nat>, n: nat)
    requires |ls| == |ids| && multiset(ids) + multiset(answered) == multiset(Upto(n))
    ensures multiset(KeptIds(ls, ids)) + multiset(answered + GoneIds(ls, ids)) == multiset(Upto(n))
  {
    IdsConserved(ls, ids);
  }

  lemma AnswerLines(m: Mem, done: seq<Line>, s: CacheState, ids: seq<nat>)
    requires Answer(s).Ok? && |ids| == |s.lines| && (s.hskQ ==> s.req.delay > 0)
    requires if s.hskQ then s.lines != [] && Last(s.lines) == s.req && ids[|ids| - 1] == |done|
                            && AllMatch(m, done, Front(s.lines), ids[..|ids| - 1])
             else AllMatch(m, done, s.lines, ids)
    ensures var t, gone := Answer(s).value, GoneIds(s.lines, ids);
            && Waiting(m, done, t.lines, KeptIds(s.lines, ids), Pending(s))
            && Known(done, gone)
            && (if t.ldRespVld then [t.ldResp] else []) == LoadReplies(m, done, gone)
  {
    if s.hskQ {
      var ls, ids' := Front(s.lines), ids[..|ids| - 1];
      assert s.lines == ls + [s.req] && ids == ids' + [|done|];
      SweepAnswersPending(m, done, ls, ids', s.req);
    } else {
      SweepMatches(m, done, s.lines, ids);
      SweepReplies(m, done, s.lines, ids);
    }
  }

  // The whole step, in three parts.

  lemma SettleKeeps(m: Mem, h: History, x: CacheIn)
    requires CacheInv(m, h) && Settle(Sampled(h.s, x), x.kill).Ok?
    ensures SettledInv(m, DoneAfter(h, x.kill), Settle(Sampled(h.s, x), x.kill).value,
                       SettledIds(h, x.kill), h.answered)
  {
    var s0 := Sampled(h.s, x);
    if h.s.hskQ && x.kill {
      KillKeeps(m, h, s0);
    } else if h.s.hskQ {
      ExecuteKeeps(m, h, s0);
    }
  }

  lemma SettleStores(m: Mem, h: History, x: CacheIn)
    requires CacheInv(m, h) && Settle(Sampled(h.s, x), x.kill).Ok?
    ensures var s1 := Settle(Sampled(h.s, x), x.kill).value;
            h.stores + (if s1.stRespVld then [s1.stResp.(delay := 0)] else []) == StoreReplies(DoneAfter(h, x.kill))
  {
    if h.s.hskQ && !x.kill {
      ReplayMore(m, h.done, h.s.req);
    }
  }

  lemma DoneGrows(m: Mem, h: History, x: CacheIn)
    requires Answers(m, h)
    ensures Known(DoneAfter(h, x.kill), h.answered)
    ensures LoadReplies(m, DoneAfter(h, x.kill), h.answered) == h.loads
  {
    if h.s.hskQ && !x.kill {
      RepliesMore(m, h.done, h.s.req, h.answered);
    }
  }

  lemma MiddleKeeps(m: Mem, h: History, x: CacheIn)
    requires CacheInv(m, h) && BeforeSweep(h.s, x).Ok?
    ensures var s2, done := BeforeSweep(h.s, x).value, DoneAfter(h, x.kill);
            AcceptedInv(m, done, s2, AcceptedIds(h, x, s2.hskQ), h.answered)
  {
    SettleKeeps(m, h, x);
    AcceptKeeps(m, DoneAfter(h, x.kill), Settle(Sampled(h.s, x), x.kill).value, SettledIds(h, x.kill), h.answered,
                x.call.Some?);
  }

  lemma MiddlePorts(m: Mem, h: History, x: CacheIn)
    requires CacheInv(m, h) && BeforeSweep(h.s, x).Ok?
    ensures var s2, done := BeforeSweep(h.s, x).value, DoneAfter(h, x.kill);
            && (s2.hskQ ==> s2.req.delay > 0)
            && h.stores + (if s2.stRespVld then [s2.stResp.(delay := 0)] else []) == StoreReplies(done)
  {
    SettleStores(m, h, x);
    if x.call.Some? {
      LatchedWaits(h.s, x.call.value);
    }
  }

  lemma StepSettled(h: History, x: CacheIn)
    requires Settled(h.s) && CacheStep(h.s, x).Ok?
    ensures Settled(CacheStep(h.s, x).value)
  {
    if x.call.Some? {
      LatchedWaits(h.s, x.call.value);
    }
    EvalSettles(Sampled(h.s, x), x.kill, x.call.Some?);
  }

  /** What the pass leaves, given what it starts from. */
  lemma EndKeeps(m: Mem, h: History, done: seq<Line>, s2: CacheState, ids: seq<nat>, t: History)
    requires AcceptedInv(m, done, s2, ids, h.answered) && (s2.hskQ ==> s2.req.delay > 0)
    requires Answer(s2) == Ok(t.s) && Settled(t.s) && t.done == done
    requires t.ids == KeptIds(s2.lines, ids) && t.answered == h.answered + GoneIds(s2.lines, ids)
    requires Known(done, h.answered) && LoadReplies(m, done, h.answered) == h.loads
    requires t.loads == h.loads + (if t.s.ldRespVld then [t.s.ldResp] else [])
    requires t.stores == StoreReplies(done)
    ensures CacheInv(m, t)
  {
    AnswerLines(m, done, s2, ids);
    AnswerNumbers(s2.lines, ids, h.answered, |done| + (if s2.hskQ then 1 else 0));
    EndReplies(m, done, h.answered, GoneIds(s2.lines, ids));
  }

  lemma EndReplies(m: Mem, done: seq<Line>, answered: seq<nat>, gone: seq<nat>)
    requires Known(done, answered) && Known(done, gone)
    ensures Known(done, answered + gone)
    ensures LoadReplies(m, done, answered + gone) == LoadReplies(m, done, answered) + LoadReplies(m, done, gone)
  {
    RepliesConcat(m, done, answered, gone);
  }

  lemma StepKeepsCacheInv(m: Mem, h: History, x: CacheIn)
    requires CacheInv(m, h) && HistoryStep(h, x).Ok?
    ensures CacheInv(m, HistoryStep(h, x).value)
  {
    var s2 := BeforeSweep(h.s, x).value;
    MiddleKeeps(m, h, x);
    MiddlePorts(m, h, x);
    StepSettled(h, x);
    DoneGrows(m, h, x);
    EndKeeps(m, h, DoneAfter(h, x.kill), s2, AcceptedIds(h, x, s2.hskQ), HistoryStep(h, x).value);
  }

  // ----- whole runs -----

  /** However the driver kills and whatever it asks, until it throws the cache keeps to the reference. */
  lemma {:induction false} RunKeepsCacheInv(m: Mem, h: History, xs: seq<CacheIn>)
    requires CacheInv(m, h) && HistoryRun(h, xs).Ok?
    ensures CacheInv(m, HistoryRun(h, xs).value)
    decreases xs
  {
    if xs != [] {
      StepKeepsCacheInv(m, h, xs[0]);
      RunKeepsCacheInv(m, HistoryStep(h, xs[0]).value, xs[1..]);
    }
  }

  lemma InitCacheInv()
    ensures CacheInv(InitialImage(), INIT_HISTORY)
  {
  }

  /** The history only watches: it runs exactly when the cache does. */
  lemma {:induction false} HistoryIsRun(h: History, xs: seq<CacheIn>)
    ensures HistoryRun(h, xs).Ok? == CacheRun(h.s, xs).Ok?
    ensures HistoryRun(h, xs).Ok? ==> HistoryRun(h, xs).value.s == CacheRun(h.s, xs).value
    decreases xs
  {
    if xs != [] && CacheStep(h.s, xs[0]).Ok? {
      HistoryIsRun(HistoryStep(h, xs[0]).value, xs[1..]);
    }
  }

  /** In every run: the memory is the replay of the requests done, in the order of acceptance, and
      the load port has shown, for some of their numbers and none of them twice, the reply that
      number has at its turn; the store port has shown each store done, in order. */
  lemma AnswersAreReplies(xs: seq<CacheIn>)
    requires HistoryRun(INIT_HISTORY, xs).Ok?
    ensures var h, m := HistoryRun(INIT_HISTORY, xs).value, InitialImage();
            && h.s.mem == Replay(m, h.done)
            && h.loads == LoadReplies(m, h.done, h.answered)
            && h.stores == StoreReplies(h.done)
            && forall k :: multiset(h.answered)[k] <= if k < |h.done| then 1 else 0
  {
    InitCacheInv();
    RunKeepsCacheInv(InitialImage(), INIT_HISTORY, xs);
    var h := HistoryRun(INIT_HISTORY, xs).value;
    forall k
      ensures multiset(h.answered)[k] <= if k < |h.done| then 1 else 0
    {
      if k in h.answered {
        UptoOnce(Issued(h), k);
        assert (multiset(h.ids) + multiset(h.answered))[k] <= 1;
      }
    }
  }

  lemma {:induction false} UptoOnce(n: nat, k: nat)
    ensures multiset(Upto(n))[k] == if k < n then 1 else 0
  {
    if n > 0 {
      UptoOnce(n - 1, k);
      UptoMore(n - 1);
    }
  }

  /** When the cache has emptied, every request done has been answered exactly once. */
  lemma EveryRequestAnsweredOnce(xs: seq<CacheIn>)
    requires HistoryRun(INIT_HISTORY, xs).Ok? && HistoryRun(INIT_HISTORY, xs).value.s.lines == []
    ensures var h := HistoryRun(INIT_HISTORY, xs).value; multiset(h.answered) == multiset(Upto(|h.done|))
  {
    InitCacheInv();
    RunKeepsCacheInv(InitialImage(), INIT_HISTORY, xs);
  }

  // ----- how long an answer can take -----

  /** The longest wait there is: the longest draw, bumped past every other request. */
  const MAX_WAIT: nat := CACHE_MISS_BASE_DELAY + CACHE_MISS_MAX_DELAY - 1 + MAX_CACHE_SIZE

  ghost predicate Within(ls: seq<Line>, n: nat) {
    forall l | l in ls :: l.delay <= n
  }

  lemma {:induction false} SweepWithin(ls: seq<Line>, n: nat)
    requires Within(ls, n) && Sweep(ls).Ok?
    ensures if n == 0 then Sweep(ls).value.kept == [] else Within(Sweep(ls).value.kept, n - 1)
  {
    if ls != [] {
      assert Last(ls) in ls;
      SweepWithin(Front(ls), n);
    }
  }

  lemma SettleWithin(s: CacheState, kill: bool, n: nat)
    requires Within(s.lines, n) && Settle(s, kill).Ok?
    ensures Within(Settle(s, kill).value.lines, n)
  {
    if s.hskQ && s.lines != [] {
      assert Last(s.lines) in s.lines;
    }
  }

  lemma StepWithin(s: CacheState, x: CacheIn)
    requires Settled(s) && Within(s.lines, MAX_WAIT) && CacheStep(s, x).Ok?
    ensures Within(CacheStep(s, x).value.lines, MAX_WAIT)
  {
    var s0 := Sampled(s, x);
    if x.call.Some? {
      FewDelays(s.lines);
      MissDelayBound(x.call.value.draw, s.delaySet);
    }
    SettleWithin(s0, x.kill, MAX_WAIT);
    SweepWithin(Accept(Settle(s0, x.kill).value, x.call.Some?).lines, MAX_WAIT);
  }

  lemma {:induction false} RunWithin(s: CacheState, xs: seq<CacheIn>)
    requires SlotInv(s) && Within(s.lines, MAX_WAIT) && forall x | x in xs :: DataIn(x)
    ensures CacheRun(s, xs).Ok? && SlotInv(CacheRun(s, xs).value) && Within(CacheRun(s, xs).value.lines, MAX_WAIT)
    decreases xs
  {
    if xs != [] {
      assert xs[0] in xs;
      StepKeepsSlotInv(s, xs[0]);
      StepWithin(s, xs[0]);
      RunWithin(CacheStep(s, xs[0]).value, xs[1..]);
    }
  }

  /** Without new calls the list runs empty. */
  lemma {:induction false} Drains(s: CacheState, xs: seq<CacheIn>, n: nat)
    requires SlotInv(s) && Within(s.lines, n) && |xs| == n + 1 && forall x | x in xs :: x.call.None?
    ensures CacheRun(s, xs).Ok? && CacheRun(s, xs).value.lines == []
    decreases xs
  {
    var x := xs[0];
    assert x in xs;
    StepKeepsSlotInv(s, x);
    var t := CacheStep(s, x).value;
    SettleWithin(s, x.kill, n);
    SweepWithin(Settle(s, x.kill).value.lines, n);
    if n == 0 {
      assert xs[1..] == [];
    } else {
      Drains(t, xs[1..], n - 1);
    }
  }

  /** Any run on data addresses, then as many edges without a call as the longest wait: nothing is
      thrown, and every request not killed has been answered exactly once with its reply. */
  lemma DataRunsAnswerAll(xs: seq<CacheIn>, ys: seq<CacheIn>)
    requires forall x | x in xs :: DataIn(x)
    requires |ys| == MAX_WAIT + 1 && forall y | y in ys :: y.call.None?
    ensures HistoryRun(INIT_HISTORY, xs + ys).Ok?
    ensures var h, m := HistoryRun(INIT_HISTORY, xs + ys).value, InitialImage();
            && multiset(h.answered) == multiset(Upto(|h.done|))
            && h.loads == LoadReplies(m, h.done, h.answered)
            && h.stores == StoreReplies(h.done)
            && h.s.mem == Replay(m, h.done)
  {
    InitSlotInv();
    RunWithin(INIT_CACHE, xs);
    RunConcat(INIT_CACHE, xs, ys);
    Drains(CacheRun(INIT_CACHE, xs).value, ys, MAX_WAIT);
    HistoryIsRun(INIT_HISTORY, xs + ys);
    AnswersAreReplies(xs + ys);
    EveryRequestAnsweredOnce(xs + ys);
  }

  // ----- the kill window -----

  /** `a` is `b` with `l` latched, and perhaps just accepted. */
  ghost predicate AskedMore(a: CacheState, b: CacheState, l: Line) {
    || a == b.(req := l)
    || (a.hskQ && a.lines != [] && Front(a.lines) == b.lines && !b.hskQ
        && a == b.(req := l, hskQ := true, lines := a.lines, delaySet := a.delaySet))
  }

  lemma SettleRequest(s: CacheState, kill: bool, l: Line)
    ensures Settle(s.(req := l), kill) ==
            match Settle(s, kill) case Err(e) => Err(e) case Ok(t) => Ok(t.(req := l))
  {
  }

  /** The first edge: the extra line only stands at the end of the list. */
  lemma AcceptEdge(s1: CacheState, l: Line)
    requires l.delay > 0
    ensures var a, b := Answer(Accept(s1.(req := l), true)), Answer(Accept(s1, false));
            match b case Err(e) => a == Err(e) case Ok(t) => a.Ok? && AskedMore(a.value, t, l)
  {
    if |s1.lines| < MAX_CACHE_SIZE {
      var all := s1.lines + [l];
      assert Front(all) == s1.lines;
      if Sweep(s1.lines).Ok? {
        var kept := Sweep(s1.lines).value.kept;
        assert Front(kept + [l.(delay := l.delay - 1)]) == kept;
      }
    }
  }

  /** The second edge: the kill takes it off again. */
  lemma KillEdge(a: CacheState, b: CacheState, l: Line)
    requires AskedMore(a, b, l) && !b.hskQ
    ensures var kill := CacheIn(true, None);
            match CacheStep(b, kill) case Err(e) => CacheStep(a, kill) == Err(e)
                                     case Ok(t) => CacheStep(a, kill) == Ok(t.(req := l))
  {
    SettleRequest(b, true, l);
  }

  lemma RunOfTwo(s: CacheState, x: CacheIn, y: CacheIn)
    ensures CacheRun(s, [x, y]) == match CacheStep(s, x) case Err(e) => Err(e) case Ok(t) => CacheStep(t, y)
  {
    assert [x, y][1..] == [y];
    if CacheStep(s, x).Ok? {
      var t := CacheStep(s, x).value;
      assert CacheRun(t, [y]) == CacheStep(t, y);
    }
  }

  /** A request accepted at one edge and killed at the next leaves no trace but the latched request:
      the cache is as if it had never been asked. */
  lemma KillUndoes(s: CacheState, x: CacheIn)
    requires Settled(s) && x.call.Some?
    ensures var kill := CacheIn(true, None);
            match CacheRun(s, [x.(call := None), kill])
            case Err(e) => CacheRun(s, [x, kill]) == Err(e)
            case Ok(t) => CacheRun(s, [x, kill]) == Ok(t.(req := Latched(s, x.call.value)))
  {
    var kill := CacheIn(true, None);
    var l := Latched(s, x.call.value);
    LatchedWaits(s, x.call.value);
    SettleRequest(s, x.kill, l);
    RunOfTwo(s, x, kill);
    RunOfTwo(s, x.(call := None), kill);
    if Settle(s, x.kill).Ok? {
      AcceptEdge(Settle(s, x.kill).value, l);
      if CacheStep(s, x.(call := None)).Ok? {
        KillEdge(CacheStep(s, x).value, CacheStep(s, x.(call := None)).value, l);
      }
    }
  }
}
