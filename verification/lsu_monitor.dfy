// The response half of the LSU unit test's monitor (sim/lsu_ut/monitor.cpp): commits are
// checked against the order of issue and against a golden memory of 64-bit words.
module LsuMonitor {
  import opened Words
  import opened FlatMemory
  import opened L1dTypes
  import opened Loads
  import opened Packed64
  import opened Cache
  import opened CacheSlots
  import opened CacheRuns
  import L1dMonitor

  datatype LsuMonError = CommitInWrongOrder | GoldenMisaligned | LoadFail

  datatype LsuMonState = LsuMonState(issQue: seq<Line>, respCommNum: u32, rdFreeList: seq<u8>, mem: Mem)

  /** Below this address a store of eight bytes is made in two halves. */
  const IO_LIMIT: nat := 0x1_0000

  const HALF_BYTES: nat := BEAT_BYTES / 2

  predicate SplitStore(r: Line) {
    r.isStore && r.opcode == STU_SD && r.paddr < IO_LIMIT
  }

  /** Whether the golden memory refuses the address; the halves of a split store only need to be
      aligned to four. */
  predicate Refused(r: Line) {
    if SplitStore(r) then r.paddr % 4 != 0 else Misplaced(r)
  }

  /** The golden memory refuses a double-word store below 64 KiB exactly if four does not divide its
      address, and any other access exactly if its width does not. */
  lemma RefusedIff(r: Line, n: nat)
    requires Width(r, n)
    ensures Refused(r) <==>
            if r.isStore && r.opcode == 3 && r.paddr < 0x1_0000 then r.paddr % 4 != 0
            else r.paddr % 0x1_0000 % n != 0
  {
  }

  /** What a load should have returned. */
  function GoldenData(m: Mem, r: Line): u64 {
    if r.opcode <= LDU_LWU then LoadValue(m, r.paddr % 0x1_0000, r.opcode) else 0
  }

  function Respond(s: LsuMonState, r: Line): Result<LsuMonState, LsuMonError> {
    if s.issQue == [] || s.issQue[0].paddr != r.paddr then Err(CommitInWrongOrder)
    else if Refused(r) then Err(GoldenMisaligned)
    else if !r.isStore && r.data != GoldenData(s.mem, r) then Err(LoadFail)
    else
      Ok(LsuMonState(
        s.issQue[1..],
        (s.respCommNum + 1) % 0x1_0000_0000,
        s.rdFreeList + (if r.isStore then [] else [r.rdAddr]),
        Effect(s.mem, r)))
  }

  /** What is looked at first: the order, then the alignment, then the data of a load, which is 0
      for an opcode the source does not know. */
  lemma RespondFailsIff(s: LsuMonState, r: Line)
    ensures Respond(s, r) == Err(CommitInWrongOrder) <==> s.issQue == [] || s.issQue[0].paddr != r.paddr
    ensures Respond(s, r) == Err(GoldenMisaligned) <==>
            s.issQue != [] && s.issQue[0].paddr == r.paddr && Refused(r)
    ensures Respond(s, r) == Err(LoadFail) <==>
            && s.issQue != [] && s.issQue[0].paddr == r.paddr && !Refused(r) && !r.isStore
            && r.data != if r.opcode < 7 then Loaded(s.mem, r.paddr % 0x1_0000, r.opcode) else 0
  {
    if r.opcode < 7 {
      LoadTable(s.mem, r.paddr % 0x1_0000, r.opcode);
    }
  }

  function RespondAll(s: LsuMonState, rs: seq<Line>): Result<LsuMonState, LsuMonError> {
    if rs == [] then Ok(s)
    else
      match RespondAll(s, Front(rs))
      case Err(e) => Err(e)
      case Ok(t) => Respond(t, Last(rs))
  }

  /** Both monitors start with the registers 1 to 63 free. */
  function InitialFreeList(): seq<u8> {
    L1dMonitor.InitialFreeList()
  }

  // ----- the simulator object -----

  class Monitor {
    const perfectMem: PackedMemory
    var issQue: seq<Line>
    var respCommNum: u32
    var rdFreeList: seq<u8>

    ghost function State(): LsuMonState
      requires perfectMem.Shape()
      reads this, perfectMem, perfectMem.mem
    {
      LsuMonState(issQue, respCommNum, rdFreeList, perfectMem.View())
    }

    constructor (mem: PackedMemory)
      requires mem.Shape()
      ensures perfectMem == mem && issQue == [] && respCommNum == 0 && rdFreeList == InitialFreeList()
    {
      perfectMem := mem;
      issQue, respCommNum := [], 0;
      var l: seq<u8> := [];
      var i := 1;
      while i < 64
        invariant 1 <= i <= 64
        invariant l == InitialFreeList()[..i - 1]
      {
        l := l + [i];
        i := i + 1;
      }
      rdFreeList := l;
    }

    /** A commit comes in. */
    method EvalResp(r: Line) returns (err: Option<LsuMonError>)
      requires perfectMem.Shape()
      modifies this, perfectMem, perfectMem.mem
      ensures perfectMem.Shape()
      ensures match Respond(old(State()), r)
              case Ok(s) => err == None && State() == s
              case Err(e) => err == Some(e)
    {
      respCommNum := (respCommNum + 1) % 0x1_0000_0000;
      if issQue == [] || issQue[0].paddr != r.paddr {
        return Some(CommitInWrongOrder);
      }
      issQue := issQue[1..];
      if r.isStore {
        err := GoldenStore(r);
      } else {
        rdFreeList := rdFreeList + [r.rdAddr];
        err := GoldenLoad(r);
      }
    }

    method GoldenLoad(r: Line) returns (err: Option<LsuMonError>)
      requires perfectMem.Shape() && !r.isStore
      modifies perfectMem`visitTime
      ensures err == if Refused(r) then Some(GoldenMisaligned)
                     else if r.data != GoldenData(perfectMem.View(), r) then Some(LoadFail)
                     else None
    {
      var data: u64 := 0;
      if r.opcode <= LDU_LWU {
        var value := perfectMem.Load(r.paddr % 0x1_0000, r.opcode);
        if value.Err? {
          return Some(GoldenMisaligned);
        }
        data := value.value;
        if r.opcode == LDU_LD && r.paddr < IO_LIMIT {
          var again := perfectMem.Load(0, LDU_LD);
        }
      }
      err := if data != r.data then Some(LoadFail) else None;
    }

    method GoldenStore(r: Line) returns (err: Option<LsuMonError>)
      requires perfectMem.Shape() && r.isStore
      modifies perfectMem`visitTime, perfectMem.mem
      ensures err == if Refused(r) then Some(GoldenMisaligned) else None
      ensures err.None? ==> perfectMem.View() == Effect(old(perfectMem.View()), r)
    {
      err := None;
      if SplitStore(r) {
        assert r.paddr % 0x1_0000 == r.paddr;
        err := StoreHalves(r.paddr, r.data);
      } else if r.opcode <= STU_SD {
        ghost var before: Words64 := perfectMem.mem[..];
        var bad := perfectMem.Store(r.paddr % 0x1_0000, StoreSize(r.opcode), r.data);
        if bad.Some? {
          return Some(GoldenMisaligned);
        }
        StoreView64(before, r.paddr % 0x1_0000, StoreSize(r.opcode), r.data);
      }
    }

    /** sw, as far as the bytes go. */
    method StoreWord(paddr: u16, data: u64) returns (err: Option<LsuMonError>)
      requires perfectMem.Shape()
      modifies perfectMem`visitTime, perfectMem.mem
      ensures err == if paddr % 4 != 0 then Some(GoldenMisaligned) else None
      ensures err.None? ==> perfectMem.View() == StoreBytes(old(perfectMem.View()), paddr, HALF_BYTES, data)
    {
      err := None;
      ghost var before: Words64 := perfectMem.mem[..];
      var bad := perfectMem.Store(paddr, HALF_BYTES, data);
      if bad.Some? {
        return Some(GoldenMisaligned);
      }
      StoreView64(before, paddr, HALF_BYTES, data);
    }

    /** The low word, then the high word four bytes on. */
    method StoreHalves(paddr: u16, data: u64) returns (err: Option<LsuMonError>)
      requires perfectMem.Shape()
      modifies perfectMem`visitTime, perfectMem.mem
      ensures err == if paddr % 4 != 0 then Some(GoldenMisaligned) else None
      ensures err.None? ==> perfectMem.View() == StoreBytes(old(perfectMem.View()), paddr, StoreSize(STU_SD), data)
    {
      ghost var m0 := perfectMem.View();
      err := StoreWord(paddr, data % 0x1_0000_0000);
      if err.Some? {
        return;
      }
      ghost var m1 := perfectMem.View();
      NextAligned(paddr);
      err := StoreWord((paddr + 4) % 0x1_0000, data / 0x1_0000_0000);
      HalvesStored(m0, m1, paddr, data, HALF_BYTES);
    }
  }

  lemma NextAligned(paddr: u16)
    requires paddr % 4 == 0
    ensures (paddr + 4) % 0x1_0000 % 4 == 0
  {
  }

  lemma HalvesStored(m0: Mem, m1: Mem, paddr: u16, data: u64, n: nat)
    requires n == HALF_BYTES && m1 == StoreBytes(m0, paddr, n, data % 0x1_0000_0000)
    ensures StoreBytes(m1, (paddr + 4) % 0x1_0000, n, data / 0x1_0000_0000) ==
            StoreBytes(m0, paddr, StoreSize(STU_SD), data)
  {
    StoreWraps(m1, paddr + 4, n, data / 0x1_0000_0000);
    DoubleSplits(m0, paddr, data, n);
    assert n + n == StoreSize(STU_SD);
  }

  lemma AddWraps(a: nat, j: nat)
    ensures (a + j) % MEM_MAX_SIZE == (a % MEM_MAX_SIZE + j) % MEM_MAX_SIZE
  {
    var q := a / MEM_MAX_SIZE;
    assert a == q * MEM_MAX_SIZE + a % MEM_MAX_SIZE;
  }

  lemma {:induction false} StoreWraps(m: Mem, a: nat, n: nat, data: nat)
    ensures StoreBytes(m, a, n, data) == StoreBytes(m, a % MEM_MAX_SIZE, n, data)
    decreases n
  {
    if n > 0 {
      StoreWraps(m, a, n - 1, data);
      AddWraps(a, n - 1);
      assert a + n - 1 == a + (n - 1) && a % MEM_MAX_SIZE + n - 1 == a % MEM_MAX_SIZE + (n - 1);
    }
  }

  // ----- which streams of commits pass -----

  /** Commit `k` names the `k`-th request issued, at an address the golden memory takes, and if it
      is a load it carries what the earlier commits leave there. */
  predicate CommitRight(s: LsuMonState, rs: seq<Line>, k: nat)
    requires k < |rs|
  {
    && k < |s.issQue| && s.issQue[k].paddr == rs[k].paddr
    && !Refused(rs[k])
    && (!rs[k].isStore ==> rs[k].data == GoldenData(Replay(s.mem, rs[..k]), rs[k]))
  }

  /** The registers of the loads among some commits, in order. */
  function LoadRegs(rs: seq<Line>): seq<u8> {
    if rs == [] then [] else LoadRegs(Front(rs)) + (if Last(rs).isStore then [] else [Last(rs).rdAddr])
  }

  /** Where the monitor stands after a stream that passes: the requests committed have left the
      queue, the registers of the loads among them have come back in order, they have been counted
      in 32 bits, and the golden memory is their replay. */
  lemma {:induction false} StreamState(s: LsuMonState, rs: seq<Line>)
    requires RespondAll(s, rs).Ok?
    ensures var t := RespondAll(s, rs).value;
            && |rs| <= |s.issQue| && t.issQue == s.issQue[|rs|..]
            && t.rdFreeList == s.rdFreeList + LoadRegs(rs)
            && t.respCommNum == (s.respCommNum + |rs|) % 0x1_0000_0000
            && t.mem == Replay(s.mem, rs)
  {
    if rs != [] {
      StreamState(s, Front(rs));
      var back := if Last(rs).isStore then [] else [Last(rs).rdAddr];
      Associative(s.rdFreeList, LoadRegs(Front(rs)), back);
      CountOn(s.respCommNum + |rs| - 1);
    }
  }

  lemma CountOn(n: nat)
    ensures (n % 0x1_0000_0000 + 1) % 0x1_0000_0000 == (n + 1) % 0x1_0000_0000
  {
  }

  lemma StreamLast(s: LsuMonState, rs: seq<Line>)
    requires rs != [] && RespondAll(s, Front(rs)).Ok?
    ensures RespondAll(s, rs).Ok? <==> CommitRight(s, rs, |rs| - 1)
  {
    var n := |rs| - 1;
    var t := RespondAll(s, Front(rs)).value;
    StreamState(s, Front(rs));
    assert rs[..n] == Front(rs);
    if n < |s.issQue| {
      assert t.issQue[0] == s.issQue[n];
    }
  }

  lemma SameCommits(s: LsuMonState, rs: seq<Line>, k: nat)
    requires k + 1 < |rs|
    ensures CommitRight(s, Front(rs), k) == CommitRight(s, rs, k)
  {
    assert Front(rs)[..k] == rs[..k];
  }

  /** A stream of commits passes exactly when every commit in it is right, and then the golden
      memory is the replay of the stream. */
  lemma {:induction false} StreamPassesIff(s: LsuMonState, rs: seq<Line>)
    ensures RespondAll(s, rs).Ok? <==> forall k | 0 <= k < |rs| :: CommitRight(s, rs, k)
    ensures RespondAll(s, rs).Ok? ==> RespondAll(s, rs).value.mem == Replay(s.mem, rs)
  {
    if rs != [] {
      StreamPassesIff(s, Front(rs));
      forall k | 0 <= k < |rs| - 1
        ensures CommitRight(s, Front(rs), k) == CommitRight(s, rs, k)
      {
        SameCommits(s, rs, k);
      }
      if RespondAll(s, Front(rs)).Ok? {
        StreamLast(s, rs);
      }
      if RespondAll(s, rs).Ok? {
        StreamState(s, rs);
      }
    }
  }

  // ----- the fake cache in front of it -----

  /** The requests done by the cache, each with its reply. */
  function Replies(m: Mem, done: seq<Line>): seq<Line> {
    seq(|done|, k requires 0 <= k < |done| => Reply(m, done, k))
  }

  /** Filling in what loads read does not change what the requests do to memory. */
  lemma {:induction false} RepliesReplay(m: Mem, done: seq<Line>, n: nat)
    requires n <= |done|
    ensures Replay(m, Replies(m, done)[..n]) == Replay(m, done[..n])
    decreases n
  {
    if n > 0 {
      RepliesReplay(m, done, n - 1);
      var rs := Replies(m, done);
      assert Front(rs[..n]) == rs[..n - 1] && Front(done[..n]) == done[..n - 1];
      assert Last(rs[..n]) == Reply(m, done, n - 1);
    }
  }

  /** A load comes with no data of its own, as the driver passes it. */
  predicate PlainLoad(l: Line) {
    !l.isStore ==> l.data == 0
  }

  /** What the cache has done, committed in the order of issue, passes a monitor that starts from
      the same memory, and leaves its golden memory equal to the cache's. */
  lemma CacheRepliesPass(s: LsuMonState, done: seq<Line>)
    requires |done| <= |s.issQue| && forall k | 0 <= k < |done| :: s.issQue[k].paddr == done[k].paddr
    requires forall k | 0 <= k < |done| :: !Misplaced(done[k]) && PlainLoad(done[k])
    ensures RespondAll(s, Replies(s.mem, done)).Ok?
    ensures RespondAll(s, Replies(s.mem, done)).value.mem == Replay(s.mem, done)
  {
    var rs := Replies(s.mem, done);
    forall k | 0 <= k < |rs|
      ensures CommitRight(s, rs, k)
    {
      RepliesReplay(s.mem, done, k);
      DoubleIsQuad(done[k]);
    }
    StreamPassesIff(s, rs);
    RepliesReplay(s.mem, done, |done|);
    assert rs[..|done|] == rs && done[..|done|] == done;
  }

  lemma DoubleIsQuad(r: Line)
    requires !Misplaced(r)
    ensures !Refused(r)
  {
    if SplitStore(r) {
      assert AccessSize(r) == 8 && r.paddr % 0x1_0000 == r.paddr;
      EightIsFour(r.paddr);
    }
  }

  lemma EightIsFour(a: nat)
    requires a % 8 == 0
    ensures a % 4 == 0
  {
  }

  // ----- runs of the cache in front of the monitor -----

  /** Every request done, and the one pending, satisfies what the driver and the alignment check
      make sure of. */
  ghost predicate AllPlain(h: History) {
    && (forall k | 0 <= k < |h.done| :: !Misplaced(h.done[k]) && PlainLoad(h.done[k]))
    && (h.s.hskQ ==> PlainLoad(h.s.req))
  }

  predicate PlainIn(x: CacheIn) {
    x.call.Some? && !x.call.value.isStore ==> x.call.value.data == 0
  }

  lemma StepKeepsPlain(m: Mem, h: History, x: CacheIn)
    requires CacheInv(m, h) && AllPlain(h) && PlainIn(x) && HistoryStep(h, x).Ok?
    ensures AllPlain(HistoryStep(h, x).value)
  {
    var done := DoneAfter(h, x.kill);
    if h.s.hskQ && !x.kill {
      assert Last(h.s.lines) == h.s.req.(delay := Last(h.s.lines).delay);
      assert !Misplaced(h.s.req);
    }
  }

  lemma {:induction false} RunKeepsPlain(m: Mem, h: History, xs: seq<CacheIn>)
    requires CacheInv(m, h) && AllPlain(h) && HistoryRun(h, xs).Ok? && forall x | x in xs :: PlainIn(x)
    ensures AllPlain(HistoryRun(h, xs).value)
    decreases xs
  {
    if xs != [] {
      assert xs[0] in xs;
      StepKeepsPlain(m, h, xs[0]);
      StepKeepsCacheInv(m, h, xs[0]);
      RunKeepsPlain(m, HistoryStep(h, xs[0]).value, xs[1..]);
    }
  }

  /** After any run of the cache that throws nothing: the replies to the requests it has done,
      committed in the order of issue, pass a monitor that was issued the same addresses, and its
      golden memory ends equal to the memory of the cache. */
  lemma CacheRunPasses(xs: seq<CacheIn>, s: LsuMonState)
    requires HistoryRun(INIT_HISTORY, xs).Ok? && forall x | x in xs :: PlainIn(x)
    requires s.mem == InitialImage()
    requires var done := HistoryRun(INIT_HISTORY, xs).value.done;
             |done| <= |s.issQue| && forall k | 0 <= k < |done| :: s.issQue[k].paddr == done[k].paddr
    ensures var h := HistoryRun(INIT_HISTORY, xs).value;
            var end := RespondAll(s, Replies(InitialImage(), h.done));
            end.Ok? && end.value.mem == h.s.mem
  {
    InitCacheInv();
    RunKeepsCacheInv(InitialImage(), INIT_HISTORY, xs);
    RunKeepsPlain(InitialImage(), INIT_HISTORY, xs);
    CacheRepliesPass(s, HistoryRun(INIT_HISTORY, xs).value.done);
  }
}
