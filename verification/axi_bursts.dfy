// What each accepted command gets back: its beats, their place in the response stream, and
// the memory they were read from.
module AxiBursts {
  import opened Words
  import opened FlatMemory
  import opened L1dTypes
  import opened Axi
  import opened AxiRuns

  /** The reference memory can be stopped before any command. */
  lemma {:induction false} PrefixOk(m: Mem, pagetable: Mem, cmds: seq<Cmd>, w: seq<WReq>, c: nat)
    requires c <= |cmds| && BURST_NUM * Writes(cmds) <= |w| && Sequential(m, pagetable, cmds, w).Ok?
    ensures BURST_NUM * Writes(cmds[..c]) <= |w| && Sequential(m, pagetable, cmds[..c], w).Ok?
    decreases |cmds|
  {
    if c > 0 {
      assert cmds[..c][1..] == cmds[1..][..c - 1];
      if cmds[0].ReadCmd? {
        PrefixOk(m, pagetable, cmds[1..], w, c - 1);
      } else {
        PrefixOk(WriteBurst(m, cmds[0].aw.awaddr, w[..BURST_NUM]), pagetable, cmds[1..], w[BURST_NUM..], c - 1);
      }
    }
  }

  /** What command `cmd` owes its sender when memory holds `m`. */
  function Answer(m: Mem, pagetable: Mem, cmd: Cmd): seq<MemResp> {
    match cmd
    case ReadCmd(ar) => ReadBurst(if InData(ar.araddr) then m else pagetable, ar, BURST_NUM)
    case WriteCmd(aw) => [B(BResp(aw.awid))]
  }

  lemma SliceAfter<T>(front: seq<T>, rest: seq<T>, i: nat, j: nat)
    requires i <= j <= |rest|
    ensures (front + rest)[|front| + i..|front| + j] == rest[i..j]
  {
  }

  /** In the response stream the answer to command `c` starts where the answers to the earlier
      commands end, has no other response between its beats, and reads the memory left by
      exactly the earlier writes. */
  lemma {:induction false} AnswerInPlace(m: Mem, pagetable: Mem, cmds: seq<Cmd>, w: seq<WReq>, c: nat)
    requires c < |cmds| && BURST_NUM * Writes(cmds) <= |w| && Sequential(m, pagetable, cmds, w).Ok?
    requires BURST_NUM * Writes(cmds[..c]) <= |w| && Sequential(m, pagetable, cmds[..c], w).Ok?
    ensures var before := Sequential(m, pagetable, cmds[..c], w).value;
            var resps := Sequential(m, pagetable, cmds, w).value.resps;
            var answer := Answer(before.mem, pagetable, cmds[c]);
            |before.resps| + |answer| <= |resps| &&
            resps[|before.resps|..|before.resps| + |answer|] == answer
    decreases |cmds|
  {
    if c > 0 {
      assert cmds[..c][1..] == cmds[1..][..c - 1];
      if cmds[0].ReadCmd? {
        AnswerInPlace(m, pagetable, cmds[1..], w, c - 1);
        AnswerShifts(m, pagetable, cmds, w, c);
      } else {
        var m' := WriteBurst(m, cmds[0].aw.awaddr, w[..BURST_NUM]);
        AnswerInPlace(m', pagetable, cmds[1..], w[BURST_NUM..], c - 1);
        AnswerShiftsPast(m, m', pagetable, cmds, w, c);
      }
    }
  }

  lemma AnswerShiftsPast(m: Mem, m': Mem, pagetable: Mem, cmds: seq<Cmd>, w: seq<WReq>, c: nat)
    requires 0 < c < |cmds| && cmds[0].WriteCmd?
    requires BURST_NUM * Writes(cmds) <= |w| && Sequential(m, pagetable, cmds, w).Ok?
    requires m' == WriteBurst(m, cmds[0].aw.awaddr, w[..BURST_NUM]) && cmds[..c][1..] == cmds[1..][..c - 1]
    requires BURST_NUM * Writes(cmds[..c]) <= |w| && Sequential(m, pagetable, cmds[..c], w).Ok?
    requires var inner := Sequential(m', pagetable, cmds[1..][..c - 1], w[BURST_NUM..]).value;
             var rest := Sequential(m', pagetable, cmds[1..], w[BURST_NUM..]).value.resps;
             var answer := Answer(inner.mem, pagetable, cmds[c]);
             |inner.resps| + |answer| <= |rest| && rest[|inner.resps|..|inner.resps| + |answer|] == answer
    ensures var before := Sequential(m, pagetable, cmds[..c], w).value;
            var resps := Sequential(m, pagetable, cmds, w).value.resps;
            var answer := Answer(before.mem, pagetable, cmds[c]);
            |before.resps| + |answer| <= |resps| &&
            resps[|before.resps|..|before.resps| + |answer|] == answer
  {
    var front := [B(BResp(cmds[0].aw.awid))];
    var inner := Sequential(m', pagetable, cmds[1..][..c - 1], w[BURST_NUM..]).value;
    var rest := Sequential(m', pagetable, cmds[1..], w[BURST_NUM..]).value.resps;
    SliceAfter(front, rest, |inner.resps|, |inner.resps| + |Answer(inner.mem, pagetable, cmds[c])|);
  }

  lemma AnswerShifts(m: Mem, pagetable: Mem, cmds: seq<Cmd>, w: seq<WReq>, c: nat)
    requires 0 < c < |cmds| && cmds[0].ReadCmd?
    requires BURST_NUM * Writes(cmds) <= |w| && Sequential(m, pagetable, cmds, w).Ok?
    requires cmds[..c][1..] == cmds[1..][..c - 1]
    requires BURST_NUM * Writes(cmds[..c]) <= |w| && Sequential(m, pagetable, cmds[..c], w).Ok?
    requires var inner := Sequential(m, pagetable, cmds[1..][..c - 1], w).value;
             var rest := Sequential(m, pagetable, cmds[1..], w).value.resps;
             var answer := Answer(inner.mem, pagetable, cmds[c]);
             |inner.resps| + |answer| <= |rest| && rest[|inner.resps|..|inner.resps| + |answer|] == answer
    ensures var before := Sequential(m, pagetable, cmds[..c], w).value;
            var resps := Sequential(m, pagetable, cmds, w).value.resps;
            var answer := Answer(before.mem, pagetable, cmds[c]);
            |before.resps| + |answer| <= |resps| &&
            resps[|before.resps|..|before.resps| + |answer|] == answer
  {
    var ar := cmds[0].ar;
    var front := ReadBurst(if InData(ar.araddr) then m else pagetable, ar, BURST_NUM);
    var inner := Sequential(m, pagetable, cmds[1..][..c - 1], w).value;
    var rest := Sequential(m, pagetable, cmds[1..], w).value.resps;
    SliceAfter(front, rest, |inner.resps|, |inner.resps| + |Answer(inner.mem, pagetable, cmds[c])|);
  }

  lemma LoadBeatByte(m: Mem, a: nat, j: nat)
    requires j < BEAT_BYTES
    ensures ByteOf(LoadBeat(m, a), j) == m[(a + j) % MEM_MAX_SIZE]
  {
    var bs := Window(m, a, BEAT_BYTES);
    LeBytesOfValue(bs);
    LeBytesAt(LeValue(bs), BEAT_BYTES, j);
  }

  /** The two ranges a read may be in. */
  lemma ReadRanges(ar: ArReq)
    ensures InData(ar.araddr) <==> 0x8000_0000 <= ar.araddr <= 0x8000_ffff
    ensures InPagetable(ar.araddr) <==> 0x1000_0000 <= ar.araddr <= 0x1000_ffff
  {
  }

  lemma OnlyRead(m: Mem, pagetable: Mem, ar: ArReq)
    ensures Sequential(m, pagetable, [ReadCmd(ar)], []) ==
            if InData(ar.araddr) || InPagetable(ar.araddr) then Ok(Served(m, Answer(m, pagetable, ReadCmd(ar))))
            else Err(InvalidRead)
  {
    assert [ReadCmd(ar)][1..] == [];
    var answer := Answer(m, pagetable, ReadCmd(ar));
    assert answer + [] == answer;
  }

  lemma BeatOfRead(m: Mem, pagetable: Mem, ar: ArReq, i: nat, j: nat, source: Mem)
    requires i < BURST_NUM && j < BEAT_BYTES && source == if InData(ar.araddr) then m else pagetable
    ensures |Answer(m, pagetable, ReadCmd(ar))| == 8
    ensures var beat := Answer(m, pagetable, ReadCmd(ar))[i];
            && beat.R? && beat.r.rid == ar.arid && (beat.r.rlast <==> i == 7)
            && ByteOf(beat.r.rdata, j) == source[(ar.araddr + i * 8 + j) % 0x1_0000]
  {
    LoadBeatByte(source, ar.araddr + i * 8, j);
  }

  /** A read is answered by eight beats with its own id, the last one and only it marked last,
      each the little-endian word at its place in the line: of memory for an address in the 64 KiB
      from 0x8000_0000 on, of the page table for one in the 64 KiB from 0x1000_0000 on. No other
      read is answered. */
  lemma ReadAnswer(m: Mem, pagetable: Mem, ar: ArReq, i: nat, j: nat)
    requires i < BURST_NUM && j < BEAT_BYTES
    ensures |Answer(m, pagetable, ReadCmd(ar))| == 8
    ensures var beat := Answer(m, pagetable, ReadCmd(ar))[i];
            && beat.R? && beat.r.rid == ar.arid && (beat.r.rlast <==> i == 7)
            && (0x8000_0000 <= ar.araddr <= 0x8000_ffff ==>
                  ByteOf(beat.r.rdata, j) == m[(ar.araddr + i * 8 + j) % 0x1_0000])
            && (0x1000_0000 <= ar.araddr <= 0x1000_ffff ==>
                  ByteOf(beat.r.rdata, j) == pagetable[(ar.araddr + i * 8 + j) % 0x1_0000])
    ensures Sequential(m, pagetable, [ReadCmd(ar)], []) ==
            if 0x8000_0000 <= ar.araddr <= 0x8000_ffff || 0x1000_0000 <= ar.araddr <= 0x1000_ffff
              then Ok(Served(m, Answer(m, pagetable, ReadCmd(ar))))
            else Err(InvalidRead)
  {
    ReadRanges(ar);
    BeatOfRead(m, pagetable, ar, i, j, if InData(ar.araddr) then m else pagetable);
    OnlyRead(m, pagetable, ar);
  }

  // ----- which addresses are served -----

  /** A command for an address outside the memory, or outside memory and page table for a read. */
  predicate OutOfRange(r: MemReq) {
    match r
    case Read(ar, _) => !(0x8000_0000 <= ar.araddr <= 0x8000_ffff) && !(0x1000_0000 <= ar.araddr <= 0x1000_ffff)
    case Write(aw, _, _) => !(0x8000_0000 <= aw.awaddr <= 0x8000_ffff)
  }

  /** Some requests are served exactly if none of them is out of range; the first that is tells
      the error. */
  lemma {:induction false} ServeFailsIff(m: Mem, pagetable: Mem, rs: seq<MemReq>)
    ensures ServeAll(m, pagetable, rs).Ok? <==> forall i | 0 <= i < |rs| :: !OutOfRange(rs[i])
    ensures forall k | 0 <= k < |rs| && OutOfRange(rs[k]) && (forall i | 0 <= i < k :: !OutOfRange(rs[i])) ::
              ServeAll(m, pagetable, rs) == Err(if rs[k].Read? then InvalidRead else InvalidWrite)
    decreases |rs|
  {
    if rs != [] && !OutOfRange(rs[0]) {
      var m' := ServeOne(m, pagetable, rs[0]).value.mem;
      ServeFailsIff(m', pagetable, rs[1..]);
      assert forall i | 1 <= i < |rs| :: rs[i] == rs[1..][i - 1];
      forall k | 0 <= k < |rs| && OutOfRange(rs[k]) && (forall i | 0 <= i < k :: !OutOfRange(rs[i]))
        ensures ServeAll(m, pagetable, rs) == Err(if rs[k].Read? then InvalidRead else InvalidWrite)
      {
        assert rs[1..][k - 1] == rs[k];
        assert forall i | 0 <= i < k - 1 :: rs[1..][i] == rs[i + 1];
      }
    }
  }

  /** What is served at an edge. */
  function DueNow(q: seq<MemReq>): seq<MemReq> {
    q[..ReadyCount(q)]
  }

  /** In every run an edge ends the simulation exactly if it brings a write beat nobody waits for,
      or serves a command whose address is out of range. */
  lemma EdgeFailsIff(m: Mem, pagetable: Mem, xs: seq<AxiIn>, x: AxiIn)
    requires Run(m, pagetable, xs).Ok?
    ensures var h := Run(m, pagetable, xs).value;
            AxiStep(h.s, x).Err? <==>
            || (x.w.Some? && x.aw.None? && |h.wstream| == 8 * Writes(h.cmds))
            || (WaitingThen(h.s, x).Ok? && exists r | r in DueNow(WaitingThen(h.s, x).value) :: OutOfRange(r))
  {
    RunKeepsInv(m, pagetable, xs);
    var h := Run(m, pagetable, xs).value;
    WaitingEffect(h.s, x);
    StrayBeat(h);
    if WaitingThen(h.s, x).Ok? {
      var due := DueNow(WaitingThen(h.s, x).value);
      ServeFailsIff(h.s.mem, h.s.pagetable, due);
      assert forall r :: r in due <==> exists i :: 0 <= i < |due| && due[i] == r;
    }
  }

  /** The answer to command `c` stands whole and in place among the responses handed over or
      waiting, read from the memory the earlier commands left. */
  ghost predicate Answered(m: Mem, pagetable: Mem, h: AxiRun, c: nat)
    requires c < |h.cmds|
  {
    BURST_NUM * Writes(h.cmds[..c]) <= |h.wstream| &&
    Sequential(m, pagetable, h.cmds[..c], h.wstream).Ok? &&
    var before := Sequential(m, pagetable, h.cmds[..c], h.wstream).value;
    var answer := Answer(before.mem, pagetable, h.cmds[c]);
    var from, all := |before.resps|, h.sent + h.s.respQ;
    from + |answer| <= |all| && all[from..from + |answer|] == answer
  }

  lemma ReferenceAnswers(m: Mem, pagetable: Mem, h: AxiRun, c: nat)
    requires AtReference(m, pagetable, h) && c < |h.served|
    ensures Answered(m, pagetable, h, c)
  {
    var cmds := h.cmds[..|h.served|];
    assert cmds[..c] == h.cmds[..c];
    PrefixOk(m, pagetable, cmds, h.wstream, c);
    AnswerInPlace(m, pagetable, cmds, h.wstream, c);
  }

  /** In every run every served command has been answered so. */
  lemma RunAnswers(m: Mem, pagetable: Mem, xs: seq<AxiIn>, c: nat)
    requires Run(m, pagetable, xs).Ok? && c < |Run(m, pagetable, xs).value.served|
    ensures c < |Run(m, pagetable, xs).value.cmds| && Answered(m, pagetable, Run(m, pagetable, xs).value, c)
  {
    RefinesSequential(m, pagetable, xs);
    ReferenceAnswers(m, pagetable, Run(m, pagetable, xs).value, c);
  }

  /** No response leaves before its command has been served: once more responses have been handed
      over than the first `c` commands produce, command `c` has been served, so for a write all
      eight of its beats are in memory before its B response. */
  lemma NoEarlyResponse(m: Mem, pagetable: Mem, xs: seq<AxiIn>, c: nat)
    requires Run(m, pagetable, xs).Ok?
    requires var h := Run(m, pagetable, xs).value;
             c <= |h.cmds| && BURST_NUM * Writes(h.cmds[..c]) <= |h.wstream| &&
             Sequential(m, pagetable, h.cmds[..c], h.wstream).Ok? &&
             |Sequential(m, pagetable, h.cmds[..c], h.wstream).value.resps| < |h.sent|
    ensures c < |Run(m, pagetable, xs).value.served|
  {
    RefinesSequential(m, pagetable, xs);
    var h := Run(m, pagetable, xs).value;
    if |h.served| <= c {
      SequentialPrefix(m, pagetable, h.cmds[..|h.served|], h.cmds[..c], h.wstream, h.wstream);
    }
  }

  lemma OffsetShift(a: nat, k: nat, p: nat)
    requires k < MEM_MAX_SIZE && p < MEM_MAX_SIZE
    ensures Offset(a + k, p) == if Offset(a, p) >= k then Offset(a, p) - k else Offset(a, p) - k + MEM_MAX_SIZE
  {
    var d := Offset(a, p);
    assert p - a == (p - a) / MEM_MAX_SIZE * MEM_MAX_SIZE + d;
  }

  /** One byte of a store that starts `k` bytes above `a`. */
  lemma StoreAboveAt(m: Mem, a: nat, k: nat, data: nat, p: nat)
    requires p < MEM_MAX_SIZE && k + BEAT_BYTES <= MEM_MAX_SIZE
    ensures StoreBytes(m, a + k, BEAT_BYTES, data)[p] ==
            var d := Offset(a, p);
            if k <= d < k + BEAT_BYTES then ByteOf(data, d - k) else m[p]
  {
    StoreBytesAt(m, a + k, BEAT_BYTES, data, p);
    OffsetShift(a, k, p);
  }

  /** The last beat of a burst settles its own eight bytes and leaves the others to the rest. */
  lemma WriteBurstLast(m: Mem, a: nat, ws: seq<WReq>, p: nat)
    requires 0 < |ws| <= BURST_NUM && p < MEM_MAX_SIZE
    ensures var d, n := Offset(a, p), |ws| - 1;
            WriteBurst(m, a, ws)[p] ==
            if 8 * n <= d < 8 * n + 8 then ByteOf(ws[n].wdata, d - 8 * n) else WriteBurst(m, a, ws[..n])[p]
  {
    var n := |ws| - 1;
    StoredBeat(WriteBurst(m, a, ws[..n]), a, n, ws[n].wdata, p);
  }

  lemma StoredBeat(m: Mem, a: nat, n: nat, data: u64, p: nat)
    requires n < BURST_NUM && p < MEM_MAX_SIZE
    ensures var d := Offset(a, p);
            StoreBytes(m, a + n * 8, BEAT_BYTES, data)[p] ==
            if 8 * n <= d < 8 * n + 8 then ByteOf(data, d - 8 * n) else m[p]
  {
    StoreAboveAt(m, a, n * 8, data, p);
  }

  /** What a served write leaves in the line: the byte 8*i+j above its address is byte `j` of
      beat `i`. */
  lemma {:induction false} WriteBurstHit(m: Mem, a: nat, ws: seq<WReq>, i: nat, j: nat, p: nat)
    requires i < |ws| <= BURST_NUM && j < BEAT_BYTES
    requires p < MEM_MAX_SIZE && Offset(a, p) == 8 * i + j
    ensures WriteBurst(m, a, ws)[p] == ByteOf(ws[i].wdata, j)
    decreases |ws|
  {
    WriteBurstLast(m, a, ws, p);
    if i < |ws| - 1 {
      WriteBurstHit(m, a, ws[..|ws| - 1], i, j, p);
    }
  }

  /** ... and everything outside the line is untouched. */
  lemma {:induction false} WriteBurstMiss(m: Mem, a: nat, ws: seq<WReq>, p: nat)
    requires p < MEM_MAX_SIZE && |ws| <= BURST_NUM && Offset(a, p) >= 8 * |ws|
    ensures WriteBurst(m, a, ws)[p] == m[p]
    decreases |ws|
  {
    if ws != [] {
      WriteBurstLast(m, a, ws, p);
      WriteBurstMiss(m, a, ws[..|ws| - 1], p);
    }
  }

  lemma WordBound(w: u64)
    ensures w < Pow256(BEAT_BYTES)
  {
    Pow256Values();
  }

  lemma WriteBurstByte(m: Mem, a: nat, ws: seq<WReq>, i: nat, j: nat)
    requires i < |ws| <= BURST_NUM && j < BEAT_BYTES
    ensures WriteBurst(m, a, ws)[(a + (8 * i + j)) % MEM_MAX_SIZE] == ByteOf(ws[i].wdata, j)
  {
    OffsetOf(a, 8 * i + j);
    WriteBurstHit(m, a, ws, i, j, (a + (8 * i + j)) % MEM_MAX_SIZE);
  }

  lemma WindowByteBack(m: Mem, a: nat, ws: seq<WReq>, i: nat, n: nat, j: nat)
    requires i < |ws| <= BURST_NUM && j < n == BEAT_BYTES
    ensures Window(WriteBurst(m, a, ws), a + i * 8, n)[j] == LeBytes(ws[i].wdata, n)[j]
  {
    var after := WriteBurst(m, a, ws);
    WindowAt(after, a + i * 8, n, j);
    assert a + i * 8 + j == a + (8 * i + j);
    WriteBurstByte(m, a, ws, i, j);
    LeBytesAt(ws[i].wdata, n, j);
  }

  lemma WindowAt(m: Mem, a: nat, n: nat, j: nat)
    requires j < n
    ensures Window(m, a, n)[j] == m[(a + j) % MEM_MAX_SIZE]
  {
  }

  /** Reading back the line just written returns the beats written. */
  lemma ReadAfterWrite(m: Mem, a: nat, ws: seq<WReq>, i: nat)
    requires i < |ws| <= BURST_NUM
    ensures LoadBeat(WriteBurst(m, a, ws), a + i * 8) == ws[i].wdata
  {
    var n := BEAT_BYTES;
    var bs := Window(WriteBurst(m, a, ws), a + i * 8, n);
    forall j | 0 <= j < n
      ensures bs[j] == LeBytes(ws[i].wdata, n)[j]
    {
      WindowByteBack(m, a, ws, i, n, j);
    }
    assert bs == LeBytes(ws[i].wdata, n);
    WordBound(ws[i].wdata);
    LeRoundTrip(ws[i].wdata, n);
  }

  // ----- who wrote a byte last -----

  /** Byte `p` of a line's worth of beats at `a` over a byte `b`: the beat's byte inside the line,
      `b` outside. */
  function Overlaid(b: byte, a: nat, ws: seq<WReq>, p: nat): byte {
    var d := Offset(a, p);
    if d < 8 * |ws| then ByteOf(ws[d / 8].wdata, d % 8) else b
  }

  /** A served write leaves its beats in its line and every other byte as it was. */
  lemma WriteBurstAt(m: Mem, a: nat, ws: seq<WReq>, p: nat)
    requires p < MEM_MAX_SIZE && |ws| <= BURST_NUM
    ensures WriteBurst(m, a, ws)[p] == Overlaid(m[p], a, ws, p)
  {
    var d := Offset(a, p);
    if d < 8 * |ws| {
      WriteBurstHit(m, a, ws, d / 8, d % 8, p);
    } else {
      WriteBurstMiss(m, a, ws, p);
    }
  }

  /** What a byte that starts as `b` holds after some commands: what the last write over it put
      there, the n-th write taking the n-th eight beats. */
  function LastWritten(b: byte, cmds: seq<Cmd>, w: seq<WReq>, p: nat): byte
    requires BURST_NUM * Writes(cmds) <= |w|
    decreases |cmds|
  {
    if cmds == [] then b
    else if cmds[0].ReadCmd? then LastWritten(b, cmds[1..], w, p)
    else LastWritten(Overlaid(b, cmds[0].aw.awaddr, w[..BURST_NUM], p), cmds[1..], w[BURST_NUM..], p)
  }

  lemma {:induction false} SequentialBytes(m: Mem, pagetable: Mem, cmds: seq<Cmd>, w: seq<WReq>, p: nat)
    requires p < MEM_MAX_SIZE && BURST_NUM * Writes(cmds) <= |w| && Sequential(m, pagetable, cmds, w).Ok?
    ensures Sequential(m, pagetable, cmds, w).value.mem[p] == LastWritten(m[p], cmds, w, p)
    decreases |cmds|
  {
    if cmds != [] {
      if cmds[0].ReadCmd? {
        SequentialBytes(m, pagetable, cmds[1..], w, p);
      } else {
        var a, ws := cmds[0].aw.awaddr, w[..BURST_NUM];
        WriteBurstAt(m, a, ws, p);
        SequentialBytes(WriteBurst(m, a, ws), pagetable, cmds[1..], w[BURST_NUM..], p);
      }
    }
  }

  /** In every run each byte of memory is what the last served write over it put there, or its
      first value if there is none. */
  lemma BytesAreLastWritten(m: Mem, pagetable: Mem, xs: seq<AxiIn>, p: nat)
    requires Run(m, pagetable, xs).Ok? && p < MEM_MAX_SIZE
    ensures var h := Run(m, pagetable, xs).value;
            && |h.served| <= |h.cmds| && BURST_NUM * Writes(h.cmds[..|h.served|]) <= |h.wstream|
            && h.s.mem[p] == LastWritten(m[p], h.cmds[..|h.served|], h.wstream, p)
  {
    RefinesSequential(m, pagetable, xs);
    var h := Run(m, pagetable, xs).value;
    SequentialBytes(m, pagetable, h.cmds[..|h.served|], h.wstream, p);
  }
}
