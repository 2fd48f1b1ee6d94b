// Address translation through the generated table, by sections 4.3.2 and 4.4.1 of the RISC-V
// Privileged Architecture v1.12, with every entry read over the bus of the fake AXI memory.
module Sv39 {
  import opened Words
  import opened FlatMemory
  import opened L1dTypes
  import opened Ptes
  import opened PageTable
  import Axi

  datatype Access = Fetch | Load | Store

  datatype Fault = PageFault | AccessFault

  /** A virtual address of 39 bits, cut into its three indices and its page offset. */
  datatype Va = Va(vpn2: nat, vpn1: nat, vpn0: nat, offset: nat)

  function VaOf(va: nat): Va {
    Va(va / 0x4000_0000 % 0x200, va / MEGAPAGE % 0x200, va / 0x1000 % 0x200, va % 0x1000)
  }

  function Vpn(v: Va, level: nat): nat {
    if level == 0 then v.vpn0 else if level == 1 then v.vpn1 else v.vpn2
  }

  predicate IsLeaf(p: Pte) {
    p.r == 1 || p.x == 1
  }

  /** Step 3: not valid, writable but not readable, or an encoding set aside for extensions. The
      D, A and U bits of a pointer to the next level are set aside too; a walker that is `strict`
      minds them, one that is not ignores them. */
  predicate Unusable(p: Pte, strict: bool) {
    || p.v == 0 || (p.r == 0 && p.w == 1)
    || p.n != 0 || p.pbmt != 0 || p.reserved != 0
    || (strict && !IsLeaf(p) && (p.d == 1 || p.a == 1 || p.u == 1))
  }

  predicate Permits(p: Pte, access: Access) {
    && p.u == 1 && p.a == 1
    && match access
       case Fetch => p.x == 1
       case Load => p.r == 1
       case Store => p.w == 1 && p.d == 1
  }

  predicate MisalignedSuperpage(p: Pte, level: nat) {
    (level >= 1 && p.ppn0 != 0) || (level >= 2 && p.ppn1 != 0)
  }

  /** Step 8: the page number of the leaf with the lower parts of a superpage from the address. */
  function Physical(p: Pte, v: Va, level: nat): nat {
    if level == 0 then GetPpn(p) * 0x1000 + v.offset
    else if level == 1 then GetPpn(p) / 0x200 * MEGAPAGE + v.vpn0 * 0x1000 + v.offset
    else GetPpn(p) / 0x4_0000 * 0x4000_0000 + v.vpn1 * MEGAPAGE + v.vpn0 * 0x1000 + v.offset
  }

  // ----- entries over the bus -----

  const LINE: nat := 64

  /** The double-word at an address, as the memory answers a read of its line: none where it
      refuses the read. */
  function BusWord(m: Mem, pt: Mem, a: nat): Option<u64> {
    if a >= 0x1_0000_0000_0000_0000 then None
    else
      match Axi.ServeOne(m, pt, Axi.Read(Axi.ArReq(0, a - a % LINE), 0))
      case Err(_) => None
      case Ok(done) =>
        var i := a % LINE / 8;
        if i < |done.resps| && done.resps[i].R? then Some(done.resps[i].r.rdata) else None
  }

  /** In the page-table range the memory answers with the table's bytes, on every page of it. */
  lemma BusReadsTable(m: Mem, pt: Mem, a: nat)
    requires 0x1000_0000 <= a <= 0x1000_ffff && a % 8 == 0
    ensures BusWord(m, pt, a) == Some(LoadBytes(pt, a, BEAT_BYTES))
  {
    LineAndBeat(a);
  }

  lemma LineAndBeat(a: nat)
    requires a % 8 == 0
    ensures a - a % LINE + a % LINE / 8 * 8 == a && a % LINE / 8 < 8
    ensures 0x1000_0000 <= a <= 0x1000_ffff ==> 0x1000_0000 <= a - a % LINE <= 0x1000_ffff
    ensures 0x1001_0000 <= a < 0x8000_0000 ==> 0x1001_0000 <= a - a % LINE < 0x8000_0000
  {
  }

  /** Between the two ranges it answers nothing. */
  lemma BusRefuses(m: Mem, pt: Mem, a: nat)
    requires 0x1001_0000 <= a < 0x8000_0000 && a % 8 == 0
    ensures BusWord(m, pt, a) == None
  {
    LineAndBeat(a);
  }

  datatype Step = Fails | Down(ppn: nat) | Found(pa: nat)

  /** Steps 3 to 8 for a user-mode access, given the entry. */
  function Examine(p: Pte, va: Va, level: nat, access: Access, strict: bool): Step {
    if Unusable(p, strict) then Fails
    else if !IsLeaf(p) then (if level == 0 then Fails else Down(GetPpn(p)))
    else if !Permits(p, access) || MisalignedSuperpage(p, level) then Fails
    else Found(Physical(p, va, level))
  }

  /** The walk from the table page `ppn` of level `level` on, with words as `read` finds them. */
  function Walk(read: nat -> Option<Pte>, ppn: nat, va: Va, level: nat, access: Access, strict: bool)
    : Result<nat, Fault>
    requires level <= 2
    decreases level
  {
    match read(ppn * 0x1000 + Vpn(va, level) * 8)
    case None => Err(AccessFault)
    case Some(p) =>
      match Examine(p, va, level, access, strict)
      case Fails => Err(PageFault)
      case Found(pa) => Ok(pa)
      case Down(next) => if level == 0 then Err(PageFault) else Walk(read, next, va, level - 1, access, strict)
  }

  function BusEntry(m: Mem, pt: Mem, a: nat): Option<Pte> {
    match BusWord(m, pt, a)
    case None => None
    case Some(word) => Some(Unpack(word))
  }

  function Reader(m: Mem, pt: Mem): nat -> Option<Pte> {
    (a: nat) => BusEntry(m, pt, a)
  }

  /** Translation of a 39-bit address, with memory `m` and page-table memory `pt` behind the bus. */
  function Translate(m: Mem, pt: Mem, va: nat, access: Access, strict: bool): Result<nat, Fault> {
    Walk(Reader(m, pt), PT_BASE_PPN, VaOf(va), 2, access, strict)
  }

  const PT_PAGES: nat := 16

  /** The page-table memory once these pages are loaded: their bytes and then zeros. */
  predicate Loaded(pt: Mem, pages: seq<Page>) {
    |pages| < PT_PAGES && pt == TableBytes(pages) + seq(MEM_MAX_SIZE - PAGE_BYTES * |pages|, i => 0)
  }

  // ----- reading one entry -----

  /** Slot `i` of page `p` of the page-table memory. */
  function SlotAddress(p: nat, i: nat): nat {
    (PT_BASE_PPN + p) * 0x1000 + i * 8
  }

  /** What a walker finds there: an entry of the pages, or nothing valid. */
  function EntryOf(pages: seq<Page>, p: nat, i: nat): Pte {
    if p < |pages| && i < |pages[p]| then pages[p][i] else MakePte(0, false, false)
  }

  lemma UnpackZero()
    ensures Unpack(0) == MakePte(0, false, false)
  {
  }

  lemma BeyondThePages(pt: Mem, pages: seq<Page>, o: nat)
    requires Loaded(pt, pages) && PAGE_BYTES * |pages| <= o && o + 8 <= MEM_MAX_SIZE
    ensures LoadBytes(pt, SATP + o, BEAT_BYTES) == 0
  {
    forall j | 0 <= j < 8
      ensures pt[o + j] == ByteOf(0, j)
    {
      ByteOfZero(j);
    }
    ReadWord(pt, o, 0);
  }

  function WordOf(pages: seq<Page>, p: nat, i: nat): nat {
    if p < |pages| then WordAt(pages[p], i) else 0
  }

  lemma SlotWord(pt: Mem, pages: seq<Page>, p: nat, i: nat)
    requires Loaded(pt, pages) && p < PT_PAGES && i < PTE_PER_PAGE
    requires WordOf(pages, p, i) < 0x1_0000_0000_0000_0000
    ensures LoadBytes(pt, SATP + (PAGE_BYTES * p + 8 * i), BEAT_BYTES) == WordOf(pages, p, i)
  {
    if p < |pages| {
      assert pt[..PAGE_BYTES * |pages|] == TableBytes(pages);
      ReadBack(pages, pt, p, i);
    } else {
      BeyondThePages(pt, pages, PAGE_BYTES * p + 8 * i);
    }
  }

  lemma WordUnpacks(pages: seq<Page>, p: nat, i: nat)
    requires InRange(EntryOf(pages, p, i))
    ensures Unpack(WordOf(pages, p, i)) == EntryOf(pages, p, i)
    ensures WordOf(pages, p, i) < 0x1_0000_0000_0000_0000
  {
    if p < |pages| && i < |pages[p]| {
      UnpackPack(pages[p][i]);
    } else {
      UnpackZero();
    }
  }

  lemma SlotIsOffset(p: nat, i: nat)
    ensures SlotAddress(p, i) == SATP + (PAGE_BYTES * p + 8 * i)
  {
  }

  lemma EntryAt(m: Mem, pt: Mem, pages: seq<Page>, p: nat, i: nat, e: Pte)
    requires Loaded(pt, pages) && p < PT_PAGES && i < PTE_PER_PAGE
    requires e == EntryOf(pages, p, i) && InRange(e)
    ensures BusEntry(m, pt, SlotAddress(p, i)) == Some(e)
  {
    SlotIsOffset(p, i);
    var word := SlotHolds(pt, pages, p, i, e);
    SlotInRange(p, i);
    BusReadsTable(m, pt, SlotAddress(p, i));
  }

  lemma SlotHolds(pt: Mem, pages: seq<Page>, p: nat, i: nat, e: Pte) returns (word: nat)
    requires Loaded(pt, pages) && p < PT_PAGES && i < PTE_PER_PAGE
    requires e == EntryOf(pages, p, i) && InRange(e)
    ensures LoadBytes(pt, SATP + (PAGE_BYTES * p + 8 * i), BEAT_BYTES) == word && Unpack(word) == e
  {
    word := WordOf(pages, p, i);
    WordUnpacks(pages, p, i);
    SlotWord(pt, pages, p, i);
  }

  // ----- one level of a walk -----

  /** Pointers of generated tables never lead further than this many pages. */
  const FAR_PAGES: nat := 2000

  lemma SlotInRange(p: nat, i: nat)
    requires i < PTE_PER_PAGE
    ensures SlotAddress(p, i) % 8 == 0
    ensures p < PT_PAGES ==> 0x1000_0000 <= SlotAddress(p, i) <= 0x1000_ffff
    ensures PT_PAGES <= p < FAR_PAGES ==> 0x1001_0000 <= SlotAddress(p, i) < 0x8000_0000
  {
  }

  lemma WalkOnce(read: nat -> Option<Pte>, p: nat, v: Va, level: nat, access: Access, strict: bool)
    requires level <= 2
    ensures Walk(read, PT_BASE_PPN + p, v, level, access, strict) ==
            match read(SlotAddress(p, Vpn(v, level)))
            case None => Err(AccessFault)
            case Some(e) =>
              match Examine(e, v, level, access, strict)
              case Fails => Err(PageFault)
              case Found(pa) => Ok(pa)
              case Down(next) =>
                if level == 0 then Err(PageFault) else Walk(read, next, v, level - 1, access, strict)
  {
  }

  // What the walker makes of the entries the generator writes.

  lemma WalkPointer(read: nat -> Option<Pte>, p: nat, v: Va, level: nat, access: Access, strict: bool, ppn: nat)
    requires level <= 2 && Vpn(v, level) < PTE_PER_PAGE && p < PT_PAGES && ppn < PPN_RANGE
    requires read(SlotAddress(p, Vpn(v, level))) == Some(MakePte(ppn, true, false))
    ensures Walk(read, PT_BASE_PPN + p, v, level, access, strict) ==
            if strict || level == 0 then Err(PageFault) else Walk(read, ppn, v, level - 1, access, strict)
  {
    WalkOnce(read, p, v, level, access, strict);
    MadePte(ppn, true, false);
  }

  lemma WalkNothing(read: nat -> Option<Pte>, p: nat, v: Va, level: nat, access: Access, strict: bool)
    requires level <= 2 && Vpn(v, level) < PTE_PER_PAGE && p < PT_PAGES
    requires read(SlotAddress(p, Vpn(v, level))) == Some(MakePte(0, false, false))
    ensures Walk(read, PT_BASE_PPN + p, v, level, access, strict) == Err(PageFault)
  {
    WalkOnce(read, p, v, level, access, strict);
  }

  /** A leaf at level 1 is a superpage of 2 MiB, and must be aligned to it. */
  lemma WalkMapped(read: nat -> Option<Pte>, p: nat, v: Va, level: nat, access: Access, strict: bool, ppn: nat)
    requires level <= 1 && Vpn(v, level) < PTE_PER_PAGE && p < PT_PAGES && ppn < PPN_RANGE
    requires read(SlotAddress(p, Vpn(v, level))) == Some(MakePte(ppn, true, true))
    ensures Walk(read, PT_BASE_PPN + p, v, level, access, strict) ==
            if level == 0 then Ok(ppn * 0x1000 + v.offset)
            else if ppn % 0x200 != 0 then Err(PageFault)
            else Ok(ppn / 0x200 * MEGAPAGE + v.vpn0 * 0x1000 + v.offset)
  {
    WalkOnce(read, p, v, level, access, strict);
    MadePte(ppn, true, true);
  }

  predicate ValidVa(v: Va) {
    v.vpn2 < PTE_PER_PAGE && v.vpn1 < PTE_PER_PAGE && v.vpn0 < PTE_PER_PAGE
  }

  // ----- the table without its bits -----

  /** What an entry is for: nothing, the way to a table page, or a mapped page. */
  datatype Slot = Nothing | Pointer(next: nat) | Leaf(ppn: nat)

  function PteOf(t: Slot): Pte {
    match t
    case Nothing => MakePte(0, false, false)
    case Pointer(next) => MakePte(PT_BASE_PPN + next, true, false)
    case Leaf(ppn) => MakePte(ppn, true, true)
  }

  function UpperSlot(lower: nat, num: int, first: nat, i: nat): Slot {
    if lower <= i < lower + num then Pointer(first + i - lower) else Nothing
  }

  /** Slot `i` of table page `p`: page 0 is level 2, then come the copies of level 1, then the
      leaves, then nothing. */
  function SlotOf(sh: Shape, p: nat, i: nat): Slot
    requires Bounded(sh)
  {
    if p == 0 then UpperSlot(sh.l2Lower, sh.l2Num, sh.l2Num, i)
    else if p <= L1Count(sh) then L1Slot(sh, i)
    else
      var k := p - 1 - L1Count(sh);
      if k < L0Count(sh) && i < LeafCount(sh.l0Num * sh.l1Num, k) then Leaf(sh.ppn + k * PTE_PER_PAGE + i) else Nothing
  }

  function L1Slot(sh: Shape, i: nat): Slot
    requires Bounded(sh)
  {
    if sh.l1Lower <= i < sh.l1Lower + sh.l1Num then Pointer(sh.l1Num + sh.l2Num + i - sh.l1Lower) else Nothing
  }

  lemma L2SlotIsEntry(sh: Shape, i: nat)
    requires Bounded(sh)
    ensures EntryOf([L2Page(sh)], 0, i) == PteOf(UpperSlot(sh.l2Lower, sh.l2Num, sh.l2Num, i))
  {
    if i >= sh.l2Lower {
      assert PT_BASE_PPN + sh.l2Num + i - sh.l2Lower == PT_BASE_PPN + (sh.l2Num + i - sh.l2Lower);
    }
  }

  lemma L1SlotIsEntry(sh: Shape, i: nat)
    requires Bounded(sh)
    ensures EntryOf([L1Page(sh)], 0, i) == PteOf(L1Slot(sh, i))
  {
    if i >= sh.l1Lower {
      assert PT_BASE_PPN + sh.l1Num + sh.l2Num + i - sh.l1Lower == PT_BASE_PPN + (sh.l1Num + sh.l2Num + i - sh.l1Lower);
    }
  }

  lemma PageOf(sh: Shape, p: nat)
    requires Bounded(sh) && p < |Tables(sh)|
    ensures Tables(sh)[p] == if p == 0 then L2Page(sh) else if p <= L1Count(sh) then L1Page(sh)
                             else L0Page(sh, p - 1 - L1Count(sh))
  {
  }

  /** The slots say what the pages hold. */
  lemma SlotIsEntry(sh: Shape, p: nat, i: nat)
    requires Bounded(sh)
    ensures EntryOf(Tables(sh), p, i) == PteOf(SlotOf(sh, p, i))
  {
    if p < |Tables(sh)| {
      PageOf(sh, p);
      L2SlotIsEntry(sh, i);
      L1SlotIsEntry(sh, i);
    }
  }

  lemma SlotFits(sh: Shape, p: nat, i: nat)
    requires Bounded(sh) && p < PT_PAGES && i < PTE_PER_PAGE
    ensures var t := SlotOf(sh, p, i);
            && InRange(PteOf(t)) && (t.Pointer? ==> t.next < FAR_PAGES) && (t.Leaf? ==> t.ppn < PPN_RANGE)
  {
    var t := SlotOf(sh, p, i);
    if t.Pointer? {
      MadePte(PT_BASE_PPN + t.next, true, false);
    } else if t.Leaf? {
      MadePte(t.ppn, true, true);
    }
  }

  /** What an entry at a level comes to, when the walk from the next level ends in `next`. */
  function Outcome(t: Slot, v: Va, level: nat, strict: bool, next: Result<nat, Fault>): Result<nat, Fault> {
    match t
    case Nothing => Err(PageFault)
    case Pointer(_) => if strict || level == 0 then Err(PageFault) else next
    case Leaf(ppn) =>
      if level == 0 then Ok(ppn * 0x1000 + v.offset)
      else if ppn % 0x200 != 0 then Err(PageFault)
      else Ok(ppn / 0x200 * MEGAPAGE + v.vpn0 * 0x1000 + v.offset)
  }

  /** The walk on slots. */
  function Follow(sh: Shape, p: nat, v: Va, level: nat, strict: bool): Result<nat, Fault>
    requires Bounded(sh)
    decreases level
  {
    if p >= PT_PAGES then Err(AccessFault)
    else
      var t := SlotOf(sh, p, Vpn(v, level));
      Outcome(t, v, level, strict,
              if t.Pointer? && level > 0 then Follow(sh, t.next, v, level - 1, strict) else Err(PageFault))
  }

  lemma SlotServed(m: Mem, pt: Mem, sh: Shape, p: nat, i: nat)
    requires Bounded(sh) && Loaded(pt, Tables(sh)) && p < PT_PAGES && i < PTE_PER_PAGE
    ensures BusEntry(m, pt, SlotAddress(p, i)) == Some(PteOf(SlotOf(sh, p, i)))
  {
    SlotIsEntry(sh, p, i);
    SlotFits(sh, p, i);
    EntryAt(m, pt, Tables(sh), p, i, PteOf(SlotOf(sh, p, i)));
  }

  lemma FarRefused(m: Mem, pt: Mem, p: nat, i: nat)
    requires PT_PAGES <= p < FAR_PAGES && i < PTE_PER_PAGE
    ensures BusEntry(m, pt, SlotAddress(p, i)) == None
  {
    SlotInRange(p, i);
    BusRefuses(m, pt, SlotAddress(p, i));
  }

  lemma FollowSlot(sh: Shape, p: nat, v: Va, level: nat, strict: bool, t: Slot, next: Result<nat, Fault>)
    requires Bounded(sh) && p < PT_PAGES && t == SlotOf(sh, p, Vpn(v, level))
    requires t.Pointer? && level > 0 ==> next == Follow(sh, t.next, v, level - 1, strict)
    ensures Follow(sh, p, v, level, strict) == Outcome(t, v, level, strict, next)
  {
  }

  lemma WalkTo(read: nat -> Option<Pte>, p: nat, v: Va, level: nat, access: Access, strict: bool, to: nat)
    requires level <= 2 && Vpn(v, level) < PTE_PER_PAGE && p < PT_PAGES && to < FAR_PAGES
    requires read(SlotAddress(p, Vpn(v, level))) == Some(PteOf(Pointer(to)))
    ensures Walk(read, PT_BASE_PPN + p, v, level, access, strict) ==
            if strict || level == 0 then Err(PageFault)
            else Walk(read, PT_BASE_PPN + to, v, level - 1, access, strict)
  {
    WalkPointer(read, p, v, level, access, strict, PT_BASE_PPN + to);
  }

  lemma VpnFits(v: Va, level: nat)
    requires ValidVa(v)
    ensures Vpn(v, level) < PTE_PER_PAGE
  {
  }

  lemma NoLeafOnTop(sh: Shape, i: nat)
    requires Bounded(sh)
    ensures !SlotOf(sh, 0, i).Leaf?
  {
  }

  /** One level, with the entry the pages hold. */
  lemma WalkSlot(read: nat -> Option<Pte>, sh: Shape, p: nat, v: Va, level: nat, access: Access, strict: bool,
                 t: Slot, next: Result<nat, Fault>)
    requires Bounded(sh) && ValidVa(v) && level <= 2 && (level == 2 ==> p == 0) && p < PT_PAGES
    requires t == SlotOf(sh, p, Vpn(v, level)) && read(SlotAddress(p, Vpn(v, level))) == Some(PteOf(t))
    requires t.Pointer? && level > 0 ==> next == Walk(read, PT_BASE_PPN + t.next, v, level - 1, access, strict)
    ensures Walk(read, PT_BASE_PPN + p, v, level, access, strict) == Outcome(t, v, level, strict, next)
  {
    VpnFits(v, level);
    SlotFits(sh, p, Vpn(v, level));
    NoLeafOnTop(sh, Vpn(v, level));
    match t
    case Nothing => WalkNothing(read, p, v, level, access, strict);
    case Pointer(to) => WalkTo(read, p, v, level, access, strict, to);
    case Leaf(ppn) => WalkMapped(read, p, v, level, access, strict, ppn);
  }

  predicate InReach(p: nat, i: nat) {
    p < FAR_PAGES && i < PTE_PER_PAGE
  }

  /** What a walker reads: the slots of the pages, and nothing beyond the table's memory. */
  ghost predicate Provides(read: nat -> Option<Pte>, sh: Shape)
    requires Bounded(sh)
  {
    forall p: nat, i: nat {:trigger InReach(p, i)} | InReach(p, i) ::
      read(SlotAddress(p, i)) == if p < PT_PAGES then Some(PteOf(SlotOf(sh, p, i))) else None
  }

  /** A memory with the pages loaded provides the slots over the bus. */
  lemma MemoryProvides(m: Mem, pt: Mem, sh: Shape)
    requires Bounded(sh) && Loaded(pt, Tables(sh))
    ensures Provides(Reader(m, pt), sh)
  {
    forall p: nat, i: nat {:trigger InReach(p, i)} | InReach(p, i)
      ensures Reader(m, pt)(SlotAddress(p, i)) == if p < PT_PAGES then Some(PteOf(SlotOf(sh, p, i))) else None
    {
      if p < PT_PAGES {
        SlotServed(m, pt, sh, p, i);
      } else {
        FarRefused(m, pt, p, i);
      }
    }
  }

  /** The walk on entries that are those of the pages is the walk on slots. */
  lemma {:induction false} WalkFollows(read: nat -> Option<Pte>, sh: Shape, p: nat, v: Va, level: nat,
                                       access: Access, strict: bool)
    requires Bounded(sh) && Provides(read, sh) && ValidVa(v) && level <= 2 && (level == 2 ==> p == 0) && p < FAR_PAGES
    ensures Walk(read, PT_BASE_PPN + p, v, level, access, strict) == Follow(sh, p, v, level, strict)
    decreases level
  {
    assert InReach(p, Vpn(v, level));
    if p >= PT_PAGES {
      WalkOnce(read, p, v, level, access, strict);
    } else {
      var t := SlotOf(sh, p, Vpn(v, level));
      SlotFits(sh, p, Vpn(v, level));
      var next: Result<nat, Fault> := Err(PageFault);
      if t.Pointer? && level > 0 {
        WalkFollows(read, sh, t.next, v, level - 1, access, strict);
        next := Follow(sh, t.next, v, level - 1, strict);
      }
      WalkSlot(read, sh, p, v, level, access, strict, t, next);
      FollowSlot(sh, p, v, level, strict, t, next);
    }
  }

  /** The same from the top. */
  lemma TopFollows(read: nat -> Option<Pte>, sh: Shape, v: Va, access: Access, strict: bool)
    requires Bounded(sh) && Provides(read, sh) && ValidVa(v)
    ensures Walk(read, PT_BASE_PPN, v, 2, access, strict) == Follow(sh, 0, v, 2, strict)
  {
    WalkFollows(read, sh, 0, v, 2, access, strict);
  }
}
