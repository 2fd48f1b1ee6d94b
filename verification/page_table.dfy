// The three-level Sv39 table the simulator boots with (sim/l1d/generate_mem.py): its three
// pages, and the bytes written for FakeMemory to load.
module PageTable {
  import opened Words
  import opened FlatMemory
  import opened L1dTypes
  import opened Ptes

  const PTE_PER_PAGE: nat := 512
  const PAGE_BYTES: nat := 4096
  const SATP: nat := 0x1000_0000
  const PT_BASE_PPN: nat := SATP / 0x1000
  const MEGAPAGE: nat := 0x20_0000
  const VA_RANGE: nat := 0x80_0000_0000

  type Page = seq<Pte>

  /** What the script computes from the first and the last data address before it builds pages:
      for each level the first index in use and the number of indices in use. Below level 2 the
      indices are taken modulo 512, so for a region that crosses a boundary of the level above the
      number may be zero or negative. */
  datatype Shape = Shape(l2Lower: nat, l2Num: nat, l1Lower: nat, l1Num: int, l0Num: int, ppn: nat)

  predicate Region(base: nat, max: nat) {
    base <= max < VA_RANGE
  }

  function ShapeOf(base: nat, max: nat): Shape
    requires Region(base, max)
  {
    var l2Lower, l1Lower := base / 0x1000 / 0x4_0000, base / 0x1000 / 0x200 % 0x200;
    Shape(
      l2Lower, max / 0x1000 / 0x4_0000 + 1 - l2Lower,
      l1Lower, max / 0x1000 / 0x200 % 0x200 + 1 - l1Lower,
      max / 0x1000 % 0x200 + 1 - base / 0x1000 % 0x200,
      base / 0x1000)
  }

  /** The bounds the indices keep. */
  predicate Bounded(sh: Shape) {
    && 1 <= sh.l2Num && sh.l2Lower + sh.l2Num <= PTE_PER_PAGE
    && sh.l1Lower < PTE_PER_PAGE && 1 <= sh.l1Lower + sh.l1Num <= PTE_PER_PAGE
    && 0 < sh.l0Num + PTE_PER_PAGE && sh.l0Num <= PTE_PER_PAGE
    && sh.ppn < 0x800_0000
  }

  lemma ShapeIsBounded(base: nat, max: nat)
    requires Region(base, max)
    ensures Bounded(ShapeOf(base, max))
  {
  }

  // ----- the pages -----

  /** An entry of an upper level: invalid below `lower`, numbered on from `ppn` from there. */
  function UpperPte(lower: nat, ppn: nat, i: nat): Pte {
    if i < lower then MakePte(0, false, false) else MakePte(ppn + i - lower, true, false)
  }

  function UpperPage(lower: nat, upper: nat, ppn: nat): Page {
    seq(upper, i requires 0 <= i => UpperPte(lower, ppn, i))
  }

  function LeavesFrom(ppn: nat, count: nat): Page {
    seq(count, i requires 0 <= i => MakePte(ppn + i, true, true))
  }

  /** How many pages a number of entries takes: none if it is not positive. */
  function PagesFor(entries: int): int {
    entries / PTE_PER_PAGE + (if entries % PTE_PER_PAGE != 0 then 1 else 0)
  }

  function Count(n: int): nat {
    if n > 0 then n else 0
  }

  /** The entries of a leaf page: 512, or for the last page what is left modulo 512. */
  function LeafCount(entries: int, index: nat): nat {
    if (index + 1) * PTE_PER_PAGE < entries then PTE_PER_PAGE else entries % PTE_PER_PAGE
  }

  function L2Page(sh: Shape): Page {
    UpperPage(sh.l2Lower, sh.l2Lower + sh.l2Num, PT_BASE_PPN + sh.l2Num)
  }

  function L1Page(sh: Shape): Page
    requires Bounded(sh)
  {
    UpperPage(sh.l1Lower, sh.l1Lower + sh.l1Num, PT_BASE_PPN + sh.l1Num + sh.l2Num)
  }

  function L0Page(sh: Shape, index: nat): Page {
    LeavesFrom(sh.ppn + index * PTE_PER_PAGE, LeafCount(sh.l0Num * sh.l1Num, index))
  }

  function L1Count(sh: Shape): nat {
    Count(PagesFor(sh.l1Num * sh.l2Num))
  }

  function L0Count(sh: Shape): nat {
    Count(PagesFor(sh.l0Num * sh.l1Num))
  }

  /** All pages, in the order the script appends them. */
  function Tables(sh: Shape): (pages: seq<Page>)
    requires Bounded(sh)
    ensures |pages| == 1 + L1Count(sh) + L0Count(sh)
  {
    [L2Page(sh)] + seq(L1Count(sh), i => L1Page(sh)) + seq(L0Count(sh), i requires 0 <= i => L0Page(sh, i))
  }

  function AppendPte(pages: seq<Page>, p: Pte): seq<Page>
    requires pages != []
  {
    pages[|pages| - 1 := pages[|pages| - 1] + [p]]
  }

  lemma AppendLast(before: seq<Page>, page: Page, p: Pte)
    ensures AppendPte(before + [page], p) == before + [page + [p]]
  {
  }

  /** The loop both upper levels run: a new page every 512 entries, entries below `lower`
      invalid, the others numbered on from `ppn`. */
  method UpperLevel(lower: nat, upper: nat, ppn: nat, before: seq<Page>) returns (pages: seq<Page>)
    requires 0 < upper <= PTE_PER_PAGE
    ensures pages == before + [UpperPage(lower, upper, ppn)]
  {
    pages := before;
    ghost var whole := UpperPage(lower, upper, ppn);
    var i := 0;
    while i < upper
      invariant 0 <= i <= upper
      invariant pages == if i == 0 then before else before + [whole[..i]]
    {
      if i % PTE_PER_PAGE == 0 {
        assert i == 0 && whole[..i] == [];
        pages := pages + [[]];
      }
      assert pages == before + [whole[..i]];
      AppendLast(before, whole[..i], whole[i]);
      assert whole[..i + 1] == whole[..i] + [whole[i]];
      assert whole[i] == UpperPte(lower, ppn, i);
      if i < lower {
        pages := AppendPte(pages, MakePte(0, false, false));
      } else {
        pages := AppendPte(pages, MakePte(ppn + i - lower, true, false));
      }
      i := i + 1;
    }
    assert whole[..i] == whole;
  }

  /** `Page(init_ppn, vld_num, True, True)`: consecutive leaves. */
  method LeafPage(ppn: nat, count: nat) returns (page: Page)
    requires count <= PTE_PER_PAGE
    ensures page == LeavesFrom(ppn, count)
  {
    page := [];
    var i := 0;
    while i < count
      invariant 0 <= i <= count && |page| == i
      invariant forall k | 0 <= k < i :: page[k] == MakePte(ppn + k, true, true)
    {
      page := page + [MakePte(ppn + i, true, true)];
      i := i + 1;
    }
  }

  method Generate(base: nat, max: nat) returns (pages: seq<Page>)
    requires Region(base, max)
    ensures Bounded(ShapeOf(base, max)) && pages == Tables(ShapeOf(base, max))
  {
    ShapeIsBounded(base, max);
    ghost var sh := ShapeOf(base, max);
    var l2Lower := base / 0x1000 / 0x4_0000;
    var l2Upper := max / 0x1000 / 0x4_0000 + 1;
    var l2Num := l2Upper - l2Lower;
    var l1Lower := base / 0x1000 / 0x200 % 0x200;
    var l1Upper := max / 0x1000 / 0x200 % 0x200 + 1;
    var l1Num := l1Upper - l1Lower;
    var l0Num := max / 0x1000 % 0x200 + 1 - base / 0x1000 % 0x200;
    pages := UpperLevel(l2Lower, l2Upper, PT_BASE_PPN + l2Num, []);
    pages := L1Level(sh, l1Lower, l1Upper, l2Num, pages);
    pages := L0Level(sh, base / 0x1000, l0Num * l1Num, pages);
  }

  method L1Level(ghost sh: Shape, l1Lower: nat, l1Upper: nat, l2Num: nat, before: seq<Page>) returns (pages: seq<Page>)
    requires Bounded(sh) && l1Lower == sh.l1Lower && l1Upper == sh.l1Lower + sh.l1Num && l2Num == sh.l2Num
    ensures pages == before + seq(L1Count(sh), i => L1Page(sh))
  {
    pages := before;
    var l1Num := l1Upper - l1Lower;
    var index := 0;
    while index < PagesFor(l1Num * l2Num)
      invariant 0 <= index <= L1Count(sh)
      invariant pages == before + seq(index, i => L1Page(sh))
    {
      pages := UpperLevel(l1Lower, l1Upper, PT_BASE_PPN + l1Num + l2Num, pages);
      index := index + 1;
    }
  }

  method L0Level(ghost sh: Shape, ppn: nat, entries: int, before: seq<Page>) returns (pages: seq<Page>)
    requires Bounded(sh) && ppn == sh.ppn && entries == sh.l0Num * sh.l1Num
    ensures pages == before + seq(L0Count(sh), i requires 0 <= i => L0Page(sh, i))
  {
    pages := before;
    var index := 0;
    while index < PagesFor(entries)
      invariant 0 <= index <= L0Count(sh)
      invariant pages == before + seq(index, i requires 0 <= i => L0Page(sh, i))
    {
      var count := if (index + 1) * PTE_PER_PAGE < entries then PTE_PER_PAGE else entries % PTE_PER_PAGE;
      var page := LeafPage(ppn + index * PTE_PER_PAGE, count);
      pages := pages + [page];
      index := index + 1;
    }
  }

  // ----- the bytes -----

  /** Word `i` of a page that is filled up with zeros. */
  function WordAt(page: Page, i: nat): nat {
    if i < |page| then Pack(page[i]) else 0
  }

  function TableBytes(pages: seq<Page>): (bs: seq<byte>)
    ensures |bs| == PAGE_BYTES * |pages|
  {
    seq(PAGE_BYTES * |pages|, b requires 0 <= b < PAGE_BYTES * |pages| =>
      ByteOf(WordAt(pages[b / PAGE_BYTES], b % PAGE_BYTES / 8), b % 8))
  }

  /** Where the writer stands: page `k`, word `i`, byte `j`. */
  lemma ByteHere(pages: seq<Page>, k: nat, i: nat, j: nat)
    requires k < |pages| && i < PTE_PER_PAGE && j < 8
    ensures var b := PAGE_BYTES * k + 8 * i + j;
            b < PAGE_BYTES * |pages| && TableBytes(pages)[b] == ByteOf(WordAt(pages[k], i), j)
  {
    var b := PAGE_BYTES * k + 8 * i + j;
    assert b / PAGE_BYTES == k && b % PAGE_BYTES == 8 * i + j;
    assert (8 * i + j) / 8 == i && b % 8 == j;
  }

  lemma TableAddress(o: nat)
    requires o < MEM_MAX_SIZE
    ensures (SATP + o) % MEM_MAX_SIZE == o
  {
  }

  lemma ReadWord(pt: Mem, o: nat, word: u64)
    requires o + 8 <= MEM_MAX_SIZE && forall j | 0 <= j < 8 :: pt[o + j] == ByteOf(word, j)
    ensures LoadBytes(pt, SATP + o, BEAT_BYTES) == word
  {
    forall j | 0 <= j < BEAT_BYTES
      ensures Window(pt, SATP + o, BEAT_BYTES)[j] == LeBytes(word, BEAT_BYTES)[j]
    {
      TableAddress(o + j);
      assert SATP + o + j == SATP + (o + j);
      LeBytesAt(word, BEAT_BYTES, j);
    }
    assert Window(pt, SATP + o, BEAT_BYTES) == LeBytes(word, BEAT_BYTES);
    WordRoundTrip(word);
  }

  /** Read a word of the table back as one beat of the memory it is loaded into. */
  lemma ReadBack(pages: seq<Page>, pt: Mem, k: nat, i: nat)
    requires PAGE_BYTES * |pages| <= MEM_MAX_SIZE && pt[..PAGE_BYTES * |pages|] == TableBytes(pages)
    requires k < |pages| && i < PTE_PER_PAGE && WordAt(pages[k], i) < 0x1_0000_0000_0000_0000
    ensures LoadBytes(pt, SATP + (PAGE_BYTES * k + 8 * i), BEAT_BYTES) == WordAt(pages[k], i)
  {
    var o, word := PAGE_BYTES * k + 8 * i, WordAt(pages[k], i);
    forall j | 0 <= j < 8
      ensures o + j < MEM_MAX_SIZE && pt[o + j] == ByteOf(word, j)
    {
      ByteHere(pages, k, i, j);
      assert pt[o + j] == pt[..PAGE_BYTES * |pages|][o + j];
    }
    ReadWord(pt, o, word);
  }

  lemma WordRoundTrip(word: u64)
    ensures LeValue(LeBytes(word, BEAT_BYTES)) == word
  {
    Pow256Values();
    LeRoundTrip(word, BEAT_BYTES);
  }

  /** The pages written out, each entry as sixteen hexadecimal digits of which the pairs are taken
      from the last to the first, each page filled up with zero bytes. */
  method Serialise(pages: seq<Page>) returns (bs: seq<byte>)
    requires forall page | page in pages :: |page| <= PTE_PER_PAGE
    ensures bs == TableBytes(pages)
  {
    bs := [];
    var k := 0;
    while k < |pages|
      invariant 0 <= k <= |pages| && |bs| == PAGE_BYTES * k
      invariant WrittenSoFar(pages, bs)
    {
      assert pages[k] in pages;
      bs := SerialisePage(pages, k, bs);
      k := k + 1;
    }
  }

  ghost predicate WrittenSoFar(pages: seq<Page>, bs: seq<byte>) {
    |bs| <= |TableBytes(pages)| && forall b | 0 <= b < |bs| :: bs[b] == TableBytes(pages)[b]
  }

  lemma WriteMore(pages: seq<Page>, bs: seq<byte>, b: byte)
    requires WrittenSoFar(pages, bs) && |bs| < |TableBytes(pages)| && TableBytes(pages)[|bs|] == b
    ensures WrittenSoFar(pages, bs + [b])
  {
  }

  method SerialisePage(pages: seq<Page>, k: nat, before: seq<byte>) returns (bs: seq<byte>)
    requires k < |pages| && |pages[k]| <= PTE_PER_PAGE
    requires |before| == PAGE_BYTES * k && WrittenSoFar(pages, before)
    ensures |bs| == PAGE_BYTES * (k + 1) && WrittenSoFar(pages, bs)
  {
    bs := before;
    var i := 0;
    while i < |pages[k]|
      invariant 0 <= i <= |pages[k]| && |bs| == PAGE_BYTES * k + 8 * i && WrittenSoFar(pages, bs)
    {
      bs := SerialisePte(pages, k, i, bs);
      i := i + 1;
    }
    while i < PTE_PER_PAGE
      invariant |pages[k]| <= i <= PTE_PER_PAGE && |bs| == PAGE_BYTES * k + 8 * i && WrittenSoFar(pages, bs)
    {
      bs := FillPte(pages, k, i, bs);
      i := i + 1;
    }
  }

  method SerialisePte(pages: seq<Page>, k: nat, i: nat, before: seq<byte>) returns (bs: seq<byte>)
    requires k < |pages| && i < |pages[k]| <= PTE_PER_PAGE
    requires |before| == PAGE_BYTES * k + 8 * i && WrittenSoFar(pages, before)
    ensures |bs| == |before| + 8 && WrittenSoFar(pages, bs)
  {
    bs := before;
    var n := 8;
    var digits := HexDigits(Pack(pages[k][i]), 2 * n);
    var j := 0;
    while j < n
      invariant 0 <= j <= n && |bs| == |before| + j && WrittenSoFar(pages, bs)
    {
      HexPairIsByte(Pack(pages[k][i]), n, j);
      ByteHere(pages, k, i, j);
      var b := digits[(7 - j) * 2] * 16 + digits[(7 - j) * 2 + 1];
      WriteMore(pages, bs, b);
      bs := bs + [b];
      j := j + 1;
    }
  }

  method FillPte(pages: seq<Page>, k: nat, i: nat, before: seq<byte>) returns (bs: seq<byte>)
    requires k < |pages| && |pages[k]| <= i < PTE_PER_PAGE
    requires |before| == PAGE_BYTES * k + 8 * i && WrittenSoFar(pages, before)
    ensures |bs| == |before| + 8 && WrittenSoFar(pages, bs)
  {
    bs := before;
    var j := 0;
    while j < 8
      invariant 0 <= j <= 8 && |bs| == |before| + j && WrittenSoFar(pages, bs)
    {
      ByteHere(pages, k, i, j);
      ByteOfZero(j);
      WriteMore(pages, bs, 0);
      bs := bs + [0];
      j := j + 1;
    }
  }

  lemma {:induction false} ByteOfZero(j: nat)
    ensures ByteOf(0, j) == 0
    decreases j
  {
    if j > 0 {
      ByteOfZero(j - 1);
    }
  }
}
