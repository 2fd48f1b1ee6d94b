// Which data regions the generated table maps to themselves.
module Regions {
  import opened Words
  import opened FlatMemory
  import opened L1dTypes
  import opened Ptes
  import opened PageTable
  import opened Sv39

  /** The page-table memory holds the table generated for a region. */
  predicate Boots(pt: Mem, base: nat, max: nat)
    requires Region(base, max)
  {
    ShapeIsBounded(base, max);
    Loaded(pt, Tables(ShapeOf(base, max)))
  }

  lemma TranslateFollows(m: Mem, pt: Mem, base: nat, max: nat, va: nat, access: Access, strict: bool)
    requires Region(base, max) && Boots(pt, base, max) && va < VA_RANGE
    ensures Bounded(ShapeOf(base, max))
    ensures Translate(m, pt, va, access, strict) == Follow(ShapeOf(base, max), 0, VaOf(va), 2, strict)
  {
    ShapeIsBounded(base, max);
    VaParts(va);
    MemoryProvides(m, pt, ShapeOf(base, max));
    TopFollows(Reader(m, pt), ShapeOf(base, max), VaOf(va), access, strict);
  }

  /** A walker that minds reserved bits faults on every address, whatever the region: the generator
      sets D, A and U in its pointers. */
  lemma StrictWalkerFaults(m: Mem, pt: Mem, base: nat, max: nat, va: nat, access: Access)
    requires Region(base, max) && Boots(pt, base, max) && va < VA_RANGE
    ensures Translate(m, pt, va, access, true) == Err(PageFault)
  {
    TranslateFollows(m, pt, base, max, va, access, true);
  }

  // ----- regions inside one 2 MiB -----

  predicate OneMegapage(base: nat, max: nat) {
    base / MEGAPAGE == max / MEGAPAGE
  }

  /** One pointer, one pointer, and the leaves. */
  predicate Simple(sh: Shape) {
    Bounded(sh) && sh.l2Num == 1 && sh.l1Num == 1 && 1 <= sh.l0Num
  }

  lemma SimpleCounts(sh: Shape)
    requires Simple(sh)
    ensures L1Count(sh) == 1 && L0Count(sh) == 1
    ensures LeafCount(sh.l0Num * sh.l1Num, 0) == sh.l0Num % PTE_PER_PAGE
  {
    assert sh.l1Num * sh.l2Num == 1 && sh.l0Num * sh.l1Num == sh.l0Num;
  }

  lemma SimpleFollow(sh: Shape, v: Va)
    requires Simple(sh) && ValidVa(v)
    ensures Follow(sh, 0, v, 2, false) ==
            if v.vpn2 == sh.l2Lower && v.vpn1 == sh.l1Lower && v.vpn0 < sh.l0Num % PTE_PER_PAGE
              then Ok((sh.ppn + v.vpn0) * 0x1000 + v.offset)
            else Err(PageFault)
  {
    SimpleCounts(sh);
    assert SlotOf(sh, 0, v.vpn2) == if v.vpn2 == sh.l2Lower then Pointer(1) else Nothing;
    assert SlotOf(sh, 1, v.vpn1) == if v.vpn1 == sh.l1Lower then Pointer(2) else Nothing;
    assert SlotOf(sh, 2, v.vpn0) == if v.vpn0 < sh.l0Num % PTE_PER_PAGE then Leaf(sh.ppn + v.vpn0) else Nothing;
    assert Follow(sh, 2, v, 0, false) ==
           if v.vpn0 < sh.l0Num % PTE_PER_PAGE then Ok((sh.ppn + v.vpn0) * 0x1000 + v.offset) else Err(PageFault);
    assert Follow(sh, 1, v, 1, false) ==
           if v.vpn1 == sh.l1Lower then Follow(sh, 2, v, 0, false) else Err(PageFault);
  }

  /** Quotients and remainders of an address, level by level. */
  lemma Indices(a: nat)
    ensures a / 0x1000 / 0x200 == a / MEGAPAGE && a / 0x1000 / 0x4_0000 == a / 0x4000_0000
    ensures a / MEGAPAGE / 0x200 == a / 0x4000_0000
    ensures a / 0x1000 == a / MEGAPAGE * 0x200 + a / 0x1000 % 0x200
    ensures a / MEGAPAGE == a / 0x4000_0000 * 0x200 + a / MEGAPAGE % 0x200
    ensures a == a / 0x1000 * 0x1000 + a % 0x1000
  {
  }

  /** What the script works with, for any region: the level-2 index of an address is its bits from 30
      up, the others are the nine bits from 21 and the nine from 12 up; each number counts the indices
      from that of the first address to that of the last. */
  lemma ShapeSlices(base: nat, max: nat)
    requires Region(base, max)
    ensures var sh := ShapeOf(base, max);
            && sh.l2Lower == base / 0x4000_0000 && sh.l2Num == max / 0x4000_0000 - base / 0x4000_0000 + 1
            && sh.l1Lower == base / 0x20_0000 % 512
            && sh.l1Num == max / 0x20_0000 % 512 - base / 0x20_0000 % 512 + 1
            && sh.l0Num == max / 0x1000 % 512 - base / 0x1000 % 512 + 1
            && sh.ppn == base / 0x1000
  {
    Indices(base);
    Indices(max);
  }

  lemma MegapageShape(base: nat, max: nat)
    requires Region(base, max) && OneMegapage(base, max)
    ensures var sh := ShapeOf(base, max);
            && Simple(sh) && sh.l2Lower == base / 0x4000_0000 && sh.l1Lower == base / MEGAPAGE % 0x200
            && sh.l0Num == max / 0x1000 - base / 0x1000 + 1
  {
    ShapeIsBounded(base, max);
    Indices(base);
    Indices(max);
  }

  /** The walk for any address: into the region's 2 MiB, and there past its pages counted from the
      first entry, wherever in the 2 MiB the region starts. */
  lemma MegapageFollow(base: nat, max: nat, va: nat)
    requires Region(base, max) && OneMegapage(base, max) && va < VA_RANGE
    ensures Bounded(ShapeOf(base, max))
    ensures Follow(ShapeOf(base, max), 0, VaOf(va), 2, false) ==
            if va / MEGAPAGE == base / MEGAPAGE
               && va / 0x1000 % 0x200 < (max / 0x1000 - base / 0x1000 + 1) % PTE_PER_PAGE
              then Ok((base / 0x1000 + va / 0x1000 % 0x200) * 0x1000 + va % 0x1000)
            else Err(PageFault)
  {
    MegapageShape(base, max);
    VaParts(va);
    SimpleFollow(ShapeOf(base, max), VaOf(va));
    SameUpperIndices(base, va);
  }

  lemma VaParts(va: nat)
    requires va < VA_RANGE
    ensures ValidVa(VaOf(va)) && VaOf(va).vpn2 == va / 0x4000_0000
  {
  }

  lemma SameUpperIndices(base: nat, va: nat)
    ensures va / 0x4000_0000 == base / 0x4000_0000 && va / MEGAPAGE % 0x200 == base / MEGAPAGE % 0x200 <==>
            va / MEGAPAGE == base / MEGAPAGE
  {
    Indices(base);
    Indices(va);
  }

  // The same in page numbers: `b` and `m` the first and the last of the region, `w` any.

  lemma PageMapped(b: nat, m: nat, w: nat)
    requires b <= m && b / 0x200 == m / 0x200 && b % 0x200 == 0
    ensures (w / 0x200 == b / 0x200 && w % 0x200 < (m - b + 1) % PTE_PER_PAGE) <==>
            (b <= w <= m && m % 0x200 < 0x1ff)
    ensures w / 0x200 == b / 0x200 ==> b + w % 0x200 == w
  {
  }

  lemma FirstPageWrong(b: nat, m: nat)
    requires b <= m && b / 0x200 == m / 0x200 && (b % 0x200 != 0 || m % 0x200 == 0x1ff)
    ensures !(b % 0x200 < (m - b + 1) % PTE_PER_PAGE && b + b % 0x200 == b)
  {
  }

  /** For a region that starts in the first page of a 2 MiB and ends in the same: a walker that
      leaves the pointers' D, A and U bits alone maps its pages to themselves, for every kind of
      access, and no other address, as long as there are fewer than 512 of them. A region of
      exactly 512 pages is not mapped at all. */
  lemma IdentityMap(m: Mem, pt: Mem, base: nat, max: nat, va: nat, access: Access)
    requires Region(base, max) && OneMegapage(base, max) && base / 0x1000 % 0x200 == 0
    requires Boots(pt, base, max) && va < VA_RANGE
    ensures Translate(m, pt, va, access, false) ==
            if base / 0x1000 <= va / 0x1000 <= max / 0x1000 && max / 0x1000 % 0x200 < 0x1ff then Ok(va)
            else Err(PageFault)
  {
    TranslateFollows(m, pt, base, max, va, access, false);
    IdentityFollow(base, max, va);
  }

  lemma IdentityFollow(base: nat, max: nat, va: nat)
    requires Region(base, max) && OneMegapage(base, max) && base / 0x1000 % 0x200 == 0 && va < VA_RANGE
    ensures Bounded(ShapeOf(base, max))
    ensures Follow(ShapeOf(base, max), 0, VaOf(va), 2, false) ==
            if base / 0x1000 <= va / 0x1000 <= max / 0x1000 && max / 0x1000 % 0x200 < 0x1ff then Ok(va)
            else Err(PageFault)
  {
    MegapageFollow(base, max, va);
    Indices(base);
    Indices(max);
    Indices(va);
    PageMapped(base / 0x1000, max / 0x1000, va / 0x1000);
  }

  // ----- any region -----

  /** The regions that are mapped to themselves. */
  predicate WellPlaced(base: nat, max: nat) {
    OneMegapage(base, max) && base / 0x1000 % 0x200 == 0 && max / 0x1000 % 0x200 < 0x1ff
  }

  /** Inside one 2 MiB, the first address goes wrong unless the region is well placed. */
  lemma FirstAddressWrong(base: nat, max: nat)
    requires Region(base, max) && OneMegapage(base, max) && !WellPlaced(base, max)
    ensures Bounded(ShapeOf(base, max)) && Follow(ShapeOf(base, max), 0, VaOf(base), 2, false) != Ok(base)
  {
    MegapageFollow(base, max, base);
    Indices(base);
    Indices(max);
    FirstPageWrong(base / 0x1000, max / 0x1000);
  }

  // ----- regions that cross a 2 MiB boundary -----

  /** No more copies of level 1 than indices in use on it. */
  lemma FewCopies(a: nat, b: nat)
    requires b <= PTE_PER_PAGE
    ensures Count(PagesFor(a * b)) <= a
    ensures a > 0 && b > 0 ==> Count(PagesFor(a * b)) >= 1
  {
    ProductBound(a, b);
    PagesBound(a * b, a);
    if a > 0 && b > 0 {
      assert a * b > 0;
    }
  }

  lemma ProductBound(a: nat, b: nat)
    requires b <= PTE_PER_PAGE
    ensures a * b <= a * PTE_PER_PAGE
  {
  }

  lemma PagesBound(entries: nat, a: nat)
    requires entries <= PTE_PER_PAGE * a
    ensures PagesFor(entries) <= a
  {
  }

  lemma NoCopies(a: int, b: nat)
    requires a <= 0
    ensures Count(PagesFor(a * b)) == 0
  {
    assert a * b <= 0;
  }

  lemma CopiesOf(sh: Shape)
    requires Bounded(sh)
    ensures sh.l1Num <= 0 ==> L1Count(sh) == 0
    ensures sh.l1Num > 0 ==> 1 <= L1Count(sh) <= sh.l1Num
  {
    if sh.l1Num <= 0 {
      NoCopies(sh.l1Num, sh.l2Num);
    } else {
      FewCopies(sh.l1Num, sh.l2Num);
    }
  }

  /** The address in slots: the first page of the region with an offset in it. */
  predicate FirstVa(sh: Shape, v: Va) {
    && v.vpn2 == sh.l2Lower && v.vpn1 == sh.l1Lower
    && sh.ppn == (v.vpn2 * 0x200 + v.vpn1) * 0x200 + v.vpn0 && ValidVa(v) && v.offset < 0x1000
  }

  function Address(v: Va): nat {
    ((v.vpn2 * 0x200 + v.vpn1) * 0x200 + v.vpn0) * 0x1000 + v.offset
  }

  /** From the leaf page the walk reaches, the first address is only right in the very first slot. */
  lemma LeafPageWrong(sh: Shape, v: Va, p: nat)
    requires Bounded(sh) && FirstVa(sh, v) && p > L1Count(sh) + 1
    ensures Follow(sh, p, v, 0, false) != Ok(Address(v))
  {
  }

  /** The first address, when more than one index is in use on level 1 and the walk reaches it. */
  lemma CrossingFollow(sh: Shape, v: Va, p: nat)
    requires Bounded(sh) && FirstVa(sh, v) && 1 <= p <= L1Count(sh) && sh.l1Num + sh.l2Num >= 3
    ensures Follow(sh, p, v, 1, false) != Ok(Address(v))
  {
    CopiesOf(sh);
    var next := sh.l1Num + sh.l2Num;
    assert SlotOf(sh, p, v.vpn1) == Pointer(next);
    assert next > L1Count(sh) + 1;
    LeafPageWrong(sh, v, next);
  }

  /** A walk that finds a leaf page on level 1 is only right for the first address of a region that
      starts a level-2 entry. */
  lemma SuperpageFollow(sh: Shape, v: Va, p: nat)
    requires Bounded(sh) && FirstVa(sh, v) && p > L1Count(sh)
    ensures Follow(sh, p, v, 1, false) == Ok(Address(v)) ==> v.vpn1 == 0 && v.vpn0 == 0
  {
    var k := p - 1 - L1Count(sh);
    var q := v.vpn2 * 0x200 + v.vpn1 + k;
    var ppn := sh.ppn + k * PTE_PER_PAGE + v.vpn1;
    assert ppn == q * 0x200 + (v.vpn0 + v.vpn1);
    SuperpageNumber(q, v.vpn0 + v.vpn1);
  }

  lemma SuperpageNumber(q: nat, d: nat)
    requires d < 0x400
    ensures (q * 0x200 + d) % 0x200 == 0 ==> d == 0 || d == 0x200
    ensures (q * 0x200 + d) / 0x200 == if d < 0x200 then q else q + 1
  {
  }

  /** ... and then the second 2 MiB is not mapped. */
  lemma SecondMegapageWrong(sh: Shape, v: Va, p: nat)
    requires Bounded(sh) && FirstVa(sh, v) && v.vpn1 == 0 && v.vpn0 == 0 && p > L1Count(sh)
    ensures Follow(sh, p, v.(vpn1 := 1), 1, false).Err?
  {
  }

  lemma FirstVaOf(base: nat, max: nat)
    requires Region(base, max)
    ensures Bounded(ShapeOf(base, max))
    ensures FirstVa(ShapeOf(base, max), VaOf(base)) && Address(VaOf(base)) == base
  {
    ShapeIsBounded(base, max);
    Indices(base);
  }

  lemma FirstStep(sh: Shape, v: Va)
    requires Bounded(sh) && v.vpn2 == sh.l2Lower
    ensures Follow(sh, 0, v, 2, false) == Follow(sh, sh.l2Num, v, 1, false)
  {
    assert SlotOf(sh, 0, v.vpn2) == Pointer(sh.l2Num);
  }

  lemma CrossingShape(base: nat, max: nat)
    requires Region(base, max) && !OneMegapage(base, max)
    ensures var sh := ShapeOf(base, max); sh.l2Num == 1 ==> sh.l1Num >= 2
    ensures ShapeOf(base, max).l2Num >= 2 && base % 0x4000_0000 < 0x1000 ==> base + MEGAPAGE <= max
  {
    Indices(base);
    Indices(max);
  }

  lemma NextMegapage(base: nat)
    requires base + MEGAPAGE < VA_RANGE && VaOf(base).vpn1 == 0 && VaOf(base).vpn0 == 0
    ensures VaOf(base + MEGAPAGE) == VaOf(base).(vpn1 := 1) && base % 0x4000_0000 < 0x1000
  {
    FirstIsMegapage(base);
    SecondMegapageVa(base / 0x4000_0000, base % 0x4000_0000);
  }

  lemma SecondMegapageVa(g: nat, off: nat)
    requires off < 0x1000
    ensures VaOf(g * 0x4000_0000 + off + MEGAPAGE) == VaOf(g * 0x4000_0000 + off).(vpn1 := 1)
  {
    var x := g * 0x4000_0000 + off;
    PageOfGroup(g, 0, off);
    PageOfGroup(g, 0x200, off);
    VaByPage(x);
    VaByPage(x + MEGAPAGE);
    GroupParts(g);
  }

  lemma VaByPage(a: nat)
    ensures var w := a / 0x1000;
            VaOf(a) == Va(w / 0x200 / 0x200 % 0x200, w / 0x200 % 0x200, w % 0x200, a % 0x1000)
  {
    Indices(a);
  }

  lemma GroupParts(g: nat)
    ensures var w := g * 0x4_0000; w % 0x200 == 0 && w / 0x200 == g * 0x200
    ensures var w := g * 0x4_0000 + 0x200; w % 0x200 == 0 && w / 0x200 == g * 0x200 + 1
    ensures g * 0x200 % 0x200 == 0 && g * 0x200 / 0x200 == g
    ensures (g * 0x200 + 1) % 0x200 == 1 && (g * 0x200 + 1) / 0x200 == g
  {
  }

  lemma PageOfGroup(g: nat, n: nat, off: nat)
    requires off < 0x1000
    ensures (g * 0x4000_0000 + off + n * 0x1000) / 0x1000 == g * 0x4_0000 + n
    ensures (g * 0x4000_0000 + off + n * 0x1000) % 0x1000 == off
  {
  }

  /** A region that is not well placed holds an address that is not mapped to itself. */
  lemma RegionGoesWrong(base: nat, max: nat) returns (va: nat)
    requires Region(base, max) && !WellPlaced(base, max)
    ensures base <= va <= max && Bounded(ShapeOf(base, max))
    ensures Follow(ShapeOf(base, max), 0, VaOf(va), 2, false) != Ok(va)
  {
    va := base;
    if OneMegapage(base, max) {
      FirstAddressWrong(base, max);
    } else {
      FirstVaOf(base, max);
      CrossingShape(base, max);
      va := CrossingGoesWrong(base, max, ShapeOf(base, max), VaOf(base));
    }
  }

  lemma CrossingGoesWrong(base: nat, max: nat, sh: Shape, v: Va) returns (va: nat)
    requires Region(base, max) && Bounded(sh) && v == VaOf(base) && FirstVa(sh, v) && Address(v) == base
    requires sh.l2Num == 1 ==> sh.l1Num >= 2
    requires sh.l2Num >= 2 && base % 0x4000_0000 < 0x1000 ==> base + MEGAPAGE <= max
    ensures base <= va <= max && Follow(sh, 0, VaOf(va), 2, false) != Ok(va)
  {
    va := base;
    FirstStep(sh, v);
    CopiesOf(sh);
    if sh.l2Num <= L1Count(sh) {
      CrossingFollow(sh, v, sh.l2Num);
    } else {
      SuperpageFollow(sh, v, sh.l2Num);
      if Follow(sh, sh.l2Num, v, 1, false) == Ok(base) {
        va := SecondGoesWrong(base, max, sh, v);
      }
    }
  }

  lemma SecondGoesWrong(base: nat, max: nat, sh: Shape, v: Va) returns (va: nat)
    requires Region(base, max) && Bounded(sh) && v == VaOf(base) && FirstVa(sh, v)
    requires v.vpn1 == 0 && v.vpn0 == 0 && sh.l2Num > L1Count(sh)
    requires base % 0x4000_0000 < 0x1000 ==> base + MEGAPAGE <= max
    ensures base <= va <= max && Follow(sh, 0, VaOf(va), 2, false) != Ok(va)
  {
    FirstIsMegapage(base);
    NextMegapage(base);
    va := base + MEGAPAGE;
    FirstStep(sh, v.(vpn1 := 1));
    SecondMegapageWrong(sh, v, sh.l2Num);
  }

  lemma FirstIsMegapage(base: nat)
    requires VaOf(base).vpn1 == 0 && VaOf(base).vpn0 == 0
    ensures base % 0x4000_0000 < 0x1000
  {
    Indices(base);
  }

  /** Of all regions of the Sv39 address space whose table fits its memory, exactly the well-placed
      ones are mapped to themselves: those that start in the first page of a 2 MiB and end in the
      same, before its last page. */
  lemma MappedToItselfIff(m: Mem, pt: Mem, base: nat, max: nat, access: Access)
    requires Region(base, max) && Boots(pt, base, max)
    ensures (forall va | base <= va <= max :: Translate(m, pt, va, access, false) == Ok(va)) <==> WellPlaced(base, max)
  {
    if WellPlaced(base, max) {
      forall va | base <= va <= max
        ensures Translate(m, pt, va, access, false) == Ok(va)
      {
        IdentityMap(m, pt, base, max, va, access);
        Between(base, va, max);
      }
    } else {
      var va := RegionGoesWrong(base, max);
      TranslateFollows(m, pt, base, max, va, access, false);
    }
  }

  lemma Between(a: nat, b: nat, c: nat)
    requires a <= b <= c
    ensures a / 0x1000 <= b / 0x1000 <= c / 0x1000
  {
  }

  const DATA_BASE_ADDR: nat := 0x8000_0000
  const DATA_MAX_ADDR: nat := 0x8000_ffff

  /** The simulator's own region is well placed: every data address is mapped to itself. */
  lemma DataAddressesMapped(m: Mem, pt: Mem, base: nat, max: nat, va: nat, access: Access)
    requires base == DATA_BASE_ADDR && max == DATA_MAX_ADDR && Boots(pt, base, max) && base <= va <= max
    ensures Translate(m, pt, va, access, false) == Ok(va)
  {
    DataRegionIsWellPlaced(base, max);
    MappedToItselfIff(m, pt, base, max, access);
  }

  lemma DataRegionIsWellPlaced(base: nat, max: nat)
    requires base == DATA_BASE_ADDR && max == DATA_MAX_ADDR
    ensures WellPlaced(base, max)
  {
  }
}
