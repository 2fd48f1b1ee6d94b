// From the page-table script to the memory object: what the simulator holds when it starts.
module Boot {
  import opened Words
  import opened FlatMemory
  import opened L1dTypes
  import opened Axi
  import opened Ptes
  import opened PageTable
  import opened Sv39
  import opened Regions

  lemma ImageBoots(pages: seq<Page>, pt: Mem, base: nat, max: nat)
    requires Region(base, max) && Bounded(ShapeOf(base, max))
    requires pages == Tables(ShapeOf(base, max)) && |pages| < PT_PAGES
    requires pt == TableBytes(pages) + seq(MEM_MAX_SIZE - |TableBytes(pages)|, i => 0)
    ensures Boots(pt, base, max)
  {
  }

  /** Generate the pages, write them out, load them: the memory then holds the table of the region,
      unless its pages do not fit, in which case nothing is loaded. */
  method BootMemory(base: nat, max: nat) returns (mem: Option<FakeMemory>)
    requires Region(base, max)
    ensures Bounded(ShapeOf(base, max))
    ensures mem.Some? <==> |Tables(ShapeOf(base, max))| < PT_PAGES
    ensures mem.Some? ==>
              fresh(mem.value) && mem.value.Valid() && mem.value.mem[..] == InitialImage()
              && Boots(mem.value.pagetable[..], base, max)
  {
    var pages := Generate(base, max);
    PagesAreFull(base, max);
    if |pages| >= PT_PAGES {
      return None;
    }
    var bytes := Serialise(pages);
    var m := new FakeMemory(bytes);
    ImageBoots(pages, m.pagetable[..], base, max);
    mem := Some(m);
  }

  lemma PagesAreFull(base: nat, max: nat)
    requires Region(base, max) && Bounded(ShapeOf(base, max))
    ensures forall page | page in Tables(ShapeOf(base, max)) :: |page| <= PTE_PER_PAGE
  {
    var sh := ShapeOf(base, max);
    forall p | 0 <= p < |Tables(sh)|
      ensures |Tables(sh)[p]| <= PTE_PER_PAGE
    {
      PageOf(sh, p);
    }
  }

  /** The simulator's own table has three pages and fits. */
  lemma DataTableFits(sh: Shape)
    requires sh == ShapeOf(DATA_BASE_ADDR, DATA_MAX_ADDR)
    ensures Bounded(sh) && |Tables(sh)| == 3
  {
    ShapeIsBounded(DATA_BASE_ADDR, DATA_MAX_ADDR);
    assert sh.l2Num == 1 && sh.l1Num == 1 && sh.l0Num == 16;
    SimpleCounts(sh);
  }
}
