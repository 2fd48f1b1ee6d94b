// What the walker does with an entry, in terms of the bits of its word: section 4.3.2, steps 3
// to 8, of the RISC-V Privileged Architecture v1.12, with the positions of figure 4.20.
module Sv39Bits {
  import opened Words
  import opened Ptes
  import opened PageTable
  import opened Sv39

  /** No bit from 54 up is set: no reserved field, no page-based memory type, no NAPOT. */
  lemma UpperBits(word: u64)
    ensures var p := Unpack(word);
            p.n == 0 && p.pbmt == 0 && p.reserved == 0 <==> word < 0x40_0000_0000_0000
  {
    var top := word / 0x40_0000_0000_0000;
    assert word / 0x2000_0000_0000_0000 == top / 0x80;
    assert word / 0x8000_0000_0000_0000 == top / 0x80 / 4;
    assert top < 0x400;
  }

  /** The page number is the 44 bits from 10 up. */
  lemma PpnBits(word: nat)
    ensures GetPpn(Unpack(word)) == word / 0x400 % PPN_RANGE
  {
    var w := word / 0x400;
    assert word / 0x8_0000 == w / 0x200;
    assert word / 0x1000_0000 == w / 0x4_0000 == w / 0x200 / 0x200;
    PpnParts(w);
  }

  lemma PpnParts(w: nat)
    ensures w / 0x4_0000 % 0x400_0000 * 0x4_0000 + w / 0x200 % 0x200 * 0x200 + w % 0x200 == w % PPN_RANGE
  {
    var low := w % 0x4_0000;
    assert low == w / 0x200 % 0x200 * 0x200 + w % 0x200;
    assert w == w / 0x4_0000 * 0x4_0000 + low;
    var hi := w / 0x4_0000;
    assert hi == hi / 0x400_0000 * 0x400_0000 + hi % 0x400_0000;
  }

  predicate Allowed(word: nat, access: Access) {
    match access
    case Fetch => word / 8 % 2 == 1
    case Load => word / 2 % 2 == 1
    case Store => word / 4 % 2 == 1 && word / 0x80 % 2 == 1
  }

  /** The bits of a leaf that allow an access: valid, nothing reserved, readable or executable but not
      writable alone, accessed and for users. */
  predicate LeafBits(word: u64, access: Access) {
    && word % 2 == 1 && word < 0x40_0000_0000_0000
    && (word / 2 % 2 == 1 || (word / 8 % 2 == 1 && word / 4 % 2 == 0))
    && word / 0x40 % 2 == 1 && word / 0x10 % 2 == 1 && Allowed(word, access)
  }

  /** A word maps its page exactly if its bits allow the access and its page number is a multiple of
      the pages a leaf of its level maps; on level 0 the page is that of its 44 bits. */
  lemma LeafIff(word: u64, v: Va, level: nat, access: Access, strict: bool)
    requires level <= 2
    ensures Examine(Unpack(word), v, level, access, strict).Found? <==>
            LeafBits(word, access) &&
            word / 0x400 % (if level == 0 then 1 else if level == 1 then 0x200 else 0x4_0000) == 0
    ensures level == 0 && LeafBits(word, access) ==>
              Examine(Unpack(word), v, level, access, strict) == Found(word / 0x400 % PPN_RANGE * 0x1000 + v.offset)
  {
    UpperBits(word);
    PpnBits(word);
    LowParts(word);
  }

  lemma LowParts(word: nat)
    ensures word / 0x400 % 0x200 == Unpack(word).ppn0
    ensures word / 0x400 % 0x4_0000 == Unpack(word).ppn0 + 0x200 * Unpack(word).ppn1
  {
    var w := word / 0x400;
    assert word / 0x8_0000 == w / 0x200;
    Low18(w);
  }

  lemma Low18(w: nat)
    ensures w % 0x4_0000 == w / 0x200 % 0x200 * 0x200 + w % 0x200
  {
  }

  /** Above level 0 a word points on exactly if it is valid, has nothing reserved set and neither
      reads, writes nor executes; a strict walker wants D, A and U clear as well. */
  lemma PointerIff(word: u64, v: Va, level: nat, access: Access, strict: bool)
    requires 0 < level <= 2
    ensures Examine(Unpack(word), v, level, access, strict).Down? <==>
            && word % 2 == 1 && word < 0x40_0000_0000_0000 && word / 2 % 8 == 0
            && (strict ==> word / 0x40 % 4 == 0 && word / 0x10 % 2 == 0)
    ensures Examine(Unpack(word), v, level, access, strict).Down? ==>
              Examine(Unpack(word), v, level, access, strict) == Down(word / 0x400 % PPN_RANGE)
  {
    UpperBits(word);
    PpnBits(word);
    ThreeBits(word / 2);
    TwoBits(word / 0x40);
    assert word / 4 == word / 2 / 2 && word / 8 == word / 2 / 4 && word / 0x80 == word / 0x40 / 2;
  }

  lemma ThreeBits(x: nat)
    ensures x % 8 == 0 <==> x % 2 == 0 && x / 2 % 2 == 0 && x / 4 % 2 == 0
  {
    TwoBits(x);
    assert x / 2 / 2 == x / 4 && x % 8 == x % 4 + x / 4 % 2 * 4;
  }

  lemma TwoBits(x: nat)
    ensures x % 4 == 0 <==> x % 2 == 0 && x / 2 % 2 == 0
  {
  }

  /** The words the generator writes: the page number above ten bits of flags, 0xdf for a leaf (D, A,
      U, X, W, R and V), 0xd1 for a pointer (D, A, U and V), and 0 for an entry not in use. */
  lemma GeneratedWords(ppn: nat)
    ensures Pack(MakePte(ppn, true, true)) == ppn * 0x400 + 0xdf
    ensures Pack(MakePte(ppn, true, false)) == ppn * 0x400 + 0xd1
    ensures Pack(MakePte(ppn, false, false)) == 0
  {
    assert ppn == ppn / 0x4_0000 * 0x4_0000 + ppn / 0x200 % 0x200 * 0x200 + ppn % 0x200;
  }

  /** The bytes a leaf of a level maps: 4 KiB, 2 MiB or 1 GiB. */
  function LeafBytes(level: nat): nat {
    if level == 0 then 0x1000 else if level == 1 then 0x20_0000 else 0x4000_0000
  }

  /** Any leaf keeps the address within the bytes it maps, and takes what is above from its page
      number; a superpage that is not aligned to its size maps nothing. */
  lemma LeafMapsItsBytes(p: Pte, va: nat, level: nat, access: Access, strict: bool)
    requires level <= 2 && va < VA_RANGE && Examine(p, VaOf(va), level, access, strict).Found?
    ensures var pa := Examine(p, VaOf(va), level, access, strict).pa;
            pa % LeafBytes(level) == va % LeafBytes(level) &&
            pa / LeafBytes(level) == GetPpn(p) * 0x1000 / LeafBytes(level)
    ensures GetPpn(p) * 0x1000 % LeafBytes(level) == 0
  {
    PhysicalIs(p, va, level);
    if level == 0 {
      Join12(GetPpn(p), va % 0x1000);
    } else if level == 1 {
      Aligned9(p);
      Join21(GetPpn(p), va % 0x20_0000);
    } else {
      Aligned18(p);
      Join30(GetPpn(p), va % 0x4000_0000);
    }
  }

  lemma PhysicalIs(p: Pte, va: nat, level: nat)
    requires level <= 2
    ensures Physical(p, VaOf(va), level) ==
            if level == 0 then GetPpn(p) * 0x1000 + va % 0x1000
            else if level == 1 then GetPpn(p) / 0x200 * MEGAPAGE + va % 0x20_0000
            else GetPpn(p) / 0x4_0000 * 0x4000_0000 + va % 0x4000_0000
  {
    OffsetParts(va);
  }

  lemma Join12(g: nat, rest: nat)
    requires rest < 0x1000
    ensures (g * 0x1000 + rest) % 0x1000 == rest && (g * 0x1000 + rest) / 0x1000 == g
    ensures g * 0x1000 / 0x1000 == g && g * 0x1000 % 0x1000 == 0
  {
  }

  lemma Aligned9(p: Pte)
    requires p.ppn0 == 0
    ensures GetPpn(p) % 0x200 == 0
  {
  }

  lemma Aligned18(p: Pte)
    requires p.ppn0 == 0 && p.ppn1 == 0
    ensures GetPpn(p) % 0x4_0000 == 0
  {
  }

  lemma Join21(g: nat, rest: nat)
    requires rest < 0x20_0000 && g % 0x200 == 0
    ensures (g / 0x200 * MEGAPAGE + rest) % 0x20_0000 == rest && (g / 0x200 * MEGAPAGE + rest) / 0x20_0000 == g / 0x200
    ensures g * 0x1000 / 0x20_0000 == g / 0x200 && g * 0x1000 % 0x20_0000 == 0
  {
    assert g == 0x200 * (g / 0x200);
  }

  lemma Join30(g: nat, rest: nat)
    requires rest < 0x4000_0000 && g % 0x4_0000 == 0
    ensures (g / 0x4_0000 * 0x4000_0000 + rest) % 0x4000_0000 == rest
    ensures (g / 0x4_0000 * 0x4000_0000 + rest) / 0x4000_0000 == g / 0x4_0000
    ensures g * 0x1000 / 0x4000_0000 == g / 0x4_0000 && g * 0x1000 % 0x4000_0000 == 0
  {
    assert g == 0x4_0000 * (g / 0x4_0000);
  }

  lemma OffsetParts(va: nat)
    ensures va % 0x20_0000 == va / 0x1000 % 0x200 * 0x1000 + va % 0x1000
    ensures va % 0x4000_0000 == va / 0x20_0000 % 0x200 * 0x20_0000 + va / 0x1000 % 0x200 * 0x1000 + va % 0x1000
  {
  }
}
