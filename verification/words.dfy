// Machine words as bounded integers, and the little-endian byte codec that every
// memory of the simulator is built on.
module Words {

  type u8 = x: int | 0 <= x < 0x100
  type u16 = x: int | 0 <= x < 0x1_0000
  type u32 = x: int | 0 <= x < 0x1_0000_0000
  type u64 = x: int | 0 <= x < 0x1_0000_0000_0000_0000
  type byte = u8

  datatype Option<+T> = None | Some(value: T)

  datatype Result<+T, +E> = Ok(value: T) | Err(error: E)

  lemma Associative<T>(a: seq<T>, b: seq<T>, c: seq<T>)
    ensures a + (b + c) == (a + b) + c
  {
  }

  function Pow2(n: nat): (r: nat)
    ensures r >= 1
  {
    if n == 0 then 1 else 2 * Pow2(n - 1)
  }

  function Pow256(n: nat): (r: nat)
    ensures r >= 1
  {
    if n == 0 then 1 else 256 * Pow256(n - 1)
  }

  /** A right shift by 8*j bits. */
  function Shr8(w: nat, j: nat): nat
    decreases j
  {
    if j == 0 then w else Shr8(w / 256, j - 1)
  }

  /** Byte `j` of a word: what a right shift by 8*j bits, cut to eight bits, leaves. */
  function ByteOf(w: nat, j: nat): byte
    decreases j
  {
    if j == 0 then w % 256 else ByteOf(w / 256, j - 1)
  }

  /** The `n` low bytes of a word, lowest first. */
  function LeBytes(w: nat, n: nat): (bs: seq<byte>)
    ensures |bs| == n
    decreases n
  {
    if n == 0 then [] else [w % 256] + LeBytes(w / 256, n - 1)
  }

  /** The number whose bytes, lowest first, are `bs`. */
  function LeValue(bs: seq<byte>): nat {
    if bs == [] then 0 else bs[0] + 256 * LeValue(bs[1..])
  }

  lemma {:induction false} LeBytesAt(w: nat, n: nat, j: nat)
    requires j < n
    ensures LeBytes(w, n)[j] == ByteOf(w, j)
    decreases j
  {
    if j > 0 {
      LeBytesAt(w / 256, n - 1, j - 1);
    }
  }

  lemma {:induction false} LeValueBound(bs: seq<byte>)
    ensures LeValue(bs) < Pow256(|bs|)
  {
    if bs != [] {
      LeValueBound(bs[1..]);
    }
  }

  /** Splitting a word into bytes and joining them again loses nothing. */
  lemma {:induction false} LeRoundTrip(w: nat, n: nat)
    requires w < Pow256(n)
    ensures LeValue(LeBytes(w, n)) == w
    decreases n
  {
    if n > 0 {
      LeRoundTrip(w / 256, n - 1);
      assert LeBytes(w, n)[1..] == LeBytes(w / 256, n - 1);
    }
  }

  lemma {:induction false} LeBytesOfValue(bs: seq<byte>)
    ensures LeBytes(LeValue(bs), |bs|) == bs
  {
    if bs != [] {
      LeBytesOfValue(bs[1..]);
      assert LeValue(bs) % 256 == bs[0];
      assert LeValue(bs) / 256 == LeValue(bs[1..]);
      assert bs == [bs[0]] + bs[1..];
    }
  }

  /** Appending a higher byte adds it at its own weight: the step of every load loop. */
  lemma {:induction false} LeSnoc(bs: seq<byte>, b: byte)
    ensures LeValue(bs + [b]) == LeValue(bs) + b * Pow256(|bs|)
  {
    if bs == [] {
      assert bs + [b] == [b];
      assert [b][1..] == [];
    } else {
      LeSnoc(bs[1..], b);
      assert (bs + [b])[1..] == bs[1..] + [b];
      var t := Pow256(|bs| - 1);
      assert 256 * (b * t) == b * (256 * t);
    }
  }

  lemma {:induction false} ByteOfShr8(w: nat, i: nat, j: nat)
    ensures ByteOf(Shr8(w, i), j) == ByteOf(w, i + j)
    decreases i
  {
    if i > 0 {
      ByteOfShr8(w / 256, i - 1, j);
    }
  }

  /** A left shift by 8*m bits. */
  function Shl8(h: nat, m: nat): nat
    decreases m
  {
    if m == 0 then h else 256 * Shl8(h, m - 1)
  }

  lemma Shl8Values(h: nat)
    ensures Shl8(h, 1) == 0x100 * h && Shl8(h, 2) == 0x1_0000 * h && Shl8(h, 4) == 0x1_0000_0000 * h
  {
    assert Shl8(h, 3) == 0x100_0000 * h;
  }

  /** Adding a multiple of 256 leaves the low byte and adds to what is above it. */
  lemma LowByteSame(h: nat, lo: nat, k: nat)
    ensures ByteOf(256 * h + lo, k) == if k == 0 then lo % 256 else ByteOf(h + lo / 256, k - 1)
  {
    assert (256 * h + lo) % 256 == lo % 256 && (256 * h + lo) / 256 == h + lo / 256;
  }

  /** The bytes of a low part of `m` bytes joined to a high part. */
  lemma {:induction false} JoinedByte(lo: nat, hi: nat, m: nat, k: nat)
    requires lo < Pow256(m)
    ensures ByteOf(Shl8(hi, m) + lo, k) == if k < m then ByteOf(lo, k) else ByteOf(hi, k - m)
    decreases m
  {
    if m > 0 {
      LowByteSame(Shl8(hi, m - 1), lo, k);
      if k > 0 {
        JoinedByte(lo / 256, hi, m - 1, k - 1);
      }
    }
  }

  /** The same for two 32-bit halves. */
  lemma HalvesByte(lo: u32, hi: nat, k: nat)
    ensures ByteOf(hi * 0x1_0000_0000 + lo, k) == if k < 4 then ByteOf(lo, k) else ByteOf(hi, k - 4)
  {
    Pow256Values();
    Shl8Values(hi);
    JoinedByte(lo, hi, 4, k);
  }

  lemma Pow256Values()
    ensures Pow256(0) == 1 && Pow256(1) == 0x100 && Pow256(2) == 0x1_0000
    ensures Pow256(4) == 0x1_0000_0000
    ensures Pow256(8) == 0x1_0000_0000_0000_0000
  {
    assert Pow256(3) == 0x100_0000;
    assert Pow256(5) == 0x100_0000_0000;
    assert Pow256(6) == 0x1_0000_0000_0000;
    assert Pow256(7) == 0x100_0000_0000_0000;
  }
}
