// The 64 KiB byte map that all the memories of the simulator represent. Addresses are
// cut to sixteen bits before they index it, so accesses wrap at the top.
module FlatMemory {
  import opened Words

  const MEM_MAX_SIZE: nat := 0x1_0000

  type Mem = m: seq<byte> | |m| == MEM_MAX_SIZE witness seq(MEM_MAX_SIZE, i => 0)

  /** What an access at an address its size does not divide raises. */
  datatype MemError = Misaligned

  /** The image every memory constructor builds: each aligned 32-bit word holds its own address. */
  function InitialImage(): Mem {
    seq(MEM_MAX_SIZE, i requires 0 <= i => ByteOf(i / 4 * 4, i % 4))
  }

  /** How far byte `p` lies above address `a`, modulo the memory size. */
  function Offset(a: nat, p: nat): nat {
    (p - a) % MEM_MAX_SIZE
  }

  function StoreBytes(m: Mem, a: nat, n: nat, data: nat): Mem
    decreases n
  {
    if n == 0 then m
    else StoreBytes(m, a, n - 1, data)[(a + n - 1) % MEM_MAX_SIZE := ByteOf(data, n - 1)]
  }

  function Window(m: Mem, a: nat, n: nat): (bs: seq<byte>)
    ensures |bs| == n
  {
    seq(n, i requires 0 <= i => m[(a + i) % MEM_MAX_SIZE])
  }

  function LoadBytes(m: Mem, a: nat, n: nat): nat {
    LeValue(Window(m, a, n))
  }

  lemma OffsetHits(a: nat, p: nat, k: nat)
    requires p < MEM_MAX_SIZE && k < MEM_MAX_SIZE
    ensures (a + k) % MEM_MAX_SIZE == p <==> Offset(a, p) == k
  {
    var q := a / MEM_MAX_SIZE;
    var r := a % MEM_MAX_SIZE;
    assert a == q * MEM_MAX_SIZE + r;
    assert (a + k) % MEM_MAX_SIZE == (r + k) % MEM_MAX_SIZE;
    assert (p - a) % MEM_MAX_SIZE == (p - r) % MEM_MAX_SIZE;
  }

  lemma OffsetOf(a: nat, k: nat)
    requires k < MEM_MAX_SIZE
    ensures Offset(a, (a + k) % MEM_MAX_SIZE) == k
  {
    OffsetHits(a, (a + k) % MEM_MAX_SIZE, k);
  }

  /** What a store of `n` bytes does to every byte of memory. */
  lemma {:induction false} StoreBytesAt(m: Mem, a: nat, n: nat, data: nat, p: nat)
    requires n <= MEM_MAX_SIZE && p < MEM_MAX_SIZE
    ensures StoreBytes(m, a, n, data)[p] ==
            if Offset(a, p) < n then ByteOf(data, Offset(a, p)) else m[p]
    decreases n
  {
    if n > 0 {
      StoreBytesAt(m, a, n - 1, data, p);
      OffsetHits(a, p, n - 1);
    }
  }

  lemma LoadBytesBound(m: Mem, a: nat, n: nat)
    ensures LoadBytes(m, a, n) < Pow256(n)
  {
    LeValueBound(Window(m, a, n));
  }

  lemma StoredByte(m: Mem, a: nat, n: nat, data: nat, i: nat)
    requires i < n <= MEM_MAX_SIZE
    ensures StoreBytes(m, a, n, data)[(a + i) % MEM_MAX_SIZE] == ByteOf(data, i)
  {
    OffsetOf(a, i);
    StoreBytesAt(m, a, n, data, (a + i) % MEM_MAX_SIZE);
  }

  lemma WindowAfterStore(m: Mem, a: nat, n: nat, data: nat)
    requires n <= MEM_MAX_SIZE
    ensures Window(StoreBytes(m, a, n, data), a, n) == LeBytes(data, n)
  {
    forall i | 0 <= i < n
      ensures Window(StoreBytes(m, a, n, data), a, n)[i] == LeBytes(data, n)[i]
    {
      StoredByte(m, a, n, data, i);
      LeBytesAt(data, n, i);
    }
  }

  /** A load sees exactly the bytes the last store to its address left. */
  lemma LoadAfterStore(m: Mem, a: nat, n: nat, data: nat)
    requires n <= MEM_MAX_SIZE && data < Pow256(n)
    ensures LoadBytes(StoreBytes(m, a, n, data), a, n) == data
  {
    WindowAfterStore(m, a, n, data);
    LeRoundTrip(data, n);
  }

  /** Storing a word is storing its low part and then its high part above it. */
  lemma {:induction false} StoreSplits(m: Mem, a: nat, lo: nat, hi: nat, data: nat)
    ensures StoreBytes(m, a, lo + hi, data) == StoreBytes(StoreBytes(m, a, lo, data), a + lo, hi, Shr8(data, lo))
    decreases hi
  {
    if hi > 0 {
      StoreSplits(m, a, lo, hi - 1, data);
      ByteOfShr8(data, lo, hi - 1);
    }
  }
}
