// Bit strings as the instruction generator handles them: Python strings of '0' and '1',
// highest bit first (src/rcu/data/data_gen.py, ut/params.py).
module BitStrings {
  import opened Words

  predicate IsBits(s: string) {
    forall i | 0 <= i < |s| :: s[i] == '0' || s[i] == '1'
  }

  function BitOf(c: char): nat {
    if c == '1' then 1 else 0
  }

  function CharOf(b: nat): char {
    if b == 1 then '1' else '0'
  }

  /** The number a bit string writes. */
  function Value(s: string): nat {
    if s == [] then 0 else 2 * Value(s[..|s| - 1]) + BitOf(s[|s| - 1])
  }

  /** The `w` low bits of a number. */
  function BitString(n: nat, w: nat): (s: string)
    ensures |s| == w && IsBits(s)
    decreases w
  {
    if w == 0 then [] else BitString(n / 2, w - 1) + [CharOf(n % 2)]
  }

  lemma {:induction false} ValueOfBits(n: nat, w: nat)
    requires n < Pow2(w)
    ensures Value(BitString(n, w)) == n
    decreases w
  {
    if w > 0 {
      ValueOfBits(n / 2, w - 1);
      assert BitString(n, w)[..w - 1] == BitString(n / 2, w - 1);
    }
  }

  lemma {:induction false} BitsOfValue(s: string)
    requires IsBits(s)
    ensures BitString(Value(s), |s|) == s && Value(s) < Pow2(|s|)
    decreases |s|
  {
    if s != [] {
      var f := s[..|s| - 1];
      BitsOfValue(f);
      assert s == f + [s[|s| - 1]];
      assert Value(s) / 2 == Value(f) && Value(s) % 2 == BitOf(s[|s| - 1]);
    }
  }

  lemma ValueSnoc(s: string, c: char)
    ensures Value(s + [c]) == 2 * Value(s) + BitOf(c)
  {
    assert (s + [c])[..|s|] == s;
  }

  // ----- Python's bin, and padding -----

  /** What `bin` writes after its prefix: no leading zeros, but "0" for zero. */
  function Bin(n: nat): (s: string)
    ensures s != [] && IsBits(s)
  {
    if n < 2 then [CharOf(n)] else Bin(n / 2) + [CharOf(n % 2)]
  }

  /** Python's "0" * k: nothing for a negative count. */
  function Zeros(k: int): (s: string)
    ensures |s| == if k > 0 then k else 0
  {
    if k <= 0 then [] else Zeros(k - 1) + ['0']
  }

  /** Filling up what `bin` writes gives the `w` low bits, when the number has no more than those. */
  lemma {:induction false} PaddedBin(n: nat, w: nat)
    requires w > 0 && n < Pow2(w)
    ensures |Bin(n)| <= w && Zeros(w - |Bin(n)|) + Bin(n) == BitString(n, w)
    decreases w
  {
    if n < 2 {
      ZeroBits(w - 1);
      assert BitString(n, w) == BitString(n / 2, w - 1) + [CharOf(n)];
    } else {
      PaddedBin(n / 2, w - 1);
    }
  }

  lemma {:induction false} ZeroBits(w: nat)
    ensures BitString(0, w) == Zeros(w)
    decreases w
  {
    if w > 0 {
      ZeroBits(w - 1);
    }
  }

  /** Two's complement reading. */
  function Signed(s: string): int {
    if s != [] && s[0] == '1' then Value(s) - Pow2(|s|) else Value(s)
  }

  /** A number cut to `w` bits and read back signed. */
  function Wrap(i: int, w: nat): int
    requires w > 0
  {
    var n := i % Pow2(w);
    if n >= Pow2(w - 1) then n - Pow2(w) else n
  }

  lemma {:induction false} TopBitSet(n: nat, w: nat)
    requires w > 0 && n < Pow2(w)
    ensures BitString(n, w)[0] == '1' <==> n >= Pow2(w - 1)
    decreases w
  {
    if w > 1 {
      TopBitSet(n / 2, w - 1);
      assert BitString(n, w)[0] == BitString(n / 2, w - 1)[0];
    } else {
      assert Pow2(1) == 2;
    }
  }

  lemma SignedOfBits(i: int, w: nat)
    requires w > 0
    ensures i % Pow2(w) >= 0 && Signed(BitString(i % Pow2(w), w)) == Wrap(i, w)
  {
    var n := i % Pow2(w);
    ValueOfBits(n, w);
    TopBitSet(n, w);
  }

  /** A number survives exactly when it is in the signed range. */
  lemma WrapKeepsIff(i: int, w: nat)
    requires w > 0
    ensures Wrap(i, w) == i <==> 0 <= i + Pow2(w - 1) < Pow2(w)
  {
    var p := Pow2(w);
    assert p == 2 * Pow2(w - 1);
    if 0 <= i < p {
      ModSmall(i, p);
    } else if 0 <= i + p && i < 0 {
      ModNegative(i, p);
    }
    assert 0 <= i % p < p;
  }

  lemma ModSmall(i: int, p: nat)
    requires 0 <= i < p
    ensures i % p == i
  {
  }

  lemma ModNegative(i: int, p: nat)
    requires 0 <= i + p && i < 0
    ensures i % p == i + p
  {
    var q, r := i / p, i % p;
    assert i == q * p + r && 0 <= r < p;
    if q < -1 {
      Times(q, -2, p);
    } else if q >= 0 {
      Times(0, q, p);
    }
  }

  lemma Times(a: int, b: int, p: nat)
    requires a <= b
    ensures a * p <= b * p
  {
  }
}
