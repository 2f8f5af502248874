// Bitwise arithmetic on unbounded naturals. An unsigned machine word is a
// natural below a power of two; its bits are read off by repeated halving,
// so every operator below is defined digit by digit and its meaning is
// stated by a lemma about the bits `IsSet` reads.

module Bits {

  /** 2^n */
  function Pow2(n: nat): (r: nat)
    ensures r > 0
  {
    if n == 0 then 1 else 2 * Pow2(n - 1)
  }

  /** Bit `k` of `b`. */
  predicate IsSet(b: nat, k: nat) {
    if k == 0 then b % 2 == 1 else IsSet(b / 2, k - 1)
  }

  /** `a | b` */
  function Or(a: nat, b: nat): nat
    decreases a + b
  {
    if a == 0 && b == 0 then 0
    else 2 * Or(a / 2, b / 2) + (if a % 2 == 1 || b % 2 == 1 then 1 else 0)
  }

  /** `a & b` */
  function And(a: nat, b: nat): nat
    decreases a + b
  {
    if a == 0 || b == 0 then 0
    else 2 * And(a / 2, b / 2) + (if a % 2 == 1 && b % 2 == 1 then 1 else 0)
  }

  /** `a ^ b` */
  function Xor(a: nat, b: nat): nat
    decreases a + b
  {
    if a == 0 && b == 0 then 0
    else 2 * Xor(a / 2, b / 2) + (if (a % 2 == 1) != (b % 2 == 1) then 1 else 0)
  }

  /** The low `n` bits of `x`: the truncation of `x` to an `n`-bit word. */
  function Low(x: nat, n: nat): nat {
    if n == 0 then 0 else 2 * Low(x / 2, n - 1) + x % 2
  }

  /** `b << k` without truncation. */
  function Shl(b: nat, k: nat): nat {
    if k == 0 then b else 2 * Shl(b, k - 1)
  }

  /** `b >> k` */
  function Shr(b: nat, k: nat): nat {
    if k == 0 then b else Shr(b / 2, k - 1)
  }

  /** The `n`-bit complement `~a`, digit by digit. */
  function Complement(a: nat, n: nat): nat {
    if n == 0 then 0 else 2 * Complement(a / 2, n - 1) + (1 - a % 2)
  }

  /** Count trailing zeros: the index of the lowest set bit. */
  function Lowest(b: nat): nat
    requires b > 0
  {
    if b % 2 == 1 then 0 else 1 + Lowest(b / 2)
  }

  /** The index of the highest set bit. */
  function Highest(b: nat): nat
    requires b > 0
  {
    if b < 2 then 0 else 1 + Highest(b / 2)
  }

  /** The number of set bits. */
  function PopCount(b: nat): nat {
    if b == 0 then 0 else b % 2 + PopCount(b / 2)
  }

  /** The little-endian number whose bytes are `bs`. */
  function FromBytes(bs: seq<nat>): nat {
    if |bs| == 0 then 0 else bs[0] + 256 * FromBytes(bs[1..])
  }

  // ---------------------------------------------------------------------
  // Reading bits
  // ---------------------------------------------------------------------

  /** The bits of `2*q + e`. */
  lemma Digit(q: nat, e: nat, k: nat)
    requires e < 2
    ensures IsSet(2 * q + e, k) == if k == 0 then e == 1 else IsSet(q, k - 1)
  {}

  lemma {:induction false} ZeroClear(k: nat)
    ensures !IsSet(0, k)
  {
    if k > 0 {
      ZeroClear(k - 1);
    }
  }

  lemma {:induction false} OneBits(k: nat)
    ensures IsSet(1, k) == (k == 0)
  {
    if k > 0 {
      ZeroClear(k - 1);
    }
  }

  lemma {:induction false} Pow2Bits(n: nat, k: nat)
    ensures IsSet(Pow2(n), k) == (k == n)
  {
    if n == 0 {
      OneBits(k);
    } else if k == 0 {
    } else {
      Digit(Pow2(n - 1), 0, k);
      Pow2Bits(n - 1, k - 1);
    }
  }

  lemma {:induction false} Pow2Monotone(m: nat, n: nat)
    requires m <= n
    ensures Pow2(m) <= Pow2(n)
    decreases n
  {
    if m < n {
      Pow2Monotone(m, n - 1);
    }
  }

  lemma Pow2Below(k: nat, n: nat)
    requires k < n
    ensures Pow2(k) < Pow2(n)
  {
    Pow2Monotone(k + 1, n);
  }

  lemma Pow2Sum(m: nat, n: nat)
    ensures Pow2(m + n) == Pow2(m) * Pow2(n)
    decreases m
  {
    if m > 0 {
      Pow2Sum(m - 1, n);
    }
  }

  lemma Pow2Of16()
    ensures Pow2(16) == 0x1_0000
  {
    assert Pow2(8) == 256;
    Pow2Sum(8, 8);
  }

  lemma Pow2Of32()
    ensures Pow2(32) == 0x1_0000_0000
  {
    Pow2Of16();
    Pow2Sum(16, 16);
  }

  lemma Pow2Of64()
    ensures Pow2(64) == 0x1_0000_0000_0000_0000
  {
    Pow2Of32();
    Pow2Sum(32, 32);
  }

  /** A number below 2^n has no bit at or above `n`. */
  lemma {:induction false} HighClear(x: nat, n: nat, k: nat)
    requires x < Pow2(n) && k >= n
    ensures !IsSet(x, k)
    decreases n
  {
    if n == 0 {
      ZeroClear(k);
    } else {
      HighClear(x / 2, n - 1, k - 1);
    }
  }

  /** The bits of `x + 2^n * c`, when `x < 2^n`: `x` below `n`, `c` above. */
  lemma {:induction false} Split(x: nat, c: nat, n: nat, k: nat)
    requires x < Pow2(n)
    ensures IsSet(x + Pow2(n) * c, k) == if k < n then IsSet(x, k) else IsSet(c, k - n)
    decreases n
  {
    if n > 0 {
      var y := x + Pow2(n) * c;
      assert Pow2(n) * c == 2 * (Pow2(n - 1) * c);
      assert y == 2 * (x / 2 + Pow2(n - 1) * c) + x % 2;
      Digit(x / 2 + Pow2(n - 1) * c, x % 2, k);
      if k > 0 {
        Split(x / 2, c, n - 1, k - 1);
      }
    }
  }

  /** Two numbers below 2^n with the same bits are equal. */
  lemma {:induction false} Extensionality(a: nat, b: nat, n: nat)
    requires a < Pow2(n) && b < Pow2(n)
    requires forall k: nat :: k < n ==> IsSet(a, k) == IsSet(b, k)
    ensures a == b
    decreases n
  {
    if n == 0 {
    } else {
      assert IsSet(a, 0) == IsSet(b, 0);
      forall k: nat | k < n - 1
        ensures IsSet(a / 2, k) == IsSet(b / 2, k)
      {
        assert IsSet(a, k + 1) == IsSet(b, k + 1);
      }
      Extensionality(a / 2, b / 2, n - 1);
    }
  }

  // ---------------------------------------------------------------------
  // Operators
  // ---------------------------------------------------------------------

  lemma {:induction false} OrBits(a: nat, b: nat, k: nat)
    ensures IsSet(Or(a, b), k) == (IsSet(a, k) || IsSet(b, k))
    decreases a + b
  {
    if a == 0 && b == 0 {
      ZeroClear(k);
    } else {
      Digit(Or(a / 2, b / 2), if a % 2 == 1 || b % 2 == 1 then 1 else 0, k);
      if k > 0 {
        OrBits(a / 2, b / 2, k - 1);
      }
    }
  }

  lemma {:induction false} AndBits(a: nat, b: nat, k: nat)
    ensures IsSet(And(a, b), k) == (IsSet(a, k) && IsSet(b, k))
    decreases a + b
  {
    if a == 0 || b == 0 {
      ZeroClear(k);
    } else {
      Digit(And(a / 2, b / 2), if a % 2 == 1 && b % 2 == 1 then 1 else 0, k);
      if k > 0 {
        AndBits(a / 2, b / 2, k - 1);
      }
    }
  }

  lemma {:induction false} XorBits(a: nat, b: nat, k: nat)
    ensures IsSet(Xor(a, b), k) == (IsSet(a, k) != IsSet(b, k))
    decreases a + b
  {
    if a == 0 && b == 0 {
      ZeroClear(k);
    } else {
      Digit(Xor(a / 2, b / 2), if (a % 2 == 1) != (b % 2 == 1) then 1 else 0, k);
      if k > 0 {
        XorBits(a / 2, b / 2, k - 1);
      }
    }
  }

  lemma {:induction false} LowBits(x: nat, n: nat, k: nat)
    ensures IsSet(Low(x, n), k) == (k < n && IsSet(x, k))
  {
    if n == 0 {
      ZeroClear(k);
    } else {
      Digit(Low(x / 2, n - 1), x % 2, k);
      if k > 0 {
        LowBits(x / 2, n - 1, k - 1);
      }
    }
  }

  lemma {:induction false} LowBound(x: nat, n: nat)
    ensures Low(x, n) < Pow2(n)
  {
    if n > 0 {
      LowBound(x / 2, n - 1);
    }
  }

  /** Truncating a number that already fits changes nothing. */
  lemma {:induction false} LowFits(x: nat, n: nat)
    requires x < Pow2(n)
    ensures Low(x, n) == x
  {
    if n > 0 {
      LowFits(x / 2, n - 1);
    }
  }

  lemma {:induction false} ShlBits(b: nat, k: nat, j: nat)
    ensures IsSet(Shl(b, k), j) == (j >= k && IsSet(b, j - k))
  {
    if k > 0 {
      Digit(Shl(b, k - 1), 0, j);
      if j > 0 {
        ShlBits(b, k - 1, j - 1);
      }
    }
  }

  lemma {:induction false} ShrBits(b: nat, k: nat, j: nat)
    ensures IsSet(Shr(b, k), j) == IsSet(b, j + k)
  {
    if k > 0 {
      ShrBits(b / 2, k - 1, j);
    }
  }

  lemma {:induction false} ShrBound(b: nat, k: nat, n: nat)
    requires b < Pow2(n)
    ensures Shr(b, k) < Pow2(n)
  {
    if k > 0 {
      ShrBound(b / 2, k - 1, n);
    }
  }

  /** Numerically, the complement is `2^n - 1 - a`. */
  lemma {:induction false} ComplementValue(a: nat, n: nat)
    requires a < Pow2(n)
    ensures Complement(a, n) == Pow2(n) - 1 - a
  {
    if n > 0 {
      ComplementValue(a / 2, n - 1);
    }
  }

  lemma {:induction false} ComplementBits(a: nat, n: nat, k: nat)
    ensures IsSet(Complement(a, n), k) == (k < n && !IsSet(a, k))
  {
    if n == 0 {
      ZeroClear(k);
    } else {
      Digit(Complement(a / 2, n - 1), 1 - a % 2, k);
      if k > 0 {
        ComplementBits(a / 2, n - 1, k - 1);
      }
    }
  }

  lemma {:induction false} OrBound(a: nat, b: nat, n: nat)
    requires a < Pow2(n) && b < Pow2(n)
    ensures Or(a, b) < Pow2(n)
    decreases n
  {
    if a == 0 && b == 0 {
    } else {
      OrBound(a / 2, b / 2, n - 1);
    }
  }

  lemma {:induction false} AndBound(a: nat, b: nat, n: nat)
    requires a < Pow2(n)
    ensures And(a, b) < Pow2(n) && And(a, b) <= a
    decreases n
  {
    if a == 0 || b == 0 {
    } else {
      AndBound(a / 2, b / 2, n - 1);
    }
  }

  lemma {:induction false} XorBound(a: nat, b: nat, n: nat)
    requires a < Pow2(n) && b < Pow2(n)
    ensures Xor(a, b) < Pow2(n)
    decreases n
  {
    if a == 0 && b == 0 {
    } else {
      XorBound(a / 2, b / 2, n - 1);
    }
  }

  // ---------------------------------------------------------------------
  // Lowest, highest and population count
  // ---------------------------------------------------------------------

  /** The lowest set bit is set and no lower bit is. */
  lemma {:induction false} LowestBits(b: nat, j: nat)
    requires b > 0
    ensures IsSet(b, Lowest(b))
    ensures j < Lowest(b) ==> !IsSet(b, j)
  {
    if b % 2 == 0 {
      LowestBits(b / 2, if j > 0 then j - 1 else 0);
    }
  }

  /** The highest set bit is set and `b` fits in the bits up to it. */
  lemma {:induction false} HighestBits(b: nat)
    requires b > 0
    ensures IsSet(b, Highest(b)) && b < Pow2(Highest(b) + 1)
  {
    if b >= 2 {
      HighestBits(b / 2);
    }
  }

  lemma {:induction false} HighestFits(b: nat, n: nat)
    requires 0 < b < Pow2(n)
    ensures Highest(b) < n
  {
    HighestBits(b);
    if Highest(b) >= n {
      HighClear(b, n, Highest(b));
    }
  }

  lemma {:induction false} LowestBelowHighest(b: nat)
    requires b > 0
    ensures Lowest(b) <= Highest(b)
  {
    if b % 2 == 0 {
      LowestBelowHighest(b / 2);
    }
  }

  /** The bits of `b - 1`: ones below the lowest set bit of `b`, zero there. */
  lemma {:induction false} PredecessorBits(b: nat, j: nat)
    requires b > 0
    ensures IsSet(b - 1, j) == if j < Lowest(b) then true else if j == Lowest(b) then false else IsSet(b, j)
  {
    if b % 2 == 1 {
      Digit(b / 2, 0, j);
      Digit(b / 2, 1, j);
    } else {
      Digit(b / 2 - 1, 1, j);
      Digit(b / 2, 0, j);
      if j > 0 {
        PredecessorBits(b / 2, j - 1);
      }
    }
  }

  /** `b & (b - 1)` clears exactly the lowest set bit. */
  lemma ClearLowestBits(b: nat, j: nat)
    requires b > 0
    ensures IsSet(And(b, b - 1), j) == (IsSet(b, j) && j != Lowest(b))
  {
    AndBits(b, b - 1, j);
    PredecessorBits(b, j);
    LowestBits(b, j);
  }

  lemma {:induction false} AndSelf(a: nat)
    ensures And(a, a) == a
    decreases a
  {
    if a > 0 {
      AndSelf(a / 2);
    }
  }

  lemma {:induction false} PopCountClearLowest(b: nat)
    requires b > 0
    ensures PopCount(And(b, b - 1)) == PopCount(b) - 1
    decreases b
  {
    var q := b / 2;
    if b % 2 == 1 {
      AndSelf(q);
      assert And(b, b - 1) == 2 * And(q, q);
      assert PopCount(2 * q) == PopCount(q);
    } else {
      PopCountClearLowest(q);
      assert And(b, b - 1) == 2 * And(q, q - 1);
      assert PopCount(2 * And(q, q - 1)) == PopCount(And(q, q - 1));
    }
  }

  lemma {:induction false} PopCountZero(b: nat)
    ensures PopCount(b) == 0 <==> b == 0
    decreases b
  {
    if b > 0 {
      PopCountZero(b / 2);
    }
  }

  lemma {:induction false} PopCountPow2(n: nat)
    ensures PopCount(Pow2(n)) == 1
  {
    if n > 0 {
      PopCountPow2(n - 1);
    }
  }

  /** A number with one set bit has that bit only, at its lowest position. */
  lemma SingleBit(b: nat, j: nat)
    requires PopCount(b) == 1
    ensures b > 0 && (IsSet(b, j) <==> j == Lowest(b))
  {
    PopCountZero(b);
    PopCountClearLowest(b);
    PopCountZero(And(b, b - 1));
    ClearLowestBits(b, j);
    ZeroClear(j);
    LowestBits(b, j);
  }

  // ---------------------------------------------------------------------
  // Byte-structured constants
  // ---------------------------------------------------------------------

  lemma {:induction false} OnesBits(n: nat, k: nat)
    ensures IsSet(Pow2(n) - 1, k) == (k < n)
  {
    if n == 0 {
      ZeroClear(k);
    } else {
      Digit(Pow2(n - 1) - 1, 1, k);
      if k > 0 {
        OnesBits(n - 1, k - 1);
      }
    }
  }

  /** Bit `k` of a little-endian byte string is bit `k % 8` of byte `k / 8`. */
  lemma {:induction false} FromBytesBits(bs: seq<nat>, k: nat)
    requires forall i :: 0 <= i < |bs| ==> bs[i] < 256
    ensures IsSet(FromBytes(bs), k) == (k < 8 * |bs| && IsSet(bs[k / 8], k % 8))
  {
    if |bs| == 0 {
      ZeroClear(k);
    } else {
      assert Pow2(8) == 256;
      Split(bs[0], FromBytes(bs[1..]), 8, k);
      if k >= 8 {
        FromBytesBits(bs[1..], k - 8);
        if k < 8 * |bs| {
          assert bs[1..][(k - 8) / 8] == bs[k / 8];
        }
      }
    }
  }
  /** `b << k` is `b * 2^k`. */
  lemma {:induction false} ShlValue(b: nat, k: nat)
    ensures Shl(b, k) == b * Pow2(k)
  {
    if k > 0 {
      ShlValue(b, k - 1);
      assert b * Pow2(k) == 2 * (b * Pow2(k - 1));
    }
  }

  lemma PopCountDigit(b: nat)
    ensures PopCount(b) == b % 2 + PopCount(b / 2)
  {}

  /** The set bits of `x + 2^n * c` are those of `x` and those of `c`. */
  lemma PopCountSplit(x: nat, c: nat, n: nat)
    requires x < Pow2(n)
    ensures PopCount(x + Pow2(n) * c) == PopCount(x) + PopCount(c)
  {
    ShlValue(c, n);
    PopCountShl(x, c, n);
  }

  /** The same, with the high part written as `c << n`. */
  lemma {:induction false} PopCountShl(x: nat, c: nat, n: nat)
    requires x < Pow2(n)
    ensures PopCount(x + Shl(c, n)) == PopCount(x) + PopCount(c)
  {
    if n > 0 {
      var k := Shl(c, n - 1);
      var v := x + Shl(c, n);
      assert v == x + 2 * k;
      HalfOfSum(x, k);
      assert v / 2 == x / 2 + k && v % 2 == x % 2;
      PopCountDigit(v);
      PopCountDigit(x);
      PopCountShl(x / 2, c, n - 1);
      assert PopCount(v) == x % 2 + PopCount(x / 2 + k);
    }
  }

  lemma HalfOfSum(x: nat, k: nat)
    ensures (x + 2 * k) / 2 == x / 2 + k && (x + 2 * k) % 2 == x % 2
  {}

  lemma {:induction false} OnesPopCount(n: nat)
    ensures PopCount(Pow2(n) - 1) == n
  {
    if n > 0 {
      OnesPopCount(n - 1);
      PopCountDigit(Pow2(n) - 1);
    }
  }

  lemma {:induction false} FromBytesBound(bs: seq<nat>)
    requires forall i :: 0 <= i < |bs| ==> bs[i] < 256
    ensures FromBytes(bs) < Pow2(8 * |bs|)
  {
    if |bs| > 0 {
      FromBytesBound(bs[1..]);
      Pow2Sum(8, 8 * (|bs| - 1));
      assert Pow2(8) == 256;
    }
  }

  lemma FromBytesCons(bs: seq<nat>)
    requires |bs| > 0
    ensures FromBytes(bs) == bs[0] + Pow2(8) * FromBytes(bs[1..])
  {
    assert Pow2(8) == 256;
  }

  /** `m` copies of the byte `p`. */
  function Repeat(p: nat, m: nat): (r: seq<nat>)
    ensures |r| == m && forall i :: 0 <= i < m ==> r[i] == p
  {
    if m == 0 then [] else [p] + Repeat(p, m - 1)
  }

  /** `m` equal one-bit bytes hold `m` bits. */
  lemma {:induction false} PopCountRepeat(p: nat, m: nat)
    requires p < 256 && PopCount(p) == 1
    ensures PopCount(FromBytes(Repeat(p, m))) == m
  {
    if m > 0 {
      var bs := Repeat(p, m);
      assert bs[1..] == Repeat(p, m - 1);
      PopCountRepeat(p, m - 1);
      FromBytesCons(bs);
      assert Pow2(8) == 256;
      PopCountSplit(p, FromBytes(bs[1..]), 8);
    }
  }

  lemma {:induction false} SetBitBound(b: nat, k: nat)
    requires IsSet(b, k)
    ensures b >= Pow2(k)
  {
    if k > 0 {
      SetBitBound(b / 2, k - 1);
    }
  }

  /** Subtracting a set bit clears that bit alone. */
  lemma {:induction false} RemoveBit(b: nat, k: nat, j: nat)
    requires IsSet(b, k)
    ensures b >= Pow2(k) && IsSet(b - Pow2(k), j) == (IsSet(b, j) && j != k)
  {
    SetBitBound(b, k);
    var q := b / 2;
    if k == 0 {
      Digit(q, 1, j);
      Digit(q, 0, j);
    } else {
      SetBitBound(q, k - 1);
      var c := q - Pow2(k - 1);
      assert b - Pow2(k) == 2 * c + b % 2;
      Digit(c, b % 2, j);
      Digit(q, b % 2, j);
      if j > 0 {
        RemoveBit(q, k - 1, j - 1);
      }
    }
  }

  lemma {:induction false} RemoveBitCount(b: nat, k: nat)
    requires IsSet(b, k)
    ensures b >= Pow2(k) && PopCount(b - Pow2(k)) == PopCount(b) - 1
  {
    SetBitBound(b, k);
    var q := b / 2;
    PopCountDigit(b);
    PopCountDigit(b - Pow2(k));
    if k > 0 {
      SetBitBound(q, k - 1);
      assert (b - Pow2(k)) / 2 == q - Pow2(k - 1) && (b - Pow2(k)) % 2 == b % 2;
      RemoveBitCount(q, k - 1);
    }
  }
}
