/** The 32-bit words of the GPU: an unsigned word is an integer in [0, 2^32), and the bitwise
    instructions are defined bit by bit. */
module Words {

  const TWO32 := 0x1_0000_0000
  const TWO64 := 0x1_0000_0000_0000_0000

  type Word = x: int | 0 <= x < 0x1_0000_0000

  /** The 32-bit two's complement pattern of an integer. */
  function ToWord(i: int): Word {
    i % TWO32
  }

  function Pow2(k: nat): (p: nat)
    ensures p >= 1
  {
    if k == 0 then 1 else 2 * Pow2(k - 1)
  }

  /** Bit k of w. */
  predicate Bit(w: nat, k: nat)
    decreases k
  {
    if k == 0 then w % 2 == 1 else Bit(w / 2, k - 1)
  }

  /** The number whose bit k is p[k]. */
  function FromBits(p: seq<bool>): (w: nat)
    ensures w < Pow2(|p|)
  {
    if p == [] then 0 else (if p[0] then 1 else 0) + 2 * FromBits(p[1..])
  }

  lemma {:induction false} FromBitsBit(p: seq<bool>, k: nat)
    ensures Bit(FromBits(p), k) == (k < |p| && p[k])
    decreases k, |p|
  {
    if p == [] {
      ZeroBit(k);
    } else if k > 0 {
      FromBitsBit(p[1..], k - 1);
      assert FromBits(p) / 2 == FromBits(p[1..]);
    }
  }

  lemma {:induction false} ZeroBit(k: nat)
    ensures !Bit(0, k)
  {
    if k > 0 { ZeroBit(k - 1); }
  }

  /** Two numbers below 2^n with the same n bits are equal. */
  lemma {:induction false} SameBits(a: nat, b: nat, n: nat)
    requires a < Pow2(n) && b < Pow2(n)
    requires forall k: nat :: k < n ==> Bit(a, k) == Bit(b, k)
    ensures a == b
  {
    if n > 0 {
      assert Bit(a, 0) == Bit(b, 0);
      forall k: nat | k < n - 1 ensures Bit(a / 2, k) == Bit(b / 2, k) {
        assert Bit(a, k + 1) == Bit(b, k + 1);
      }
      SameBits(a / 2, b / 2, n - 1);
    }
  }

  lemma Pow2Of32()
    ensures Pow2(32) == TWO32
  {
    assert Pow2(8) == 256;
    Pow2Add(8, 8);
    Pow2Add(16, 16);
  }

  lemma Pow2Of29()
    ensures Pow2(29) == 0x2000_0000
  {
    assert Pow2(9) == 512;
    Pow2Add(10, 10);
    Pow2Add(20, 9);
  }

  lemma {:induction false} Pow2Add(a: nat, b: nat)
    ensures Pow2(a + b) == Pow2(a) * Pow2(b)
  {
    if a > 0 { Pow2Add(a - 1, b); }
  }

  lemma {:induction false} Pow2Mono(a: nat, b: nat)
    requires a <= b
    ensures Pow2(a) <= Pow2(b)
  {
    if a < b { Pow2Mono(a, b - 1); }
  }

  /** The word whose 32 bits are p. */
  function WordOf(p: seq<bool>): Word
    requires |p| == 32
  {
    Pow2Of32();
    FromBits(p)
  }

  function And(a: Word, b: Word): Word {
    WordOf(seq(32, (k: nat) => Bit(a, k) && Bit(b, k)))
  }

  function Or(a: Word, b: Word): Word {
    WordOf(seq(32, (k: nat) => Bit(a, k) || Bit(b, k)))
  }

  function Xor(a: Word, b: Word): Word {
    WordOf(seq(32, (k: nat) => Bit(a, k) != Bit(b, k)))
  }

  /** w with bit `at` (taken modulo 32, as the hardware does) replaced by v. */
  function WithBit(w: Word, at: Word, v: bool): Word {
    WordOf(seq(32, (k: nat) => if k == at % 32 then v else Bit(w, k)))
  }

  /** Shifts use the low five bits of the amount. */
  function Shl(w: Word, amt: Word): Word {
    (w * Pow2(amt % 32)) % TWO32
  }

  function Shr(w: Word, amt: Word): Word {
    Halve(w, amt % 32)
  }

  /** w without its k lowest bits. */
  function Halve(w: nat, k: nat): (h: nat)
    ensures h <= w
    decreases k
  {
    if k == 0 then w else Halve(w / 2, k - 1)
  }

  lemma AndBit(a: Word, b: Word, k: nat)
    requires k < 32
    ensures Bit(And(a, b), k) == (Bit(a, k) && Bit(b, k))
  {
    FromBitsBit(seq(32, (i: nat) => Bit(a, i) && Bit(b, i)), k);
  }

  lemma OrBit(a: Word, b: Word, k: nat)
    requires k < 32
    ensures Bit(Or(a, b), k) == (Bit(a, k) || Bit(b, k))
  {
    FromBitsBit(seq(32, (i: nat) => Bit(a, i) || Bit(b, i)), k);
  }

  lemma XorBit(a: Word, b: Word, k: nat)
    requires k < 32
    ensures Bit(Xor(a, b), k) == (Bit(a, k) != Bit(b, k))
  {
    FromBitsBit(seq(32, (i: nat) => Bit(a, i) != Bit(b, i)), k);
  }

  lemma WithBitBit(w: Word, at: Word, v: bool, k: nat)
    requires k < 32
    ensures Bit(WithBit(w, at, v), k) == if k == at % 32 then v else Bit(w, k)
  {
    FromBitsBit(seq(32, (i: nat) => if i == at % 32 then v else Bit(w, i)), k);
  }

  lemma {:induction false} Pow2Bit(n: nat, k: nat)
    ensures Bit(Pow2(n), k) == (k == n)
    decreases k
  {
    if k == 0 {
      assert n > 0 ==> Pow2(n) == 2 * Pow2(n - 1);
    } else if n == 0 {
      ZeroBit(k - 1);
      assert Pow2(n) / 2 == 0;
    } else {
      Pow2Bit(n - 1, k - 1);
      assert Pow2(n) / 2 == Pow2(n - 1);
    }
  }

  /** The flag word of an index: a single bit, at the index modulo 32. */
  lemma OneShlBit(amt: Word, k: nat)
    requires k < 32
    ensures Bit(Shl(1, amt), k) == (k == amt % 32)
  {
    Pow2Mono(amt % 32, 31);
    assert 2 * Pow2(31) == Pow2(32);
    Pow2Of32();
    assert Shl(1, amt) == Pow2(amt % 32);
    Pow2Bit(amt % 32, k);
  }

  lemma WordIsZero(w: Word)
    ensures w != 0 ==> exists k: nat :: k < 32 && Bit(w, k)
  {
    Pow2Of32();
    forall k: nat ensures !Bit(0, k) { ZeroBit(k); }
    if forall k: nat :: k < 32 ==> !Bit(w, k) {
      SameBits(w, 0, 32);
    }
  }

  /** An add and an add-with-carry on the two halves make one 64-bit addition. */
  lemma AddWithCarry(lo: Word, hi: Word, x: Word)
    ensures var c := if lo + x >= TWO32 then 1 else 0;
      (lo + x) % TWO32 + TWO32 * ((hi + c) % TWO32) == (lo + TWO32 * hi + x) % TWO64
  {
    var c := if lo + x >= TWO32 then 1 else 0;
    assert (lo + x) % TWO32 == lo + x - TWO32 * c;
    var d := if hi + c >= TWO32 then 1 else 0;
    assert (hi + c) % TWO32 == hi + c - TWO32 * d;
    assert lo + TWO32 * hi + x == (lo + x - TWO32 * c) + TWO32 * (hi + c - TWO32 * d) + TWO64 * d;
  }

  function Times(a: nat, b: nat): nat {
    a * b
  }

  lemma {:induction false} TimesOrder(n: nat, p: nat, q: nat)
    requires p < q
    ensures Times(n, p) + n <= Times(n, q)
  {
    MulOrder(n, p, q);
  }

  lemma DivParts(k: nat, n: nat)
    requires n > 0
    ensures k == Times(n, k / n) + k % n && k % n < n
  {
  }

  /** A shift by less than 32 is a multiplication modulo 2^32. */
  lemma {:induction false} ShlIs(x: Word, k: Word)
    requires k < 32
    ensures Shl(x, k) == Times(x, Pow2(k)) % TWO32
  {
    hide Pow2;
    assert k % 32 == k;
  }

  lemma ShlBy2(x: Word)
    requires x < 0x4000_0000
    ensures Shl(x, 2) == 4 * x
  {
    assert Pow2(2) == 4;
  }

  /** 64-bit address arithmetic: a sum modulo 2^64, one reduction at a time. */
  lemma ModSum(a: nat, x: nat)
    requires x < TWO64
    ensures (a + x) % TWO64 == if a % TWO64 + x < TWO64 then a % TWO64 + x else a % TWO64 + x - TWO64
    ensures (a % TWO64 + x) % TWO64 == (a + x) % TWO64
    ensures x != 0 ==> (a + x) % TWO64 != a % TWO64
  {
    var q, r := a / TWO64, a % TWO64;
    assert a == TWO64 * q + r;
    if r + x < TWO64 {
      ModIs(a + x, q, r + x);
      ModIs(r + x, 0, r + x);
    } else {
      ModIs(a + x, q + 1, r + x - TWO64);
      ModIs(r + x, 1, r + x - TWO64);
    }
  }

  lemma ModIs(a: nat, q: nat, r: nat)
    requires a == TWO64 * q + r && r < TWO64
    ensures a % TWO64 == r && a / TWO64 == q
  {
  }

  /** Halvings until at most 1 is left: the writer's log2. */
  function Log2Of(value: int): nat {
    if value > 1 then 1 + Log2Of(value / 2) else 0
  }

  /** It is the exponent of the largest power of two not above the value, so exact on powers of two. */
  lemma {:induction false} Log2Bounds(value: int)
    requires value >= 1
    ensures Pow2(Log2Of(value)) <= value < 2 * Pow2(Log2Of(value))
  {
    if value > 1 { Log2Bounds(value / 2); }
  }

  lemma {:induction false} Log2OfPow2(k: nat)
    ensures Log2Of(Pow2(k)) == k
  {
    if k > 0 {
      assert Pow2(k) / 2 == Pow2(k - 1);
      Log2OfPow2(k - 1);
    }
  }

  lemma {:induction false} HalvePow2(w: nat, k: nat)
    ensures Halve(w, k) == w / Pow2(k)
  {
    if k > 0 {
      HalvePow2(w / 2, k - 1);
      DivDiv(w, Pow2(k - 1));
    }
  }

  lemma {:induction false} DivDiv(w: nat, p: nat)
    requires p > 0
    ensures w / 2 / p == w / (2 * p)
  {
    var q := w / 2 / p;
    var r := w / 2 % p;
    assert w / 2 == q * p + r;
    assert w == (2 * p) * q + (2 * r + w % 2);
    DivIs(w, 2 * p, q, 2 * r + w % 2);
  }

  lemma {:induction false} DivIs(a: nat, d: nat, q: nat, r: nat)
    requires d > 0 && r < d && a == d * q + r
    ensures a / d == q && a % d == r
  {
    var p := a / d;
    if p < q { MulOrder(d, p, q); }
    if q < p { MulOrder(d, q, p); }
  }

  lemma {:induction false} MulOrder(d: nat, p: nat, q: nat)
    requires p < q
    ensures d * p + d <= d * q
  {
    if p + 1 < q {
      MulOrder(d, p, q - 1);
      assert d * q == d * (q - 1) + d;
    }
  }

  lemma {:induction false} HalveBit(a: nat, n: nat, k: nat)
    ensures Bit(Halve(a, n), k) == Bit(a, n + k)
  {
    if n > 0 { HalveBit(a / 2, n - 1, k); }
  }

  lemma {:induction false} LowBits(h: nat, width: nat, k: nat)
    ensures Bit(h % Pow2(width), k) == (k < width && Bit(h, k))
    decreases k
  {
    if width == 0 {
      ZeroBit(k);
    } else {
      var p := Pow2(width - 1);
      assert Pow2(width) == 2 * p;
      hide Pow2;
      ModHalf(h, p);
      var x := h / 2 % p;
      assert h % (2 * p) == 2 * x + h % 2;
      BitOfDouble(x, h % 2, k);
      if k > 0 { LowBits(h / 2, width - 1, k - 1); }
    }
  }

  lemma BitOfDouble(x: nat, b: nat, k: nat)
    requires b < 2
    ensures Bit(2 * x + b, k) == if k == 0 then b == 1 else Bit(x, k - 1)
  {
  }

  lemma {:induction false} ModHalf(h: nat, p: nat)
    requires p > 0
    ensures h % (2 * p) == 2 * (h / 2 % p) + h % 2
  {
    var q, r := h / 2 / p, h / 2 % p;
    assert h / 2 == p * q + r;
    assert h == 2 * p * q + (2 * r + h % 2);
    DivIs(h, 2 * p, q, 2 * r + h % 2);
  }

  lemma {:induction false} ShiftedBit(x: nat, n: nat, k: nat)
    ensures Bit(x * Pow2(n), k) == (k >= n && Bit(x, k - n))
    decreases n
  {
    if n > 0 {
      assert x * Pow2(n) == 2 * (x * Pow2(n - 1));
      BitOfDouble(x * Pow2(n - 1), 0, k);
      if k > 0 { ShiftedBit(x, n - 1, k - 1); }
    }
  }

  lemma {:induction false} ShlBit(x: Word, n: Word, k: nat)
    requires n < 32 && k < 32
    ensures Bit(Shl(x, n), k) == (k >= n && Bit(x, k - n))
  {
    ShlIs(x, n);
    ShiftedBit(x, n, k);
    LowBits(Times(x, Pow2(n)), 32, k);
    Pow2Of32();
  }

  lemma ShrBit(x: Word, n: Word, k: nat)
    requires n < 32
    ensures Bit(Shr(x, n), k) == Bit(x, n + k)
  {
    hide Bit, Halve;
    HalveBit(x, n, k);
  }

  /** The bits of 2^n - 1. */
  lemma {:induction false} OnesBit(n: nat, k: nat)
    ensures Bit(Pow2(n) - 1, k) == (k < n)
    decreases n
  {
    if n == 0 {
      ZeroBit(k);
    } else {
      assert Pow2(n) - 1 == 2 * (Pow2(n - 1) - 1) + 1;
      BitOfDouble(Pow2(n - 1) - 1, 1, k);
      if k > 0 { OnesBit(n - 1, k - 1); }
    }
  }
}
