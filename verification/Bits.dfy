/** The bit arithmetic of rseq-utils.h on 64-bit unsigned words. */
module Bits {

  function Pow2(k: nat): (p: nat)
    ensures p >= 1
  {
    if k == 0 then 1 else 2 * Pow2(k - 1)
  }

  const WORD: nat := 0x1_0000_0000_0000_0000  // 2^64

  function BitAnd(x: nat, y: nat): nat
    decreases x
  {
    if x == 0 then 0
    else 2 * BitAnd(x / 2, y / 2) + (if x % 2 == 1 && y % 2 == 1 then 1 else 0)
  }

  function BitOr(x: nat, y: nat): nat
    decreases x + y
  {
    if x == 0 && y == 0 then 0
    else 2 * BitOr(x / 2, y / 2) + (if x % 2 == 1 || y % 2 == 1 then 1 else 0)
  }

  // ~x on 64 bits
  function BitNot(x: nat): nat
    requires x < WORD
  {
    WORD - 1 - x
  }

  lemma {:induction false} PowAdd(a: nat, b: nat)
    ensures Pow2(a + b) == Pow2(a) * Pow2(b)
  {
    if a > 0 {
      PowAdd(a - 1, b);
    }
  }

  lemma {:induction false} PowMono(a: nat, b: nat)
    requires a <= b
    ensures Pow2(a) <= Pow2(b) && (a < b ==> Pow2(a) < Pow2(b))
  {
    if a < b {
      PowMono(a, b - 1);
    }
  }

  lemma PowInjective(a: nat, b: nat)
    requires Pow2(a) == Pow2(b)
    ensures a == b
  {
    if a < b { PowMono(a, b); } else { PowMono(b, a); }
  }

  lemma PowDouble(k: nat, v: nat)
    requires Pow2(k) == v
    ensures Pow2(2 * k) == v * v
  {
    PowAdd(k, k);
  }

  lemma Pow64()
    ensures Pow2(64) == WORD && 2 * Pow2(63) == WORD
  {
    assert Pow2(4) == 16;
    PowDouble(4, 16);
    PowDouble(8, 256);
    PowDouble(16, 65536);
    PowDouble(32, 0x1_0000_0000);
    PowAdd(63, 1);
  }

  /** The low k bits of x, and the rest shifted down. */
  function Low(x: nat, k: nat): (r: nat)
    ensures r < Pow2(k)
  {
    if k == 0 then 0 else 2 * Low(x / 2, k - 1) + x % 2
  }

  function High(x: nat, k: nat): nat {
    if k == 0 then x else High(x / 2, k - 1)
  }

  lemma DoubleFactor(h: int, p: int)
    ensures h * (2 * p) == 2 * (h * p)
  {
  }

  // One more bit below a split.
  lemma SplitStep(x: nat, h: nat, p: nat, l: nat)
    requires x / 2 == h * p + l
    ensures x == h * (2 * p) + (2 * l + x % 2)
  {
    DoubleFactor(h, p);
    assert x == 2 * (x / 2) + x % 2;
  }

  lemma {:induction false} Split(x: nat, k: nat)
    ensures x == High(x, k) * Pow2(k) + Low(x, k)
  {
    if k > 0 {
      Split(x / 2, k - 1);
      SplitStep(x, High(x / 2, k - 1), Pow2(k - 1), Low(x / 2, k - 1));
    }
  }

  /** Splitting into high and low bits is division with remainder by 2^k. */
  lemma SplitUnique(x: nat, k: nat, q: int, r: int)
    requires x == q * Pow2(k) + r && 0 <= r < Pow2(k)
    ensures High(x, k) == q && Low(x, k) == r
  {
    Split(x, k);
    QuotientUnique(Pow2(k), q, r, High(x, k), Low(x, k));
  }

  lemma QuotientUnique(d: int, q: int, r: int, q': int, r': int)
    requires d > 0 && q * d + r == q' * d + r' && 0 <= r < d && 0 <= r' < d
    ensures q == q' && r == r'
  {
    assert (q - q') * d == r' - r && (q' - q) * d == r - r';
    if q > q' { MulAtLeast(q - q', d); }
    if q < q' { MulAtLeast(q' - q, d); }
  }

  lemma LowIsMod(x: nat, k: nat)
    ensures Low(x, k) == x % Pow2(k) && High(x, k) == x / Pow2(k)
  {
    Split(x, k);
    DivModUnique(x, Pow2(k), High(x, k), Low(x, k));
  }

  lemma DivModUnique(x: int, d: int, q: int, r: int)
    requires d > 0 && x == q * d + r && 0 <= r < d
    ensures x / d == q && x % d == r
  {
    QuotientUnique(d, q, r, x / d, x % d);
  }

  lemma MulAtLeast(a: int, d: int)
    requires a >= 1 && d > 0
    ensures a * d >= d
  {
    assert a * d == (a - 1) * d + d;
  }

  // Masking with an even or an odd mask, one bit at a time.
  lemma AndEven(x: nat, m: nat)
    ensures BitAnd(x, 2 * m) == 2 * BitAnd(x / 2, m)
  {
    assert (2 * m) / 2 == m && (2 * m) % 2 == 0;
  }

  lemma AndOdd(x: nat, m: nat)
    ensures BitAnd(x, 2 * m + 1) == 2 * BitAnd(x / 2, m) + x % 2
  {
    assert (2 * m + 1) / 2 == m && (2 * m + 1) % 2 == 1;
  }

  /** Masking with 2^k - 1 keeps the low k bits. */
  lemma {:induction false} MaskLow(x: nat, k: nat)
    ensures BitAnd(x, Pow2(k) - 1) == Low(x, k)
    decreases k
  {
    if k == 0 {
      AndZero(x);
    } else {
      AndOdd(x, Pow2(k - 1) - 1);
      MaskLow(x / 2, k - 1);
    }
  }

  lemma {:induction false} AndZero(x: nat)
    ensures BitAnd(x, 0) == 0
    decreases x
  {
    if x > 0 {
      AndZero(x / 2);
    }
  }

  lemma LowOfSmall(x: nat, k: nat)
    requires x < Pow2(k)
    ensures Low(x, k) == x
  {
    SplitUnique(x, k, 0, x);
  }

  /** Masking a w-bit word with ~(2^k - 1) clears its low k bits. */
  lemma {:induction false} MaskHigh(x: nat, k: nat, w: nat)
    requires k <= w && x < Pow2(w)
    ensures Pow2(k) <= Pow2(w) && BitAnd(x, Pow2(w) - Pow2(k)) == x - Low(x, k)
    decreases k
  {
    hide BitAnd, Low;
    PowMono(k, w);
    if k == 0 {
      MaskLow(x, w);
      LowOfSmall(x, w);
    } else {
      MaskHigh(x / 2, k - 1, w - 1);
      MaskHighStep(x, k, w);
    }
  }

  lemma MaskHighStep(x: nat, k: nat, w: nat)
    requires 0 < k <= w && Pow2(k - 1) <= Pow2(w - 1)
    requires BitAnd(x / 2, Pow2(w - 1) - Pow2(k - 1)) == x / 2 - Low(x / 2, k - 1)
    ensures BitAnd(x, Pow2(w) - Pow2(k)) == x - Low(x, k)
  {
    ClearStep(x, Pow2(w - 1) - Pow2(k - 1), Low(x / 2, k - 1));
    assert Pow2(w) - Pow2(k) == 2 * (Pow2(w - 1) - Pow2(k - 1));
  }

  lemma ClearStep(x: nat, m: nat, l: nat)
    requires BitAnd(x / 2, m) == x / 2 - l
    ensures BitAnd(x, 2 * m) == x - (2 * l + x % 2)
  {
    AndEven(x, m);
    assert x == 2 * (x / 2) + x % 2;
  }

  // ---------------------------------------------------------------- is_pow2

  // !(x & (x - 1)), with the wrap-around of 0 - 1
  predicate IsPow2(x: nat) {
    BitAnd(x, (x - 1) % WORD) == 0
  }

  lemma {:induction false} AndSelf(x: nat)
    ensures BitAnd(x, x) == x
    decreases x
  {
    if x > 0 {
      AndSelf(x / 2);
    }
  }

  lemma {:induction false} PowPred(k: nat)
    ensures BitAnd(Pow2(k), Pow2(k) - 1) == 0
  {
    MaskLow(Pow2(k), k);
    SplitUnique(Pow2(k), k, 1, 0);
  }

  // Clearing the lowest set bit leaves nothing only of a power of two.
  lemma {:induction false} OnlyPow(x: nat) returns (k: nat)
    requires x > 0 && BitAnd(x, x - 1) == 0
    ensures x == Pow2(k)
    decreases x
  {
    var h := x / 2;
    if x % 2 == 1 {
      AndEven(x, h);
      AndSelf(h);
      k := 0;
    } else {
      AndOdd(x, h - 1);
      k := OnlyPow(h);
      k := k + 1;
    }
  }

  /** is_pow2 holds of the powers of two, and of zero. */
  lemma IsPow2Exact(x: nat)
    requires x < WORD
    ensures IsPow2(x) <==> x == 0 || exists k: nat :: x == Pow2(k)
  {
    if x > 0 {
      SmallWord(x - 1);
      if IsPow2(x) { var k := OnlyPow(x); }
      if k: nat :| x == Pow2(k) { PowPred(k); }
    }
  }

  // ---------------------------------------------------------------- find last set

  /** Position of the highest set bit, counted from 1. */
  function BitLen(x: nat): (r: nat)
    ensures r == 0 <==> x == 0
  {
    if x == 0 then 0 else 1 + BitLen(x / 2)
  }

  lemma {:induction false} BitLenBounds(x: nat)
    requires x > 0
    ensures Pow2(BitLen(x) - 1) <= x < Pow2(BitLen(x))
    decreases x
  {
    if x > 1 {
      BitLenBounds(x / 2);
      var b := BitLen(x / 2);
      assert Pow2(b - 1) <= x / 2 < Pow2(b) && BitLen(x) == b + 1;
    }
  }

  lemma BitLenUnique(x: nat, r: nat)
    requires x > 0 && r > 0 && Pow2(r - 1) <= x < Pow2(r)
    ensures BitLen(x) == r
  {
    BitLenBounds(x);
    var b := BitLen(x);
    if b < r { PowMono(b, r - 1); }
    if r < b { PowMono(r, b - 1); }
  }

  /** What one stage of the binary search keeps: the word of w bits is the argument
      shifted left by w - r, and its top n bits are not all zero. */
  ghost predicate Stage(x0: nat, x: nat, r: nat, n: nat, w: nat) {
    0 < r <= w && n <= w && x == x0 * Pow2(w - r) && Pow2(w - n) <= x < Pow2(w)
  }

  // The test of a stage: the top n bits are zero.
  lemma StageTest(x: nat, n: nat, w: nat)
    requires 0 < n <= w && x < Pow2(w)
    ensures Pow2(w - n) <= Pow2(w) && (BitAnd(x, Pow2(w) - Pow2(w - n)) == 0 <==> x < Pow2(w - n))
  {
    MaskHigh(x, w - n, w);
    if x < Pow2(w - n) { LowOfSmall(x, w - n); }
  }

  // The shift of a stage loses no bit.
  lemma StageShift(x0: nat, x: nat, r: nat, n: nat, w: nat)
    requires Stage(x0, x, r, 2 * n, w) && n > 0 && x0 > 0 && x < Pow2(w - n)
    ensures r > n && Stage(x0, x * Pow2(n), r - n, n, w)
  {
    StageProgress(x0, x, r, n, w);
    StageBounds(x, n, w);
    PowAdd(w - r, n);
    MulAssoc(x0, Pow2(w - r), Pow2(n));
  }

  lemma StageProgress(x0: nat, x: nat, r: nat, n: nat, w: nat)
    requires 0 < r <= w && 0 < n <= w && x0 > 0 && x == x0 * Pow2(w - r) && x < Pow2(w - n)
    ensures r > n
  {
    MulMono(1, x0, Pow2(w - r));
    if r <= n { PowMono(w - n, w - r); }
  }

  lemma StageBounds(x: nat, n: nat, w: nat)
    requires 0 < n && 2 * n <= w && Pow2(w - 2 * n) <= x < Pow2(w - n)
    ensures Pow2(w - n) <= x * Pow2(n) < Pow2(w)
  {
    PowAdd(w - n, n);
    PowAdd(w - 2 * n, n);
    ShiftBound(x, Pow2(w - n), Pow2(w - 2 * n), Pow2(n));
  }

  lemma ShiftBound(x: nat, hi: nat, lo: nat, k: nat)
    requires lo <= x < hi
    ensures lo * k <= x * k && (k > 0 ==> x * k < hi * k)
  {
    MulMono(lo, x, k);
    if k > 0 { MulMono(x + 1, hi, k); }
  }

  lemma MulMono(a: nat, b: nat, k: nat)
    requires a <= b
    ensures a * k <= b * k
  {
    assert b * k == a * k + (b - a) * k;
  }

  lemma MulAssoc(a: nat, b: nat, c: nat)
    ensures (a * b) * c == a * (b * c)
  {
  }

  lemma StageStep(x0: nat, x: nat, r: nat, n: nat)
    requires x0 > 0 && 0 < n <= 32 && Stage(x0, x, r, 2 * n, 64)
    ensures Pow2(64 - n) <= WORD
    ensures BitAnd(x, WORD - Pow2(64 - n)) != 0 ==> Stage(x0, x, r, n, 64)
    ensures BitAnd(x, WORD - Pow2(64 - n)) == 0 ==> r > n && Stage(x0, (x * Pow2(n)) % WORD, r - n, n, 64)
  {
    hide BitAnd, Pow2;
    Pow64();
    StageTest(x, n, 64);
    if x < Pow2(64 - n) {
      StageShift(x0, x, r, n, 64);
      SmallWord(x * Pow2(n));
    }
  }

  lemma SmallWord(y: nat)
    requires y < WORD
    ensures y % WORD == y
  {
  }

  // One stage: if the top n bits are zero, shift them out.
  method FlsStage(ghost arg: nat, x: nat, r: nat, n: nat) returns (x': nat, r': nat)
    requires arg > 0 && 0 < n <= 32 && Stage(arg, x, r, 2 * n, 64)
    ensures Stage(arg, x', r', n, 64)
  {
    x', r' := x, r;
    StageStep(arg, x, r, n);
    if BitAnd(x, WORD - Pow2(64 - n)) == 0 {
      x', r' := (x * Pow2(n)) % WORD, r - n;
    }
  }

  /** rseq_fls_u64: a binary search of six stages. */
  method Fls64(arg: nat) returns (r: nat)
    requires arg < WORD
    ensures r == BitLen(arg) <= 64
  {
    if arg == 0 { return 0; }
    Pow64();
    var x := arg;
    r := 64;
    x, r := FlsStage(arg, x, r, 32);
    x, r := FlsStage(arg, x, r, 16);
    x, r := FlsStage(arg, x, r, 8);
    x, r := FlsStage(arg, x, r, 4);
    x, r := FlsStage(arg, x, r, 2);
    x, r := FlsStage(arg, x, r, 1);
    FinalStage(arg, x, r, 64);
  }

  lemma FinalStage(x0: nat, x: nat, r: nat, w: nat)
    requires Stage(x0, x, r, 1, w) && x0 > 0
    ensures r == BitLen(x0)
  {
    var k := Pow2(w - r);
    PowAdd(r - 1, w - r);
    PowAdd(r, w - r);
    if x0 < Pow2(r - 1) { ShiftBound(x0, Pow2(r - 1), 0, k); }
    if x0 >= Pow2(r) { MulMono(Pow2(r), x0, k); }
    BitLenUnique(x0, r);
  }

  // ---------------------------------------------------------------- count order

  /** rseq_get_count_order_ulong: -1 for 0. */
  function CountOrder(x: nat): int {
    if x == 0 then -1 else BitLen(x - 1)
  }

  /** The count order is the least order whose power of two is at least x. */
  lemma CountOrderLeast(x: nat, k: nat)
    requires x > 0
    ensures CountOrder(x) <= k <==> x <= Pow2(k)
  {
    var o := BitLen(x - 1);
    if x > 1 { BitLenBounds(x - 1); }
    if o <= k { PowMono(o, k); } else { PowMono(k, o - 1); }
  }

  /** For 64-bit x it is at most 64, and 64 exactly above 2^63, where 1 << order overflows. */
  lemma CountOrderRange(x: nat)
    requires 0 < x < WORD
    ensures 0 <= CountOrder(x) <= 64 && (CountOrder(x) == 64 <==> x > Pow2(63))
  {
    Pow64();
    CountOrderLeast(x, 64);
    CountOrderLeast(x, 63);
  }

  lemma CountOrderPow2(k: nat)
    ensures CountOrder(Pow2(k)) == k
  {
    CountOrderLeast(Pow2(k), k);
    if k > 0 {
      CountOrderLeast(Pow2(k), k - 1);
    }
  }

  // ---------------------------------------------------------------- offset_align

  // (alignment - p) & (alignment - 1) in unsigned 64-bit arithmetic
  function OffsetAlign(p: nat, alignment: nat): nat
    requires alignment > 0
  {
    BitAnd((alignment - p) % WORD, alignment - 1)
  }

  // p is a multiple of 2^k.
  predicate Aligned(p: nat, k: nat) {
    Low(p, k) == 0
  }

  // Adding the low bits of (2^k - p) mod 2^64 to p gives a multiple of 2^k.
  lemma AlignUp(p: nat, k: nat) returns (m: int)
    requires k <= 64
    ensures p + Low((Pow2(k) - p) % WORD, k) == m * Pow2(k)
  {
    Pow64();
    PowAdd(k, 64 - k);
    var (a, n) := (Pow2(k), Pow2(64 - k));
    var d := (a - p) % WORD;
    var (z, q) := ((a - p) / WORD, High(d, k));
    Split(d, k);
    m := 1 - z * n - q;
    assert z * WORD == (z * n) * a by { MulAssocInt(z, n, a); }
    assert m * a == a - (z * n) * a - q * a by { Distribute(z * n, q, a); }
  }

  lemma MulAssocInt(z: int, n: int, a: int)
    ensures z * (a * n) == (z * n) * a
  {
  }

  lemma Distribute(x: int, y: int, a: int)
    ensures (1 - x - y) * a == a - x * a - y * a
  {
  }

  /** offset_align is the least amount to add to p to reach a multiple of 2^k. */
  lemma OffsetAlignLeast(p: nat, k: nat)
    requires k <= 64
    ensures var r := OffsetAlign(p, Pow2(k));
            r < Pow2(k) && Aligned(p + r, k) && forall x: nat :: p <= x < p + r ==> !Aligned(x, k)
  {
    hide Pow2, BitAnd, Low, OffsetAlign;
    var m := AlignUp(p, k);
    OffsetAlignIsLow(p, k);
    FirstMultiple(p, k, OffsetAlign(p, Pow2(k)), m);
  }

  lemma OffsetAlignIsLow(p: nat, k: nat)
    ensures OffsetAlign(p, Pow2(k)) == Low((Pow2(k) - p) % WORD, k)
  {
    MaskLow((Pow2(k) - p) % WORD, k);
  }

  lemma FirstMultiple(p: nat, k: nat, r: nat, m: int)
    requires r < Pow2(k) && p + r == m * Pow2(k)
    ensures Aligned(p + r, k) && forall x: nat :: p <= x < p + r ==> !Aligned(x, k)
  {
    var a := Pow2(k);
    SplitUnique(p + r, k, m, 0);
    forall x: nat | p <= x < p + r ensures !Aligned(x, k) {
      assert (m - 1) * a == m * a - a;
      SplitUnique(x, k, m - 1, a - (p + r - x));
    }
  }
}
