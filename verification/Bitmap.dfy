/** The allocation bitmap: 64-bit words, one bit per item of a range. */
module Bitmap {
  import opened Bits

  const PER_WORD := 64

  ghost predicate Bit(x: nat, i: nat) { High(x, i) % 2 == 1 }

  function Popcount(x: nat): nat { if x == 0 then 0 else x % 2 + Popcount(x / 2) }

  // One more level of a word's bits.
  lemma BitStep(x: nat, i: nat)
    requires i > 0
    ensures Bit(x, i) == Bit(x / 2, i - 1)
  {
  }

  /** Testing a word against 1 << i reads bit i. */
  lemma {:induction false} TestMask(x: nat, i: nat)
    ensures BitAnd(x, Pow2(i)) == (if Bit(x, i) then Pow2(i) else 0)
    decreases i
  {
    if i == 0 {
      AndOdd(x, 0);
      AndZero(x / 2);
    } else {
      TestMask(x / 2, i - 1);
      AndEven(x, Pow2(i - 1));
      BitStep(x, i);
    }
  }

  lemma OrEven(x: nat, m: nat)
    ensures BitOr(x, 2 * m) == 2 * BitOr(x / 2, m) + x % 2
  {
    assert (2 * m) / 2 == m && (2 * m) % 2 == 0;
  }

  lemma {:induction false} OrZero(x: nat)
    ensures BitOr(x, 0) == x
    decreases x
  {
    if x > 0 { OrZero(x / 2); }
  }

  /** Or-ing 1 << i into a word whose bit i is clear sets bit i alone. */
  lemma {:induction false} SetMask(x: nat, i: nat)
    requires !Bit(x, i)
    ensures BitOr(x, Pow2(i)) == x + Pow2(i)
    ensures Popcount(x + Pow2(i)) == Popcount(x) + 1
    decreases i
  {
    if i == 0 {
      OrZero(x / 2);
      assert BitOr(x, 1) == 2 * BitOr(x / 2, 0) + 1;
      assert (x + 1) / 2 == x / 2;
    } else {
      BitStep(x, i);
      SetMask(x / 2, i - 1);
      OrEven(x, Pow2(i - 1));
      assert (x + Pow2(i)) / 2 == x / 2 + Pow2(i - 1) && (x + Pow2(i)) % 2 == x % 2;
    }
  }

  /** Adding 2^i to a word whose bit i is clear changes no other bit. */
  lemma {:induction false} SetBitOnly(x: nat, i: nat, j: nat)
    requires !Bit(x, i)
    ensures Bit(x + Pow2(i), j) <==> j == i || Bit(x, j)
    decreases i
  {
    if i == 0 {
      if j > 0 {
        assert (x + 1) / 2 == x / 2;
        BitStep(x, j);
        BitStep(x + 1, j);
      }
    } else {
      BitStep(x, i);
      var y := x + Pow2(i);
      assert y / 2 == x / 2 + Pow2(i - 1) && y % 2 == x % 2;
      if j > 0 {
        BitStep(x, j);
        BitStep(y, j);
        SetBitOnly(x / 2, i - 1, j - 1);
      }
    }
  }

  lemma ClearMaskLast(x: nat, w: nat)
    requires w > 0 && x < Pow2(w) && x % 2 == 0
    ensures BitAnd(x + 1, Pow2(w) - 2) == x
  {
    hide BitAnd, Low;
    var m := Pow2(w - 1) - 1;
    AndEven(x + 1, m);
    assert (x + 1) / 2 == x / 2;
    MaskLow(x / 2, w - 1);
    LowOfSmall(x / 2, w - 1);
  }

  lemma Halve(x: nat, p: nat)
    ensures (x + 2 * p) / 2 == x / 2 + p && (x + 2 * p) % 2 == x % 2 && x == 2 * (x / 2) + x % 2
  {
  }

  lemma ClearMaskStep(x: nat, y: nat, p: nat, m: nat)
    requires y == x + 2 * p && BitAnd(x / 2 + p, m) == x / 2
    ensures BitAnd(y, 2 * m + 1) == x
  {
    Halve(x, p);
    AndOdd(y, m);
  }

  /** And-ing a w-bit word with ~(1 << i) clears bit i: it undoes setting it. */
  lemma {:induction false} ClearMask(x: nat, i: nat, w: nat)
    requires i < w && x + Pow2(i) < Pow2(w) && !Bit(x, i)
    ensures Pow2(i) < Pow2(w) && BitAnd(x + Pow2(i), Pow2(w) - 1 - Pow2(i)) == x
    decreases w
  {
    hide BitAnd;
    PowMono(i, w);
    if i == 0 {
      ClearMaskLast(x, w);
    } else {
      PowMono(i - 1, w - 1);
      BitStep(x, i);
      ClearMask(x / 2, i - 1, w - 1);
      ClearMaskStep(x, x + Pow2(i), Pow2(i - 1), Pow2(w - 1) - 1 - Pow2(i - 1));
    }
  }

  // A set bit can be taken out, leaving a word where it is clear.
  lemma {:induction false} WithoutBit(x: nat, i: nat)
    requires Bit(x, i)
    ensures Pow2(i) <= x && !Bit(x - Pow2(i), i)
    decreases i
  {
    if i > 0 {
      BitStep(x, i);
      WithoutBit(x / 2, i - 1);
      BitStep(x - Pow2(i), i);
      assert (x - Pow2(i)) / 2 == x / 2 - Pow2(i - 1);
    }
  }

  /** A word without set bits is zero, and weighs nothing. */
  lemma {:induction false} NoBits(x: nat, w: nat)
    requires x < Pow2(w)
    ensures Popcount(x) == 0 <==> x == 0
    ensures x != 0 ==> exists i: nat :: i < w && Bit(x, i)
    decreases x
  {
    if x > 0 {
      NoBits(x / 2, w - 1);
      if x % 2 == 1 {
        assert Bit(x, 0);
      } else {
        var i: nat :| i < w - 1 && Bit(x / 2, i);
        BitStep(x, i + 1);
        assert Bit(x, i + 1);
      }
    }
  }

  // ---- Bitmaps of n bits -------------------------------------------------------

  function Words(n: nat): nat { (n + PER_WORD - 1) / PER_WORD }

  ghost predicate IsSet(bitmap: seq<nat>, i: nat)
    requires i / PER_WORD < |bitmap|
  {
    Bit(bitmap[i / PER_WORD], i % PER_WORD)
  }

  function Weight(bitmap: seq<nat>): nat {
    if bitmap == [] then 0 else Popcount(bitmap[0]) + Weight(bitmap[1..])
  }

  predicate AllWords(bitmap: seq<nat>) { forall k :: 0 <= k < |bitmap| ==> bitmap[k] < WORD }

  lemma IndexInWords(n: nat, i: nat)
    requires i < n
    ensures i / PER_WORD < Words(n)
  {
  }

  lemma {:induction false} WeightUpdate(bitmap: seq<nat>, k: nat, v: nat)
    requires k < |bitmap|
    ensures Weight(bitmap[k := v]) == Weight(bitmap) - Popcount(bitmap[k]) + Popcount(v)
    ensures Weight(bitmap) >= Popcount(bitmap[k])
    decreases |bitmap|
  {
    if k == 0 {
      assert bitmap[k := v][1..] == bitmap[1..];
    } else {
      assert bitmap[k := v][1..] == bitmap[1..][k - 1 := v];
      WeightUpdate(bitmap[1..], k - 1, v);
    }
  }

  // A word with a bit added still fits.
  lemma {:induction false} SetFits(x: nat, i: nat, w: nat)
    requires i < w && x < Pow2(w) && !Bit(x, i)
    ensures x + Pow2(i) < Pow2(w)
    decreases w
  {
    if i == 0 {
      HalfFits(x, 0, Pow2(w - 1));
    } else {
      BitStep(x, i);
      SetFits(x / 2, i - 1, w - 1);
      HalfFits(x, Pow2(i - 1), Pow2(w - 1));
    }
  }

  lemma HalfFits(x: nat, p: nat, q: nat)
    requires x / 2 + p < q
    ensures x + 2 * p < 2 * q && (p == 0 && x % 2 == 0 ==> x + 1 < 2 * q)
  {
  }

  // The bitmap with slot i set, from the one with it clear.
  ghost function WithSlot(bitmap: seq<nat>, i: nat): seq<nat>
    requires i / PER_WORD < |bitmap|
  {
    bitmap[i / PER_WORD := bitmap[i / PER_WORD] + Pow2(i % PER_WORD)]
  }

  lemma WithSlotBits(bitmap: seq<nat>, i: nat)
    requires i / PER_WORD < |bitmap| && !IsSet(bitmap, i)
    ensures Weight(WithSlot(bitmap, i)) == Weight(bitmap) + 1
    ensures forall j: nat :: j / PER_WORD < |bitmap| ==> (IsSet(WithSlot(bitmap, i), j) <==> j == i || IsSet(bitmap, j))
  {
    var k := i / PER_WORD;
    SetMask(bitmap[k], i % PER_WORD);
    WeightUpdate(bitmap, k, bitmap[k] + Pow2(i % PER_WORD));
    forall j: nat | j / PER_WORD < |bitmap|
      ensures IsSet(WithSlot(bitmap, i), j) <==> j == i || IsSet(bitmap, j)
    {
      if j / PER_WORD == k { SetBitOnly(bitmap[k], i % PER_WORD, j % PER_WORD); }
    }
  }

  /** Setting the slot of an item: the test sees whether it is set already; when not,
      the slot alone is set. */
  method SetSlot(bitmap: seq<nat>, i: nat) returns (ok: bool, bitmap': seq<nat>)
    requires i / PER_WORD < |bitmap| && AllWords(bitmap)
    ensures ok <==> !IsSet(bitmap, i)
    ensures |bitmap'| == |bitmap| && AllWords(bitmap')
    ensures ok ==> Weight(bitmap') == Weight(bitmap) + 1
    ensures ok ==> forall j: nat :: j / PER_WORD < |bitmap| ==> (IsSet(bitmap', j) <==> j == i || IsSet(bitmap, j))
    ensures !ok ==> bitmap' == bitmap
  {
    var k := i / PER_WORD;
    var mask := Pow2(i % PER_WORD);
    TestMask(bitmap[k], i % PER_WORD);
    if BitAnd(bitmap[k], mask) != 0 {
      return false, bitmap;
    }
    SetWord(bitmap[k], i % PER_WORD);
    WithSlotBits(bitmap, i);
    bitmap' := bitmap[k := BitOr(bitmap[k], mask)];
    ok := true;
  }

  /** Clearing the slot of an item, which must be set. */
  method ClearSlot(bitmap: seq<nat>, i: nat) returns (ok: bool, bitmap': seq<nat>)
    requires i / PER_WORD < |bitmap| && AllWords(bitmap)
    ensures ok <==> IsSet(bitmap, i)
    ensures |bitmap'| == |bitmap| && AllWords(bitmap')
    ensures ok ==> Weight(bitmap') + 1 == Weight(bitmap)
    ensures ok ==> forall j: nat :: j / PER_WORD < |bitmap| ==> (IsSet(bitmap', j) <==> j != i && IsSet(bitmap, j))
    ensures !ok ==> bitmap' == bitmap
  {
    var k := i / PER_WORD;
    var mask := Pow2(i % PER_WORD);
    TestMask(bitmap[k], i % PER_WORD);
    if BitAnd(bitmap[k], mask) == 0 {
      return false, bitmap;
    }
    ClearWord(bitmap[k], i % PER_WORD);
    bitmap' := bitmap[k := BitAnd(bitmap[k], BitNot(mask))];
    ok := true;
    WithSlotBits(bitmap', i);
    assert WithSlot(bitmap', i) == bitmap;
  }

  // Clearing a set bit of a word: what is left, and that adding the bit gives the word back.
  lemma ClearWord(x: nat, i: nat)
    requires x < WORD && i < PER_WORD && Bit(x, i)
    ensures Pow2(i) < WORD
    ensures var y := BitAnd(x, BitNot(Pow2(i))); y < WORD && !Bit(y, i) && y + Pow2(i) == x
  {
    WithoutBit(x, i);
    Pow64();
    ClearMask(x - Pow2(i), i, 64);
  }

  // Setting a clear bit of a word.
  lemma SetWord(x: nat, i: nat)
    requires x < WORD && i < PER_WORD && !Bit(x, i)
    ensures BitOr(x, Pow2(i)) == x + Pow2(i) < WORD
  {
    SetMask(x, i);
    Pow64();
    SetFits(x, i, 64);
  }

  /** The leak count at destroy: the sum of the words' weights, zero exactly when no bit is set. */
  method CountLeaks(bitmap: seq<nat>) returns (total: nat)
    requires AllWords(bitmap)
    ensures total == Weight(bitmap)
    ensures total == 0 <==> forall i: nat :: i / PER_WORD < |bitmap| ==> !IsSet(bitmap, i)
  {
    WeightZero(bitmap);
    total := 0;
    var k := 0;
    while k < |bitmap|
      invariant 0 <= k <= |bitmap|
      invariant total + Weight(bitmap[k..]) == Weight(bitmap)
    {
      assert bitmap[k..][1..] == bitmap[k + 1..];
      total := total + Popcount(bitmap[k]);
      k := k + 1;
    }
  }

  lemma {:induction false} ZeroBits(i: nat)
    ensures !Bit(0, i)
  {
    if i > 0 { ZeroBits(i - 1); }
  }

  lemma {:induction false} ZeroWeight(n: nat)
    ensures Weight(seq(n, _ => 0)) == 0
  {
    if n > 0 {
      assert seq(n, _ => 0)[1..] == seq(n - 1, _ => 0);
      ZeroWeight(n - 1);
    }
  }

  /** A fresh bitmap has no bit set. */
  method Create(n: nat) returns (bitmap: seq<nat>)
    ensures |bitmap| == Words(n) && AllWords(bitmap) && Weight(bitmap) == 0
    ensures forall i: nat :: i / PER_WORD < |bitmap| ==> !IsSet(bitmap, i)
  {
    bitmap := seq(Words(n), _ => 0);
    ZeroWeight(Words(n));
    forall i: nat | i / PER_WORD < |bitmap| ensures !IsSet(bitmap, i) { ZeroBits(i % PER_WORD); }
  }

  lemma {:induction false} AllZero(bitmap: seq<nat>)
    requires AllWords(bitmap)
    ensures Weight(bitmap) == 0 <==> forall k :: 0 <= k < |bitmap| ==> bitmap[k] == 0
  {
    if bitmap != [] {
      Pow64();
      NoBits(bitmap[0], 64);
      AllZero(bitmap[1..]);
    }
  }

  // A nonzero word has an item's bit set.
  lemma SomeBit(bitmap: seq<nat>, k: nat)
    requires AllWords(bitmap) && k < |bitmap| && bitmap[k] != 0
    ensures exists i: nat :: i / PER_WORD < |bitmap| && IsSet(bitmap, i)
  {
    Pow64();
    NoBits(bitmap[k], 64);
    var j: nat :| j < 64 && Bit(bitmap[k], j);
    var i := k * PER_WORD + j;
    assert i / PER_WORD == k && i % PER_WORD == j;
    assert IsSet(bitmap, i);
  }

  /** The weight is zero exactly when no item's bit is set. */
  lemma {:induction false} WeightZero(bitmap: seq<nat>)
    requires AllWords(bitmap)
    ensures Weight(bitmap) == 0 <==> forall i: nat :: i / PER_WORD < |bitmap| ==> !IsSet(bitmap, i)
  {
    AllZero(bitmap);
    if k: nat :| k < |bitmap| && bitmap[k] != 0 {
      SomeBit(bitmap, k);
    } else {
      forall i: nat | i / PER_WORD < |bitmap| ensures !IsSet(bitmap, i) { ZeroBits(i % PER_WORD); }
    }
  }
}
