/** Carving an aligned mapping, with a header in front of it, out of a larger one. */
module AlignedMmap {
  import opened Bits

  // What mmap() answers: MAP_FAILED or an address.
  datatype Mmap = MapFailed | MappedAt(ptr: nat)

  /** The outcome: EINVAL, a failed assertion, a failed mmap, an abort because munmap failed,
      or the pre-header, the aligned base and the bytes [lo, hi) still mapped. */
  datatype Carved = Invalid | AssertionFailed | NoMemory | Aborted | Carved(header: nat, base: nat, lo: nat, hi: nat)

  // x is n pages of 2^k bytes.
  lemma PagesOf(x: nat, k: nat)
    requires Aligned(x, k)
    ensures x == High(x, k) * Pow2(k)
  {
    Split(x, k);
  }

  lemma PagesAligned(n: nat, k: nat)
    ensures Aligned(n * Pow2(k), k) && High(n * Pow2(k), k) == n
  {
    SplitUnique(n * Pow2(k), k, n, 0);
  }

  // A multiple of 2^b is a multiple of 2^a.
  lemma CoarserAligned(x: nat, a: nat, b: nat)
    requires a <= b && Aligned(x, b)
    ensures Aligned(x, a)
  {
    PagesOf(x, b);
    PowAdd(b - a, a);
    var n := High(x, b) * Pow2(b - a);
    assert x == n * Pow2(a) by { MulAssoc(High(x, b), Pow2(b - a), Pow2(a)); }
    PagesAligned(n, a);
  }

  lemma MulSub(x: int, y: int, p: int)
    ensures (x - y) * p == x * p - y * p
  {
  }

  lemma SumAligned(x: nat, y: nat, k: nat)
    requires Aligned(x, k) && Aligned(y, k)
    ensures Aligned(x + y, k) && High(x + y, k) == High(x, k) + High(y, k)
  {
    hide *;
    PagesOf(x, k);
    PagesOf(y, k);
    var n := High(x, k) + High(y, k);
    MulSub(n, High(y, k), Pow2(k));
    PagesAligned(n, k);
  }

  lemma DiffProduct(a: nat, b: nat, p: nat)
    requires p > 0 && b * p <= a * p
    ensures b <= a && a * p - b * p == (a - b) * p
  {
    if a < b { MulAtLeast(b - a, p); }
  }

  lemma DiffAligned(x: nat, y: nat, k: nat)
    requires Aligned(x, k) && Aligned(y, k) && y <= x
    ensures Aligned(x - y, k) && High(x, k) == High(y, k) + High(x - y, k)
  {
    PagesOf(x, k);
    PagesOf(y, k);
    DiffProduct(High(x, k), High(y, k), Pow2(k));
    PagesAligned(High(x, k) - High(y, k), k);
  }

  // e whole pages that are less than c whole pages leave at least one.
  lemma FewerPages(e: nat, c: nat, q: nat)
    requires q > 0 && e * q < c * q
    ensures e + 1 <= c && e * q + q <= c * q
  {
    if e >= c { MulMono(c, e, q); }
    MulMono(e + 1, if e < c then c else e + 1, q);
    assert (e + 1) * q == e * q + q;
  }

  /** The bytes skipped to reach alignment are whole pages, at least one page short
      of the alignment. */
  lemma ExtraIsPages(p: nat, pageOrder: nat, k: nat)
    requires pageOrder <= k <= 64 && Aligned(p, pageOrder)
    ensures var extra := OffsetAlign(p, Pow2(k));
            Aligned(extra, pageOrder) && High(extra, pageOrder) + 1 <= Pow2(k - pageOrder)
  {
    hide *;
    var extra := OffsetAlign(p, Pow2(k));
    OffsetAlignLeast(p, k);
    CoarserAligned(p + extra, pageOrder, k);
    DiffAligned(p + extra, p, pageOrder);
    PagesOf(extra, pageOrder);
    PowAdd(k - pageOrder, pageOrder);
    FewerPages(High(extra, pageOrder), Pow2(k - pageOrder), Pow2(pageOrder));
  }

  // The page counts of the carving: what is kept, and what is mapped to carve it from.
  lemma PageCounts(pageOrder: nat, keep: nat, k: nat)
    requires pageOrder <= k && Aligned(keep, pageOrder)
    ensures Pow2(pageOrder) <= Pow2(k)
    ensures var y := keep + Pow2(k) - Pow2(pageOrder);
            && keep == High(keep, pageOrder) * Pow2(pageOrder)
            && y == High(y, pageOrder) * Pow2(pageOrder) && Aligned(y, pageOrder)
            && High(y, pageOrder) == High(keep, pageOrder) + Pow2(k - pageOrder) - 1
  {
    hide *;
    var (c, q) := (Pow2(k - pageOrder), Pow2(pageOrder));
    PagesOf(keep, pageOrder);
    PowMono(pageOrder, k);
    PowAdd(k - pageOrder, pageOrder);
    MulSub(c, 1, q);
    PagesAligned(c - 1, pageOrder);
    SumAligned(keep, (c - 1) * q, pageOrder);
    PagesOf(keep + (c - 1) * q, pageOrder);
  }

  // Whole units stay whole units in a size_t.
  lemma WrapAligned(x: nat, k: nat)
    requires k <= 64 && Aligned(x, k)
    ensures Aligned(x % WORD, k)
  {
    var z := x / WORD;
    Pow64();
    PowAdd(64 - k, k);
    MulAssoc(z, Pow2(64 - k), Pow2(k));
    PagesAligned(z * Pow2(64 - k), k);
    DiffAligned(x, z * WORD, k);
  }

  lemma WrapSum(x: nat, d: nat)
    ensures (x % WORD + d) % WORD == (x + d) % WORD
  {
    var (z, r) := (x / WORD, x % WORD);
    assert x + d == z * WORD + (r + d);
    WrapMultiple(z, r + d);
  }

  lemma {:induction false} WrapMultiple(z: nat, y: nat)
    ensures (z * WORD + y) % WORD == y % WORD
  {
    DivModUnique(z * WORD + y, WORD, z + y / WORD, y % WORD);
  }

  /** The bytes that are kept, as the source computes them: a sum that wraps at 2^64. */
  function Keep(len: nat, preLen: nat): nat { (preLen + len) % WORD }

  // The bytes asked of mmap, wrapping likewise.
  function Asked(pageSize: nat, len: nat, alignment: nat, preLen: nat): nat {
    (preLen + len + alignment - pageSize) % WORD
  }

  /** Whether the sum asked of mmap wraps past the sum that is kept. */
  predicate Wraps(pageSize: nat, len: nat, alignment: nat, preLen: nat) {
    Keep(len, preLen) + alignment - pageSize >= WORD
  }

  /** The first assertion, that the page count asked for is at least the one kept, fails
      exactly when the sum wraps. */
  lemma AssertionFailsIff(pageOrder: nat, len: nat, k: nat, preLen: nat)
    requires pageOrder <= k < 64 && Aligned(len, pageOrder) && Aligned(preLen, pageOrder)
    ensures var (q, a) := (Pow2(pageOrder), Pow2(k));
            var (keep, asked) := (Keep(len, preLen), Asked(q, len, a, preLen));
            && Aligned(keep, pageOrder)
            && (High(asked, pageOrder) < High(keep, pageOrder) <==> Wraps(q, len, a, preLen))
            && (!Wraps(q, len, a, preLen) ==> asked + q == keep + a)
  {
    hide *;
    var (keep, q, a) := (Keep(len, preLen), Pow2(pageOrder), Pow2(k));
    SumAligned(preLen, len, pageOrder);
    KeepWraps(q, len, a, preLen) by {
      Pow64();
      PowMono(k, 64);
      PowMono(pageOrder, k);
    }
    WrapAligned(preLen + len, pageOrder);
    PageCounts(pageOrder, keep, k);
    WrapAligned(keep + a - q, pageOrder);
    if Wraps(q, len, a, preLen) { FewerBytes(Asked(q, len, a, preLen), keep, pageOrder); }
  }

  // The sum asked for either does not wrap, or wraps once, below what is kept.
  lemma KeepWraps(q: nat, len: nat, a: nat, preLen: nat)
    requires 0 < q <= a <= WORD
    ensures var (keep, asked) := (Keep(len, preLen), Asked(q, len, a, preLen));
            && keep == (preLen + len) % WORD && asked == (keep + a - q) % WORD
            && (if Wraps(q, len, a, preLen) then asked < keep else asked + q == keep + a)
  {
    WrapSum(preLen + len, a - q);
  }

  lemma FewerBytes(x: nat, y: nat, k: nat)
    requires x < y && Aligned(x, k) && Aligned(y, k)
    ensures High(x, k) < High(y, k)
  {
    PagesOf(x, k);
    PagesOf(y, k);
    FewerPages(High(x, k), High(y, k), Pow2(k));
  }

  /** All of header and length are kept, and no assertion fails, exactly when the whole sum
      stays below 2^64. */
  lemma KeepsAllIff(pageSize: nat, len: nat, alignment: nat, preLen: nat)
    requires len < WORD && preLen < WORD && pageSize <= alignment
    ensures preLen + len + alignment - pageSize < WORD <==>
              Keep(len, preLen) == preLen + len && !Wraps(pageSize, len, alignment, preLen)
  {
  }

  // Whether the arguments pass the checks: enough pages, a power of two, whole units.
  predicate ArgumentsOk(pageSize: nat, len: nat, alignment: nat, preLen: nat)
    requires pageSize > 0
  {
    && len >= pageSize && alignment >= pageSize && IsPow2(alignment) && BitAnd(len, alignment - 1) == 0
    && BitAnd(preLen, pageSize - 1) == 0
  }

  // Arguments that pass the checks, in terms of orders.
  lemma ArgumentsDecoded(pageOrder: nat, len: nat, alignment: nat, preLen: nat) returns (k: nat)
    requires alignment < WORD && ArgumentsOk(Pow2(pageOrder), len, alignment, preLen)
    ensures alignment == Pow2(k) && pageOrder <= k < 64 && Aligned(len, k) && Aligned(preLen, pageOrder)
  {
    SmallWord(alignment - 1);
    k := OnlyPow(alignment);
    MaskLow(len, k);
    MaskLow(preLen, pageOrder);
    Pow64();
    if k < pageOrder { PowMono(k, pageOrder); }
    if k >= 64 { PowMono(64, k); }
  }

  /** Whether a munmap that trims the mapping fails: in front when the place behind the
      header is not aligned, behind when the pages skipped are not all there is to skip. */
  predicate TrimFails(pageSize: nat, alignment: nat, p: nat, firstUnmapFails: bool, secondUnmapFails: bool)
    requires alignment > 0
  {
    var extra := OffsetAlign(p, alignment);
    (extra > 0 && firstUnmapFails) || (extra + pageSize < alignment && secondUnmapFails)
  }

  /** aligned_mmap_anonymous for a page size 2^pageOrder: the first assertion fails exactly
      when the sum asked of mmap wraps past 2^64, and no other ever does; otherwise it keeps
      exactly the sum of len and preLen (modulo 2^64) of the mapping, with the base behind the
      header aligned. */
  method AlignedMmapAnonymous(pageOrder: nat, len: nat, alignment: nat, preLen: nat, result: Mmap,
                              firstUnmapFails: bool, secondUnmapFails: bool) returns (r: Carved)
    requires len < WORD && alignment < WORD && preLen < WORD
    requires result.MappedAt? ==> Aligned(result.ptr, pageOrder)
    ensures r.Invalid? <==> !ArgumentsOk(Pow2(pageOrder), len, alignment, preLen)
    ensures r.AssertionFailed? <==>
              ArgumentsOk(Pow2(pageOrder), len, alignment, preLen) && Wraps(Pow2(pageOrder), len, alignment, preLen)
    ensures r.NoMemory? <==> MapsPages(Pow2(pageOrder), len, alignment, preLen) && result.MapFailed?
    ensures r.Carved? ==>
              && r.header == r.lo && r.base == (r.lo + preLen) % WORD && r.hi == r.lo + Keep(len, preLen)
              && (exists k: nat :: alignment == Pow2(k) && Aligned(r.base, k))
              && result.ptr <= r.lo && r.hi <= result.ptr + Asked(Pow2(pageOrder), len, alignment, preLen)
    ensures r.Aborted? <==>
              && MapsPages(Pow2(pageOrder), len, alignment, preLen) && result.MappedAt?
              && TrimFails(Pow2(pageOrder), alignment, (result.ptr + preLen) % WORD, firstUnmapFails, secondUnmapFails)
  {
    hide Pow2, High, Low, OffsetAlign, Aligned, ArgumentsOk, TrimFails;
    var pageSize := Pow2(pageOrder);
    var ok := CheckArguments(pageSize, len, alignment, preLen);
    if !ok {
      return Invalid;
    }
    ghost var k := ArgumentsDecoded(pageOrder, len, alignment, preLen);
    CoarserAligned(len, pageOrder, k);
    PowMono(pageOrder, k);
    AssertionFailsIff(pageOrder, len, k, preLen);
    var minimum := High((preLen + len) % WORD, pageOrder);
    var count := High((preLen + len + alignment - pageSize) % WORD, pageOrder);
    if count < minimum {
      return AssertionFailed;
    }
    if result.MapFailed? {
      return NoMemory;
    }
    r := Carve(pageOrder, minimum, count, alignment, k, Keep(len, preLen), preLen, result.ptr,
               firstUnmapFails, secondUnmapFails);
  }

  method CheckArguments(pageSize: nat, len: nat, alignment: nat, preLen: nat) returns (ok: bool)
    requires pageSize > 0
    ensures ok <==> ArgumentsOk(pageSize, len, alignment, preLen)
  {
    hide BitAnd;
    AndZeroLeft(pageSize - 1);
    if len < pageSize || alignment < pageSize || !IsPow2(alignment) || BitAnd(len, alignment - 1) != 0 {
      return false;
    }
    return !(preLen != 0 && BitAnd(preLen, pageSize - 1) != 0);
  }

  // The arguments lead to a call of mmap.
  predicate MapsPages(pageSize: nat, len: nat, alignment: nat, preLen: nat)
    requires pageSize > 0
  {
    ArgumentsOk(pageSize, len, alignment, preLen) && !Wraps(pageSize, len, alignment, preLen)
  }

  lemma AndZeroLeft(y: nat)
    ensures BitAnd(0, y) == 0
  {
  }

  // The pages of the mapping behind the first e pages.
  lemma SkipPages(count: nat, e: nat, q: nat)
    requires e <= count
    ensures count * q - e * q == (count - e) * q && e * q <= count * q
  {
    MulSub(count, e, q);
    MulMono(e, count, q);
  }

  // An aligned address has no distance to the next aligned one.
  lemma AlignedHasNoOffset(p: nat, k: nat)
    requires k <= 64
    ensures OffsetAlign(p, Pow2(k)) == 0 <==> Aligned(p, k)
  {
    OffsetAlignLeast(p, k);
  }

  // Bytes to unmap in front so that the base behind the header is aligned: whole pages.
  method ExtraBefore(pageOrder: nat, alignment: nat, ghost k: nat, p: nat) returns (extra: nat)
    requires alignment == Pow2(k) && pageOrder <= k < 64 && Aligned(p, pageOrder)
    ensures extra == OffsetAlign(p, alignment) && Aligned(p + extra, k)
    ensures extra == High(extra, pageOrder) * Pow2(pageOrder) && High(extra, pageOrder) + 1 <= Pow2(k - pageOrder)
  {
    MaskLow(p, k);
    AlignedHasNoOffset(p, k);
    ExtraIsPages(p, pageOrder, k);
    OffsetAlignLeast(p, k);
    PagesOf(OffsetAlign(p, alignment), pageOrder);
    if BitAnd(p, alignment - 1) == 0 {
      return 0;
    }
    extra := OffsetAlign(p, alignment);
    MaskLow(extra, pageOrder);
    assert BitAnd(extra, Pow2(pageOrder) - 1) == 0;
  }

  // Unmap what lies behind the first minimum pages; nothing to unmap cannot fail.
  method TrimAfter(minimum: nat, count: nat, pageSize: nat, total: nat, unmapFails: bool)
      returns (ok: bool, total': nat)
    requires minimum <= count && total == count * pageSize
    ensures ok <==> !(count > minimum && unmapFails)
    ensures ok ==> total' == minimum * pageSize <= total
  {
    if count > minimum {
      if unmapFails { return false, total; }
      SkipPages(count, count - minimum, pageSize);
      return true, total - (count - minimum) * pageSize;
    }
    return true, total;
  }

  // Skipping e of c - 1 pages leaves some to trim exactly when e pages and one are less than c.
  lemma PagesLeft(e: nat, c: nat, q: nat)
    requires q > 0
    ensures e + 1 < c <==> e * q + q < c * q
  {
    assert (e + 1) * q == e * q + q;
    if e + 1 < c {
      MulMono(e + 2, c, q);
      assert (e + 2) * q == e * q + q + q;
    } else {
      MulMono(c, e + 1, q);
    }
  }

  // The base behind the header, wherever the header starts.
  lemma BaseAligned(start: nat, preLen: nat, extra: nat, k: nat)
    requires k <= 64 && Aligned((start + preLen) % WORD + extra, k)
    ensures Aligned((start + extra + preLen) % WORD, k)
  {
    WrapAligned((start + preLen) % WORD + extra, k);
    WrapSum(start + preLen, extra);
  }

  /** Carve keep bytes, aligned behind the first preLen, out of the mapping at start. */
  method Carve(pageOrder: nat, minimum: nat, count: nat, alignment: nat, ghost k: nat, ghost keep: nat, preLen: nat,
               start: nat, firstUnmapFails: bool, secondUnmapFails: bool) returns (r: Carved)
    requires alignment == Pow2(k) && pageOrder <= k < 64
    requires Aligned(keep, pageOrder) && Aligned(preLen, pageOrder) && Aligned(start, pageOrder)
    requires minimum == High(keep, pageOrder) && Pow2(pageOrder) <= alignment
    requires count == High(keep + alignment - Pow2(pageOrder), pageOrder)
    ensures r.Carved? || r.Aborted?
    ensures r.Aborted? <==>
              TrimFails(Pow2(pageOrder), alignment, (start + preLen) % WORD, firstUnmapFails, secondUnmapFails)
    ensures r.Carved? ==>
              && r.header == r.lo && r.base == (r.lo + preLen) % WORD && r.hi == r.lo + keep && Aligned(r.base, k)
              && start <= r.lo && r.hi <= start + (keep + alignment - Pow2(pageOrder))
  {
    hide Pow2, High, Low, OffsetAlign, Aligned, BitAnd;
    var pageSize := Pow2(pageOrder);
    PageCounts(pageOrder, keep, k);
    SumAligned(start, preLen, pageOrder);
    WrapAligned(start + preLen, pageOrder);
    var extra := ExtraBefore(pageOrder, alignment, k, (start + preLen) % WORD);
    var skipped := High(extra, pageOrder);
    PowAdd(k - pageOrder, pageOrder);
    PagesLeft(skipped, Pow2(k - pageOrder), pageSize);
    if extra > 0 && firstUnmapFails { return Aborted; }
    SkipPages(count, skipped, pageSize);
    var ok, total := TrimAfter(minimum, count - skipped, pageSize, count * pageSize - extra, secondUnmapFails);
    if !ok { return Aborted; }
    BaseAligned(start, preLen, extra, k);
    r := Carved(start + extra, (start + extra + preLen) % WORD, start + extra, start + extra + total);
  }

  /** The page counts of a 2^63-byte mapping aligned on 2^63, behind a header, wrap: the
      arguments pass the checks and the assertion fails. */
  lemma HalfSpaceAsserts(pageOrder: nat, preLen: nat)
    requires pageOrder < 63 && Pow2(pageOrder) <= preLen < Pow2(63) && Aligned(preLen, pageOrder)
    ensures ArgumentsOk(Pow2(pageOrder), Pow2(63), Pow2(63), preLen)
    ensures Wraps(Pow2(pageOrder), Pow2(63), Pow2(63), preLen)
  {
    hide Pow2, BitAnd, High, Low;
    Pow64();
    PowMono(pageOrder, 63);
    SmallWord(Pow2(63) - 1);
    PowPred(63);
    MaskLow(preLen, pageOrder);
    SmallWord(preLen + Pow2(63));
  }
}
