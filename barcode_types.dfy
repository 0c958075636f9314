/** Shared data model of the barcode reader: pixel intensities, the per-row
    profile (`ColorLine`) and the barcode record passed from detection to
    translation (`BarcodeBarArray`). */
module BarcodeTypes {

  /** An 8-bit intensity (Rust `u8`). */
  type Byte = x: int | 0 <= x < 256

  datatype Option<+T> = None | Some(value: T)

  function Sum(s: seq<int>): int
  {
    if s == [] then 0 else Sum(s[..|s| - 1]) + s[|s| - 1]
  }

  /** `u8::saturating_sub` */
  function SatSub(a: Byte, b: Byte): Byte
  {
    if a >= b then a - b else 0
  }

  /** `u8::saturating_add` */
  function SatAdd(a: Byte, b: Byte): Byte
  {
    if a + b <= 255 then a + b else 255
  }

  function Min(a: int, b: int): int { if a <= b then a else b }
  function Max(a: int, b: int): int { if a >= b then a else b }

  /** The running minimum the source keeps: starts at 255 and takes the
      smaller of itself and each value in turn. */
  function Lowest(s: seq<Byte>): Byte
  {
    if s == [] then 255 else Min(Lowest(s[..|s| - 1]), s[|s| - 1])
  }

  /** The running maximum the source keeps: starts at 0. */
  function Highest(s: seq<Byte>): Byte
  {
    if s == [] then 0 else Max(Highest(s[..|s| - 1]), s[|s| - 1])
  }

  /** `Lowest` is the minimum of the values, or 255 when there are none. */
  lemma {:induction false} LowestIsMinimum(s: seq<Byte>)
    ensures forall i :: 0 <= i < |s| ==> Lowest(s) <= s[i]
    ensures s == [] || exists i :: 0 <= i < |s| && Lowest(s) == s[i]
  {
    if s != [] {
      var init := s[..|s| - 1];
      LowestIsMinimum(init);
      assert Lowest(s) == Min(Lowest(init), s[|s| - 1]);
      if init != [] && Lowest(init) < s[|s| - 1] {
        var i :| 0 <= i < |init| && Lowest(init) == init[i];
        assert Lowest(s) == s[i];
      }
    }
  }

  /** `Highest` is the maximum of the values, or 0 when there are none. */
  lemma {:induction false} HighestIsMaximum(s: seq<Byte>)
    ensures forall i :: 0 <= i < |s| ==> s[i] <= Highest(s)
    ensures s == [] || exists i :: 0 <= i < |s| && Highest(s) == s[i]
  {
    if s != [] {
      var init := s[..|s| - 1];
      HighestIsMaximum(init);
      assert Highest(s) == Max(Highest(init), s[|s| - 1]);
      if init != [] && Highest(init) > s[|s| - 1] {
        var i :| 0 <= i < |init| && Highest(init) == init[i];
        assert Highest(s) == s[i];
      }
    }
  }

  /** A sum over naturals grows with the prefix taken. */
  lemma {:induction false} SumPrefixLe(s: seq<nat>, k: nat)
    requires k <= |s|
    ensures 0 <= Sum(s[..k]) <= Sum(s)
  {
    if k < |s| {
      assert s[..|s| - 1][..k] == s[..k];
      SumPrefixLe(s[..|s| - 1], k);
    } else {
      assert s[..k] == s;
      SumNonNegative(s);
    }
  }

  lemma {:induction false} SumNonNegative(s: seq<nat>)
    ensures Sum(s) >= 0
  {
    if s != [] { SumNonNegative(s[..|s| - 1]); }
  }

  /** Replacing one element changes the sum by the difference. */
  lemma {:induction false} SumUpdate(s: seq<int>, i: nat, v: int)
    requires i < |s|
    ensures Sum(s[i := v]) == Sum(s) - s[i] + v
  {
    var t := s[i := v];
    if i == |s| - 1 {
      assert t[..|t| - 1] == s[..|s| - 1];
    } else {
      assert t[..|t| - 1] == s[..|s| - 1][i := v];
      SumUpdate(s[..|s| - 1], i, v);
    }
  }

  lemma {:induction false} SumBetween(s: seq<Byte>)
    ensures |s| * Lowest(s) <= Sum(s) <= |s| * Highest(s)
  {
    if s != [] {
      var init, last := s[..|s| - 1], s[|s| - 1];
      SumBetween(init);
      assert Sum(s) == Sum(init) + last;
      StepBounds(|init|, Lowest(s), Lowest(init), Highest(init), Highest(s), Sum(init), last);
    }
  }

  lemma StepBounds(n: nat, lo: int, lo': int, hi': int, hi: int, sum: int, x: int)
    requires lo <= lo' && hi' <= hi && lo <= x <= hi
    requires n * lo' <= sum <= n * hi'
    ensures (n + 1) * lo <= sum + x <= (n + 1) * hi
  {
    MulMono(n, lo, lo');
    MulMono(n, hi', hi);
  }

  lemma MulMono(n: nat, a: int, b: int)
    requires a <= b
    ensures n * a <= n * b
  {
  }

  /** From n * lo <= a <= n * hi it follows that lo <= a / n <= hi. */
  lemma DivBetween(a: int, n: int, lo: int, hi: int)
    requires n > 0 && n * lo <= a <= n * hi
    ensures lo <= a / n <= hi
  {
    var q, r := a / n, a % n;
    assert a == n * q + r && 0 <= r < n;
    if q < lo {
      assert n * (q + 1) == n * q + n;
      MulMono(n, q + 1, lo);
    }
    if q > hi {
      assert n * (hi + 1) == n * hi + n;
      MulMono(n, hi + 1, q);
    }
  }

  /** The floor of the mean lies between the running minimum and maximum. */
  lemma MeanBetween(s: seq<Byte>)
    requires |s| > 0
    ensures Lowest(s) <= Sum(s) / |s| <= Highest(s)
  {
    SumBetween(s);
    DivBetween(Sum(s), |s|, Lowest(s), Highest(s));
  }

  /** Number of slices of `size` pixels covering a row of `len` pixels,
      the last one possibly shorter: ceil(len / size). */
  function SliceCount(len: nat, size: nat): nat
    requires size > 0
  {
    (len + size - 1) / size
  }

  /** One scanned pixel row (struct `ColorLine`): row-global statistics,
      the pixel values, and min/avg/max per slice of `sliceSize` pixels. */
  datatype ColorLine = ColorLine(
    avg: Byte, min: Byte, max: Byte,
    deg: nat, len: nat, pos: nat,
    values: seq<Byte>,
    avgLoc: seq<Byte>, minLoc: seq<Byte>, maxLoc: seq<Byte>,
    sliceSize: nat)

  /** The shape every detector relies on: a non-empty row, one statistics
      entry per slice, and each slice's min <= avg <= max. */
  predicate WellFormed(v: ColorLine)
  {
    && v.sliceSize > 0
    && |v.values| == v.len > 0
    && |v.minLoc| == |v.maxLoc| == |v.avgLoc| == SliceCount(v.len, v.sliceSize)
    && forall k :: 0 <= k < |v.minLoc| ==> v.minLoc[k] <= v.avgLoc[k] <= v.maxLoc[k]
  }

  /** `BarcodeBarArray`: metadata [row y, orientation, left x, right x]
      followed by the left and right halves, six groups of four module
      widths each. */
  datatype BarcodeRecord = BarcodeRecord(meta: seq<nat>, left: seq<seq<nat>>, right: seq<seq<nat>>)

  predicate GroupsShaped(h: seq<seq<nat>>)
  {
    |h| == 6 && forall i :: 0 <= i < 6 ==> |h[i]| == 4
  }

  predicate Shaped(r: BarcodeRecord)
  {
    |r.meta| == 4 && GroupsShaped(r.left) && GroupsShaped(r.right)
  }

  const ZeroGroup: seq<nat> := [0, 0, 0, 0]

  function ZeroHalf(): (h: seq<seq<nat>>)
    ensures GroupsShaped(h)
  {
    [ZeroGroup, ZeroGroup, ZeroGroup, ZeroGroup, ZeroGroup, ZeroGroup]
  }

  /** The record `find_bar_code` starts from: everything zero. */
  function ZeroRecord(): (r: BarcodeRecord)
    ensures Shaped(r)
  {
    BarcodeRecord([0, 0, 0, 0], ZeroHalf(), ZeroHalf())
  }

  /** Position `i` of `cs` holds a smaller value than position `j`. */
  predicate Below(cs: seq<nat>, i: nat, j: nat)
    requires i < |cs| && j < |cs|
  {
    cs[i] < cs[j]
  }

  /** A strictly increasing list of pixel positions. The order is stated
      through `Below`, so that a proof draws on it only for the pairs of
      positions it names. */
  predicate Increasing(cs: seq<nat>)
  {
    forall i, j :: 0 <= i < j < |cs| ==> Below(cs, i, j)
  }

  /** A threshold band [lo, hi] around a centre intensity. */
  datatype Band = Band(lo: Byte, hi: Byte)

  /** The band half-width `max(3, (span as f32 * 0.04) as u8)`; for every
      span in 0 ..= 255 the f32 product truncates to span / 25. */
  function HalfWidth(span: Byte): (w: nat)
    ensures 3 <= w <= 10
  {
    Max(3, span / 25)
  }

  /** The band around `centre` for a slice span: [centre - w, centre + w],
      saturating at 0 and 255. It contains the centre and is at least three
      levels wide. */
  function BandAround(centre: Byte, span: Byte): (b: Band)
    ensures b.lo <= centre <= b.hi
    ensures b.hi - b.lo >= 3
    ensures centre - b.lo <= HalfWidth(span) && b.hi - centre <= HalfWidth(span)
  {
    var w := HalfWidth(span);
    Band(SatSub(centre, w), SatAdd(centre, w))
  }

  /** The mean of the last full slice and the shorter final slice, weighted
      by their pixel counts; it lies between the two slice averages. */
  function Weighted(a: Byte, b: Byte, size: nat, rem: nat): (r: Byte)
    requires size > 0
    ensures Min(a, b) <= r <= Max(a, b)
  {
    var n := size + rem;
    var t := a * size + b * rem;
    WeightedBetween(a, b, size, rem);
    t / n
  }

  lemma WeightedBetween(a: Byte, b: Byte, size: nat, rem: nat)
    requires size > 0
    ensures Min(a, b) <= (a * size + b * rem) / (size + rem) <= Max(a, b)
  {
    var lo, hi := Min(a, b), Max(a, b);
    MulMono(size, lo, a);
    MulMono(size, a, hi);
    MulMono(rem, lo, b);
    MulMono(rem, b, hi);
    assert (size + rem) * lo == size * lo + rem * lo;
    assert (size + rem) * hi == size * hi + rem * hi;
    DivBetween(a * size + b * rem, size + rem, lo, hi);
  }

  /** A slice index whose first pixel lies inside the row names one of its
      ceil(len / size) slices. */
  lemma SliceIndexBound(k: nat, size: nat, len: nat)
    requires size > 0 && k * size < len
    ensures k < SliceCount(len, size)
  {
    var q := (len + size - 1) / size;
    var r := (len + size - 1) % size;
    assert len + size - 1 == q * size + r && r < size;
    if q <= k {
      MulMono(size, q, k);
    }
  }

  /** Division by a positive size splits n uniquely into quotient and rest. */
  lemma DivModUnique(n: nat, size: nat, q: nat, r: nat)
    requires size > 0 && n == q * size + r && r < size
    ensures n / size == q && n % size == r
  {
    var q', r' := n / size, n % size;
    QuotientNotBelow(n, size, q, r, q', r');
    QuotientNotBelow(n, size, q', r', q, r);
  }

  lemma QuotientNotBelow(n: nat, size: nat, q: nat, r: nat, q': int, r': int)
    requires size > 0 && n == q * size + r && r < size
    requires n == q' * size + r' && 0 <= r' < size
    ensures q <= q'
  {
    if q' < q {
      assert (q' + 1) * size == q' * size + size;
      MulMono(size, q' + 1, q);
    }
  }

  /** A pixel of the row lies in one of its slices. */
  lemma PixelSlice(x: nat, size: nat, len: nat)
    requires size > 0 && x < len
    ensures x / size < SliceCount(len, size)
  {
    var q := x / size;
    assert x == q * size + x % size;
    SliceIndexBound(q, size, len);
  }
}
