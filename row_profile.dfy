/** The per-row statistics pass of `process_image_by_rows`: one scan over the
    pixels of a row that records the row's minimum, maximum and mean and, for
    every slice of 30 pixels (the last one possibly shorter), the slice's
    minimum, maximum and floor of the mean. */
module RowProfile {
  import opened BarcodeTypes

  /** `row_slice_size` */
  const RowSliceSize: nat := 30

  /** The pixels of slice `k`: [30k, min(30k + 30, len)). */
  function Slice(values: seq<Byte>, k: nat): (s: seq<Byte>)
    requires 30 * k < |values|
    ensures 0 < |s| <= 30
  {
    values[30 * k .. Min(30 * k + 30, |values|)]
  }

  /** The three statistics recorded for slice `k`. */
  predicate SliceStats(values: seq<Byte>, k: nat, mn: Byte, mx: Byte, av: Byte)
    requires 30 * k < |values|
  {
    var s := Slice(values, k);
    mn == Lowest(s) && mx == Highest(s) && av == Sum(s) / |s|
  }

  /** Slices 0 .. |minLoc| - 1 are complete and carry their statistics. */
  predicate SlicesDone(values: seq<Byte>, minLoc: seq<Byte>, maxLoc: seq<Byte>, avgLoc: seq<Byte>)
  {
    && |maxLoc| == |avgLoc| == |minLoc|
    && forall k :: 0 <= k < |minLoc| ==>
         30 * k < |values| && SliceStats(values, k, minLoc[k], maxLoc[k], avgLoc[k])
  }

  /** The running values after the first `x` pixels, `slc` of which belong
      to the current slice. */
  predicate Running(values: seq<Byte>, x: nat, slc: nat,
                    sliceMin: Byte, sliceMax: Byte, sliceSum: nat,
                    lineMin: Byte, lineMax: Byte, lineSum: nat)
  {
    && slc <= x <= |values|
    && sliceMin == Lowest(values[x - slc..x]) && sliceMax == Highest(values[x - slc..x])
    && sliceSum == Sum(values[x - slc..x])
    && lineMin == Lowest(values[..x]) && lineMax == Highest(values[..x])
    && lineSum == Sum(values[..x])
    && lineMin <= sliceMin && sliceMax <= lineMax
  }

  /** The running minimum, maximum and sum after one more value. */
  lemma Extend(s: seq<Byte>, i: nat, j: nat)
    requires i <= j < |s|
    ensures Lowest(s[i..j + 1]) == Min(Lowest(s[i..j]), s[j])
    ensures Highest(s[i..j + 1]) == Max(Highest(s[i..j]), s[j])
    ensures Sum(s[i..j + 1]) == Sum(s[i..j]) + s[j]
  {
    assert s[i..j + 1][..j - i] == s[i..j];
  }

  /** One pixel step keeps the running values; a slice minimum below the
      row minimum updates both, so the nested update of the source is exact. */
  lemma RunningStep(values: seq<Byte>, x: nat, slc: nat,
                    sliceMin: Byte, sliceMax: Byte, sliceSum: nat,
                    lineMin: Byte, lineMax: Byte, lineSum: nat)
    requires x < |values|
    requires Running(values, x, slc, sliceMin, sliceMax, sliceSum, lineMin, lineMax, lineSum)
    ensures var px := values[x];
      Running(values, x + 1, slc + 1,
              Min(sliceMin, px), Max(sliceMax, px), sliceSum + px,
              Min(lineMin, px), Max(lineMax, px), lineSum + px)
  {
    Extend(values, x - slc, x);
    Extend(values, 0, x);
    assert values[0..x] == values[..x] && values[0..x + 1] == values[..x + 1];
  }

  lemma RunningStart(values: seq<Byte>)
    ensures Running(values, 0, 0, 255, 0, 0, 255, 0, 0)
  {
    assert values[0..0] == [] && values[..0] == [];
  }

  /** Starting a new slice keeps the row's running values. */
  lemma OpenSlice(values: seq<Byte>, x: nat, slc: nat,
                  sliceMin: Byte, sliceMax: Byte, sliceSum: nat,
                  lineMin: Byte, lineMax: Byte, lineSum: nat)
    requires Running(values, x, slc, sliceMin, sliceMax, sliceSum, lineMin, lineMax, lineSum)
    ensures Running(values, x, 0, 255, 0, 0, lineMin, lineMax, lineSum)
  {
    assert values[x..x] == [];
  }

  /** Closing the current slice appends its statistics. */
  lemma CloseSlice(values: seq<Byte>, minLoc: seq<Byte>, maxLoc: seq<Byte>, avgLoc: seq<Byte>,
                   x: nat, slc: nat, sliceMin: Byte, sliceMax: Byte, sliceSum: nat)
    requires SlicesDone(values, minLoc, maxLoc, avgLoc)
    requires 0 < slc <= 30 && x == 30 * |minLoc| + slc <= |values|
    requires slc == 30 || x == |values|
    requires sliceMin == Lowest(values[x - slc..x]) && sliceMax == Highest(values[x - slc..x])
    requires sliceSum == Sum(values[x - slc..x])
    ensures 0 <= sliceSum / slc < 256
    ensures SlicesDone(values, minLoc + [sliceMin], maxLoc + [sliceMax], avgLoc + [sliceSum / slc])
  {
    assert Slice(values, |minLoc|) == values[x - slc..x];
    MeanBetween(values[x - slc..x]);
  }

  /** The slice records of a finished row make a well-formed line. */
  lemma {:induction false} RowWellFormed(line: ColorLine)
    requires line.sliceSize == 30 && |line.values| == line.len > 0
    requires SlicesDone(line.values, line.minLoc, line.maxLoc, line.avgLoc)
    requires |line.minLoc| == SliceCount(line.len, 30)
    ensures WellFormed(line)
  {
    forall k | 0 <= k < |line.minLoc|
      ensures line.minLoc[k] <= line.avgLoc[k] <= line.maxLoc[k]
    {
      MeanBetween(Slice(line.values, k));
    }
  }

  /** At the end of the row the running values are the row's own. */
  lemma RowTotals(values: seq<Byte>, slc: nat,
                  sliceMin: Byte, sliceMax: Byte, sliceSum: nat,
                  lineMin: Byte, lineMax: Byte, lineSum: nat)
    requires |values| > 0
    requires Running(values, |values|, slc, sliceMin, sliceMax, sliceSum, lineMin, lineMax, lineSum)
    ensures lineMin == Lowest(values) && lineMax == Highest(values) && lineSum == Sum(values)
  {
    assert values[..|values|] == values;
  }

  /** `n` full slices and `rest` further pixels make ceil(len / 30) slices. */
  lemma SliceTotal(len: nat, n: nat, rest: nat)
    requires len == 30 * n + rest && rest < 30
    ensures SliceCount(len, 30) == if rest > 0 then n + 1 else n
  {
  }

  /** The nested extreme updates of one pixel (barcode_detector.rs:71-82):
      the row's extremes move only when the slice's do, which is exact
      because the row minimum never exceeds the slice minimum (and dually). */
  method TrackExtremes(px: Byte, sliceMin: Byte, sliceMax: Byte, lineMin: Byte, lineMax: Byte)
    returns (sliceMin': Byte, sliceMax': Byte, lineMin': Byte, lineMax': Byte)
    requires lineMin <= sliceMin && sliceMax <= lineMax
    ensures sliceMin' == Min(sliceMin, px) && sliceMax' == Max(sliceMax, px)
    ensures lineMin' == Min(lineMin, px) && lineMax' == Max(lineMax, px)
    ensures lineMin' <= sliceMin' && sliceMax' <= lineMax'
  {
    sliceMin', sliceMax', lineMin', lineMax' := sliceMin, sliceMax, lineMin, lineMax;
    if sliceMin' > px {
      sliceMin' := px;
      if lineMin' > px {
        lineMin' := px;
      }
    }
    if sliceMax' < px {
      sliceMax' := px;
      if lineMax' < px {
        lineMax' := px;
      }
    }
  }

  /** The pixel loop and the final partial slice (barcode_detector.rs:64-98):
      one pass over the row that records every slice's minimum, maximum and
      floor of the mean and keeps the row's running minimum, maximum and
      sum. */
  method ScanRow(values: seq<Byte>)
    returns (minLoc: seq<Byte>, maxLoc: seq<Byte>, avgLoc: seq<Byte>, lineMin: Byte, lineMax: Byte, lineSum: nat)
    requires |values| > 0
    ensures |minLoc| == SliceCount(|values|, RowSliceSize)
    ensures SlicesDone(values, minLoc, maxLoc, avgLoc)
    ensures lineMin == Lowest(values) && lineMax == Highest(values) && lineSum == Sum(values)
  {
    lineSum, lineMin, lineMax := 0, 255, 0;
    minLoc, maxLoc, avgLoc := [], [], [];
    var slc: nat := 0;
    var sliceMin: Byte, sliceMax: Byte, sliceSum: nat := 255, 0, 0;
    var x: nat := 0;
    RunningStart(values);
    while x < |values|
      invariant x <= |values| && slc < 30 && x == 30 * |minLoc| + slc
      invariant SlicesDone(values, minLoc, maxLoc, avgLoc)
      invariant Running(values, x, slc, sliceMin, sliceMax, sliceSum, lineMin, lineMax, lineSum)
    {
      var px := values[x];
      RunningStep(values, x, slc, sliceMin, sliceMax, sliceSum, lineMin, lineMax, lineSum);
      sliceSum := sliceSum + px;
      lineSum := lineSum + px;
      sliceMin, sliceMax, lineMin, lineMax := TrackExtremes(px, sliceMin, sliceMax, lineMin, lineMax);
      slc := slc + 1;
      x := x + 1;
      if slc >= 30 {
        CloseSlice(values, minLoc, maxLoc, avgLoc, x, slc, sliceMin, sliceMax, sliceSum);
        OpenSlice(values, x, slc, sliceMin, sliceMax, sliceSum, lineMin, lineMax, lineSum);
        minLoc, maxLoc, avgLoc := minLoc + [sliceMin], maxLoc + [sliceMax], avgLoc + [sliceSum / slc];
        sliceMin, sliceMax, sliceSum := 255, 0, 0;
        slc := 0;
      }
    }
    SliceTotal(|values|, |minLoc|, slc);
    if slc > 0 {
      CloseSlice(values, minLoc, maxLoc, avgLoc, x, slc, sliceMin, sliceMax, sliceSum);
      minLoc, maxLoc, avgLoc := minLoc + [sliceMin], maxLoc + [sliceMax], avgLoc + [sliceSum / slc];
    }
    RowTotals(values, slc, sliceMin, sliceMax, sliceSum, lineMin, lineMax, lineSum);
  }

  /** A slice index below ceil(len / 30) starts inside the row. */
  lemma SliceStart(len: nat, k: nat)
    requires k < SliceCount(len, RowSliceSize)
    ensures 30 * k < len
  {
  }

  /** The floor of the mean of slice `k`. */
  function SliceMean(values: seq<Byte>, k: nat): (av: Byte)
    requires 30 * k < |values|
    ensures Lowest(Slice(values, k)) <= av <= Highest(Slice(values, k))
  {
    var s := Slice(values, k);
    MeanBetween(s);
    Sum(s) / |s|
  }

  /** The profile of row `pos` with pixels `values`, stated slice by slice:
      the row's minimum, maximum and floor of the mean, and each slice's
      minimum, maximum and floor of the mean. */
  function Profile(values: seq<Byte>, pos: nat): (line: ColorLine)
    requires |values| > 0
    ensures WellFormed(line)
    ensures SlicesDone(values, line.minLoc, line.maxLoc, line.avgLoc)
  {
    var n := SliceCount(|values|, RowSliceSize);
    MeanBetween(values);
    var line := ColorLine(
      Sum(values) / |values|, Lowest(values), Highest(values), 0, |values|, pos, values,
      seq(n, k requires 0 <= k < n => SliceStart(|values|, k); SliceMean(values, k)),
      seq(n, k requires 0 <= k < n => SliceStart(|values|, k); Lowest(Slice(values, k))),
      seq(n, k requires 0 <= k < n => SliceStart(|values|, k); Highest(Slice(values, k))),
      RowSliceSize);
    RowWellFormed(line);
    line
  }

  /** The slice records are determined by the pixels: complete records of
      all ceil(len / 30) slices are those of `Profile`. */
  lemma SlicesDetermined(values: seq<Byte>, pos: nat,
                          minLoc: seq<Byte>, maxLoc: seq<Byte>, avgLoc: seq<Byte>)
    requires |values| > 0 && |minLoc| == SliceCount(|values|, RowSliceSize)
    requires SlicesDone(values, minLoc, maxLoc, avgLoc)
    ensures var p := Profile(values, pos);
      minLoc == p.minLoc && maxLoc == p.maxLoc && avgLoc == p.avgLoc
  {
    var p := Profile(values, pos);
    forall k | 0 <= k < |minLoc|
      ensures minLoc[k] == p.minLoc[k] && maxLoc[k] == p.maxLoc[k] && avgLoc[k] == p.avgLoc[k]
    {
      assert SliceStats(values, k, minLoc[k], maxLoc[k], avgLoc[k]);
      assert SliceStats(values, k, p.minLoc[k], p.maxLoc[k], p.avgLoc[k]);
    }
  }

  /** Builds the `ColorLine` of row `pos` from its pixels
      (barcode_detector.rs:49-100): the slice statistics of `ScanRow`, the
      row's own minimum and maximum, and the floor of its mean; the result
      is the row's `Profile`. */
  method BuildColorLine(values: seq<Byte>, pos: nat) returns (line: ColorLine)
    requires |values| > 0
    ensures line == Profile(values, pos)
  {
    var minLoc, maxLoc, avgLoc, lineMin, lineMax, lineSum := ScanRow(values);
    MeanBetween(values);
    line := ColorLine(lineSum / |values|, lineMin, lineMax, 0, |values|, pos, values,
                      avgLoc, minLoc, maxLoc, RowSliceSize);
    SlicesDetermined(values, pos, minLoc, maxLoc, avgLoc);
  }
}
