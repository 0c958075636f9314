/** The newer crossing detector of color_line_helpers.rs. Like the one the
    row scan calls, it walks the row against a threshold band re-centred
    slice by slice, but the band is centred between the slice average and
    the middle of the slice extremes, runs of flat slices (span below 16)
    are skipped, and a long run of pixels on one side of the band that ends
    in a spike is reported as a pair of extra crossings. */
module ColorLineHelpers {
  import opened BarcodeTypes

  /** A band with the slice index the scan continues from
      (`find_range_buffer`'s (u8, u8, usize)). */
  datatype Range = Range(lo: Byte, hi: Byte, next: nat)

  /** The combined span of slices `k` and `k + 1`: the larger maximum less
      the smaller minimum. */
  function PairSpan(v: ColorLine, k: nat): (s: nat)
    requires WellFormed(v) && k + 1 < |v.maxLoc|
    ensures s <= 255
  {
    Max(v.maxLoc[k], v.maxLoc[k + 1]) - Min(v.minLoc[k], v.minLoc[k + 1])
  }

  /** Slices with a span below 16 are treated as flat. */
  const FlatSpan: nat := 16

  /** Slices `k` and `k + 1` exist and together are flat. */
  predicate FlatPair(v: ColorLine, k: nat)
    requires WellFormed(v)
  {
    k + 1 < |v.maxLoc| && PairSpan(v, k) < FlatSpan
  }

  /** The slice the skip of `find_range_buffer` stops at: from `cur`, past
      every pair of slices whose combined span is below 16. */
  function SkipFlat(v: ColorLine, cur: nat): (c: nat)
    requires WellFormed(v)
    ensures c >= cur
    decreases |v.maxLoc| - cur
  {
    if FlatPair(v, cur) then SkipFlat(v, cur + 1) else cur
  }

  /** The band centre: halfway between an average and the middle of the
      extremes, `(avg + (mx + mn) / 2) / 2` in u32 and cast back to u8. */
  function Centre(avg: Byte, mx: Byte, mn: Byte): (c: Byte)
    ensures Min(avg, (mx + mn) / 2) <= c <= Max(avg, (mx + mn) / 2)
  {
    (avg + (mx + mn) / 2) / 2
  }

  /** The average of the chosen slice pair `cur`, `cur + 1`
      (color_line_helpers.rs:114-121): a third of each of three slice
      averages when a slice follows the pair's second slice and another
      after that, halves of the two when exactly one follows, and the
      pixel-weighted mean when the second slice is the last, possibly
      shorter one. */
  function PairAverage(v: ColorLine, cur: nat): Byte
    requires WellFormed(v) && cur + 1 < |v.maxLoc|
  {
    var len, next := |v.maxLoc|, cur + 1;
    if next + 2 < len then v.avgLoc[cur] / 3 + v.avgLoc[next] / 3 + v.avgLoc[next + 1] / 3
    else if next != len - 1 then v.avgLoc[cur] / 2 + v.avgLoc[next] / 2
    else Weighted(v.avgLoc[cur], v.avgLoc[next], v.sliceSize, |v.values| % v.sliceSize)
  }

  /** The band for the settled slice `c`: around the centre of the pair
      `c`, `c + 1` when there is such a pair, of slice `c` alone when it is
      the last slice, and around 0 when `c` is past the last slice. */
  function RangeAt(v: ColorLine, c: nat): (r: Range)
    requires WellFormed(v)
    ensures r.lo <= r.hi && r.next == c + 1
  {
    var len, next := |v.maxLoc|, c + 1;
    if next < len then
      var mx, mn := Max(v.maxLoc[c], v.maxLoc[next]), Min(v.minLoc[c], v.minLoc[next]);
      var b := BandAround(Centre(PairAverage(v, c), mx, mn), mx - mn);
      Range(b.lo, b.hi, next)
    else if next == len then
      var b := BandAround(Centre(v.avgLoc[c], v.maxLoc[c], v.minLoc[c]), v.maxLoc[c] - v.minLoc[c]);
      Range(b.lo, b.hi, next)
    else
      var b := BandAround(Centre(0, 0, 0), 0);
      Range(b.lo, b.hi, next)
  }

  /** What `find_range_buffer(cur, v)` returns (color_line_helpers.rs:100-134):
      the band around the centre of the first pair of slices from `cur` on
      whose span is at least 16, with the index of its second slice; the
      last slice alone when every pair is flat; and the band around 0 when
      `cur` is already past the last slice. */
  function RangeFrom(v: ColorLine, cur: nat): (r: Range)
    requires WellFormed(v)
    ensures r.lo <= r.hi && r.next > cur
  {
    RangeAt(v, SkipFlat(v, cur))
  }

  /** Every pair of slices the skip passes over is flat, and the pair it
      stops at, when there is one, is not. */
  lemma {:induction false} SkipFlatSkips(v: ColorLine, cur: nat)
    requires WellFormed(v)
    ensures forall k :: cur <= k < SkipFlat(v, cur) ==> FlatPair(v, k)
    ensures SkipFlat(v, cur) + 1 < |v.maxLoc| ==> !FlatPair(v, SkipFlat(v, cur))
    decreases |v.maxLoc| - cur
  {
    if FlatPair(v, cur) {
      SkipFlatSkips(v, cur + 1);
    }
  }

  /** The band `find_range_buffer` returns moves the scan on by at least
      one slice, every slice pair it passes over is flat, the pair it
      settles on is not, and the band is at least three levels wide. */
  lemma RangeFromSkips(v: ColorLine, cur: nat)
    requires WellFormed(v)
    ensures var r := RangeFrom(v, cur);
      && r.next > cur && r.hi - r.lo >= 3
      && (forall k :: cur <= k && k + 2 <= r.next ==> FlatPair(v, k))
      && (r.next < |v.maxLoc| ==> !FlatPair(v, r.next - 1))
  {
    var c := SkipFlat(v, cur);
    SkipFlatSkips(v, cur);
    assert RangeFrom(v, cur).next == c + 1;
  }

  /** The average of the chosen pair (color_line_helpers.rs:114-121). */
  method AverageOfPair(v: ColorLine, c: nat) returns (avg: Byte)
    requires WellFormed(v) && c + 1 < |v.maxLoc|
    ensures avg == PairAverage(v, c)
  {
    var len, next := |v.maxLoc|, c + 1;
    if next + 2 < len {
      avg := v.avgLoc[c] / 3 + v.avgLoc[next] / 3 + v.avgLoc[next + 1] / 3;
    } else if next != len - 1 {
      avg := v.avgLoc[c] / 2 + v.avgLoc[next] / 2;
    } else {
      var rem := |v.values| % v.sliceSize;
      avg := Weighted(v.avgLoc[c], v.avgLoc[next], v.sliceSize, rem);
    }
  }

  /** `find_range_buffer` (color_line_helpers.rs:100-134). */
  method FindRangeBuffer(cur: nat, v: ColorLine) returns (r: Range)
    requires WellFormed(v)
    ensures r == RangeFrom(v, cur)
  {
    var c := cur;
    var next := c + 1;
    var len := |v.maxLoc|;
    var avg: Byte, mx: Byte, mn: Byte := 0, 0, 0;
    while next < len
      invariant next == c + 1 && cur <= c && SkipFlat(v, c) == SkipFlat(v, cur)
      decreases len - next
    {
      mx := Max(v.maxLoc[c], v.maxLoc[next]);
      mn := Min(v.minLoc[c], v.minLoc[next]);
      if mx - mn < FlatSpan {
        c := c + 1;
        next := c + 1;
        continue;
      }
      avg := AverageOfPair(v, c);
      break;
    }
    assert SkipFlat(v, cur) == c;
    if next == len {
      mn := v.minLoc[c];
      mx := v.maxLoc[c];
      avg := v.avgLoc[c];
    } else if next > len {
      mn, mx, avg := 0, 0, 0;
    }
    var b := BandAround(Centre(avg, mx, mn), mx - mn);
    r := Range(b.lo, b.hi, next);
  }

  /** The centre of the first slice (color_line_helpers.rs:25):
      `avg / 2 + (min / 2 + max / 2) / 2` in u8. */
  function FirstCentre(v: ColorLine): Byte
    requires WellFormed(v)
  {
    v.avgLoc[0] / 2 + (v.minLoc[0] / 2 + v.maxLoc[0] / 2) / 2
  }

  /** What the scan keeps true of the crossings found so far: they increase,
      lie inside the row, and the last one lies more than `count` pixels
      before the next pixel `num`, where `count` is the length of the
      current run. */
  predicate Progress(cs: seq<nat>, count: nat, num: nat, len: nat)
  {
    && Increasing(cs) && (forall i :: 0 <= i < |cs| ==> cs[i] < len)
    && count <= num && (cs != [] ==> cs[|cs| - 1] + count < num)
  }

  /** Appending a position past the last one keeps the list increasing. */
  lemma AppendIncreasing(cs: seq<nat>, x: nat)
    requires Increasing(cs) && (cs == [] || cs[|cs| - 1] < x)
    ensures Increasing(cs + [x])
  {
    var cs' := cs + [x];
    forall i, j | 0 <= i < j < |cs'| ensures Below(cs', i, j) {
      if j < |cs| {
        assert Below(cs, i, j);
      } else if i < |cs| - 1 {
        assert Below(cs, i, |cs| - 1);
      }
    }
  }

  /** `compare_row_value_with_buffer` (color_line_helpers.rs:87-98): while
      `val1 <= val2` the run grows by one; otherwise a run longer than 3
      that followed a crossing is reported as the pair (start of the run,
      this pixel), and a new run starts. The crossings keep increasing. */
  method CompareRowValueWithBuffer(val1: Byte, val2: Byte, num: nat, count: nat, flag: bool, cs: seq<nat>, ghost len: nat)
    returns (count': nat, flag': bool, cs': seq<nat>)
    requires num < len && Progress(cs, count, num, len)
    ensures val1 <= val2 ==> count' == count + 1 && flag' == flag && cs' == cs
    ensures val1 > val2 ==> count' == 0 && flag' && cs' == cs + (if flag && count > 3 then [num - count, num] else [])
    ensures Progress(cs', count', num + 1, len)
  {
    count', flag', cs' := count, flag, cs;
    if val1 <= val2 {
      count' := count + 1;
    } else {
      if flag && count > 3 {
        AppendIncreasing(cs, num - count);
        AppendIncreasing(cs + [num - count], num);
        cs' := cs + [num - count] + [num];
        assert cs + [num - count] + [num] == cs + [num - count, num];
      }
      count' := 0;
      flag' := true;
    }
  }

  /** A crossing at pixel `num`: recorded there, or, for a big image, half
      the current run earlier (color_line_helpers.rs:50-54, 62-66). */
  method PushCrossing(num: nat, count: nat, bigImage: bool, cs: seq<nat>, ghost len: nat) returns (cs': seq<nat>)
    requires num < len && Progress(cs, count, num, len)
    ensures cs' == cs + [if bigImage then num - count / 2 else num]
    ensures Progress(cs', 0, num + 1, len)
  {
    var x := if bigImage then num - count / 2 else num;
    AppendIncreasing(cs, x);
    cs' := cs + [x];
  }

  /** The state of the scan between two pixels: the next pixel, the slice
      counter, the slice the band was last taken from, the band, whether
      the last crossing was upward, the current run of pixels on one side
      of the band and whether it follows a crossing (`buf_buffer`), and the
      crossings so far. */
  datatype Scan = Scan(num: nat, slc: nat, curLoc: nat, range: Range,
                       up: bool, run: nat, armed: bool, cs: seq<nat>)

  /** The state the scan starts from (color_line_helpers.rs:22-43): the
      band around the first slice's centre from half a slice in, or, when
      the first slice is flat, the band `find_range_buffer` settles on from
      half a slice before the slice it names. The scan starts upward
      whatever the flag says. */
  function Start(v: ColorLine): (s: Scan)
    requires WellFormed(v)
    ensures s.up && s.run == 0 && s.cs == []
  {
    var size := v.sliceSize;
    if v.maxLoc[0] - v.minLoc[0] < FlatSpan then
      var r := RangeFrom(v, 0);
      MulMono(size, 0, r.next - 1);
      Scan(size / 2 + size * (r.next - 1), 0, r.next, r, true, 0, true, [])
    else
      var b := BandAround(FirstCentre(v), v.maxLoc[0] - v.minLoc[0]);
      Scan(0, size / 2, 0, Range(b.lo, b.hi, 0), true, 0, true, [])
  }

  /** `compare_row_value_with_buffer` on the scan state. */
  function Compared(val1: Byte, val2: Byte, s: Scan): (t: Scan)
    requires s.run <= s.num
    ensures t.num == s.num && t.slc == s.slc && t.curLoc == s.curLoc && t.range == s.range && t.up == s.up
  {
    if val1 <= val2 then s.(run := s.run + 1)
    else s.(run := 0, armed := true,
            cs := s.cs + if s.armed && s.run > 3 then [s.num - s.run, s.num] else [])
  }

  /** A crossing at the next pixel, in direction `up`. */
  function Crossed(s: Scan, bigImage: bool, up: bool): (t: Scan)
    requires s.run <= s.num
    ensures t.num == s.num && t.slc == s.slc && t.curLoc == s.curLoc && t.range == s.range
  {
    s.(up := up, run := 0, armed := up,
       cs := s.cs + [if bigImage then s.num - s.run / 2 else s.num])
  }

  /** What pixel `col` does to the state (color_line_helpers.rs:46-71). */
  function PixelStep(col: Byte, s: Scan, bigImage: bool): (t: Scan)
    requires s.run <= s.num
    ensures t.num == s.num && t.slc == s.slc && t.curLoc == s.curLoc && t.range == s.range
    ensures t.run <= s.run + 1
  {
    if s.up then
      if col < s.range.lo then Crossed(s, bigImage, false) else Compared(col, s.range.hi, s)
    else
      if col > s.range.hi then Crossed(s, bigImage, true) else Compared(s.range.lo, col, s)
  }

  /** The slice counter after a pixel (color_line_helpers.rs:72-82): at
      the end of a slice the band is re-centred, and when the new band's
      slice lies more than one slice on the scan jumps ahead that many
      slices. */
  function SliceStep(v: ColorLine, s: Scan): (t: Scan)
    requires WellFormed(v)
    ensures t.num > s.num && t.up == s.up && t.run == s.run && t.armed == s.armed && t.cs == s.cs
  {
    var num, slc := s.num + 1, s.slc + 1;
    if slc >= v.sliceSize then
      var r := RangeFrom(v, s.curLoc);
      var diff := r.next - s.curLoc;
      MulMono(v.sliceSize, 0, diff);
      s.(num := if diff > 1 then num + v.sliceSize * diff else num, slc := 0, curLoc := r.next, range := r)
    else
      s.(num := num, slc := slc)
  }

  /** The scan of pixel `s.num` and the slice counter after it. */
  function Step(v: ColorLine, s: Scan, bigImage: bool): (t: Scan)
    requires WellFormed(v) && s.num < |v.values| && s.run <= s.num
    ensures t.num > s.num && t.run <= t.num
  {
    SliceStep(v, PixelStep(v.values[s.num], s, bigImage))
  }

  /** The scan from state `s` to the end of the row. */
  function Scanned(v: ColorLine, s: Scan, bigImage: bool): (t: Scan)
    requires WellFormed(v) && s.run <= s.num
    ensures t.num >= |v.values|
    decreases |v.values| - s.num
  {
    if s.num >= |v.values| then s else Scanned(v, Step(v, s, bigImage), bigImage)
  }

  /** The crossings `find_crossings_from_average` reports for the row. */
  function CrossingsFromAverage(v: ColorLine, bigImage: bool): seq<nat>
    requires WellFormed(v)
  {
    Scanned(v, Start(v), bigImage).cs
  }

  /** Progress holds for any later pixel once it holds for one. */
  lemma ProgressLater(cs: seq<nat>, count: nat, num: nat, num': nat, len: nat)
    requires Progress(cs, count, num, len) && num <= num'
    ensures Progress(cs, count, num', len)
  {
  }

  /** A crossing keeps the crossings increasing and inside the row. */
  lemma CrossedProgress(s: Scan, bigImage: bool, up: bool, len: nat)
    requires s.num < len && Progress(s.cs, s.run, s.num, len)
    ensures var t := Crossed(s, bigImage, up); Progress(t.cs, t.run, s.num + 1, len)
  {
    AppendIncreasing(s.cs, if bigImage then s.num - s.run / 2 else s.num);
  }

  /** Extending or closing a run keeps the crossings increasing, inside
      the row, and before the start of the run. */
  lemma ComparedProgress(val1: Byte, val2: Byte, s: Scan, len: nat)
    requires s.num < len && Progress(s.cs, s.run, s.num, len)
    ensures var t := Compared(val1, val2, s); Progress(t.cs, t.run, s.num + 1, len)
  {
    if val1 > val2 && s.armed && s.run > 3 {
      AppendIncreasing(s.cs, s.num - s.run);
      AppendIncreasing(s.cs + [s.num - s.run], s.num);
      assert s.cs + [s.num - s.run] + [s.num] == s.cs + [s.num - s.run, s.num];
    } else {
      assert s.cs + [] == s.cs;
    }
  }

  /** A pixel keeps the crossings increasing and inside the row, and
      before the start of the current run. */
  lemma PixelStepProgress(col: Byte, s: Scan, bigImage: bool, len: nat)
    requires s.num < len && Progress(s.cs, s.run, s.num, len)
    ensures var t := PixelStep(col, s, bigImage); Progress(t.cs, t.run, s.num + 1, len)
  {
    if s.up {
      if col < s.range.lo { CrossedProgress(s, bigImage, false, len); }
      else { ComparedProgress(col, s.range.hi, s, len); }
    } else {
      if col > s.range.hi { CrossedProgress(s, bigImage, true, len); }
      else { ComparedProgress(s.range.lo, col, s, len); }
    }
  }

  /** Every state the scan passes through keeps the crossings increasing
      and inside the row. */
  lemma {:induction false} ScannedProgress(v: ColorLine, s: Scan, bigImage: bool)
    requires WellFormed(v) && Progress(s.cs, s.run, s.num, |v.values|)
    ensures var t := Scanned(v, s, bigImage); Progress(t.cs, t.run, t.num, |v.values|)
    decreases |v.values| - s.num
  {
    if s.num < |v.values| {
      var p := PixelStep(v.values[s.num], s, bigImage);
      PixelStepProgress(v.values[s.num], s, bigImage, |v.values|);
      ProgressLater(p.cs, p.run, s.num + 1, Step(v, s, bigImage).num, |v.values|);
      ScannedProgress(v, Step(v, s, bigImage), bigImage);
    }
  }

  /** The reported crossings are increasing pixel positions inside the
      row. */
  lemma CrossingsFromAverageShape(v: ColorLine, bigImage: bool)
    requires WellFormed(v)
    ensures var cs := CrossingsFromAverage(v, bigImage);
      Increasing(cs) && forall i :: 0 <= i < |cs| ==> cs[i] < |v.values|
  {
    ScannedProgress(v, Start(v), bigImage);
  }

  /** One pixel of the scan (color_line_helpers.rs:46-71): while above the
      band's low end a pixel below it is a downward crossing, otherwise the
      run is extended or closed against the band's high end; dually while
      below the band's high end. */
  method ScanPixel(col: Byte, range: Range, cur: bool, num: nat, count: nat, bflag: bool, cs: seq<nat>,
                   bigImage: bool, ghost slc: nat, ghost curLoc: nat, ghost len: nat)
    returns (cur': bool, count': nat, bflag': bool, cs': seq<nat>)
    requires num < len && Progress(cs, count, num, len)
    ensures Scan(num, slc, curLoc, range, cur', count', bflag', cs')
         == PixelStep(col, Scan(num, slc, curLoc, range, cur, count, bflag, cs), bigImage)
  {
    cur' := cur;
    if cur {
      if col < range.lo {
        cur' := false;
        cs' := PushCrossing(num, count, bigImage, cs, len);
        count', bflag' := 0, false;
      } else {
        count', bflag', cs' := CompareRowValueWithBuffer(col, range.hi, num, count, bflag, cs, len);
      }
    } else {
      if col > range.hi {
        cur' := true;
        cs' := PushCrossing(num, count, bigImage, cs, len);
        count', bflag' := 0, true;
      } else {
        count', bflag', cs' := CompareRowValueWithBuffer(range.lo, col, num, count, bflag, cs, len);
      }
    }
  }

  /** The slice counter after a pixel (color_line_helpers.rs:72-82), with
      `num` already past the pixel. */
  method AdvanceSlice(v: ColorLine, num: nat, slc: nat, curLoc: nat, range: Range)
    returns (num': nat, slc': nat, curLoc': nat, range': Range)
    requires WellFormed(v) && num > 0
    ensures forall up, run, armed, cs ::
      Scan(num', slc', curLoc', range', up, run, armed, cs) == SliceStep(v, Scan(num - 1, slc, curLoc, range, up, run, armed, cs))
  {
    num', slc', curLoc', range' := num, slc + 1, curLoc, range;
    if slc' >= v.sliceSize {
      range' := FindRangeBuffer(curLoc, v);
      var diff := range'.next - curLoc;
      if diff > 1 {
        MulMono(v.sliceSize, 0, diff);
        num' := num + v.sliceSize * diff;
      }
      curLoc' := range'.next;
      slc' := 0;
    }
  }

  /** The set-up of `find_crossings_from_average` (color_line_helpers.rs:22-43):
      the flag, and the state the scan starts from. */
  method StartScan(v: ColorLine) returns (flag: bool, cur: bool, range: Range, curLoc: nat, num: nat, slc: nat)
    requires WellFormed(v)
    ensures flag <==> !(v.values[0] < FirstCentre(v))
    ensures Scan(num, slc, curLoc, range, cur, 0, cur, []) == Start(v)
  {
    var size := v.sliceSize;
    flag := true;
    cur := true;
    curLoc := 0;
    var centre := FirstCentre(v);
    if v.values[0] < centre {
      flag := false;
      cur := true;
    }
    var b := BandAround(centre, v.maxLoc[0] - v.minLoc[0]);
    range := Range(b.lo, b.hi, 0);
    slc := size / 2;
    num := 0;
    if v.maxLoc[0] - v.minLoc[0] < FlatSpan {
      range := FindRangeBuffer(curLoc, v);
      curLoc := range.next;
      MulMono(size, 0, curLoc - 1);
      num := slc + size * (curLoc - 1);
      slc := 0;
    }
  }

  /** One turn of the scan loop (color_line_helpers.rs:45-83). */
  method ScanStep(v: ColorLine, bigImage: bool, num: nat, slc: nat, curLoc: nat, range: Range,
                  cur: bool, count: nat, bflag: bool, cs: seq<nat>)
    returns (num': nat, slc': nat, curLoc': nat, range': Range, cur': bool, count': nat, bflag': bool, cs': seq<nat>)
    requires WellFormed(v) && num < |v.values| && Progress(cs, count, num, |v.values|)
    ensures Scan(num', slc', curLoc', range', cur', count', bflag', cs')
         == Step(v, Scan(num, slc, curLoc, range, cur, count, bflag, cs), bigImage)
    ensures Progress(cs', count', num', |v.values|)
  {
    ghost var s := Scan(num, slc, curLoc, range, cur, count, bflag, cs);
    PixelStepProgress(v.values[num], s, bigImage, |v.values|);
    cur', count', bflag', cs' := ScanPixel(v.values[num], range, cur, num, count, bflag, cs, bigImage, slc, curLoc, |v.values|);
    num', slc', curLoc', range' := AdvanceSlice(v, num + 1, slc, curLoc, range);
    ghost var p := Scan(num, slc, curLoc, range, cur', count', bflag', cs');
    assert Scan(num', slc', curLoc', range', cur', count', bflag', cs') == SliceStep(v, p);
    ProgressLater(cs', count', num + 1, num', |v.values|);
  }

  /** `find_crossings_from_average` (color_line_helpers.rs:20-85): the flag
      is false exactly when the first pixel lies below the first slice's
      centre, and the crossings are those of the scan from `Start`. */
  method FindCrossingsFromAverage(v: ColorLine, bigImage: bool) returns (flag: bool, cs: seq<nat>)
    requires WellFormed(v)
    ensures flag <==> !(v.values[0] < FirstCentre(v))
    ensures cs == CrossingsFromAverage(v, bigImage)
  {
    var cur, range, curLoc, num, slc;
    flag, cur, range, curLoc, num, slc := StartScan(v);
    var count, bflag := 0, cur;
    cs := [];
    ghost var goal := Scanned(v, Start(v), bigImage);
    while num < |v.values|
      invariant Progress(cs, count, num, |v.values|)
      invariant Scanned(v, Scan(num, slc, curLoc, range, cur, count, bflag, cs), bigImage) == goal
      decreases |v.values| - num
    {
      num, slc, curLoc, range, cur, count, bflag, cs := ScanStep(v, bigImage, num, slc, curLoc, range, cur, count, bflag, cs);
    }
  }
}
