/** The hysteresis crossing detector that the row scan calls
    (`find_crossings_from_average` and `find_range_buffer` of
    barcode_detector.rs): a walk along the row that records every pixel
    where the intensity leaves a threshold band on the side opposite to the
    last crossing. The band is re-centred after every slice from the
    statistics of the next slice pair. */
module RowCrossings {
  import opened BarcodeTypes

  /** The band of `find_range_buffer` (barcode_detector.rs:178-202) for the
      slice pair `cur`, `cur + 1`: the pair's extremes and the mean of the
      two slice averages (weighted by pixel count when `cur + 1` is the
      final, possibly shorter slice); the last slice alone when there is no
      next one. */
  function RangeBuffer(v: ColorLine, cur: nat): (b: Band)
    requires WellFormed(v) && cur < |v.maxLoc|
    ensures b.lo <= b.hi && b.hi - b.lo >= 3
  {
    var len := |v.maxLoc|;
    var next := cur + 1;
    if next < len then
      var mx := Max(v.maxLoc[cur], v.maxLoc[next]);
      var mn := Min(v.minLoc[cur], v.minLoc[next]);
      var avg :=
        if next != len - 1 then v.avgLoc[cur] / 2 + v.avgLoc[next] / 2
        else Weighted(v.avgLoc[cur], v.avgLoc[next], v.sliceSize, |v.values| % v.sliceSize);
      BandAround(avg, mx - mn)
    else
      BandAround(v.avgLoc[cur], v.maxLoc[cur] - v.minLoc[cur])
  }

  /** The band before the first re-centring: around the first slice's
      average (barcode_detector.rs:145-151). */
  function InitialBand(v: ColorLine): (b: Band)
    requires WellFormed(v)
    ensures b.lo <= v.avgLoc[0] <= b.hi
  {
    BandAround(v.avgLoc[0], v.maxLoc[0] - v.minLoc[0])
  }

  /** The slice counter before pixel `num`: how many times the band has
      been re-centred, and how far into the current slice the counter is. */
  datatype Phase = Phase(updates: nat, slc: nat)

  /** The counter starts half a slice in and wraps every `size` pixels,
      re-centring the band each time it wraps. */
  function PhaseAt(size: nat, num: nat): Phase
    requires size > 0
  {
    if num == 0 then Phase(0, size / 2)
    else
      var p := PhaseAt(size, num - 1);
      if p.slc + 1 >= size then Phase(p.updates + 1, 0) else Phase(p.updates, p.slc + 1)
  }

  /** In closed form, the counter splits num + size / 2 into whole slices
      and a rest below one slice. */
  lemma {:induction false} PhaseClosed(size: nat, num: nat)
    requires size > 0
    ensures var p := PhaseAt(size, num);
      num + size / 2 == p.updates * size + p.slc && p.slc < size
  {
    if num > 0 {
      PhaseClosed(size, num - 1);
      var p := PhaseAt(size, num - 1);
      if p.slc + 1 >= size {
        MulSucc(p.updates, size);
      }
    }
  }

  lemma MulSucc(k: nat, size: nat)
    ensures (k + 1) * size == k * size + size
  {
  }

  /** A re-centring after pixel `num` of the row reads an existing slice. */
  lemma UpdateInRange(v: ColorLine, num: nat)
    requires WellFormed(v) && num < v.len
    requires PhaseAt(v.sliceSize, num).slc + 1 >= v.sliceSize
    ensures PhaseAt(v.sliceSize, num).updates < |v.maxLoc|
  {
    var size := v.sliceSize;
    PhaseClosed(size, num);
    var p := PhaseAt(size, num);
    assert p.slc == size - 1;
    SliceIndexBound(p.updates, size, v.len);
  }

  /** The band pixel `num` is compared against: the initial one until the
      first re-centring, then the band of the slice pair last re-centred on. */
  function BandAt(v: ColorLine, num: nat): (b: Band)
    requires WellFormed(v) && num < v.len
    ensures b.lo <= b.hi
  {
    var p := PhaseAt(v.sliceSize, num);
    if p.updates == 0 then InitialBand(v)
    else
      BandAtBound(v, num);
      RangeBuffer(v, p.updates - 1)
  }

  lemma BandAtBound(v: ColorLine, num: nat)
    requires WellFormed(v) && num < v.len
    ensures PhaseAt(v.sliceSize, num).updates <= |v.maxLoc|
  {
    if num > 0 {
      var p := PhaseAt(v.sliceSize, num - 1);
      if p.slc + 1 >= v.sliceSize {
        UpdateInRange(v, num - 1);
      } else {
        BandAtBound(v, num - 1);
      }
    }
  }

  /** The band of every pixel of the row. */
  function Bands(v: ColorLine): (bs: seq<Band>)
    requires WellFormed(v)
    ensures |bs| == v.len && forall i :: 0 <= i < v.len ==> bs[i] == BandAt(v, i)
  {
    seq(v.len, i requires 0 <= i < v.len => BandAt(v, i))
  }

  /** From one pixel to the next the band stays, unless the slice counter
      wraps: then it is the band of the slice pair the counter left. */
  lemma BandStep(v: ColorLine, num: nat)
    requires WellFormed(v) && num + 1 < v.len
    ensures var p := PhaseAt(v.sliceSize, num);
      && (p.slc + 1 >= v.sliceSize ==>
            p.updates < |v.maxLoc| && Bands(v)[num + 1] == RangeBuffer(v, p.updates))
      && (p.slc + 1 < v.sliceSize ==> Bands(v)[num + 1] == Bands(v)[num])
  {
    var p := PhaseAt(v.sliceSize, num);
    if p.slc + 1 >= v.sliceSize {
      UpdateInRange(v, num);
    }
  }

  /** The detector state after a prefix of the row: whether the last
      crossing (or the start) was upward, and the crossings so far. */
  datatype ScanState = ScanState(up: bool, cs: seq<nat>)

  /** The scan over the first `n` pixels against their bands: starting
      upward, a pixel below its band's low end is a downward crossing, and
      after that a pixel above its band's high end is an upward one. */
  function Scan(values: seq<Byte>, bands: seq<Band>, n: nat): ScanState
    requires n <= |values| && n <= |bands|
  {
    if n == 0 then ScanState(true, [])
    else
      var s := Scan(values, bands, n - 1);
      var x := values[n - 1];
      if s.up && x < bands[n - 1].lo then ScanState(false, s.cs + [n - 1])
      else if !s.up && x > bands[n - 1].hi then ScanState(true, s.cs + [n - 1])
      else s
  }

  /** The crossings are increasing pixel positions, and the scan is upward
      exactly after an even number of them. */
  lemma {:induction false} ScanShape(values: seq<Byte>, bands: seq<Band>, n: nat)
    requires n <= |values| && n <= |bands|
    ensures var s := Scan(values, bands, n);
      Increasing(s.cs) && (forall i :: 0 <= i < |s.cs| ==> s.cs[i] < n) && (s.up <==> |s.cs| % 2 == 0)
  {
    if n > 0 {
      ScanShape(values, bands, n - 1);
      var cs, cs' := Scan(values, bands, n - 1).cs, Scan(values, bands, n).cs;
      forall i, j | 0 <= i < j < |cs'| ensures Below(cs', i, j) {
        if j < |cs| {
          assert Below(cs, i, j);
        }
      }
    }
  }

  /** Crossing `k` is a pixel below its band when `k` is even and above it
      when `k` is odd. */
  lemma {:induction false} ScanCrossing(values: seq<Byte>, bands: seq<Band>, n: nat, k: nat)
    requires n <= |values| && n <= |bands| && k < |Scan(values, bands, n).cs|
    ensures var c := Scan(values, bands, n).cs[k];
      c < n &&
      (if k % 2 == 0 then values[c] < bands[c].lo else values[c] > bands[c].hi)
  {
    var s := Scan(values, bands, n - 1);
    ScanShape(values, bands, n - 1);
    if k < |s.cs| {
      ScanCrossing(values, bands, n - 1, k);
    }
  }

  /** Every pixel that is not a crossing stays on its side of the band:
      pixels after crossing k - 1 and before crossing k are at or above the
      band's low end when k is even, at or below its high end when k is
      odd. */
  lemma {:induction false} ScanQuiet(values: seq<Byte>, bands: seq<Band>, n: nat, k: nat, i: nat)
    requires n <= |values| && n <= |bands| && i < n
    requires var cs := Scan(values, bands, n).cs;
      k <= |cs| && (k == 0 || cs[k - 1] < i) && (k == |cs| || i < cs[k])
    ensures if k % 2 == 0 then values[i] >= bands[i].lo else values[i] <= bands[i].hi
  {
    var s := Scan(values, bands, n - 1);
    ScanShape(values, bands, n - 1);
    if i < n - 1 {
      ScanQuiet(values, bands, n - 1, k, i);
    }
  }

  /** One pixel of the scan (barcode_detector.rs:155-165): a crossing
      when the pixel leaves the band on the side away from the last one. */
  method ScanPixel(ghost values: seq<Byte>, ghost bands: seq<Band>, num: nat,
                   col: Byte, range: Band, up: bool, cs: seq<nat>) returns (up': bool, cs': seq<nat>)
    requires num < |values| && num < |bands| && col == values[num] && range == bands[num]
    requires Scan(values, bands, num) == ScanState(up, cs)
    ensures Scan(values, bands, num + 1) == ScanState(up', cs')
  {
    up', cs' := up, cs;
    if up {
      if col < range.lo {
        up' := false;
        cs' := cs + [num];
      }
    } else {
      if col > range.hi {
        up' := true;
        cs' := cs + [num];
      }
    }
  }

  /** The slice counter after pixel `num` (barcode_detector.rs:167-172):
      when it wraps, the band is re-centred on the slice pair it left. */
  method AdvanceSlice(v: ColorLine, num: nat, curLoc: nat, slc: nat, range: Band)
    returns (curLoc': nat, slc': nat, range': Band)
    requires WellFormed(v) && num < v.len
    requires PhaseAt(v.sliceSize, num) == Phase(curLoc, slc) && range == Bands(v)[num]
    ensures PhaseAt(v.sliceSize, num + 1) == Phase(curLoc', slc')
    ensures num + 1 < v.len ==> range' == Bands(v)[num + 1]
  {
    if num + 1 < v.len {
      BandStep(v, num);
    }
    curLoc', slc', range' := curLoc, slc + 1, range;
    if slc' >= v.sliceSize {
      UpdateInRange(v, num);
      range' := RangeBuffer(v, curLoc);
      curLoc' := curLoc + 1;
      slc' := 0;
    }
  }

  /** `find_crossings_from_average` (barcode_detector.rs:140-176): the
      flag tells whether the row starts at or above the first slice's
      average, and the crossings are those of `Scan` over the whole row. */
  method FindCrossings(v: ColorLine) returns (flag: bool, cs: seq<nat>)
    requires WellFormed(v)
    ensures flag == !(v.values[0] < v.avgLoc[0])
    ensures cs == Scan(v.values, Bands(v), v.len).cs
  {
    var size := v.sliceSize;
    flag := true;
    var cur := true;
    if v.values[0] < v.avgLoc[0] {
      flag := false;
      cur := true;
    }
    var range := InitialBand(v);
    var num := 0;
    var slc := size / 2;
    var curLoc := 0;
    cs := [];
    ghost var bs := Bands(v);
    while num < |v.values|
      invariant num <= |v.values|
      invariant PhaseAt(size, num) == Phase(curLoc, slc)
      invariant num < |v.values| ==> range == bs[num]
      invariant Scan(v.values, bs, num) == ScanState(cur, cs)
    {
      cur, cs := ScanPixel(v.values, bs, num, v.values[num], range, cur, cs);
      curLoc, slc, range := AdvanceSlice(v, num, curLoc, slc, range);
      num := num + 1;
    }
  }
}
