/** Barcode search along one scanned row (`find_bar_code` and its helpers in
    barcode_detector.rs) and the row-by-row driver with its de-duplication
    (`process_image_by_rows`, `are_barcodes_same`).

    The search runs over the crossing positions of the row: the distances
    between consecutive crossings are the bar widths, a start guard is three
    widths of about the same size, the middle guard five and the end guard
    three more, and the two halves between them are six groups of four bars
    each, every group decoded into module counts by `parse_number_bars`. */
module BarcodeDetector {
  import opened BarcodeTypes
  import opened NumberBars
  import RowProfile
  import RowCrossings
  import BarcodeTranslate

  // ---------------------------------------------------------------------
  // Crossing distances
  // ---------------------------------------------------------------------

  /** The crossings of a row: increasing pixel positions inside the row. */
  predicate ValidCrossings(v: ColorLine, c: seq<nat>)
  {
    Increasing(c) && forall i :: 0 <= i < |c| ==> c[i] < |v.values|
  }

  /** The width between crossing `i` and the next one. */
  function Gap(c: seq<nat>, i: nat): (g: nat)
    requires Increasing(c) && i + 1 < |c|
    ensures g > 0
  {
    assert Below(c, i, i + 1);
    c[i + 1] - c[i]
  }

  /** The distances between consecutive crossings: the bar widths. */
  function Diffs(c: seq<nat>): (d: seq<nat>)
    requires Increasing(c)
    ensures |d| == if c == [] then 0 else |c| - 1
    ensures forall i :: 0 <= i < |d| ==> d[i] > 0
  {
    if c == [] then [] else seq(|c| - 1, i requires 0 <= i < |c| - 1 => Gap(c, i))
  }

  lemma DiffAt(c: seq<nat>, i: nat)
    requires Increasing(c) && i + 1 < |c|
    ensures Diffs(c)[i] == c[i + 1] - c[i]
  {
  }

  /** The widths from crossing `i` to crossing `j` add up to the distance
      between them. */
  lemma {:induction false} DiffsSum(c: seq<nat>, i: nat, j: nat)
    requires Increasing(c) && i <= j < |c|
    ensures Sum(Diffs(c)[i..j]) + c[i] == c[j]
  {
    var d := Diffs(c);
    if j == i {
      assert d[i..j] == [];
    } else {
      DiffsSum(c, i, j - 1);
      assert d[i..j][..j - 1 - i] == d[i..j - 1];
      DiffAt(c, j - 1);
    }
  }

  /** The loop of `find_bar_code` that fills `diffs`
      (barcode_detector.rs:208-216). */
  method CrossingDistances(c: seq<nat>) returns (diffs: seq<nat>)
    requires Increasing(c) && |c| > 0
    ensures diffs == Diffs(c)
  {
    diffs := [];
    var f := 0;
    var t := 1;
    while t < |c|
      invariant 1 <= t <= |c| && f == t - 1
      invariant diffs == Diffs(c)[..f]
    {
      DiffAt(c, f);
      assert Diffs(c)[..f + 1] == Diffs(c)[..f] + [c[t] - c[f]];
      diffs := diffs + [c[t] - c[f]];
      t := t + 1;
      f := f + 1;
    }
    assert Diffs(c)[..f] == Diffs(c);
  }

  // ---------------------------------------------------------------------
  // Guards
  // ---------------------------------------------------------------------

  /** An accepted width range [lo, hi]. */
  datatype Tolerance = Tolerance(lo: nat, hi: nat)

  predicate Within(d: nat, r: Tolerance)
  {
    r.lo <= d <= r.hi
  }

  /** The widths accepted as equal to the first guard bar `d`:
      d +- (d / 10 + 2), but never below 1 (barcode_detector.rs:221-222;
      `(d as f32 * 0.1) as usize` is d / 10 for every d below 2^20). */
  function GuardTolerance(d: nat): (r: Tolerance)
    ensures r.lo >= 1 && r.hi == d + d / 10 + 2
    ensures d > 0 ==> Within(d, r)
    ensures Within(0, r) == false
  {
    var rc := d / 10 + 2;
    Tolerance(Max(rc + 1, d) - rc, d + rc)
  }

  /** Every width in `diffs[from..to]` is within the tolerance. */
  predicate AllWithin(diffs: seq<nat>, from: nat, to: nat, r: Tolerance)
    requires from <= to <= |diffs|
  {
    forall i :: from <= i < to ==> Within(diffs[i], r)
  }

  /** `has_bar_code_middle_and_end` (barcode_detector.rs:245-261): the five
      middle-guard widths from t + 25 and the three end-guard widths from
      t + 54 are all within the tolerance. */
  method HasMiddleAndEnd(diffs: seq<nat>, t: nat, r: Tolerance) returns (ok: bool)
    requires t + 57 <= |diffs|
    ensures ok <==> AllWithin(diffs, t + 25, t + 30, r) && AllWithin(diffs, t + 54, t + 57, r)
  {
    var hasMiddle := true;
    var i := t + 25;
    while i < t + 30
      invariant t + 25 <= i <= t + 30
      invariant hasMiddle <==> AllWithin(diffs, t + 25, i, r)
    {
      if diffs[i] < r.lo || diffs[i] > r.hi {
        hasMiddle := false;
      }
      i := i + 1;
    }
    var hasEnd := true;
    i := t + 54;
    while i < t + 57
      invariant t + 54 <= i <= t + 57
      invariant hasEnd <==> AllWithin(diffs, t + 54, i, r)
    {
      if diffs[i] < r.lo || diffs[i] > r.hi {
        hasEnd := false;
      }
      i := i + 1;
    }
    ok := hasMiddle && hasEnd;
  }

  /** The guard test at window `t` (barcode_detector.rs:218-220): the
      widths t - 1 and t match width t - 2, and so do the middle and end
      guards. */
  predicate Guards(diffs: seq<nat>, t: nat)
    requires 2 <= t && t + 57 <= |diffs|
  {
    var r := GuardTolerance(diffs[t - 2]);
    Within(diffs[t], r) && Within(diffs[t - 1], r)
    && AllWithin(diffs, t + 25, t + 30, r) && AllWithin(diffs, t + 54, t + 57, r)
  }

  // ---------------------------------------------------------------------
  // Digit groups and halves
  // ---------------------------------------------------------------------

  /** Estimates the unit (one module) width from the start-guard crossings,
      the row and the colour of the first guard bar (`find_unit_len`). */
  type UnitEstimator = (nat, nat, seq<Byte>, bool) -> real

  /** Decodes one digit group (`parse_ean_code`, barcode_detector.rs:287-289)
      from its four widths, the unit width, the group's pixels and the
      average of the slice it starts in. The reader passes
      `NumberBarsDecoder`; the search below holds for any decoder that keeps
      the contract of `parse_number_bars`. */
  type GroupDecoder = (seq<nat>, real, seq<Byte>, Byte) -> seq<nat>

  /** The contract of `parse_number_bars(.., 7, 4)` on four widths: no
      result, or four module counts adding up to 7. */
  ghost predicate ValidDecoder(dec: GroupDecoder)
  {
    forall lens: seq<nat>, unit: real, vals: seq<Byte>, avg: Byte :: |lens| == 4 ==>
      dec(lens, unit, vals, avg) == [] || (|dec(lens, unit, vals, avg)| == 4 && Sum(dec(lens, unit, vals, avg)) == 7)
  }

  /** `parse_ean_code`: `parse_number_bars` with 7 modules per group and at
      most 4 modules per bar. The group's widths never add up to more than
      its pixels (`GroupBounds`), so the fallback is never taken. */
  function NumberBarsDecoder(parts: PartsEstimator): (dec: GroupDecoder)
  {
    (lens: seq<nat>, unit: real, vals: seq<Byte>, avg: Byte) =>
      if |lens| > 0 && Sum(lens) <= |vals| then NumberBars.NumberBars(lens, unit, vals, avg, 7, 4, parts) else []
  }

  /** `parse_number_bars` keeps the decoder contract. */
  lemma NumberBarsDecoderValid(parts: PartsEstimator)
    ensures ValidDecoder(NumberBarsDecoder(parts))
  {
    var dec := NumberBarsDecoder(parts);
    forall lens: seq<nat>, unit: real, vals: seq<Byte>, avg: Byte | |lens| == 4
      ensures dec(lens, unit, vals, avg) == [] || (|dec(lens, unit, vals, avg)| == 4 && Sum(dec(lens, unit, vals, avg)) == 7)
    {
      if Sum(lens) <= |vals| {
        NumberBarsGroup(lens, unit, vals, avg, 7, 4, parts);
      }
    }
  }

  /** A row ready for the search: a well-formed profile, its crossings and
      their distances. */
  predicate Ready(v: ColorLine, c: seq<nat>, diffs: seq<nat>)
  {
    WellFormed(v) && ValidCrossings(v, c) && diffs == Diffs(c)
  }

  /** Group `r` reads widths r .. r + 3, the pixels from crossing r to
      crossing r + 5, and the average of the slice holding crossing r. */
  lemma GroupBounds(v: ColorLine, c: seq<nat>, diffs: seq<nat>, r: nat)
    requires Ready(v, c, diffs) && r + 5 < |c|
    ensures r + 4 <= |diffs| && c[r] <= c[r + 5] <= |v.values|
    ensures Sum(diffs[r..r + 4]) <= |v.values[c[r]..c[r + 5]]|
    ensures c[r] / v.sliceSize < |v.avgLoc|
  {
    assert Below(c, r, r + 5) && Below(c, r + 4, r + 5);
    DiffsSum(c, r, r + 4);
    PixelSlice(c[r], v.sliceSize, v.len);
  }

  /** The module counts of the four bars from width `r` on
      (barcode_detector.rs:267-272): empty, or four counts adding up to 7. */
  function Group(v: ColorLine, c: seq<nat>, diffs: seq<nat>, ulen: real, dec: GroupDecoder, r: nat): (g: seq<nat>)
    requires Ready(v, c, diffs) && ValidDecoder(dec) && r + 5 < |c|
    ensures g == [] || (|g| == 4 && Sum(g) == 7)
  {
    GroupBounds(v, c, diffs, r);
    dec(diffs[r..r + 4], ulen, v.values[c[r]..c[r + 5]], v.avgLoc[c[r] / v.sliceSize])
  }

  /** The six groups of the half that starts at width `r0`, each decoded
      on its own; a failed group is empty. */
  function Groups(v: ColorLine, c: seq<nat>, diffs: seq<nat>, ulen: real, dec: GroupDecoder, r0: nat): (gs: seq<seq<nat>>)
    requires Ready(v, c, diffs) && ValidDecoder(dec) && r0 + 25 < |c|
    ensures Decodes(gs)
  {
    seq(6, k requires 0 <= k < 6 => Group(v, c, diffs, ulen, dec, r0 + 4 * k))
  }

  /** Six groups, each either failed (empty) or four counts. */
  predicate Decodes(gs: seq<seq<nat>>)
  {
    |gs| == 6 && forall k :: 0 <= k < 6 ==> gs[k] == [] || |gs[k]| == 4
  }

  /** Slots `ix` .. 5 of a half: the groups in order up to the first one
      that fails; that slot and the rest stay zero. */
  function KeepDecoded(gs: seq<seq<nat>>, ix: nat): (h: seq<seq<nat>>)
    requires Decodes(gs) && ix <= 6
    ensures |h| == 6 - ix && forall k :: 0 <= k < |h| ==> |h[k]| == 4
    decreases 6 - ix
  {
    if ix == 6 then []
    else if gs[ix] == [] then seq(6 - ix, _ => ZeroGroup)
    else [gs[ix]] + KeepDecoded(gs, ix + 1)
  }

  /** The half `parse_barcode_section` returns for the groups from width
      `r0` on. */
  function Section(v: ColorLine, c: seq<nat>, diffs: seq<nat>, ulen: real, dec: GroupDecoder, r0: nat): (h: seq<seq<nat>>)
    requires Ready(v, c, diffs) && ValidDecoder(dec) && r0 + 25 < |c|
    ensures GroupsShaped(h)
  {
    KeepDecoded(Groups(v, c, diffs, ulen, dec, r0), 0)
  }

  /** A slot after the first failed group is zero, so when the last slot
      is set, slot `k` holds group `k`, which decoded. */
  lemma {:induction false} KeepDecodedAll(gs: seq<seq<nat>>, ix: nat, k: nat)
    requires Decodes(gs) && ix <= k < 6 && KeepDecoded(gs, ix)[5 - ix] != ZeroGroup
    ensures KeepDecoded(gs, ix)[k - ix] == gs[k] != []
    decreases 6 - ix
  {
    var h := KeepDecoded(gs, ix);
    assert gs[ix] != [] && h == [gs[ix]] + KeepDecoded(gs, ix + 1);
    if ix < k {
      KeepDecodedAll(gs, ix + 1, k);
    }
  }

  /** Writes the four counts of a decoded group into slot `ix`
      (barcode_detector.rs:276-280). */
  method WriteGroup(ret: seq<seq<nat>>, ix: nat, codes: seq<nat>) returns (ret': seq<seq<nat>>)
    requires ix < |ret| && |ret[ix]| == 4 && |codes| == 4
    ensures ret' == ret[ix := codes]
  {
    ret' := ret;
    var i := 0;
    while i < |codes|
      invariant 0 <= i <= 4 && |ret'| == |ret| && |ret'[ix]| == 4
      invariant ret'[ix][..i] == codes[..i] && ret' == ret[ix := ret'[ix]]
    {
      ret' := ret'[ix := ret'[ix][i := codes[i]]];
      i := i + 1;
    }
    assert ret'[ix] == ret'[ix][..4] && codes == codes[..4];
  }

  /** `parse_ean_code` on the group at width `r` (barcode_detector.rs:268-272):
      its four widths, the pixels from crossing r to crossing r + 5 and the
      average of the slice holding crossing r. */
  method ParseGroup(r: nat, diffs: seq<nat>, ulen: real, v: ColorLine, c: seq<nat>, dec: GroupDecoder)
    returns (codes: seq<nat>)
    requires Ready(v, c, diffs) && ValidDecoder(dec) && r + 5 < |c|
    ensures codes == Group(v, c, diffs, ulen, dec, r)
  {
    var n := r + 4;
    GroupBounds(v, c, diffs, r);
    var sIx := c[r];
    var eIx := c[n + 1];
    var avgIx := sIx / v.sliceSize;
    codes := dec(diffs[r..n], ulen, v.values[sIx..eIx], v.avgLoc[avgIx]);
  }

  /** Storing decoded group `ix` advances the decoded prefix by one. */
  lemma SectionStep(gs: seq<seq<nat>>, ix: nat, ret: seq<seq<nat>>, half: seq<seq<nat>>)
    requires Decodes(gs) && ix < 6 && |ret| == 6 && gs[ix] != []
    requires ret[..ix] + KeepDecoded(gs, ix) == half
    ensures ret[ix := gs[ix]][..ix + 1] + KeepDecoded(gs, ix + 1) == half
  {
    PrefixStep(ret, ix, gs[ix], KeepDecoded(gs, ix + 1), half);
  }

  lemma PrefixStep<T>(s: seq<T>, i: nat, x: T, rest: seq<T>, full: seq<T>)
    requires i < |s| && s[..i] + ([x] + rest) == full
    ensures s[i := x][..i + 1] + rest == full
  {
    assert s[i := x][..i + 1] == s[..i] + [x];
  }

  /** A group that fails leaves the rest of the half zero. */
  lemma SectionStop(gs: seq<seq<nat>>, ix: nat, ret: seq<seq<nat>>, half: seq<seq<nat>>)
    requires Decodes(gs) && ix <= 6 && |ret| == 6
    requires ret[..ix] + KeepDecoded(gs, ix) == half
    requires forall k :: ix <= k < 6 ==> ret[k] == ZeroGroup
    requires ix == 6 || gs[ix] == []
    ensures ret == half
  {
    assert ret == ret[..ix] + ret[ix..];
  }

  /** `parse_barcode_section` (barcode_detector.rs:263-285): the six groups
      of the half starting at width `r0`, stopping at the first group that
      does not decode. */
  method ParseBarcodeSection(r0: nat, diffs: seq<nat>, ulen: real, v: ColorLine, c: seq<nat>, dec: GroupDecoder)
    returns (ret: seq<seq<nat>>)
    requires Ready(v, c, diffs) && ValidDecoder(dec) && r0 + 25 < |c|
    ensures ret == Section(v, c, diffs, ulen, dec, r0)
  {
    ghost var gs := Groups(v, c, diffs, ulen, dec, r0);
    ghost var half := Section(v, c, diffs, ulen, dec, r0);
    var r := r0;
    var sectionEnd := r0 + 24;
    var ix := 0;
    ret := ZeroHalf();
    while r < sectionEnd
      invariant ix <= 6 && r == r0 + 4 * ix && |ret| == 6 && forall k :: 0 <= k < 6 ==> |ret[k]| == 4
      invariant ret[..ix] + KeepDecoded(gs, ix) == half
      invariant forall k :: ix <= k < 6 ==> ret[k] == ZeroGroup
    {
      var codes := ParseGroup(r, diffs, ulen, v, c, dec);
      assert codes == gs[ix];
      if |codes| == 0 {
        break;
      }
      SectionStep(gs, ix, ret, half);
      ret := WriteGroup(ret, ix, codes);
      r := r + 4;
      ix := ix + 1;
    }
    SectionStop(gs, ix, ret, half);
  }

  // ---------------------------------------------------------------------
  // find_bar_code
  // ---------------------------------------------------------------------

  /** The colour flag at window `t`: the scan flips it once per window,
      starting from the row's flag. */
  function Light(flag: bool, t: nat): bool
  {
    if t % 2 == 0 then !flag else flag
  }

  /** Each window flips the colour flag. */
  lemma LightFlips(flag: bool, t: nat)
    ensures Light(flag, t + 1) == !Light(flag, t)
  {
    assert (t + 1) % 2 == 1 - t % 2;
  }

  /** The unit width estimated at window `t` from crossings t - 2 and
      t + 1 (barcode_detector.rs:224). */
  function UnitAt(v: ColorLine, flag: bool, c: seq<nat>, unitLen: UnitEstimator, t: nat): real
    requires 2 <= t && t + 1 < |c|
  {
    unitLen(c[t - 2], c[t + 1], v.values, Light(flag, t))
  }

  /** The record window `t` yields for unit width `ulen`: the row, its
      orientation, the first start-guard crossing, the last end-guard
      crossing, and both halves (barcode_detector.rs:225-240). */
  function WindowRecord(v: ColorLine, c: seq<nat>, diffs: seq<nat>, ulen: real, dec: GroupDecoder, t: nat): (rec: BarcodeRecord)
    requires Ready(v, c, diffs) && ValidDecoder(dec) && 2 <= t && t + 58 <= |c|
    ensures Shaped(rec)
  {
    BarcodeRecord([v.pos, v.deg, c[t - 2], c[t + 55]],
                  Section(v, c, diffs, ulen, dec, t + 1), Section(v, c, diffs, ulen, dec, t + 30))
  }

  /** Window `t` is accepted when the guards match and both halves decode
      up to their last group with a non-zero first bar
      (barcode_detector.rs:218-235). */
  predicate WindowAccepts(v: ColorLine, c: seq<nat>, diffs: seq<nat>, ulen: real, dec: GroupDecoder, t: nat)
    requires Ready(v, c, diffs) && ValidDecoder(dec) && 2 <= t && t + 58 <= |c|
  {
    var rec := WindowRecord(v, c, diffs, ulen, dec, t);
    Guards(diffs, t) && rec.left[5][0] != 0 && rec.right[5][0] != 0
  }

  /** The record of window `t`, with the unit width estimated there. */
  function Found(v: ColorLine, flag: bool, c: seq<nat>, unitLen: UnitEstimator, dec: GroupDecoder, t: nat): (rec: BarcodeRecord)
    requires WellFormed(v) && ValidCrossings(v, c) && ValidDecoder(dec) && 2 <= t && t + 58 <= |c|
    ensures Shaped(rec)
  {
    WindowRecord(v, c, Diffs(c), UnitAt(v, flag, c, unitLen, t), dec, t)
  }

  /** Whether window `t` is accepted, with the unit width estimated there. */
  predicate Accepts(v: ColorLine, flag: bool, c: seq<nat>, unitLen: UnitEstimator, dec: GroupDecoder, t: nat)
    requires WellFormed(v) && ValidCrossings(v, c) && ValidDecoder(dec) && 2 <= t && t + 58 <= |c|
  {
    WindowAccepts(v, c, Diffs(c), UnitAt(v, flag, c, unitLen, t), dec, t)
  }

  /** The first position in [t, end) that `ok` holds at, if any. */
  function FirstTrue(ok: nat -> bool, t: nat, end: nat): Option<nat>
    decreases end - t
  {
    if t >= end then None
    else if ok(t) then Some(t)
    else FirstTrue(ok, t + 1, end)
  }

  /** `FirstTrue` finds the least position that `ok` holds at, and none
      when it holds nowhere in the range. */
  lemma {:induction false} FirstTrueIsFirst(ok: nat -> bool, t: nat, end: nat)
    ensures match FirstTrue(ok, t, end)
      case Some(w) => t <= w < end && ok(w) && forall u :: t <= u < w ==> !ok(u)
      case None => forall u :: t <= u < end ==> !ok(u)
    decreases end - t
  {
    if t < end && !ok(t) {
      FirstTrueIsFirst(ok, t + 1, end);
    }
  }

  /** The windows of a row: t in 2 .. |c| - 57, each with crossings t - 2
      through t + 55. */
  function WindowEnd(c: seq<nat>): nat
  {
    if |c| >= 57 then |c| - 57 else 0
  }

  /** Window acceptance as a test on window positions. */
  function AcceptsAt(v: ColorLine, flag: bool, c: seq<nat>, unitLen: UnitEstimator, dec: GroupDecoder): nat -> bool
    requires WellFormed(v) && ValidCrossings(v, c) && ValidDecoder(dec)
  {
    t => 2 <= t && t + 58 <= |c| && Accepts(v, flag, c, unitLen, dec, t)
  }

  /** The first accepted window of the row, if any (the `for` loop of
      barcode_detector.rs:218 returns at the first one). */
  function FirstAccept(v: ColorLine, flag: bool, c: seq<nat>, unitLen: UnitEstimator, dec: GroupDecoder): Option<nat>
    requires WellFormed(v) && ValidCrossings(v, c) && ValidDecoder(dec)
  {
    FirstTrue(AcceptsAt(v, flag, c, unitLen, dec), 2, WindowEnd(c))
  }

  /** `FirstAccept` finds the least accepted window, and none when no
      window is accepted. */
  lemma FirstAcceptIsFirst(v: ColorLine, flag: bool, c: seq<nat>, unitLen: UnitEstimator, dec: GroupDecoder)
    requires WellFormed(v) && ValidCrossings(v, c) && ValidDecoder(dec)
    ensures match FirstAccept(v, flag, c, unitLen, dec)
      case Some(w) =>
        && 2 <= w && w + 58 <= |c| && Accepts(v, flag, c, unitLen, dec, w)
        && forall u :: 2 <= u < w ==> !Accepts(v, flag, c, unitLen, dec, u)
      case None =>
        forall u :: 2 <= u && u + 58 <= |c| ==> !Accepts(v, flag, c, unitLen, dec, u)
  {
    var ok := AcceptsAt(v, flag, c, unitLen, dec);
    FirstTrueIsFirst(ok, 2, WindowEnd(c));
    match FirstAccept(v, flag, c, unitLen, dec)
    case Some(w) =>
      forall u | 2 <= u < w ensures !Accepts(v, flag, c, unitLen, dec, u) {
        assert !ok(u);
      }
    case None =>
      forall u | 2 <= u && u + 58 <= |c| ensures !Accepts(v, flag, c, unitLen, dec, u) {
        assert !ok(u);
      }
  }

  /** Every group of half `h` is the decoded group at its place. */
  ghost predicate Decoded(v: ColorLine, c: seq<nat>, diffs: seq<nat>, ulen: real, dec: GroupDecoder,
                          r0: nat, h: seq<seq<nat>>)
    requires Ready(v, c, diffs) && ValidDecoder(dec) && r0 + 25 < |c| && |h| == 6
  {
    forall k :: 0 <= k < 6 ==> h[k] == Group(v, c, diffs, ulen, dec, r0 + 4 * k) != []
  }

  /** A half whose last group is set holds six decoded groups. */
  lemma HalfDecoded(v: ColorLine, c: seq<nat>, diffs: seq<nat>, ulen: real, dec: GroupDecoder, r0: nat)
    requires Ready(v, c, diffs) && ValidDecoder(dec) && r0 + 25 < |c|
    requires Section(v, c, diffs, ulen, dec, r0)[5] != ZeroGroup
    ensures Decoded(v, c, diffs, ulen, dec, r0, Section(v, c, diffs, ulen, dec, r0))
  {
    forall k | 0 <= k < 6
      ensures Section(v, c, diffs, ulen, dec, r0)[k] == Group(v, c, diffs, ulen, dec, r0 + 4 * k) != []
    {
      KeepDecodedAll(Groups(v, c, diffs, ulen, dec, r0), 0, k);
    }
  }

  /** An accepted window gives a record whose x bounds are ordered and
      non-zero, and whose halves hold six decoded groups each. */
  lemma FoundDecoded(v: ColorLine, flag: bool, c: seq<nat>, unitLen: UnitEstimator, dec: GroupDecoder, t: nat)
    requires WellFormed(v) && ValidCrossings(v, c) && ValidDecoder(dec) && 2 <= t && t + 58 <= |c|
    requires Accepts(v, flag, c, unitLen, dec, t)
    ensures var rec := Found(v, flag, c, unitLen, dec, t);
      && rec.meta[2] < rec.meta[3] && rec.meta[3] > 0
      && Decoded(v, c, Diffs(c), UnitAt(v, flag, c, unitLen, t), dec, t + 1, rec.left)
      && Decoded(v, c, Diffs(c), UnitAt(v, flag, c, unitLen, t), dec, t + 30, rec.right)
  {
    WindowDecoded(v, c, Diffs(c), UnitAt(v, flag, c, unitLen, t), dec, t);
  }

  lemma WindowDecoded(v: ColorLine, c: seq<nat>, diffs: seq<nat>, ulen: real, dec: GroupDecoder, t: nat)
    requires Ready(v, c, diffs) && ValidDecoder(dec) && 2 <= t && t + 58 <= |c|
    requires WindowAccepts(v, c, diffs, ulen, dec, t)
    ensures var rec := WindowRecord(v, c, diffs, ulen, dec, t);
      && rec.meta[2] < rec.meta[3] && rec.meta[3] > 0
      && Decoded(v, c, diffs, ulen, dec, t + 1, rec.left)
      && Decoded(v, c, diffs, ulen, dec, t + 30, rec.right)
  {
    assert Below(c, t - 2, t + 55);
    HalfDecoded(v, c, diffs, ulen, dec, t + 1);
    HalfDecoded(v, c, diffs, ulen, dec, t + 30);
  }

  /** The guard test of one window (barcode_detector.rs:219-223). */
  method CheckGuards(diffs: seq<nat>, t: nat) returns (ok: bool)
    requires 2 <= t && t + 57 <= |diffs|
    ensures ok == Guards(diffs, t)
  {
    var f := t - 2;
    var rangeChange := diffs[f] / 10 + 2;
    var range := Tolerance(Max(rangeChange + 1, diffs[f]) - rangeChange, diffs[f] + rangeChange);
    ok := false;
    if diffs[t] >= range.lo && diffs[t] <= range.hi {
      if diffs[f + 1] >= range.lo && diffs[f + 1] <= range.hi {
        ok := HasMiddleAndEnd(diffs, t, range);
      }
    }
  }

  /** Both halves of a window whose guards match
      (barcode_detector.rs:225-235): the right half is parsed only when the
      left one decodes to its last group. */
  method ParseHalves(v: ColorLine, c: seq<nat>, diffs: seq<nat>, ulen: real, dec: GroupDecoder,
                     t: nat, right: seq<seq<nat>>)
    returns (ok: bool, left': seq<seq<nat>>, right': seq<seq<nat>>)
    requires Ready(v, c, diffs) && ValidDecoder(dec) && 2 <= t && t + 58 <= |c| && GroupsShaped(right)
    ensures var rec := WindowRecord(v, c, diffs, ulen, dec, t);
      && (ok == (rec.left[5][0] != 0 && rec.right[5][0] != 0))
      && GroupsShaped(left') && GroupsShaped(right')
      && (ok ==> left' == rec.left && right' == rec.right)
  {
    var r1, r2 := t + 1, t + 30;
    ok, right' := false, right;
    left' := ParseBarcodeSection(r1, diffs, ulen, v, c, dec);
    if left'[5][0] != 0 {
      right' := ParseBarcodeSection(r2, diffs, ulen, v, c, dec);
      ok := right'[5][0] != 0;
    }
  }

  /** One window of the search (barcode_detector.rs:219-240): the guard
      test, then both halves; the halves are returned even when the window
      is rejected, as the source keeps them. */
  method TryWindow(v: ColorLine, flag: bool, c: seq<nat>, diffs: seq<nat>, unitLen: UnitEstimator,
                   dec: GroupDecoder, t: nat, light: bool, left: seq<seq<nat>>, right: seq<seq<nat>>)
    returns (ok: bool, left': seq<seq<nat>>, right': seq<seq<nat>>)
    requires Ready(v, c, diffs) && ValidDecoder(dec) && 2 <= t && t + 58 <= |c| && light == Light(flag, t)
    requires GroupsShaped(left) && GroupsShaped(right)
    ensures ok == Accepts(v, flag, c, unitLen, dec, t)
    ensures GroupsShaped(left') && GroupsShaped(right')
    ensures ok ==> Found(v, flag, c, unitLen, dec, t) == BarcodeRecord([v.pos, v.deg, c[t - 2], c[t + 55]], left', right')
  {
    ok, left', right' := false, left, right;
    var guards := CheckGuards(diffs, t);
    if guards {
      var ulen := unitLen(c[t - 2], c[t + 1], v.values, light);
      assert ulen == UnitAt(v, flag, c, unitLen, t);
      ok, left', right' := ParseHalves(v, c, diffs, ulen, dec, t, right);
    }
  }

  /** `find_bar_code` (barcode_detector.rs:204-243): with at least 58
      crossings, the first accepted window gives the record; when no
      window is accepted, the metadata stays zero. */
  method FindBarCode(v: ColorLine, flag: bool, c: seq<nat>, unitLen: UnitEstimator, dec: GroupDecoder)
    returns (rec: BarcodeRecord)
    requires WellFormed(v) && ValidCrossings(v, c) && ValidDecoder(dec)
    ensures Shaped(rec)
    ensures |c| < 58 ==> rec == ZeroRecord()
    ensures match FirstAccept(v, flag, c, unitLen, dec)
      case None => rec.meta == [0, 0, 0, 0]
      case Some(t) => 2 <= t && t + 58 <= |c| && rec == Found(v, flag, c, unitLen, dec, t)
  {
    rec := ZeroRecord();
    if |c| >= 58 {
      rec := SearchWindows(v, flag, c, unitLen, dec);
    }
  }

  /** The window loop of `find_bar_code` (barcode_detector.rs:218-242):
      windows are tried from t = 2 on and the first accepted one is
      returned; the halves of rejected windows are kept. */
  method SearchWindows(v: ColorLine, flag: bool, c: seq<nat>, unitLen: UnitEstimator, dec: GroupDecoder)
    returns (rec: BarcodeRecord)
    requires WellFormed(v) && ValidCrossings(v, c) && ValidDecoder(dec) && |c| >= 58
    ensures Shaped(rec)
    ensures match FirstAccept(v, flag, c, unitLen, dec)
      case None => rec.meta == [0, 0, 0, 0]
      case Some(t) => 2 <= t && t + 58 <= |c| && rec == Found(v, flag, c, unitLen, dec, t)
  {
    ghost var ok := AcceptsAt(v, flag, c, unitLen, dec);
    ghost var end := WindowEnd(c);
    var diffs := CrossingDistances(c);
    var light := flag;
    var left, right := ZeroHalf(), ZeroHalf();
    var t := 2;
    while t + 58 <= |c|
      invariant 2 <= t
      invariant light == Light(flag, t - 1)
      invariant GroupsShaped(left) && GroupsShaped(right)
      invariant FirstAccept(v, flag, c, unitLen, dec) == FirstTrue(ok, t, end)
    {
      LightFlips(flag, t - 1);
      light := !light;
      var accepted;
      accepted, left, right := TryWindow(v, flag, c, diffs, unitLen, dec, t, light, left, right);
      assert accepted == ok(t);
      if accepted {
        return BarcodeRecord([v.pos, v.deg, c[t - 2], c[t + 55]], left, right);
      }
      t := t + 1;
    }
    rec := BarcodeRecord([0, 0, 0, 0], left, right);
  }

  // ---------------------------------------------------------------------
  // Row driver
  // ---------------------------------------------------------------------

  /** 10 to the power `k`. */
  function Pow10(k: nat): (p: nat)
    ensures p >= 1
  {
    if k == 0 then 1 else 10 * Pow10(k - 1)
  }

  /** The number of decimal digits of `n`, less one: floor(log10 n). */
  function Log10Floor(n: nat): nat
    requires n >= 1
  {
    if n < 10 then 0 else 1 + Log10Floor(n / 10)
  }

  /** `Log10Floor` is the floor of the decimal logarithm. */
  lemma {:induction false} Log10FloorBounds(n: nat)
    requires n >= 1
    ensures Pow10(Log10Floor(n)) <= n < Pow10(Log10Floor(n) + 1)
  {
    if n >= 10 {
      Log10FloorBounds(n / 10);
    }
  }

  /** `calculate_row_step` as written (barcode_detector.rs:119-123):
      `(log10(h) * 6.0) as u32`, that is floor(log10(h^6)) for a positive
      height; a zero height gives log10(0) = -inf, which the cast turns
      into 0. */
  function RowStepAsWritten(h: nat): nat
  {
    if h == 0 then 0 else Log10Floor(h * h * h * h * h * h)
  }

  /** The step is the number of decimal digits of h^6 less one, and it is
      zero exactly for heights 0 and 1. */
  lemma RowStepAsWrittenBounds(h: nat)
    requires h >= 1
    ensures Pow10(RowStepAsWritten(h)) <= h * h * h * h * h * h < Pow10(RowStepAsWritten(h) + 1)
    ensures RowStepAsWritten(h) == 0 <==> h == 1
  {
    Log10FloorBounds(h * h * h * h * h * h);
    if h >= 2 {
      PowerGrows(h);
      Log10FloorPositive(h * h * h * h * h * h);
    } else {
      assert h * h * h * h * h * h == 1;
    }
  }

  lemma Log10FloorPositive(n: nat)
    requires n >= 10
    ensures Log10Floor(n) >= 1
  {
  }

  /** h^6 is at least 10 once h is at least 2. */
  lemma PowerGrows(h: nat)
    requires h >= 2
    ensures h * h * h * h * h * h >= 10
  {
    var p2 := h * h;
    MulMono(h, 2, h);
    var p3 := p2 * h;
    MulMono(p2, 2, h);
    var p4 := p3 * h;
    MulMono(p3, 2, h);
    assert p4 >= 16;
    MulMono(p4, 1, h);
    MulMono(p4 * h, 1, h);
  }

  /** On a one-row image the step is zero, so however many steps the loop
      of `process_image_by_rows` takes, the row index stays on row 0 and
      the loop never ends. */
  lemma RowStepAsWrittenStalls(n: nat)
    ensures n * RowStepAsWritten(1) < 1
  {
    RowStepAsWrittenBounds(1);
  }

  /** The row step with the stall removed: at least one row, and the
      written formula wherever that is already positive. */
  function RowStep(h: nat): (s: nat)
    ensures s >= 1
    ensures h >= 2 ==> s == RowStepAsWritten(h)
  {
    if h >= 2 then RowStepAsWrittenBounds(h); RowStepAsWritten(h) else 1
  }

  /** `are_barcodes_same` (barcode_detector.rs:125-138): two records are
      the same barcode when their right halves agree group by group. */
  method AreBarcodesSame(a: BarcodeRecord, b: BarcodeRecord) returns (same: bool)
    requires Shaped(a) && Shaped(b)
    ensures same <==> a.right == b.right
  {
    var i := 0;
    while i < |a.right|
      invariant 0 <= i <= 6 && a.right[..i] == b.right[..i]
    {
      var j := 0;
      while j < 4
        invariant 0 <= j <= 4 && a.right[i][..j] == b.right[i][..j]
      {
        if a.right[i][j] != b.right[i][j] {
          return false;
        }
        assert a.right[i][..j + 1] == a.right[i][..j] + [a.right[i][j]];
        assert b.right[i][..j + 1] == b.right[i][..j] + [b.right[i][j]];
        j := j + 1;
      }
      assert a.right[i] == a.right[i][..4] && b.right[i] == b.right[i][..4];
      assert a.right[..i + 1] == a.right[..i] + [a.right[i]];
      assert b.right[..i + 1] == b.right[..i] + [b.right[i]];
      i := i + 1;
    }
    assert a.right == a.right[..6] && b.right == b.right[..6];
    return true;
  }

  /** The crossing flag and crossings of a row (`find_crossings_from_average`
      of barcode_detector.rs:140-176). */
  function RowFlag(line: ColorLine): bool
    requires WellFormed(line)
  {
    !(line.values[0] < line.avgLoc[0])
  }

  function RowCrossingsOf(line: ColorLine): (c: seq<nat>)
    requires WellFormed(line)
    ensures ValidCrossings(line, c)
  {
    RowCrossings.ScanShape(line.values, RowCrossings.Bands(line), line.len);
    RowCrossings.Scan(line.values, RowCrossings.Bands(line), line.len).cs
  }

  /** What the search finds on row `y` with pixels `values`: the record of
      the first accepted window, if any. */
  function RowDetection(values: seq<Byte>, y: nat, unitLen: UnitEstimator, dec: GroupDecoder): Option<BarcodeRecord>
    requires |values| > 0 && ValidDecoder(dec)
  {
    var line := RowProfile.Profile(values, y);
    var flag, c := RowFlag(line), RowCrossingsOf(line);
    match FirstAccept(line, flag, c, unitLen, dec)
    case None => None
    case Some(t) =>
      FirstAcceptIsFirst(line, flag, c, unitLen, dec);
      Some(Found(line, flag, c, unitLen, dec, t))
  }

  /** A detection names its own row, has ordered non-zero x bounds and six
      decoded groups of seven modules in each half. */
  lemma RowDetectionShape(values: seq<Byte>, y: nat, unitLen: UnitEstimator, dec: GroupDecoder)
    requires |values| > 0 && ValidDecoder(dec)
    ensures match RowDetection(values, y, unitLen, dec)
      case None => true
      case Some(b) =>
        && Shaped(b) && b.meta[0] == y && b.meta[2] < b.meta[3] && b.meta[3] > 0
        && (forall k :: 0 <= k < 6 ==> b.left[k] != [] && b.right[k] != [])
        && (forall k :: 0 <= k < 6 ==> Sum(b.left[k]) == 7 && Sum(b.right[k]) == 7)
  {
    var line := RowProfile.Profile(values, y);
    var flag, c := RowFlag(line), RowCrossingsOf(line);
    FirstAcceptIsFirst(line, flag, c, unitLen, dec);
    match FirstAccept(line, flag, c, unitLen, dec)
    case None =>
    case Some(t) =>
      FoundDecoded(line, flag, c, unitLen, dec, t);
  }

  /** One row of `process_image_by_rows` (barcode_detector.rs:45-102): the
      profile, the crossings and the search. The record has a non-zero
      right bound exactly when the row holds a barcode, and is then that
      detection. */
  method ScanImageRow(values: seq<Byte>, y: nat, unitLen: UnitEstimator, dec: GroupDecoder)
    returns (rec: BarcodeRecord)
    requires |values| > 0 && ValidDecoder(dec)
    ensures Shaped(rec)
    ensures rec.meta[3] > 0 <==> RowDetection(values, y, unitLen, dec).Some?
    ensures rec.meta[3] > 0 ==> RowDetection(values, y, unitLen, dec) == Some(rec)
  {
    var line := RowProfile.BuildColorLine(values, y);
    var flag, c := RowCrossings.FindCrossings(line);
    assert c == RowCrossingsOf(line);
    rec := FindBarCode(line, flag, c, unitLen, dec);
    RowDetectionShape(values, y, unitLen, dec);
  }

  /** The list after offering a row's detection: added unless it has the
      same right half as the last one added (barcode_detector.rs:103-112). */
  function Collect(found: seq<BarcodeRecord>, d: Option<BarcodeRecord>): seq<BarcodeRecord>
  {
    match d
    case None => found
    case Some(b) => if found != [] && found[|found| - 1].right == b.right then found else found + [b]
  }

  /** The list after offering the detections of the scanned rows in turn. */
  function Dedup(ds: seq<Option<BarcodeRecord>>): seq<BarcodeRecord>
  {
    if ds == [] then [] else Collect(Dedup(ds[..|ds| - 1]), ds[|ds| - 1])
  }

  /** Detection `k` names row `rows[k]`. */
  predicate Tagged(ds: seq<Option<BarcodeRecord>>, rows: seq<nat>)
  {
    |rows| == |ds| && forall k :: 0 <= k < |ds| && ds[k].Some? ==> |ds[k].value.meta| == 4 && ds[k].value.meta[0] == rows[k]
  }

  /** `b` is one of the detections. */
  predicate Offers(ds: seq<Option<BarcodeRecord>>, b: BarcodeRecord)
  {
    exists k :: 0 <= k < |ds| && ds[k] == Some(b)
  }

  /** Every kept record is one of the detections; when the rows are
      offered in increasing order, the rows of the kept records increase;
      and no record repeats the right half of the one before it. */
  lemma {:induction false} DedupSound(ds: seq<Option<BarcodeRecord>>, rows: seq<nat>)
    requires Tagged(ds, rows) && Increasing(rows)
    ensures forall i :: 0 <= i < |Dedup(ds)| ==> Offers(ds, Dedup(ds)[i]) && |Dedup(ds)[i].meta| == 4
    ensures forall i :: 0 < i < |Dedup(ds)| ==>
      Dedup(ds)[i - 1].meta[0] < Dedup(ds)[i].meta[0] && Dedup(ds)[i - 1].right != Dedup(ds)[i].right
  {
    if ds != [] {
      var n := |ds| - 1;
      var init, prev := ds[..n], Dedup(ds[..n]);
      forall i, j | 0 <= i < j < n ensures Below(rows[..n], i, j) {
        assert Below(rows, i, j);
      }
      DedupSound(init, rows[..n]);
      forall i | 0 <= i < |prev| ensures Offers(ds, prev[i]) {
        OffersPrefix(ds, n, prev[i]);
      }
      if ds[n].Some? && prev != [] {
        OfferedEarlier(ds, rows, prev[|prev| - 1]);
      }
    }
  }

  /** A detection among the first n is a detection. */
  lemma OffersPrefix(ds: seq<Option<BarcodeRecord>>, n: nat, b: BarcodeRecord)
    requires n <= |ds| && Offers(ds[..n], b)
    ensures Offers(ds, b)
  {
    var k :| 0 <= k < n && ds[..n][k] == Some(b);
    assert ds[k] == Some(b);
  }

  /** A detection offered before the last row names an earlier row. */
  lemma OfferedEarlier(ds: seq<Option<BarcodeRecord>>, rows: seq<nat>, b: BarcodeRecord)
    requires Tagged(ds, rows) && Increasing(rows) && ds != [] && ds[|ds| - 1].Some?
    requires Offers(ds[..|ds| - 1], b)
    ensures b.meta[0] < ds[|ds| - 1].value.meta[0]
  {
    var n := |ds| - 1;
    var k :| 0 <= k < n && ds[..n][k] == Some(b);
    assert ds[k] == Some(b);
    assert Below(rows, k, n);
  }

  /** No detection is lost: every scanned row with a barcode has its right
      half among the kept records. */
  lemma {:induction false} DedupComplete(ds: seq<Option<BarcodeRecord>>, k: nat)
    requires k < |ds| && ds[k].Some?
    ensures exists i :: 0 <= i < |Dedup(ds)| && Dedup(ds)[i].right == ds[k].value.right
  {
    var init := ds[..|ds| - 1];
    assert ds == init + [ds[|ds| - 1]];
    DedupExtends(init, ds[|ds| - 1]);
    if k < |ds| - 1 {
      DedupComplete(init, k);
      var i :| 0 <= i < |Dedup(init)| && Dedup(init)[i].right == ds[k].value.right;
      assert Dedup(ds)[i] == Dedup(ds)[..|Dedup(init)|][i];
    }
  }

  /** Offering one more detection keeps the earlier records, and the last
      record then has the offered right half. */
  lemma DedupExtends(ds: seq<Option<BarcodeRecord>>, d: Option<BarcodeRecord>)
    ensures var out, out' := Dedup(ds), Dedup(ds + [d]);
      |out| <= |out'| && out'[..|out|] == out && (d.Some? ==> out' != [] && out'[|out'| - 1].right == d.value.right)
  {
    assert (ds + [d])[..|ds|] == ds;
  }

  /** A rectangular image of `width` pixels per row, read through one
      colour channel. */
  predicate Rectangular(img: seq<seq<Byte>>, width: nat)
  {
    forall y :: 0 <= y < |img| ==> |img[y]| == width
  }

  /** Row k * step lies inside an image of height `h` exactly when k is
      below ceil(h / step), the number of rows the scan visits. */
  lemma RowCountBound(h: nat, step: nat, k: nat)
    requires step > 0
    ensures k * step < h <==> k < SliceCount(h, step)
  {
    if k * step < h {
      SliceIndexBound(k, step, h);
    } else {
      RowBeyond(h, step, k);
    }
  }

  lemma RowsIncrease(j: nat, k: nat, step: nat)
    requires j < k && step > 0
    ensures j * step < k * step
  {
    MulMono(step, j + 1, k);
    assert (j + 1) * step == j * step + step;
  }

  lemma RowBeyond(h: nat, step: nat, k: nat)
    requires step > 0 && k * step >= h
    ensures k >= SliceCount(h, step)
  {
    var q := SliceCount(h, step);
    if k < q {
      var r := (h + step - 1) % step;
      assert h + step - 1 == q * step + r;
      assert (k + 1) * step == k * step + step;
      MulMono(step, k + 1, q);
    }
  }

  /** The rows the scan visits, every `step` rows. */
  function ScannedRows(h: nat, step: nat): (rows: seq<nat>)
    requires step > 0
    ensures |rows| == SliceCount(h, step) && Increasing(rows)
    ensures forall k :: 0 <= k < |rows| ==> rows[k] < h
  {
    var n := SliceCount(h, step);
    var rows := seq(n, k requires 0 <= k < n => k * step);
    forall i, j | 0 <= i < j < n ensures Below(rows, i, j) {
      RowsIncrease(i, j, step);
    }
    forall k | 0 <= k < n ensures rows[k] < h {
      RowCountBound(h, step, k);
    }
    rows
  }

  /** What the search finds on a row, as a function of its pixels and its
      index. */
  type RowDetector = (seq<Byte>, nat) -> Option<BarcodeRecord>

  /** A detection names its own row, has ordered non-zero x bounds and six
      decoded groups in each half. */
  ghost predicate ValidDetector(detect: RowDetector)
  {
    forall values, y :: detect(values, y).Some? ==>
      var b := detect(values, y).value;
      Shaped(b) && b.meta[0] == y && b.meta[2] < b.meta[3] && b.meta[3] > 0
  }

  /** The search of `find_bar_code` over each row's profile and crossings. */
  function Detector(unitLen: UnitEstimator, dec: GroupDecoder): RowDetector
    requires ValidDecoder(dec)
  {
    (values: seq<Byte>, y: nat) => if |values| > 0 then RowDetection(values, y, unitLen, dec) else None
  }

  lemma DetectorValid(unitLen: UnitEstimator, dec: GroupDecoder)
    requires ValidDecoder(dec)
    ensures ValidDetector(Detector(unitLen, dec))
  {
    forall values: seq<Byte>, y: nat | |values| > 0 {
      RowDetectionShape(values, y, unitLen, dec);
    }
  }

  /** The detection of every scanned row. */
  function Offered(img: seq<seq<Byte>>, step: nat, detect: RowDetector): (ds: seq<Option<BarcodeRecord>>)
    requires step > 0
    ensures |ds| == SliceCount(|img|, step)
  {
    var rows := ScannedRows(|img|, step);
    seq(|rows|, k requires 0 <= k < |rows| => detect(img[rows[k]], rows[k]))
  }

  /** What `process_image_by_rows` returns for a row detector. */
  function Detected(img: seq<seq<Byte>>, detect: RowDetector): seq<BarcodeRecord>
  {
    Dedup(Offered(img, RowStep(|img|), detect))
  }

  /** Every reported record is the detection of the row it names, a row
      the scan visits; the rows increase; no record repeats the right half
      of the one before it; and every visited row with a barcode has its
      right half reported. */
  lemma DetectedReported(img: seq<seq<Byte>>, detect: RowDetector)
    requires ValidDetector(detect)
    ensures var out, step := Detected(img, detect), RowStep(|img|);
      && (forall i :: 0 <= i < |out| ==>
            && Shaped(out[i]) && out[i].meta[0] < |img| && out[i].meta[3] > 0
            && out[i].meta[0] % step == 0
            && detect(img[out[i].meta[0]], out[i].meta[0]) == Some(out[i]))
      && (forall i :: 0 < i < |out| ==> out[i - 1].meta[0] < out[i].meta[0] && out[i - 1].right != out[i].right)
      && (forall k :: 0 <= k && k * step < |img| && detect(img[k * step], k * step).Some? ==>
            exists i :: 0 <= i < |out| && out[i].right == detect(img[k * step], k * step).value.right)
  {
    var step := RowStep(|img|);
    var rows := ScannedRows(|img|, step);
    var ds := Offered(img, step, detect);
    var out := Dedup(ds);
    assert Tagged(ds, rows);
    DedupSound(ds, rows);
    forall i | 0 <= i < |out|
      ensures Shaped(out[i]) && out[i].meta[0] < |img| && out[i].meta[3] > 0 && out[i].meta[0] % step == 0
      ensures detect(img[out[i].meta[0]], out[i].meta[0]) == Some(out[i])
    {
      assert Offers(ds, out[i]);
      var k :| 0 <= k < |ds| && ds[k] == Some(out[i]);
      assert out[i].meta[0] == k * step;
      DivModUnique(k * step, step, k, 0);
    }
    forall k | 0 <= k && k * step < |img| && detect(img[k * step], k * step).Some?
      ensures exists i :: 0 <= i < |out| && out[i].right == detect(img[k * step], k * step).value.right
    {
      RowCountBound(|img|, step, k);
      assert ds[k] == detect(img[k * step], k * step);
      DedupComplete(ds, k);
    }
  }

  /** Every record `process_image_by_rows` reports can be handed to
      `translate_barcode`: its twelve groups each span seven modules, so
      no lookup in `BARCODE_DICT_POS` goes out of bounds. */
  lemma DetectedTranslatable(img: seq<seq<Byte>>, unitLen: UnitEstimator, dec: GroupDecoder)
    requires ValidDecoder(dec)
    ensures var out := Detected(img, Detector(unitLen, dec));
      forall i :: 0 <= i < |out| ==> BarcodeTranslate.Decodable(out[i])
  {
    var detect := Detector(unitLen, dec);
    var out := Detected(img, detect);
    DetectorValid(unitLen, dec);
    DetectedReported(img, detect);
    forall i | 0 <= i < |out| ensures BarcodeTranslate.Decodable(out[i]) {
      var y := out[i].meta[0];
      assert detect(img[y], y) == Some(out[i]);
      assert |img[y]| > 0;
      RowDetectionShape(img[y], y, unitLen, dec);
      BarcodeTranslate.SevenWideDecodable(out[i]);
    }
  }

  /** Offers the record of one row (barcode_detector.rs:102-112): kept when
      its right bound is non-zero and its right half differs from the last
      kept one. */
  method OfferRow(found: seq<BarcodeRecord>, values: seq<Byte>, y: nat, unitLen: UnitEstimator, dec: GroupDecoder)
    returns (found': seq<BarcodeRecord>)
    requires |values| > 0 && ValidDecoder(dec) && forall i :: 0 <= i < |found| ==> Shaped(found[i])
    ensures found' == Collect(found, RowDetection(values, y, unitLen, dec))
    ensures forall i :: 0 <= i < |found'| ==> Shaped(found'[i])
  {
    found' := found;
    var barCode := ScanImageRow(values, y, unitLen, dec);
    if barCode.meta[3] > 0 {
      var add := true;
      if |found| > 0 {
        var same := AreBarcodesSame(found[|found| - 1], barCode);
        add := !same;
      }
      if add {
        found' := found + [barCode];
      }
    }
  }

  /** The detection list after the rows before row k, when row k is
      inside the image, extended by row k's detection. */
  lemma OfferedStep(img: seq<seq<Byte>>, step: nat, detect: RowDetector, k: nat)
    requires step > 0 && k * step < |img|
    ensures var ds := Offered(img, step, detect);
      k < |ds| && ds[k] == detect(img[k * step], k * step)
      && Dedup(ds[..k + 1]) == Collect(Dedup(ds[..k]), ds[k])
  {
    var ds := Offered(img, step, detect);
    RowCountBound(|img|, step, k);
    assert ds[..k + 1][..k] == ds[..k];
  }

  /** `process_image_by_rows` (barcode_detector.rs:40-117): the rows 0,
      step, 2 step, ... below the image height are scanned in turn and
      their records offered to the list. */
  method ProcessImageByRows(img: seq<seq<Byte>>, width: nat, unitLen: UnitEstimator, dec: GroupDecoder)
    returns (found: seq<BarcodeRecord>)
    requires width > 0 && Rectangular(img, width) && ValidDecoder(dec)
    ensures found == Detected(img, Detector(unitLen, dec))
  {
    var step := RowStep(|img|);
    ghost var detect := Detector(unitLen, dec);
    ghost var ds := Offered(img, step, detect);
    ghost var k := 0;
    var y := 0;
    found := [];
    while y < |img|
      invariant k <= |ds| && y == k * step
      invariant found == Dedup(ds[..k])
      invariant forall i :: 0 <= i < |found| ==> Shaped(found[i])
      decreases |img| - y
    {
      OfferedStep(img, step, detect, k);
      found := OfferRow(found, img[y], y, unitLen, dec);
      assert (k + 1) * step == k * step + step;
      y, k := y + step, k + 1;
    }
    RowCountBound(|img|, step, k);
    assert ds[..k] == ds;
  }
}
