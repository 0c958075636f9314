/** Turning the pixel widths of the four bars of one digit group into whole
    module counts (`parse_number_bars`, integer phase) and the tie-breaker it
    uses between bars of equal width (`compare_bar_by_color`).

    The floating-point estimate of each bar (its width divided by the unit
    length, corrected at the edges by `check_bar_edge`) is a parameter: it
    gives every bar a whole part and a fractional part, and everything after
    that is integer logic that is modelled exactly. */
module NumberBars {
  import opened BarcodeTypes

  // ---------------------------------------------------------------------
  // compare_bar_by_color
  // ---------------------------------------------------------------------

  /** The lower extreme the comparison keeps over positions 0 .. |v1| - 1 of
      both slices, starting from 255. */
  function PairLow(v1: seq<Byte>, v2: seq<Byte>): Byte
    requires |v1| <= |v2|
  {
    if v1 == [] then 255
    else Min(PairLow(v1[..|v1| - 1], v2), Min(v1[|v1| - 1], v2[|v1| - 1]))
  }

  /** The upper extreme, starting from 0. */
  function PairHigh(v1: seq<Byte>, v2: seq<Byte>): Byte
    requires |v1| <= |v2|
  {
    if v1 == [] then 0
    else Max(PairHigh(v1[..|v1| - 1], v2), Max(v1[|v1| - 1], v2[|v1| - 1]))
  }

  /** The score of bar `v1` against bar `v2`: the summed distance of both
      bars from the centre of their common intensity range, negated when
      `v2` is the brighter bar. */
  function ColorScore(v1: seq<Byte>, v2: seq<Byte>): int
    requires |v1| <= |v2|
  {
    var n := |v1|;
    var s1, s2 := Sum(v1), Sum(v2[..n]);
    var base := (s1 + s2) - n * (PairHigh(v1, v2) + PairLow(v1, v2));
    if s2 > s1 then -base else base
  }

  /** `compare_bar_by_color` (barcode_detector.rs:393-424): one pass that
      keeps both sums and the common extremes. */
  method CompareBarByColor(vals1: seq<Byte>, vals2: seq<Byte>) returns (r: int)
    requires |vals1| <= |vals2|
    ensures r == ColorScore(vals1, vals2)
  {
    var len := |vals1|;
    var sum1, sum2 := 0, 0;
    var lo: Byte, hi: Byte := 255, 0;
    var i := 0;
    while i < len
      invariant 0 <= i <= len
      invariant lo == PairLow(vals1[..i], vals2) && hi == PairHigh(vals1[..i], vals2)
      invariant sum1 == Sum(vals1[..i]) && sum2 == Sum(vals2[..i])
    {
      assert vals1[..i + 1][..i] == vals1[..i] && vals2[..i + 1][..i] == vals2[..i];
      if vals2[i] > vals1[i] {
        if vals2[i] > hi {
          hi := vals2[i];
        }
        if vals1[i] < lo {
          lo := vals1[i];
        }
      } else {
        if vals1[i] > hi {
          hi := vals1[i];
        }
        if vals2[i] < lo {
          lo := vals2[i];
        }
      }
      sum1 := sum1 + vals1[i];
      sum2 := sum2 + vals2[i];
      i := i + 1;
    }
    assert vals1[..len] == vals1;
    var ct := hi + lo;
    if sum2 > sum1 {
      r := ((sum2 + sum1) - len * ct) * -1;
    } else {
      r := (sum2 + sum1) - len * ct;
    }
  }

  /** The extremes are those of all values of both slices. */
  lemma {:induction false} PairExtremes(v1: seq<Byte>, v2: seq<Byte>)
    requires |v1| <= |v2|
    ensures forall i :: 0 <= i < |v1| ==> PairLow(v1, v2) <= v1[i] && PairLow(v1, v2) <= v2[i]
    ensures forall i :: 0 <= i < |v1| ==> v1[i] <= PairHigh(v1, v2) && v2[i] <= PairHigh(v1, v2)
    ensures PairLow(v1, v2) == 255 || exists i :: 0 <= i < |v1| && (PairLow(v1, v2) == v1[i] || PairLow(v1, v2) == v2[i])
    ensures PairHigh(v1, v2) == 0 || exists i :: 0 <= i < |v1| && (PairHigh(v1, v2) == v1[i] || PairHigh(v1, v2) == v2[i])
  {
    if v1 != [] {
      var init := v1[..|v1| - 1];
      PairExtremes(init, v2);
      var lo, hi := PairLow(init, v2), PairHigh(init, v2);
      if lo != 255 && lo < Min(v1[|v1| - 1], v2[|v1| - 1]) {
        var i :| 0 <= i < |init| && (lo == init[i] || lo == v2[i]);
        assert PairLow(v1, v2) == v1[i] || PairLow(v1, v2) == v2[i];
      }
      if hi != 0 && hi > Max(v1[|v1| - 1], v2[|v1| - 1]) {
        var i :| 0 <= i < |init| && (hi == init[i] || hi == v2[i]);
        assert PairHigh(v1, v2) == v1[i] || PairHigh(v1, v2) == v2[i];
      }
    }
  }

  /** On equal lengths the extremes are the minimum and maximum of both
      slices together. */
  lemma ExtremesOfBoth(v1: seq<Byte>, v2: seq<Byte>)
    requires |v1| == |v2|
    ensures PairLow(v1, v2) == Lowest(v1 + v2)
    ensures PairHigh(v1, v2) == Highest(v1 + v2)
  {
    var both := v1 + v2;
    PairExtremes(v1, v2);
    LowestIsMinimum(both);
    HighestIsMaximum(both);
    var lo, hi := PairLow(v1, v2), PairHigh(v1, v2);
    assert forall i :: 0 <= i < |both| ==> lo <= both[i] && both[i] <= hi by {
      forall i | 0 <= i < |both| ensures lo <= both[i] <= hi {
        if i >= |v1| { assert both[i] == v2[i - |v1|]; }
      }
    }
    if both != [] {
      var j :| 0 <= j < |both| && Lowest(both) == both[j];
      if lo != 255 {
        var i :| 0 <= i < |v1| && (lo == v1[i] || lo == v2[i]);
        assert lo == both[i] || lo == both[|v1| + i];
      }
      var k :| 0 <= k < |both| && Highest(both) == both[k];
      if hi != 0 {
        var i :| 0 <= i < |v1| && (hi == v1[i] || hi == v2[i]);
        assert hi == both[i] || hi == both[|v1| + i];
      }
    }
  }

  lemma {:induction false} PairExtremesSymmetric(v1: seq<Byte>, v2: seq<Byte>)
    requires |v1| == |v2|
    ensures PairLow(v1, v2) == PairLow(v2, v1) && PairHigh(v1, v2) == PairHigh(v2, v1)
  {
    if v1 != [] {
      var n := |v1| - 1;
      PairExtremesSymmetric(v1[..n], v2[..n]);
      PairPrefix(v1[..n], v2);
      PairPrefix(v2[..n], v1);
    }
  }

  /** The extremes over a prefix read only the matching prefix of `v2`. */
  lemma {:induction false} PairPrefix(v1: seq<Byte>, v2: seq<Byte>)
    requires |v1| <= |v2|
    ensures PairLow(v1, v2) == PairLow(v1, v2[..|v1|]) && PairHigh(v1, v2) == PairHigh(v1, v2[..|v1|])
  {
    if v1 != [] {
      var n := |v1| - 1;
      PairPrefix(v1[..n], v2);
      PairPrefix(v1[..n], v2[..|v1|]);
      assert v2[..|v1|][..n] == v2[..n];
    }
  }

  /** Swapping the bars negates the score when their sums differ and keeps
      it when they are equal. */
  lemma ColorScoreAntisymmetric(v1: seq<Byte>, v2: seq<Byte>)
    requires |v1| == |v2|
    ensures Sum(v1) != Sum(v2) ==> ColorScore(v1, v2) == -ColorScore(v2, v1)
    ensures Sum(v1) == Sum(v2) ==> ColorScore(v1, v2) == ColorScore(v2, v1)
  {
    PairExtremesSymmetric(v1, v2);
    assert v1[..|v2|] == v1 && v2[..|v1|] == v2;
  }

  // ---------------------------------------------------------------------
  // parse_number_bars, integer phase
  // ---------------------------------------------------------------------

  /** The floating-point estimate of one bar, `parts`: its whole number of
      modules (`parts.trunc()`) and the fractional rest (`parts.fract()`). */
  datatype BarEstimate = BarEstimate(whole: nat, frac: real)

  /** Computes a bar's estimate from its pixel width, the unit length, its
      pixels and the slice average (barcode_detector.rs:300-315). */
  type PartsEstimator = (nat, real, seq<Byte>, Byte) -> BarEstimate

  /** An entry of `fracs`: the bar's index, its fractional part and its
      pixels. */
  datatype Ranked = Ranked(bar: nat, frac: real, vals: seq<Byte>)

  /** `lens[..i]` and `lens[..i + 1]` both fit inside a run of `Sum(lens)`
      pixels. */
  lemma BarBounds(lens: seq<nat>, i: nat)
    requires i < |lens|
    ensures 0 <= Sum(lens[..i]) <= Sum(lens[..i + 1]) == Sum(lens[..i]) + lens[i] <= Sum(lens)
  {
    assert lens[..i + 1][..i] == lens[..i];
    SumPrefixLe(lens, i);
    SumPrefixLe(lens, i + 1);
  }

  /** The pixels of bar `i`: the bars lie side by side from the start of
      `vals`. */
  function BarPixels(lens: seq<nat>, vals: seq<Byte>, i: nat): (p: seq<Byte>)
    requires i < |lens| && Sum(lens) <= |vals|
    ensures |p| == lens[i]
  {
    BarBounds(lens, i);
    vals[Sum(lens[..i]) .. Sum(lens[..i + 1])]
  }

  /** The estimate of every bar. */
  function Estimates(lens: seq<nat>, unit: real, vals: seq<Byte>, avgCol: Byte, parts: PartsEstimator): (es: seq<BarEstimate>)
    requires Sum(lens) <= |vals|
    ensures |es| == |lens|
  {
    seq(|lens|, i requires 0 <= i < |lens| => parts(lens[i], unit, BarPixels(lens, vals, i), avgCol))
  }

  /** The whole parts of the estimates: `divs` before redistribution. */
  function Wholes(es: seq<BarEstimate>): (ws: seq<nat>)
    ensures |ws| == |es| && forall i :: 0 <= i < |es| ==> ws[i] == es[i].whole
  {
    seq(|es|, i requires 0 <= i < |es| => es[i].whole)
  }

  /** The entries ranked by the insertion sort, in reading order. */
  function Entries(lens: seq<nat>, vals: seq<Byte>, es: seq<BarEstimate>): (rs: seq<Ranked>)
    requires Sum(lens) <= |vals| && |es| == |lens|
    ensures |rs| == |lens|
    ensures forall i :: 0 <= i < |rs| ==> rs[i].bar == i
  {
    seq(|lens|, i requires 0 <= i < |lens| => Ranked(i, es[i].frac, BarPixels(lens, vals, i)))
  }

  predicate TooLong(es: seq<BarEstimate>, maxLen: nat)
  {
    exists i :: 0 <= i < |es| && es[i].whole > maxLen
  }

  /** Whether the new entry `x` is placed before `y`: a larger fraction
      first; on equal fractions the wider bar first, and on equal widths the
      bar that `compare_bar_by_color` scores above zero. */
  predicate Outranks(x: Ranked, y: Ranked)
  {
    || x.frac > y.frac
    || (x.frac == y.frac &&
        if |x.vals| == |y.vals| then ColorScore(x.vals, y.vals) > 0 else |x.vals| > |y.vals|)
  }

  /** One insertion step: `x` moves in from the end past every entry it
      outranks. */
  function Insert(s: seq<Ranked>, x: Ranked): (r: seq<Ranked>)
    ensures |r| == |s| + 1
  {
    if s == [] then [x]
    else if Outranks(x, s[|s| - 1]) then
      Insert(s[..|s| - 1], x) + [s[|s| - 1]]
    else s + [x]
  }

  /** Inserting adds exactly the new entry. */
  lemma {:induction false} InsertPermutes(s: seq<Ranked>, x: Ranked)
    ensures multiset(Insert(s, x)) == multiset(s) + multiset{x}
  {
    if s != [] && Outranks(x, s[|s| - 1]) {
      assert s == s[..|s| - 1] + [s[|s| - 1]];
      InsertPermutes(s[..|s| - 1], x);
    }
  }

  /** The order `fracs` ends in: each entry inserted in turn. */
  function Ranking(es: seq<Ranked>): (r: seq<Ranked>)
    ensures |r| == |es|
  {
    if es == [] then []
    else Insert(Ranking(es[..|es| - 1]), es[|es| - 1])
  }

  /** The ranking is a permutation of the entries. */
  lemma {:induction false} RankingPermutes(es: seq<Ranked>)
    ensures multiset(Ranking(es)) == multiset(es)
  {
    if es != [] {
      var init := es[..|es| - 1];
      RankingPermutes(init);
      InsertPermutes(Ranking(init), es[|es| - 1]);
      assert es == init + [es[|es| - 1]];
    }
  }

  /** Every ranked entry is one of the inputs. */
  lemma RankingFrom(es: seq<Ranked>, j: nat)
    requires j < |es|
    ensures j < |Ranking(es)| && Ranking(es)[j] in es
  {
    var r := Ranking(es);
    RankingPermutes(es);
    assert r[j] in multiset(r);
  }

  lemma EstimateAt(lens: seq<nat>, unit: real, vals: seq<Byte>, avgCol: Byte, parts: PartsEstimator, i: nat)
    requires Sum(lens) <= |vals| && i < |lens|
    ensures Estimates(lens, unit, vals, avgCol, parts)[i] == parts(lens[i], unit, BarPixels(lens, vals, i), avgCol)
  {
  }

  lemma EntryAt(lens: seq<nat>, vals: seq<Byte>, es: seq<BarEstimate>, i: nat)
    requires Sum(lens) <= |vals| && |es| == |lens| && i < |lens|
    ensures Entries(lens, vals, es)[i] == Ranked(i, es[i].frac, BarPixels(lens, vals, i))
  {
  }

  /** Ranking one more entry inserts it into the ranking so far. */
  lemma RankingStep(es: seq<Ranked>, k: nat)
    requires k < |es|
    ensures Ranking(es[..k + 1]) == Insert(Ranking(es[..k]), es[k])
  {
    assert es[..k + 1][..k] == es[..k];
  }

  /** The top-up from rank `num` on, `d` modules still to give: one module
      for the bar at the current rank, then the next rank, wrapping to the
      first after the last. */
  function TopUpFrom(divs: seq<nat>, rank: seq<Ranked>, num: nat, d: nat): (r: seq<nat>)
    requires num < |rank| && forall j :: 0 <= j < |rank| ==> rank[j].bar < |divs|
    ensures |r| == |divs| && Sum(r) == Sum(divs) + d
    decreases d
  {
    if d == 0 then divs
    else
      var b := rank[num].bar;
      SumUpdate(divs, b, divs[b] + 1);
      TopUpFrom(divs[b := divs[b] + 1], rank, if num + 1 >= |rank| then 0 else num + 1, d - 1)
  }

  /** The entries of a bar group rank only bars of the group. */
  lemma RankingBars(lens: seq<nat>, vals: seq<Byte>, es: seq<BarEstimate>)
    requires Sum(lens) <= |vals| && |es| == |lens|
    ensures var r := Ranking(Entries(lens, vals, es));
      |r| == |lens| && forall j :: 0 <= j < |r| ==> r[j].bar < |lens|
  {
    var e := Entries(lens, vals, es);
    forall j | 0 <= j < |lens| ensures Ranking(e)[j].bar < |lens| {
      RankingFrom(e, j);
    }
  }

  /** What follows the estimates: the whole parts `ws`, topped up
      round-robin in rank order while short of `units`, or with one module
      taken from the last-ranked bar when exactly one over and that bar has
      more than one module and a fraction below 0.2; empty when still over. */
  function Settle(ws: seq<nat>, rank: seq<Ranked>, units: nat): seq<nat>
    requires |rank| > 0 && forall j :: 0 <= j < |rank| ==> rank[j].bar < |ws|
  {
    if Sum(ws) < units then TopUpFrom(ws, rank, 0, units - Sum(ws))
    else
      var last := rank[|rank| - 1];
      var trimmed :=
        if Sum(ws) == units + 1 && ws[last.bar] > 1 && last.frac < 0.2
        then ws[last.bar := ws[last.bar] - 1] else ws;
      if Sum(trimmed) > units then [] else trimmed
  }

  /** The whole result of `parse_number_bars`: empty when an estimate is
      wider than `maxLen`, otherwise the settled whole parts. */
  function NumberBars(lens: seq<nat>, unit: real, vals: seq<Byte>, avgCol: Byte,
                      units: nat, maxLen: nat, parts: PartsEstimator): seq<nat>
    requires |lens| > 0 && Sum(lens) <= |vals|
  {
    var es := Estimates(lens, unit, vals, avgCol, parts);
    if TooLong(es, maxLen) then []
    else
      RankingBars(lens, vals, es);
      Settle(Wholes(es), Ranking(Entries(lens, vals, es)), units)
  }

  /** Fractions never increase along a ranking. */
  predicate ByFraction(s: seq<Ranked>)
  {
    forall i, j :: 0 <= i < j < |s| ==> s[i].frac >= s[j].frac
  }

  lemma {:induction false} InsertByFraction(s: seq<Ranked>, x: Ranked)
    requires ByFraction(s)
    ensures ByFraction(Insert(s, x))
  {
    if s != [] {
      var init, last := s[..|s| - 1], s[|s| - 1];
      if Outranks(x, last) {
        InsertByFraction(init, x);
        var r := Insert(init, x);
        InsertPermutes(init, x);
        assert s == init + [last];
        forall y | y in r ensures y.frac >= last.frac {
          assert y in multiset(r);
        }
        assert Insert(s, x) == r + [last];
      }
    }
  }

  /** The ranking puts the larger fractional parts first. */
  lemma {:induction false} RankingByFraction(es: seq<Ranked>)
    ensures ByFraction(Ranking(es))
  {
    if es != [] {
      RankingByFraction(es[..|es| - 1]);
      InsertByFraction(Ranking(es[..|es| - 1]), es[|es| - 1]);
    }
  }

  /** How many entries of `rank` name bar `b`. */
  function BarCount(rank: seq<Ranked>, b: nat): nat
  {
    if rank == [] then 0
    else BarCount(rank[..|rank| - 1], b) + (if rank[|rank| - 1].bar == b then 1 else 0)
  }

  /** The `d` entries a top-up from rank `num` visits: the ranking read
      cyclically from `num`. */
  function Walk(rank: seq<Ranked>, num: nat, d: nat): (w: seq<Ranked>)
    requires num < |rank|
    ensures |w| == d
  {
    seq(d, j requires 0 <= j < d => rank[(num + j) % |rank|])
  }

  /** A top-up gives one module to each bar for each of its places among
      the `d` ranks it visits from `num` on, wrapping past the last rank to
      the first as often as needed. */
  lemma {:induction false} TopUpCounts(divs: seq<nat>, rank: seq<Ranked>, num: nat, d: nat, b: nat)
    requires num < |rank| && b < |divs|
    requires forall j :: 0 <= j < |rank| ==> rank[j].bar < |divs|
    ensures TopUpFrom(divs, rank, num, d)[b] == divs[b] + BarCount(Walk(rank, num, d), b)
    decreases d
  {
    if d > 0 {
      var n := |rank|;
      var c := rank[num].bar;
      var divs' := divs[c := divs[c] + 1];
      var num' := if num + 1 >= n then 0 else num + 1;
      WalkFront(rank, num, d);
      BarCountFront(Walk(rank, num, d), b);
      TopUpCounts(divs', rank, num', d - 1, b);
    }
  }

  /** A walk starts at its first rank and goes on from the next one. */
  lemma WalkFront(rank: seq<Ranked>, num: nat, d: nat)
    requires num < |rank| && d > 0
    ensures var w := Walk(rank, num, d);
      w[0] == rank[num] && w[1..] == Walk(rank, if num + 1 >= |rank| then 0 else num + 1, d - 1)
  {
    var n := |rank|;
    var w, w' := Walk(rank, num, d), Walk(rank, if num + 1 >= n then 0 else num + 1, d - 1);
    DivModUnique(num, n, 0, num);
    assert w[0] == rank[num];
    forall j | 0 <= j < d - 1 ensures w[1..][j] == w'[j] {
      var i := (num + (j + 1)) % n;
      WrapStep(num, j, n);
      assert w[j + 1] == rank[i];
      assert w'[j] == rank[i];
    }
    assert w[1..] == w';
  }

  /** One step further round a cycle of `n` places. */
  lemma WrapStep(num: nat, j: nat, n: nat)
    requires num < n
    ensures (num + (j + 1)) % n == ((if num + 1 >= n then 0 else num + 1) + j) % n
  {
    if num + 1 >= n {
      var q, r := j / n, j % n;
      assert num + (j + 1) == (q + 1) * n + r;
      DivModUnique(num + (j + 1), n, q + 1, r);
    }
  }

  /** Counting from the front: the first entry and the rest. */
  lemma {:induction false} BarCountFront(rank: seq<Ranked>, b: nat)
    requires rank != []
    ensures BarCount(rank, b) == (if rank[0].bar == b then 1 else 0) + BarCount(rank[1..], b)
  {
    if |rank| > 1 {
      var init := rank[..|rank| - 1];
      BarCountFront(init, b);
      assert init[1..] == rank[1..][..|rank[1..]| - 1];
    }
  }

  /** A top-up never takes a module away. */
  lemma {:induction false} TopUpGrows(divs: seq<nat>, rank: seq<Ranked>, num: nat, d: nat)
    requires num < |rank| && forall j :: 0 <= j < |rank| ==> rank[j].bar < |divs|
    ensures forall b :: 0 <= b < |divs| ==> divs[b] <= TopUpFrom(divs, rank, num, d)[b]
    decreases d
  {
    if d > 0 {
      var c := rank[num].bar;
      TopUpGrows(divs[c := divs[c] + 1], rank, if num + 1 >= |rank| then 0 else num + 1, d - 1);
    }
  }

  /** Settling yields nothing or exactly `units` modules, one entry per bar,
      and never leaves a bar of at least one module with none. */
  lemma SettleGroup(ws: seq<nat>, rank: seq<Ranked>, units: nat)
    requires |rank| > 0 && forall j :: 0 <= j < |rank| ==> rank[j].bar < |ws|
    ensures var r := Settle(ws, rank, units);
      r == [] || (|r| == |ws| && Sum(r) == units)
    ensures var r := Settle(ws, rank, units);
      (forall b :: 0 <= b < |ws| ==> ws[b] >= 1) ==> forall b :: 0 <= b < |r| ==> r[b] >= 1
  {
    if Sum(ws) < units {
      TopUpGrows(ws, rank, 0, units - Sum(ws));
    } else {
      var last := rank[|rank| - 1];
      if Sum(ws) == units + 1 && ws[last.bar] > 1 && last.frac < 0.2 {
        SumUpdate(ws, last.bar, ws[last.bar] - 1);
      }
    }
  }

  /** `parse_number_bars` returns either nothing or one width per bar that
      add up to `units` modules; when every estimate has at least one
      module, so does every returned width. */
  lemma NumberBarsGroup(lens: seq<nat>, unit: real, vals: seq<Byte>, avgCol: Byte,
                        units: nat, maxLen: nat, parts: PartsEstimator)
    requires |lens| > 0 && Sum(lens) <= |vals|
    ensures var r := NumberBars(lens, unit, vals, avgCol, units, maxLen, parts);
      r == [] || (|r| == |lens| && Sum(r) == units)
    ensures var es := Estimates(lens, unit, vals, avgCol, parts);
      var r := NumberBars(lens, unit, vals, avgCol, units, maxLen, parts);
      (forall i :: 0 <= i < |es| ==> es[i].whole >= 1) ==> forall i :: 0 <= i < |r| ==> r[i] >= 1
  {
    var es := Estimates(lens, unit, vals, avgCol, parts);
    if !TooLong(es, maxLen) {
      RankingBars(lens, vals, es);
      SettleGroup(Wholes(es), Ranking(Entries(lens, vals, es)), units);
    }
  }

  /** Moving entry `l` one place up keeps the shape of the insertion. */
  lemma ShiftStep(r: seq<Ranked>, x: Ranked, f: seq<Ranked>, l: nat, num: nat)
    requires l < num == |r| < |f|
    requires f[..l + 1] == r[..l + 1] && f[l + 2..num + 1] == r[l + 1..num]
    requires Insert(r, x) == Insert(r[..l + 1], x) + r[l + 1..num]
    requires Outranks(x, r[l])
    ensures f[l + 1 := f[l]][..l] == r[..l] && f[l + 1 := f[l]][l + 1..num + 1] == r[l..num]
    ensures Insert(r, x) == Insert(r[..l], x) + r[l..num]
  {
    assert r[..l + 1][..l] == r[..l] && r[..l + 1][l] == r[l];
    assert r[l..num] == [r[l]] + r[l + 1..num];
    assert Insert(r[..l + 1], x) == Insert(r[..l], x) + [r[l]];
  }

  /** The insertion of bar `x` into the `num` entries ranked so far
      (barcode_detector.rs:321-346): entries that `x` outranks move one
      place up, from the end, and `x` takes the freed place. */
  method InsertRanked(fracs: seq<Ranked>, num: nat, x: Ranked) returns (fracs': seq<Ranked>)
    requires num < |fracs|
    ensures |fracs'| == |fracs|
    ensures fracs'[..num + 1] == Insert(fracs[..num], x)
  {
    ghost var r := fracs[..num];
    fracs' := fracs;
    var l := num;
    while l > 0
      invariant 0 <= l <= num && |fracs'| == |fracs|
      invariant fracs'[..l] == r[..l] && fracs'[l + 1..num + 1] == r[l..num]
      invariant Insert(r, x) == Insert(r[..l], x) + r[l..num]
    {
      l := l - 1;
      assert fracs'[l] == r[l];
      var shift := false;
      if x.frac > fracs'[l].frac {
        shift := true;
      } else if x.frac == fracs'[l].frac {
        var clen, plen := |x.vals|, |fracs'[l].vals|;
        if clen == plen {
          var c := CompareBarByColor(x.vals, fracs'[l].vals);
          shift := c > 0;
        } else {
          shift := clen > plen;
        }
      }
      if shift {
        ShiftStep(r, x, fracs', l, num);
        fracs' := fracs'[l + 1 := fracs'[l]];
      } else {
        l := l + 1;
        assert r[..l][l - 1] == r[l - 1] && r[..l] == r[..l - 1] + [r[l - 1]];
        assert Insert(r[..l], x) == r[..l] + [x];
        break;
      }
    }
    fracs' := fracs'[l := x];
    assert fracs'[..num + 1] == fracs'[..l] + [x] + fracs'[l + 1..num + 1];
  }

  lemma WholesStep(es: seq<BarEstimate>, k: nat)
    requires k < |es|
    ensures Wholes(es)[..k + 1] == Wholes(es)[..k] + [es[k].whole]
  {
  }

  lemma FullPrefix<T>(s: seq<T>)
    ensures s[..|s|] == s
  {
  }

  /** Ranks entry `num` after the ones before it. */
  method RankNext(ghost entries: seq<Ranked>, fracs: seq<Ranked>, num: nat, x: Ranked) returns (fracs': seq<Ranked>)
    requires num < |entries| == |fracs| && x == entries[num]
    requires fracs[..num] == Ranking(entries[..num])
    ensures |fracs'| == |fracs| && fracs'[..num + 1] == Ranking(entries[..num + 1])
  {
    RankingStep(entries, num);
    fracs' := InsertRanked(fracs, num, x);
  }

  /** The estimate loop of `parse_number_bars` (barcode_detector.rs:298-349):
      every bar's estimate in turn, stopping at the first one wider than
      `maxLen`; the whole parts go to `divs` and each bar is inserted into
      the ranking `fracs`. */
  method RankBars(lens: seq<nat>, unit: real, vals: seq<Byte>, avgCol: Byte,
                  maxLen: nat, parts: PartsEstimator) returns (tooLong: bool, divs: seq<nat>, fracs: seq<Ranked>)
    requires Sum(lens) <= |vals|
    ensures var es := Estimates(lens, unit, vals, avgCol, parts);
      && tooLong == TooLong(es, maxLen)
      && (!tooLong ==> divs == Wholes(es) && fracs == Ranking(Entries(lens, vals, es)))
  {
    ghost var es := Estimates(lens, unit, vals, avgCol, parts);
    ghost var entries := Entries(lens, vals, es);
    var len := |lens|;
    divs := [];
    fracs := seq(len, _ => Ranked(0, -1.0, []));
    var num := 0;
    var lix := 0;
    while num < len
      invariant 0 <= num <= len && |fracs| == len
      invariant lix == Sum(lens[..num])
      invariant fracs[..num] == Ranking(entries[..num])
      invariant divs == Wholes(es)[..num]
      invariant forall i :: 0 <= i < num ==> divs[i] <= maxLen
    {
      var n := lens[num];
      BarBounds(lens, num);
      var curVals := vals[lix..lix + n];
      assert curVals == BarPixels(lens, vals, num);
      var est := parts(n, unit, curVals, avgCol);
      EstimateAt(lens, unit, vals, avgCol, parts, num);
      if est.whole > maxLen {
        assert es[num].whole > maxLen;
        return true, [], [];
      }
      assert est == es[num];
      WholesStep(es, num);
      divs := divs + [est.whole];
      EntryAt(lens, vals, es, num);
      fracs := RankNext(entries, fracs, num, Ranked(num, est.frac, curVals));
      num := num + 1;
      lix := lix + n;
    }
    FullPrefix(entries);
    FullPrefix(Wholes(es));
    FullPrefix(fracs);
    tooLong := false;
  }

  /** The top-up loop (barcode_detector.rs:350-358): while short of `units`,
      one module more for the bar at the current rank, cycling through the
      ranking. */
  method TopUp(divs: seq<nat>, fracs: seq<Ranked>, units: nat) returns (divs': seq<nat>)
    requires |fracs| > 0 && forall j :: 0 <= j < |fracs| ==> fracs[j].bar < |divs|
    ensures Sum(divs) < units ==> divs' == TopUpFrom(divs, fracs, 0, units - Sum(divs))
    ensures Sum(divs) >= units ==> divs' == divs
  {
    divs' := divs;
    var total := Sum(divs);
    var num := 0;
    while total < units
      invariant 0 <= num < |fracs| && |divs'| == |divs| && total == Sum(divs')
      invariant Sum(divs) < units ==>
        total <= units && TopUpFrom(divs', fracs, num, units - total) == TopUpFrom(divs, fracs, 0, units - Sum(divs))
      invariant Sum(divs) >= units ==> divs' == divs
      decreases units - total
    {
      SumUpdate(divs', fracs[num].bar, divs'[fracs[num].bar] + 1);
      divs' := divs'[fracs[num].bar := divs'[fracs[num].bar] + 1];
      total := total + 1;
      num := num + 1;
      if num >= |fracs| {
        num := 0;
      }
    }
  }

  /** The top-up and the one-module trim (barcode_detector.rs:349-371). */
  method SettleDivs(divs: seq<nat>, fracs: seq<Ranked>, units: nat) returns (divs': seq<nat>)
    requires |fracs| > 0 && forall j :: 0 <= j < |fracs| ==> fracs[j].bar < |divs|
    ensures divs' == Settle(divs, fracs, units)
  {
    divs' := TopUp(divs, fracs, units);
    var total := Sum(divs');
    if total == units + 1 {
      var lastf := fracs[|fracs| - 1];
      if divs'[lastf.bar] > 1 {
        if lastf.frac < 0.2 {
          SumUpdate(divs', lastf.bar, divs'[lastf.bar] - 1);
          divs' := divs'[lastf.bar := divs'[lastf.bar] - 1];
          total := total - 1;
        }
      }
    }
    if total > units {
      return [];
    }
  }

  /** `parse_number_bars` with `units` modules per group and at most
      `maxLen` modules per bar (barcode_detector.rs:291-372): the ranked
      estimates, then the top-up and the one-module trim. */
  method ParseNumberBars(lens: seq<nat>, unit: real, vals: seq<Byte>, avgCol: Byte,
                         units: nat, maxLen: nat, parts: PartsEstimator) returns (divs: seq<nat>)
    requires |lens| > 0 && Sum(lens) <= |vals|
    ensures divs == NumberBars(lens, unit, vals, avgCol, units, maxLen, parts)
  {
    var tooLong, fracs;
    tooLong, divs, fracs := RankBars(lens, unit, vals, avgCol, maxLen, parts);
    if tooLong {
      return [];
    }
    RankingBars(lens, vals, Estimates(lens, unit, vals, avgCol, parts));
    divs := SettleDivs(divs, fracs, units);
  }
}
