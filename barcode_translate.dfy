/** Translation of a detected barcode record into the 13 digits of an EAN-13
    (or UPC-A) code: table lookup of each 4-width group (number sets A and B
    of ISO/IEC 15420), inference of the implicit leading digit from the
    parities of the left half, and the weighted modulo-10 check digit of
    GS1 General Specifications section 7.9. */
module BarcodeTranslate {
  import opened BarcodeTypes

  /** Four module widths (Rust `[u8; 4]`). */
  type Widths = s: seq<nat> | |s| == 4 witness [1, 1, 1, 4]

  type Digit = d: nat | d < 10

  /** One row of `BARCODE_DICT`: the digit, its bar widths, and `true` for
      odd parity (number set A, L-code) or `false` for even parity (number
      set B, G-code). */
  datatype DictEntry = DictEntry(digit: Digit, widths: Widths, odd: bool)

  /** Number of entries of `BARCODE_DICT`. */
  const DictSize: nat := 20

  /** Entry i of `BARCODE_DICT`, sorted by widths. */
  function BarcodeDict(i: nat): DictEntry
  {
    match i
    case 0 => DictEntry(6, [1, 1, 1, 4], true)
    case 1 => DictEntry(0, [1, 1, 2, 3], false)
    case 2 => DictEntry(4, [1, 1, 3, 2], true)
    case 3 => DictEntry(3, [1, 1, 4, 1], false)
    case 4 => DictEntry(8, [1, 2, 1, 3], true)
    case 5 => DictEntry(1, [1, 2, 2, 2], false)
    case 6 => DictEntry(5, [1, 2, 3, 1], true)
    case 7 => DictEntry(7, [1, 3, 1, 2], true)
    case 8 => DictEntry(5, [1, 3, 2, 1], false)
    case 9 => DictEntry(3, [1, 4, 1, 1], true)
    case 10 => DictEntry(9, [2, 1, 1, 3], false)
    case 11 => DictEntry(2, [2, 1, 2, 2], true)
    case 12 => DictEntry(7, [2, 1, 3, 1], false)
    case 13 => DictEntry(2, [2, 2, 1, 2], false)
    case 14 => DictEntry(1, [2, 2, 2, 1], true)
    case 15 => DictEntry(4, [2, 3, 1, 1], false)
    case 16 => DictEntry(9, [3, 1, 1, 2], true)
    case 17 => DictEntry(8, [3, 1, 2, 1], false)
    case 18 => DictEntry(0, [3, 2, 1, 1], true)
    case _ => DictEntry(6, [4, 1, 1, 1], false)
  }

  /** `BARCODE_DICT_POS[a][b - 1] .. BARCODE_DICT_POS[a][b]` is the block
      of entries whose first two widths are (a + 1, b). */
  function BarcodeDictPos(a: nat, b: nat): nat
  {
    match a
    case 0 => (match b
      case 0 => 0
      case 1 => 4
      case 2 => 7
      case 3 => 9
      case _ => 10)
    case 1 => (match b
      case 0 => 10
      case 1 => 13
      case 2 => 15
      case 3 => 16
      case _ => 16)
    case 2 => (match b
      case 0 => 16
      case 1 => 18
      case 2 => 19
      case 3 => 19
      case _ => 19)
    case _ => (match b
      case 0 => 19
      case 1 => 20
      case 2 => 20
      case 3 => 20
      case _ => 20)
  }

  /** Number set A of ISO/IEC 15420 (left-half odd parity; the right-half
      set C has the same widths with the colours swapped). */
  function SetA(d: Digit): Widths
  {
    match d
    case 0 => [3, 2, 1, 1]
    case 1 => [2, 2, 2, 1]
    case 2 => [2, 1, 2, 2]
    case 3 => [1, 4, 1, 1]
    case 4 => [1, 1, 3, 2]
    case 5 => [1, 2, 3, 1]
    case 6 => [1, 1, 1, 4]
    case 7 => [1, 3, 1, 2]
    case 8 => [1, 2, 1, 3]
    case _ => [3, 1, 1, 2]
  }

  /** Number set B: the widths of set C read backwards. */
  function SetB(d: Digit): Widths
  {
    var a := SetA(d);
    [a[3], a[2], a[1], a[0]]
  }

  lemma SumOfFour(w: seq<nat>)
    requires |w| == 4
    ensures Sum(w) == w[0] + w[1] + w[2] + w[3]
  {
    assert w[..3][..2][..1] == [w[0]];
    assert Sum(w[..3][..2][..1]) == w[0];
    assert Sum(w[..3][..2]) == w[0] + w[1];
    assert Sum(w[..3]) == w[0] + w[1] + w[2];
  }

  /** Every entry is a valid EAN digit pattern: widths 1..4 summing to 7
      modules; odd entries are exactly set A and even entries set B. */
  lemma DictEntriesAreSetsAAndB()
    ensures forall i :: 0 <= i < DictSize ==>
      var e := BarcodeDict(i);
      && (forall j :: 0 <= j < 4 ==> 1 <= e.widths[j] <= 4)
      && Sum(e.widths) == 7
      && (e.odd ==> e.widths == SetA(e.digit))
      && (!e.odd ==> e.widths == SetB(e.digit))
  {
    forall i | 0 <= i < DictSize
      ensures var e := BarcodeDict(i);
        && (forall j :: 0 <= j < 4 ==> 1 <= e.widths[j] <= 4)
        && Sum(e.widths) == 7
        && (e.odd ==> e.widths == SetA(e.digit))
        && (!e.odd ==> e.widths == SetB(e.digit))
    {
      SumOfFour(BarcodeDict(i).widths);
      assert i in {0, 1, 2, 3, 4, 5, 6, 7, 8, 9, 10, 11, 12, 13, 14, 15, 16, 17, 18, 19};
    }
  }

  /** Sort key of a width group; the dictionary is sorted by it. */
  function Key(w: Widths): nat
  {
    ((w[0] * 5 + w[1]) * 5 + w[2]) * 5 + w[3]
  }

  lemma DictAdjacentSorted(k: nat)
    requires k + 1 < DictSize
    ensures Key(BarcodeDict(k).widths) < Key(BarcodeDict(k + 1).widths)
  {
    if k < 10 { DictAdjacentSortedLow(k); } else { DictAdjacentSortedHigh(k); }
  }

  lemma DictAdjacentSortedLow(k: nat)
    requires k < 10
    ensures Key(BarcodeDict(k).widths) < Key(BarcodeDict(k + 1).widths)
  {
    assert k in {0, 1, 2, 3, 4, 5, 6, 7, 8, 9};
  }

  lemma DictAdjacentSortedHigh(k: nat)
    requires 10 <= k < 19
    ensures Key(BarcodeDict(k).widths) < Key(BarcodeDict(k + 1).widths)
  {
    assert k in {10, 11, 12, 13, 14, 15, 16, 17, 18};
  }

  lemma {:induction false} DictSortedByKey(i: nat, j: nat)
    requires i < j < DictSize
    ensures Key(BarcodeDict(i).widths) < Key(BarcodeDict(j).widths)
    decreases j - i
  {
    DictAdjacentSorted(j - 1);
    if i < j - 1 {
      DictSortedByKey(i, j - 1);
    }
  }

  /** No two dictionary entries share their widths, so a lookup is unambiguous. */
  lemma DictWidthsDistinct(i: nat, j: nat)
    requires i < DictSize && j < DictSize && i != j
    ensures BarcodeDict(i).widths != BarcodeDict(j).widths
  {
    if i < j { DictSortedByKey(i, j); } else { DictSortedByKey(j, i); }
  }

  /** The index table narrows the search exactly: for first widths (a, b) in
      1..4 the entries with that prefix are precisely the block
      `BarcodeDictPos(a-1, b-1) .. BarcodeDictPos(a-1, b)`. */
  lemma DictPosBlocks(a: nat, b: nat)
    requires 1 <= a <= 4 && 1 <= b <= 4
    ensures BarcodeDictPos(a - 1, b - 1) <= BarcodeDictPos(a - 1, b) <= DictSize
    ensures forall i :: 0 <= i < DictSize ==>
      ((BarcodeDictPos(a - 1, b - 1) <= i < BarcodeDictPos(a - 1, b)) <==>
       (BarcodeDict(i).widths[0] == a && BarcodeDict(i).widths[1] == b))
  {
    forall i | 0 <= i < DictSize
      ensures (BarcodeDictPos(a - 1, b - 1) <= i < BarcodeDictPos(a - 1, b)) <==>
              (BarcodeDict(i).widths[0] == a && BarcodeDict(i).widths[1] == b)
    {
      assert i in {0, 1, 2, 3, 4, 5, 6, 7, 8, 9, 10, 11, 12, 13, 14, 15, 16, 17, 18, 19};
      assert a in {1, 2, 3, 4} && b in {1, 2, 3, 4};
    }
  }

  /** The widths `find_number_from_bars` can look up without indexing out of
      `BARCODE_DICT_POS`: a group with a zero width is rejected before the
      table is read, otherwise the first two widths must be at most 4. */
  predicate Indexable(c: seq<nat>)
    requires |c| == 4
  {
    c[0] == 0 || c[1] == 0 || c[2] == 0 || c[3] == 0 || (c[0] <= 4 && c[1] <= 4)
  }

  /** Linear search of `BarcodeDict(lo..hi)` for the last two widths. */
  function SearchBlock(c: seq<nat>, lo: nat, hi: nat): (nat, bool)
    requires |c| == 4 && hi <= DictSize
    decreases hi - lo
  {
    if lo >= hi then (10, false)
    else if BarcodeDict(lo).widths[2] == c[2] && BarcodeDict(lo).widths[3] == c[3] then
      (BarcodeDict(lo).digit, BarcodeDict(lo).odd)
    else SearchBlock(c, lo + 1, hi)
  }

  /** `find_number_from_bars`: digit and parity of a 4-width group, or
      (10, false) when the group has a zero width or matches no entry. */
  function FindNumberFromBars(c: seq<nat>): (r: (nat, bool))
    requires |c| == 4 && Indexable(c)
  {
    if c[0] == 0 || c[1] == 0 || c[2] == 0 || c[3] == 0 then (10, false)
    else SearchBlock(c, BarcodeDictPos(c[0] - 1, c[1] - 1), BarcodeDictPos(c[0] - 1, c[1]))
  }

  predicate Matches23(k: nat, c: seq<nat>)
    requires k < DictSize && |c| == 4
  {
    BarcodeDict(k).widths[2] == c[2] && BarcodeDict(k).widths[3] == c[3]
  }

  lemma {:induction false} SearchBlockFirst(c: seq<nat>, lo: nat, hi: nat, k: nat)
    requires |c| == 4 && lo <= k < hi <= DictSize && Matches23(k, c)
    requires forall m :: lo <= m < k ==> !Matches23(m, c)
    ensures SearchBlock(c, lo, hi) == (BarcodeDict(k).digit, BarcodeDict(k).odd)
    decreases k - lo
  {
    if lo < k {
      assert !Matches23(lo, c);
      SearchBlockFirst(c, lo + 1, hi, k);
    }
  }

  lemma {:induction false} SearchBlockNone(c: seq<nat>, lo: nat, hi: nat)
    requires |c| == 4 && hi <= DictSize
    requires forall m :: lo <= m < hi ==> !Matches23(m, c)
    ensures SearchBlock(c, lo, hi) == (10, false)
    decreases hi - lo
  {
    if lo < hi {
      assert !Matches23(lo, c);
      SearchBlockNone(c, lo + 1, hi);
    }
  }

  /** A group is decoded to the digit and parity of the one entry with
      exactly those widths, and to (10, false) when there is none. */
  lemma FindNumberFromBarsCorrect(c: seq<nat>)
    requires |c| == 4 && Indexable(c)
    ensures forall i :: 0 <= i < DictSize && BarcodeDict(i).widths == c ==>
      FindNumberFromBars(c) == (BarcodeDict(i).digit, BarcodeDict(i).odd)
    ensures (forall i :: 0 <= i < DictSize ==> BarcodeDict(i).widths != c) ==>
      FindNumberFromBars(c) == (10, false)
  {
    DictEntriesAreSetsAAndB();
    if c[0] == 0 || c[1] == 0 || c[2] == 0 || c[3] == 0 {
      forall i | 0 <= i < DictSize ensures BarcodeDict(i).widths != c {
        assert forall j :: 0 <= j < 4 ==> 1 <= BarcodeDict(i).widths[j];
      }
    } else {
      var a, b := c[0], c[1];
      DictPosBlocks(a, b);
      var lo, hi := BarcodeDictPos(a - 1, b - 1), BarcodeDictPos(a - 1, b);
      // inside the block a match of the last two widths is a match of all four
      assert forall m :: lo <= m < hi && Matches23(m, c) ==> BarcodeDict(m).widths == c by {
        forall m | lo <= m < hi && Matches23(m, c) ensures BarcodeDict(m).widths == c {
          var w := BarcodeDict(m).widths;
          assert w == [w[0], w[1], w[2], w[3]];
        }
      }
      forall i | 0 <= i < DictSize && BarcodeDict(i).widths == c
        ensures FindNumberFromBars(c) == (BarcodeDict(i).digit, BarcodeDict(i).odd)
      {
        forall m | lo <= m < i ensures !Matches23(m, c) {
          if Matches23(m, c) { DictWidthsDistinct(m, i); }
        }
        SearchBlockFirst(c, lo, hi, i);
      }
      if forall i :: 0 <= i < DictSize ==> BarcodeDict(i).widths != c {
        SearchBlockNone(c, lo, hi);
      }
    }
  }

  /** Every digit has exactly one odd (set A) and one even (set B) entry, so
      both encodings decode back to the digit with the right parity. */
  lemma FindNumberFromBarsSets(d: Digit)
    ensures FindNumberFromBars(SetA(d)) == (d, true)
    ensures FindNumberFromBars(SetB(d)) == (d, false)
  {
    var ia := [18, 14, 11, 9, 2, 6, 0, 7, 4, 16][d];
    var ib := [1, 5, 13, 3, 15, 8, 19, 12, 17, 10][d];
    assert d in {0, 1, 2, 3, 4, 5, 6, 7, 8, 9};
    assert BarcodeDict(ia) == DictEntry(d, SetA(d), true);
    assert BarcodeDict(ib) == DictEntry(d, SetB(d), false);
    FindNumberFromBarsCorrect(SetA(d));
    FindNumberFromBarsCorrect(SetB(d));
  }

  // ---------------------------------------------------------------------
  // The implicit leading digit

  /** Which `EAN_PARITY` table a walk uses: the one in the source, whose
      entry 7 is (7, 8) and points to itself, or the corrected one whose
      entry 7 is (8, 9). */
  datatype ParityTable = AsWritten | Corrected

  /** Entry `i` of `EAN_PARITY`, a decision tree in a flat array of 29
      pairs. A pair (0, d) answers d (10 meaning that the parities are no
      EAN-13 pattern); a pair (x, y) moves to entry x when the next parity
      is odd and to entry y when it is even. */
  function Node(t: ParityTable, i: nat): (nat, nat)
  {
    match i
    case 0 => (1, 10)
    case 1 => (2, 3)
    case 2 => (0, 0)
    case 3 => (4, 5)
    case 4 => (0, 1)
    case 5 => (6, 7)
    case 6 => (0, 2)
    case 7 => if t == AsWritten then (7, 8) else (8, 9)
    case 8 => (0, 3)
    case 9 => (0, 10)
    case 10 => (11, 18)
    case 11 => (12, 13)
    case 12 => (0, 4)
    case 13 => (14, 15)
    case 14 => (0, 7)
    case 15 => (16, 17)
    case 16 => (0, 8)
    case 17 => (0, 10)
    case 18 => (19, 24)
    case 19 => (20, 21)
    case 20 => (0, 5)
    case 21 => (22, 23)
    case 22 => (0, 9)
    case 23 => (0, 10)
    case 24 => (25, 28)
    case 25 => (26, 27)
    case 26 => (0, 6)
    case 27 => (0, 10)
    case _ => (0, 10)
  }

  /** The `while d < 6` walk of `find_first_number` from step `d` at entry
      `cur`. `None` stands for reading past the end of the table or of the
      parity slice, which panics in the source. */
  function ParityWalk(t: ParityTable, parity: seq<bool>, d: nat, cur: nat): Option<nat>
    decreases 6 - d
  {
    if d >= 6 then Some(10)
    else if cur >= 29 then None
    else if Node(t, cur).0 == 0 then Some(Node(t, cur).1)
    else if d >= |parity| then None
    else ParityWalk(t, parity, d + 1, if parity[d] then Node(t, cur).0 else Node(t, cur).1)
  }

  /** `find_first_number` exactly as written. */
  function FindFirstNumberAsWritten(parity: seq<bool>): Option<nat>
  {
    ParityWalk(AsWritten, parity, 0, 0)
  }

  /** Parities (true = odd, number set A) of left-half digits 2 to 6 that
      encode each leading digit in EAN-13; digit 1 is always odd. */
  function PatternTail(d: Digit): (p: seq<bool>)
    ensures |p| == 5
  {
    var L, G := true, false;
    match d
    case 0 => [L, L, L, L, L]
    case 1 => [L, G, L, G, G]
    case 2 => [L, G, G, L, G]
    case 3 => [L, G, G, G, L]
    case 4 => [G, L, L, G, G]
    case 5 => [G, G, L, L, G]
    case 6 => [G, G, G, L, L]
    case 7 => [G, L, G, L, G]
    case 8 => [G, L, G, G, L]
    case _ => [G, G, L, G, L]
  }

  /** The parities of all six left-half digits for leading digit `d`. */
  function ParityPattern(d: Digit): (p: seq<bool>)
    ensures |p| == 6 && p[0] && p[1..] == PatternTail(d)
  {
    [true] + PatternTail(d)
  }

  /** Reference decoding of five parities: the leading digit whose pattern
      they are, or 10; written as the nested choices the table encodes. */
  function PatternDigit(p: seq<bool>): (r: nat)
    requires |p| == 5
    ensures r <= 10
  {
    if p[0] then
      if p[1] then 0
      else if p[2] then 1
      else if p[3] then 2
      else if p[4] then 3 else 10
    else if p[1] then
      if p[2] then 4
      else if p[3] then 7
      else if p[4] then 8 else 10
    else if p[2] then
      if p[3] then 5
      else if p[4] then 9 else 10
    else if p[3] then
      if p[4] then 6 else 10
    else 10
  }

  /** `PatternDigit` decodes the pattern of every leading digit ... */
  lemma PatternDigitOfTail(d: Digit)
    ensures PatternDigit(PatternTail(d)) == d
  {
  }

  /** The table decides as soon as the parities read so far single out a
      digit and does not look at the rest: two odd parities already answer
      0, whatever follows. */
  lemma FindFirstNumberReadsPrefix(p: seq<bool>)
    requires |p| == 5 && p[0] && p[1]
    ensures FindFirstNumber(p) == 0
  {
    WalkCorrected(p);
  }

  /** Walks through an odd first parity; entry 7 is only reached after
      odd, even, even, even. */
  lemma WalkOddFirst(t: ParityTable, p: seq<bool>)
    requires |p| == 5 && p[0] && (t == Corrected || p[1] || p[2] || p[3])
    ensures ParityWalk(t, p, 0, 0) == Some(PatternDigit(p))
  {
    assert ParityWalk(t, p, 0, 0) == ParityWalk(t, p, 1, 1);
    if !p[1] {
      assert ParityWalk(t, p, 1, 1) == ParityWalk(t, p, 2, 3);
      if !p[2] {
        assert ParityWalk(t, p, 2, 3) == ParityWalk(t, p, 3, 5);
        if !p[3] {
          assert ParityWalk(t, p, 3, 5) == ParityWalk(t, p, 4, 7);
        }
      }
    }
  }

  lemma WalkEvenOdd(t: ParityTable, p: seq<bool>)
    requires |p| == 5 && !p[0] && p[1]
    ensures ParityWalk(t, p, 0, 0) == Some(PatternDigit(p))
  {
    assert ParityWalk(t, p, 0, 0) == ParityWalk(t, p, 1, 10);
    assert ParityWalk(t, p, 1, 10) == ParityWalk(t, p, 2, 11);
    if !p[2] {
      assert ParityWalk(t, p, 2, 11) == ParityWalk(t, p, 3, 13);
      if !p[3] {
        assert ParityWalk(t, p, 3, 13) == ParityWalk(t, p, 4, 15);
      }
    }
  }

  lemma WalkEvenEven(t: ParityTable, p: seq<bool>)
    requires |p| == 5 && !p[0] && !p[1]
    ensures ParityWalk(t, p, 0, 0) == Some(PatternDigit(p))
  {
    assert ParityWalk(t, p, 0, 0) == ParityWalk(t, p, 1, 10);
    assert ParityWalk(t, p, 1, 10) == ParityWalk(t, p, 2, 18);
    if p[2] {
      WalkEvenEvenOdd(t, p);
    } else {
      WalkEvenEvenEven(t, p);
    }
  }

  lemma WalkEvenEvenEven(t: ParityTable, p: seq<bool>)
    requires |p| == 5 && !p[0] && !p[1] && !p[2]
    ensures ParityWalk(t, p, 2, 18) == Some(PatternDigit(p))
  {
    assert ParityWalk(t, p, 2, 18) == ParityWalk(t, p, 3, 24);
    if p[3] {
      assert ParityWalk(t, p, 3, 24) == ParityWalk(t, p, 4, 25);
    }
  }

  lemma WalkEvenEvenOdd(t: ParityTable, p: seq<bool>)
    requires |p| == 5 && !p[0] && !p[1] && p[2]
    ensures ParityWalk(t, p, 2, 18) == Some(PatternDigit(p))
  {
    assert ParityWalk(t, p, 2, 18) == ParityWalk(t, p, 3, 19);
    if !p[3] {
      assert ParityWalk(t, p, 3, 19) == ParityWalk(t, p, 4, 21);
    }
  }

  /** With the source's table, odd, even, even, even lands on entry 7,
      which sends an odd fifth parity back to itself; the sixth step then
      reads `parity[5]` past the end of the slice. */
  lemma WalkSelfLoop(p: seq<bool>)
    requires |p| == 5 && p[0] && !p[1] && !p[2] && !p[3]
    ensures ParityWalk(AsWritten, p, 0, 0) == if p[4] then None else Some(3)
  {
    assert ParityWalk(AsWritten, p, 0, 0) == ParityWalk(AsWritten, p, 1, 1);
    assert ParityWalk(AsWritten, p, 1, 1) == ParityWalk(AsWritten, p, 2, 3);
    assert ParityWalk(AsWritten, p, 2, 3) == ParityWalk(AsWritten, p, 3, 5);
    assert ParityWalk(AsWritten, p, 3, 5) == ParityWalk(AsWritten, p, 4, 7);
  }

  /** The corrected table decodes every five parities as `PatternDigit`. */
  lemma WalkCorrected(p: seq<bool>)
    requires |p| == 5
    ensures ParityWalk(Corrected, p, 0, 0) == Some(PatternDigit(p))
  {
    if p[0] { WalkOddFirst(Corrected, p); }
    else if p[1] { WalkEvenOdd(Corrected, p); }
    else { WalkEvenEven(Corrected, p); }
  }

  /** `find_first_number` with the corrected table: the leading digit
      whose parity pattern the five parities of left digits 2 to 6 follow,
      or 10 when they follow none. */
  function FindFirstNumber(parity: seq<bool>): (r: nat)
    requires |parity| == 5
    ensures r <= 10
    ensures r == PatternDigit(parity)
  {
    WalkCorrected(parity);
    ParityWalk(Corrected, parity, 0, 0).value
  }

  /** The corrected table recovers every leading digit from its pattern. */
  lemma FirstDigitFromParity(d: Digit)
    ensures FindFirstNumber(PatternTail(d)) == d
  {
    WalkCorrected(PatternTail(d));
    PatternDigitOfTail(d);
  }

  /** The source's table agrees with the corrected one except on the
      patterns odd, even, even, even, x: it panics when x is odd (the
      pattern of leading digit 3) and answers 3 when x is even (a pattern of
      no digit). */
  lemma FindFirstNumberAsWrittenDiffers(p: seq<bool>)
    requires |p| == 5
    ensures FindFirstNumberAsWritten(p) ==
      if p[0] && !p[1] && !p[2] && !p[3] then (if p[4] then None else Some(3))
      else Some(FindFirstNumber(p))
  {
    if p[0] && !p[1] && !p[2] && !p[3] { WalkSelfLoop(p); }
    else if p[0] { WalkOddFirst(AsWritten, p); }
    else if p[1] { WalkEvenOdd(AsWritten, p); }
    else { WalkEvenEven(AsWritten, p); }
  }

  /** On the ten genuine patterns the source's table panics for leading
      digit 3 only. */
  lemma ParityTreeAsWrittenOnPatterns(d: Digit)
    ensures FindFirstNumberAsWritten(PatternTail(d)) == if d == 3 then None else Some(d)
  {
    FindFirstNumberAsWrittenDiffers(PatternTail(d));
  }

  // ---------------------------------------------------------------------
  // The check digit

  /** The `for n in nums` loop of `calc_checksum`: `triple` is the
      alternating flag `b`. */
  function ChecksumLoop(sum: nat, triple: bool, nums: seq<nat>): nat
    decreases nums
  {
    if nums == [] then sum
    else ChecksumLoop(sum + (if triple then nums[0] * 3 else nums[0]), !triple, nums[1..])
  }

  /** `calc_checksum`: the digit that completes the weighted sum to a
      multiple of 10. */
  function CalcChecksum(first: nat, nums: seq<nat>): (r: nat)
    ensures r < 10
  {
    var remv := ChecksumLoop(first, true, nums) % 10;
    if remv == 0 then remv else 10 - remv
  }

  /** GS1 weight of the digit at (0-based) position i after the leading
      digit: 3, 1, 3, 1, ... */
  function Weight(i: nat): nat
  {
    if i % 2 == 0 then 3 else 1
  }

  /** Sum of nums[i] * Weight(k + i). */
  function WeightedSum(nums: seq<nat>, k: nat): nat
  {
    if nums == [] then 0 else Weight(k) * nums[0] + WeightedSum(nums[1..], k + 1)
  }

  lemma {:induction false} ChecksumLoopIsWeighted(sum: nat, nums: seq<nat>, k: nat)
    ensures ChecksumLoop(sum, k % 2 == 0, nums) == sum + WeightedSum(nums, k)
    decreases |nums|
  {
    if nums != [] {
      ChecksumLoopIsWeighted(sum + Weight(k) * nums[0], nums[1..], k + 1);
    }
  }

  /** The check digit is (10 - (first + 3 n0 + n1 + 3 n2 + ...) mod 10) mod 10,
      the GS1 modulo-10 rule. */
  lemma CalcChecksumIsGs1(first: nat, nums: seq<nat>)
    ensures CalcChecksum(first, nums) == (10 - (first + WeightedSum(nums, 0)) % 10) % 10
    ensures (first + WeightedSum(nums, 0) + CalcChecksum(first, nums)) % 10 == 0
  {
    ChecksumLoopIsWeighted(first, nums, 0);
  }

  lemma {:induction false} WeightedSumUpdate(nums: seq<nat>, k: nat, i: nat, v: nat)
    requires i < |nums|
    ensures WeightedSum(nums[i := v], k) + Weight(k + i) * nums[i]
         == WeightedSum(nums, k) + Weight(k + i) * v
    decreases |nums|
  {
    if i > 0 {
      assert nums[i := v][1..] == nums[1..][i - 1 := v];
      WeightedSumUpdate(nums[1..], k + 1, i - 1, v);
    } else {
      assert nums[i := v][1..] == nums[1..];
    }
  }

  /** A non-zero digit difference weighted 1 or 3 is never a multiple of 10. */
  lemma WeightedDeltaNotMultipleOfTen(w: int, delta: int)
    requires w == 1 || w == 3
    requires -9 <= delta <= 9 && delta != 0
    ensures (w * delta) % 10 != 0
  {
  }

  lemma ModTenOfDifference(a: int, b: int)
    requires (a - b) % 10 != 0
    ensures a % 10 != b % 10
  {
  }

  /** Distinct sums modulo 10 get distinct check digits. */
  lemma CheckDigitInjective(s: int, s': int)
    requires s % 10 != s' % 10
    ensures (10 - s % 10) % 10 != (10 - s' % 10) % 10
  {
  }

  /** Changing any single one of the digits covered by the check digit
      changes the check digit. */
  lemma ChecksumDetectsSingleDigitError(first: nat, nums: seq<nat>, i: nat, v: nat)
    requires i < |nums| && nums[i] <= 9 && v <= 9 && v != nums[i]
    ensures CalcChecksum(first, nums[i := v]) != CalcChecksum(first, nums)
  {
    CalcChecksumIsGs1(first, nums);
    CalcChecksumIsGs1(first, nums[i := v]);
    WeightedSumUpdate(nums, 0, i, v);
    var s, s' := first + WeightedSum(nums, 0), first + WeightedSum(nums[i := v], 0);
    assert s' - s == Weight(i) * (v - nums[i]);
    WeightedDeltaNotMultipleOfTen(Weight(i), v - nums[i]);
    ModTenOfDifference(s', s);
    CheckDigitInjective(s, s');
  }

  /** Changing the leading digit, which the sum covers with weight 1,
      changes the check digit too. */
  lemma ChecksumDetectsLeadingDigitError(first: nat, first': nat, nums: seq<nat>)
    requires first <= 9 && first' <= 9 && first != first'
    ensures CalcChecksum(first', nums) != CalcChecksum(first, nums)
  {
    CalcChecksumIsGs1(first, nums);
    CalcChecksumIsGs1(first', nums);
    var s, s' := first + WeightedSum(nums, 0), first' + WeightedSum(nums, 0);
    WeightedDeltaNotMultipleOfTen(1, first' - first);
    ModTenOfDifference(s', s);
    CheckDigitInjective(s, s');
  }

  // ---------------------------------------------------------------------
  // Translation of a whole record

  /** A half that `find_number_from_bars` can read without a panic: six
      groups of four widths, each indexable in `BARCODE_DICT_POS`. */
  predicate HalfDecodable(h: seq<seq<nat>>)
  {
    GroupsShaped(h) && forall k :: 0 <= k < 6 ==> Indexable(h[k])
  }

  predicate Decodable(rec: BarcodeRecord)
  {
    HalfDecodable(rec.left) && HalfDecodable(rec.right)
  }

  /** A group spanning seven modules, or the all-zero group a half is
      padded with, never reads past `BARCODE_DICT_POS`. */
  lemma GroupIndexable(c: seq<nat>)
    requires |c| == 4 && (Sum(c) == 7 || c == ZeroGroup)
    ensures Indexable(c)
  {
    SumOfFour(c);
  }

  /** A record whose twelve groups each span seven modules can be
      translated without a lookup out of bounds. */
  lemma SevenWideDecodable(rec: BarcodeRecord)
    requires Shaped(rec)
    requires forall k :: 0 <= k < 6 ==> Sum(rec.left[k]) == 7 && Sum(rec.right[k]) == 7
    ensures Decodable(rec)
  {
    forall k | 0 <= k < 6 ensures Indexable(rec.left[k]) && Indexable(rec.right[k]) {
      GroupIndexable(rec.left[k]);
      GroupIndexable(rec.right[k]);
    }
  }

  /** The lookups of groups k..5 of a half. */
  function DecodeFrom(h: seq<seq<nat>>, k: nat): (r: seq<(nat, bool)>)
    requires HalfDecodable(h) && k <= 6
    ensures |r| == 6 - k
    decreases 6 - k
  {
    if k == 6 then [] else [FindNumberFromBars(h[k])] + DecodeFrom(h, k + 1)
  }

  /** Digit and parity of every group of a half. */
  function DecodeHalf(h: seq<seq<nat>>): (r: seq<(nat, bool)>)
    requires HalfDecodable(h)
    ensures |r| == 6
  {
    DecodeFrom(h, 0)
  }

  lemma {:induction false} DecodeFromAt(h: seq<seq<nat>>, i: nat, k: nat)
    requires HalfDecodable(h) && i <= k < 6
    ensures DecodeFrom(h, i)[k - i] == FindNumberFromBars(h[k])
    decreases k - i
  {
    if i < k {
      DecodeFromAt(h, i + 1, k);
    }
  }

  /** Entry k of the decoded half is the lookup of group k. */
  lemma DecodeHalfAt(h: seq<seq<nat>>, k: nat)
    requires HalfDecodable(h) && k < 6
    ensures DecodeHalf(h)[k] == FindNumberFromBars(h[k])
  {
    DecodeFromAt(h, 0, k);
  }

  /** Every left group decodes to a digit. */
  predicate LeftValid(l: seq<(nat, bool)>)
  {
    forall j :: 0 <= j < |l| ==> l[j].0 <= 9
  }

  /** Every right group decodes to a digit of odd parity (the right half is
      always number set C, which the table stores as set A). */
  predicate RightValid(r: seq<(nat, bool)>)
  {
    forall j :: 0 <= j < |r| ==> r[j].0 <= 9 && r[j].1
  }

  /** The parities of left digits 2 to 6, `even_odd[2..7]`. */
  function LeftParities(l: seq<(nat, bool)>): (p: seq<bool>)
    requires |l| == 6
    ensures |p| == 5 && forall j :: 0 <= j < 5 ==> p[j] == l[j + 1].1
  {
    [l[1].1, l[2].1, l[3].1, l[4].1, l[5].1]
  }

  /** The digits of decoded groups. */
  function DigitsOf(s: seq<(nat, bool)>): (ds: seq<nat>)
    ensures |ds| == |s| && forall j :: 0 <= j < |s| ==> ds[j] == s[j].0
  {
    seq(|s|, j requires 0 <= j < |s| => s[j].0)
  }

  /** The thirteen entries of `barcode`: the inferred leading digit, then
      the six left and the six right digits. */
  function Digits(l: seq<(nat, bool)>, r: seq<(nat, bool)>): (ds: seq<nat>)
    requires |l| == |r| == 6
    ensures |ds| == 13
  {
    [FindFirstNumber(LeftParities(l))] + DigitsOf(l) + DigitsOf(r)
  }

  /** The GS1 validity of thirteen digits: the weighted sum including the
      check digit is a multiple of 10. */
  predicate Gs1Valid(ds: seq<nat>)
    requires |ds| == 13
  {
    (ds[0] + WeightedSum(ds[1..12], 0) + ds[12]) % 10 == 0
  }

  /** The check digit of `barcode` is its last entry, `barcode[12]`. */
  predicate ChecksumMatches(ds: seq<nat>)
    requires |ds| == 13
  {
    CalcChecksum(ds[0], ds[1..12]) == ds[12]
  }

  /** The comparison as written: with `barcode[11]`, the last digit that
      enters the sum, instead of the check digit. */
  predicate ChecksumMatchesAsWritten(ds: seq<nat>)
    requires |ds| == 13
  {
    CalcChecksum(ds[0], ds[1..12]) == ds[11]
  }

  lemma CheckDigitUnique(s: int, c: int)
    ensures (10 - s % 10) % 10 == c <==> 0 <= c <= 9 && (s + c) % 10 == 0
  {
  }

  /** The check digit matches exactly when the last entry is a digit that
      makes the GS1 weighted sum a multiple of 10. */
  lemma ChecksumMatchesIsGs1(ds: seq<nat>)
    requires |ds| == 13
    ensures ChecksumMatches(ds) <==> ds[12] <= 9 && Gs1Valid(ds)
  {
    CalcChecksumIsGs1(ds[0], ds[1..12]);
    CheckDigitUnique(ds[0] + WeightedSum(ds[1..12], 0), ds[12]);
  }

  /** What `translate_bar_code` computes with its evident intent, from the
      lookups of both halves: `None` when a left group is no digit, when a
      right group is no digit or not odd, or when the check digit does not
      match; otherwise the thirteen digits. The leading digit 10 (no parity
      pattern) is not rejected. */
  function TranslateDecoded(l: seq<(nat, bool)>, r: seq<(nat, bool)>): Option<seq<nat>>
    requires |l| == |r| == 6
  {
    if !LeftValid(l) || !RightValid(r) then None
    else if ChecksumMatches(Digits(l, r)) then Some(Digits(l, r))
    else None
  }

  function Translate(rec: BarcodeRecord): Option<seq<nat>>
    requires Decodable(rec)
  {
    TranslateDecoded(DecodeHalf(rec.left), DecodeHalf(rec.right))
  }

  /** `find_number_from_bars` applied to group k of a half. */
  method LookUpGroup(h: seq<seq<nat>>, k: nat) returns (num: (nat, bool))
    requires HalfDecodable(h) && k < 6
    ensures num == DecodeHalf(h)[k]
  {
    num := FindNumberFromBars(h[k]);
    DecodeHalfAt(h, k);
  }

  /** The first loop of `translate_bar_code`: looks up the six left
      groups into `barcode[1..7]` and `evenOdd[1..7]`, stopping at the first
      group that is no digit. */
  method ReadLeftHalf(rec: BarcodeRecord, barcode0: seq<nat>, evenOdd0: seq<bool>)
    returns (valid: bool, barcode: seq<nat>, evenOdd: seq<bool>)
    requires Decodable(rec) && |barcode0| == |evenOdd0| == 13
    ensures |barcode| == |evenOdd| == 13
    ensures valid <==> LeftValid(DecodeHalf(rec.left))
    ensures valid ==> forall j :: 0 <= j < 6 ==>
      barcode[1 + j] == DecodeHalf(rec.left)[j].0 && evenOdd[1 + j] == DecodeHalf(rec.left)[j].1
  {
    ghost var l := DecodeHalf(rec.left);
    barcode, evenOdd := barcode0, evenOdd0;
    var n := 1;
    valid := true;
    while n < 7
      invariant 1 <= n <= 7 && |barcode| == |evenOdd| == 13
      invariant forall j :: 0 <= j < n - 1 ==>
        barcode[1 + j] == l[j].0 <= 9 && evenOdd[1 + j] == l[j].1
    {
      var num := LookUpGroup(rec.left, n - 1);
      barcode := barcode[n := num.0];
      evenOdd := evenOdd[n := num.1];
      if barcode[n] > 9 {
        valid := false;
        break;
      }
      n := n + 1;
    }
  }

  /** The second loop: looks up the six right groups into `barcode[7..13]`,
      stopping at the first group that is no digit or not odd; the left
      entries are kept. */
  method ReadRightHalf(rec: BarcodeRecord, barcode0: seq<nat>, evenOdd0: seq<bool>)
    returns (valid: bool, barcode: seq<nat>, evenOdd: seq<bool>)
    requires Decodable(rec) && |barcode0| == |evenOdd0| == 13
    ensures |barcode| == |evenOdd| == 13
    ensures barcode[..7] == barcode0[..7] && evenOdd[..7] == evenOdd0[..7]
    ensures valid <==> RightValid(DecodeHalf(rec.right))
    ensures valid ==> forall j :: 0 <= j < 6 ==> barcode[7 + j] == DecodeHalf(rec.right)[j].0
  {
    ghost var r := DecodeHalf(rec.right);
    barcode, evenOdd := barcode0, evenOdd0;
    valid := true;
    var n := 7;
    while n < 13
      invariant 7 <= n <= 13 && |barcode| == |evenOdd| == 13
      invariant barcode[..7] == barcode0[..7] && evenOdd[..7] == evenOdd0[..7]
      invariant forall j :: 0 <= j < n - 7 ==> barcode[7 + j] == r[j].0 <= 9 && r[j].1
    {
      var num := LookUpGroup(rec.right, n - 7);
      barcode := barcode[n := num.0];
      evenOdd := evenOdd[n := num.1];
      if barcode[n] > 9 {
        valid := false;
        break;
      }
      if evenOdd[n] == false {
        valid := false;
        break;
      }
      n := n + 1;
    }
  }

  /** The entries the two loops fill are the thirteen digits once the
      leading digit is stored. */
  lemma LoopsFillDigits(l: seq<(nat, bool)>, r: seq<(nat, bool)>, barcodeL: seq<nat>, barcode: seq<nat>, first: nat)
    requires |l| == |r| == 6 && |barcodeL| == |barcode| == 13
    requires forall j :: 0 <= j < 6 ==> barcodeL[1 + j] == l[j].0
    requires barcode[..7] == barcodeL[..7]
    requires forall j :: 0 <= j < 6 ==> barcode[7 + j] == r[j].0
    requires first == FindFirstNumber(LeftParities(l))
    ensures barcode[0 := first] == Digits(l, r)
  {
    var ds := Digits(l, r);
    forall k | 0 <= k < 13 ensures barcode[0 := first][k] == ds[k] {
      if 1 <= k < 7 {
        assert barcode[k] == barcode[..7][k] == barcodeL[k];
        assert ds[k] == DigitsOf(l)[k - 1];
      } else if 7 <= k {
        assert ds[k] == DigitsOf(r)[k - 7];
      }
    }
  }

  /** `translate_bar_code`: fills `barcode` and `evenOdd` group by group,
      then infers the leading digit and compares the check digit.
      Deviations from the source, each an evident slip: `evenOdd` gets 13
      slots (the source declares 12 and writes slot 12), the check digit is
      compared with `barcode[12]` (the source reads `barcode[11]`), and a
      match returns `Some`, and the leading digit is read with the
      corrected parity table of `FindFirstNumber` (entry 7 is (8, 9), where
      the source has (7, 8)). In the source `Some(barcode)` is the value of
      an `if` without `else`, which Rust rejects as a type error, so the
      function as written does not compile; the model takes the evident
      intent of returning the digits there. */
  method TranslateBarCode(rec: BarcodeRecord) returns (res: Option<seq<nat>>)
    requires Decodable(rec)
    ensures res == Translate(rec)
  {
    ghost var l, r := DecodeHalf(rec.left), DecodeHalf(rec.right);
    var barcode: seq<nat> := seq(13, _ => 0);
    var evenOdd: seq<bool> := seq(13, _ => false);
    var valid;
    valid, barcode, evenOdd := ReadLeftHalf(rec, barcode, evenOdd);
    if !valid {
      return None;
    }
    ghost var barcode1, evenOdd1 := barcode, evenOdd;
    valid, barcode, evenOdd := ReadRightHalf(rec, barcode, evenOdd);
    if !valid {
      return None;
    }
    assert evenOdd[2..7] == evenOdd1[2..7] == LeftParities(l);
    var first := FindFirstNumber(evenOdd[2..7]);
    var check := CalcChecksum(first, barcode[1..12]);
    LoopsFillDigits(l, r, barcode1, barcode, first);
    if check == barcode[12] {
      barcode := barcode[0 := first];
      return Some(barcode);
    }
    return None;
  }

  // ---------------------------------------------------------------------
  // Properties of the translation

  /** A left group that is no digit makes the translation fail. */
  lemma TranslateRejectsBadLeft(rec: BarcodeRecord, k: nat)
    requires Decodable(rec) && k < 6 && FindNumberFromBars(rec.left[k]).0 > 9
    ensures Translate(rec) == None
  {
    DecodeHalfAt(rec.left, k);
  }

  /** A right group that is no digit, or that has even parity, makes the
      translation fail. */
  lemma TranslateRejectsBadRight(rec: BarcodeRecord, k: nat)
    requires Decodable(rec) && k < 6
    requires FindNumberFromBars(rec.right[k]).0 > 9 || !FindNumberFromBars(rec.right[k]).1
    ensures Translate(rec) == None
  {
    DecodeHalfAt(rec.right, k);
  }

  /** A successful translation is the digits of the groups, in order, with a
      GS1-valid check digit; every entry but the leading one is a digit and
      every right group has the widths of that digit in number set A. */
  lemma TranslateSound(rec: BarcodeRecord)
    requires Decodable(rec) && Translate(rec).Some?
    ensures var ds := Translate(rec).value;
      && |ds| == 13 && ds[0] <= 10 && Gs1Valid(ds)
      && (forall k :: 1 <= k < 13 ==> ds[k] <= 9)
      && (forall k :: 0 <= k < 6 ==> ds[1 + k] == FindNumberFromBars(rec.left[k]).0)
      && (forall k :: 0 <= k < 6 ==> ds[7 + k] == FindNumberFromBars(rec.right[k]).0)
      && (forall k :: 0 <= k < 6 ==> rec.right[k] == SetA(ds[7 + k]))
  {
    var l, r := DecodeHalf(rec.left), DecodeHalf(rec.right);
    var ds := Translate(rec).value;
    assert ChecksumMatches(ds);
    ChecksumMatchesIsGs1(ds);
    forall k | 1 <= k < 13 ensures ds[k] <= 9 {
      if k < 7 { assert ds[k] == DigitsOf(l)[k - 1]; } else { assert ds[k] == DigitsOf(r)[k - 7]; }
    }
    forall k | 0 <= k < 6
      ensures ds[1 + k] == FindNumberFromBars(rec.left[k]).0
      ensures ds[7 + k] == FindNumberFromBars(rec.right[k]).0
      ensures rec.right[k] == SetA(ds[7 + k])
    {
      DecodeHalfAt(rec.left, k);
      DecodeHalfAt(rec.right, k);
      assert ds[1 + k] == DigitsOf(l)[k];
      assert ds[7 + k] == DigitsOf(r)[k];
      RightGroupIsSetA(rec.right[k]);
    }
  }

  /** A group the table decodes to an odd digit has that digit's set A
      widths. */
  lemma RightGroupIsSetA(c: seq<nat>)
    requires |c| == 4 && Indexable(c)
    requires FindNumberFromBars(c).0 <= 9 && FindNumberFromBars(c).1
    ensures c == SetA(FindNumberFromBars(c).0)
  {
    FindNumberFromBarsCorrect(c);
    DictEntriesAreSetsAAndB();
  }

  /** Thirteen entries, each a digit. */
  predicate AllDigits(ds: seq<nat>)
  {
    |ds| == 13 && forall k :: 0 <= k < 13 ==> ds[k] <= 9
  }

  /** A complete EAN-13 code: thirteen digits whose last is the check digit
      of the others. */
  predicate ValidEan13(ds: seq<nat>)
  {
    AllDigits(ds) && ChecksumMatches(ds)
  }

  /** Set A and set B widths are indexable groups. */
  lemma SetsIndexable(d: Digit)
    ensures Indexable(SetA(d)) && Indexable(SetB(d))
  {
    assert d in {0, 1, 2, 3, 4, 5, 6, 7, 8, 9};
  }

  /** `rec` is what a scan of the code `ds` yields: the left digits in sets
      A and B as the parity pattern of the leading digit prescribes, the
      right digits in set C (stored as the set A widths). */
  predicate IsScanOf(rec: BarcodeRecord, ds: seq<nat>)
    requires AllDigits(ds)
  {
    && GroupsShaped(rec.left) && GroupsShaped(rec.right)
    && (forall j :: 0 <= j < 6 ==>
          rec.left[j] == if ParityPattern(ds[0])[j] then SetA(ds[1 + j]) else SetB(ds[1 + j]))
    && (forall j :: 0 <= j < 6 ==> rec.right[j] == SetA(ds[7 + j]))
  }

  /** Group j of a scan decodes to its digit, with the parity the leading
      digit prescribes on the left and odd parity on the right. */
  lemma ScanGroup(rec: BarcodeRecord, ds: seq<nat>, j: nat)
    requires AllDigits(ds) && IsScanOf(rec, ds) && j < 6
    ensures Indexable(rec.left[j]) && Indexable(rec.right[j])
    ensures FindNumberFromBars(rec.left[j]) == (ds[1 + j], ParityPattern(ds[0])[j])
    ensures FindNumberFromBars(rec.right[j]) == (ds[7 + j], true)
  {
    SetsIndexable(ds[1 + j]);
    SetsIndexable(ds[7 + j]);
    FindNumberFromBarsSets(ds[1 + j]);
    FindNumberFromBarsSets(ds[7 + j]);
  }

  /** The lookups of the left half of a scan of `ds`. */
  function LeftLookups(ds: seq<nat>): (l: seq<(nat, bool)>)
    requires AllDigits(ds)
    ensures |l| == 6
  {
    seq(6, j requires 0 <= j < 6 => (ds[1 + j], ParityPattern(ds[0])[j]))
  }

  /** The lookups of the right half of a scan of `ds`. */
  function RightLookups(ds: seq<nat>): (r: seq<(nat, bool)>)
    requires AllDigits(ds)
    ensures |r| == 6
  {
    seq(6, j requires 0 <= j < 6 => (ds[7 + j], true))
  }

  lemma ScanDecodes(rec: BarcodeRecord, ds: seq<nat>)
    requires AllDigits(ds) && IsScanOf(rec, ds)
    ensures Decodable(rec)
    ensures DecodeHalf(rec.left) == LeftLookups(ds)
    ensures DecodeHalf(rec.right) == RightLookups(ds)
  {
    forall j | 0 <= j < 6 ensures Indexable(rec.left[j]) && Indexable(rec.right[j]) {
      ScanGroup(rec, ds, j);
    }
    forall j | 0 <= j < 6
      ensures DecodeHalf(rec.left)[j] == LeftLookups(ds)[j]
      ensures DecodeHalf(rec.right)[j] == RightLookups(ds)[j]
    {
      ScanGroup(rec, ds, j);
      DecodeHalfAt(rec.left, j);
      DecodeHalfAt(rec.right, j);
    }
  }

  /** The lookups of a scan of a valid code translate back to the code. */
  lemma TranslateLookupsOfCode(ds: seq<nat>)
    requires ValidEan13(ds)
    ensures TranslateDecoded(LeftLookups(ds), RightLookups(ds)) == Some(ds)
  {
    var l, r := LeftLookups(ds), RightLookups(ds);
    assert LeftParities(l) == ParityPattern(ds[0])[1..] == PatternTail(ds[0]);
    FirstDigitFromParity(ds[0]);
    assert Digits(l, r) == ds;
  }

  /** Round trip: translating any scan of a valid EAN-13 code gives the
      code back. */
  lemma TranslateScan(rec: BarcodeRecord, ds: seq<nat>)
    requires ValidEan13(ds) && IsScanOf(rec, ds)
    ensures Decodable(rec)
    ensures Translate(rec) == Some(ds)
  {
    ScanDecodes(rec, ds);
    TranslateLookupsOfCode(ds);
  }

  // ---------------------------------------------------------------------
  // `translate_bar_code` as written

  /** How a call ends: by a panic, or by returning a value. */
  datatype Outcome = Panic | Return(value: Option<seq<nat>>)

  /** `translate_bar_code` exactly as written. With `even_odd` of 12 slots
      the right-half loop panics when it writes `even_odd[12]` for the
      sixth right group, and every earlier exit returns `None`. The code
      after the loops, which is never reached, does not type-check as
      written (`Some(barcode)` is the value of an `if` without `else`);
      this function does not depend on it. */
  function TranslateAsWritten(rec: BarcodeRecord): (o: Outcome)
    requires Decodable(rec)
    ensures o != Return(Some(Digits(DecodeHalf(rec.left), DecodeHalf(rec.right))))
  {
    var l, r := DecodeHalf(rec.left), DecodeHalf(rec.right);
    if !LeftValid(l) || !RightValid(r[..5]) then Return(None) else Panic
  }

  /** Every record the intended translation accepts makes the source
      panic; in particular the scan of every valid code does. */
  lemma TranslateAsWrittenPanics(rec: BarcodeRecord)
    requires Decodable(rec) && Translate(rec).Some?
    ensures TranslateAsWritten(rec) == Panic
  {
    var r := DecodeHalf(rec.right);
    assert RightValid(r);
  }

  lemma SampleCheckDigit()
    ensures CalcChecksum(4, [0, 0, 6, 3, 8, 1, 3, 3, 3, 9, 3]) == 1
  {
  }

  /** The code 4006381333931 has the right check digit (1), which differs
      from its twelfth digit (3): comparing the check digit with
      `barcode[11]` rejects it. */
  lemma CheckIndexAsWrittenRejectsValidCode(ds: seq<nat>)
    requires ds == [4, 0, 0, 6, 3, 8, 1, 3, 3, 3, 9, 3, 1]
    ensures ChecksumMatches(ds) && !ChecksumMatchesAsWritten(ds)
  {
    assert ds[1..12] == [0, 0, 6, 3, 8, 1, 3, 3, 3, 9, 3];
    SampleCheckDigit();
  }

  /** Among valid EAN-13 codes, the comparison with `barcode[11]` accepts
      exactly those whose twelfth digit happens to equal the check digit. */
  lemma CheckIndexAsWrittenOnValidCodes(ds: seq<nat>)
    requires |ds| == 13
    ensures ValidEan13(ds) ==> (ChecksumMatchesAsWritten(ds) <==> ds[11] == ds[12])
  {
  }
}
