# rust_barcode_reader core in Dafny

This project models how the barcode reader turns the pixel rows of an image
into EAN-13 (and UPC-A) codes, and proves properties of that model.

- **Row profile.** For each scanned row, `process_image_by_rows` computes the
  row's minimum, maximum and mean. It does the same for every slice of 30
  pixels.
- **Crossings.** `find_crossings_from_average` walks the row against a
  threshold band, which is re-centred slice by slice. It records every pixel
  where the intensity crosses the band.
- **Search.** `find_bar_code` looks at the distances between consecutive
  crossings. It searches them for a start guard, a middle guard and an end
  guard of matching widths. Each of the two halves between the guards holds
  six groups of four bars. `parse_barcode_section` reads each group, and
  `parse_number_bars` turns each group into whole module counts.
- **De-duplication.** A row's record is kept unless its right half equals the
  right half of the record kept last (`are_barcodes_same`).
- **Translation.** `translate_bar_code` looks up each group in the
  number-set table. It infers the implicit leading digit from the parities of
  the left half. It then checks the modulo-10 check digit of GS1 General
  Specifications section 7.9.
- **Newer detector.** color_line_helpers.rs holds a newer crossing detector.
  It skips flat slices and also reports long runs that end in a spike. It is
  modelled on its own, because nothing in the repository calls it.

## Modules

| module | file | what it holds |
|---|---|---|
| `BarcodeTypes` | barcode_types.dfy | `Byte` (u8), `ColorLine`, `BarcodeRecord` (the `BarcodeBarArray` tuple), threshold bands, sums, running min and max |
| `RowProfile` | row_profile.dfy | the per-row statistics loop |
| `RowCrossings` | row_crossings.dfy | `find_crossings_from_average` and `find_range_buffer` of barcode_detector.rs |
| `NumberBars` | number_bars.dfy | `compare_bar_by_color` and the integer phase of `parse_number_bars` |
| `BarcodeDetector` | barcode_detector.dfy | distances, guards, sections, `find_bar_code`, the row driver and its de-duplication |
| `ColorLineHelpers` | color_line_helpers.dfy | the newer `find_crossings_from_average`, `compare_row_value_with_buffer` and `find_range_buffer` |
| `BarcodeTranslate` | barcode_translate.dfy | `translate_bar_code` and its helpers |

## How the model is built

- **Specification functions.** Each loop of the source is a method. The
  method is proved equal to a function that states the result directly,
  such as `Profile`, `Scan`, `Section`, `FirstAccept`, `Dedup`, `Ranking`,
  `Settle`, `Scanned` or `Translate`.
- **Lemmas on those functions.** Lemmas then state what the result means:
  - the slice statistics are minima, maxima and means;
  - crossings increase and alternate sides of the band;
  - the first accepted window is the first one;
  - kept records come in increasing row order and never repeat the right half before them;
  - the ranking is a permutation sorted by fraction;
  - a decoded group has 7 modules;
  - the check digit is the GS1 one, and it detects any single-digit error;
  - the scan of every valid code translates back to the code.
- **Floating-point estimates become parameters.** This applies to
  `find_unit_len` and to the per-bar estimate in `parse_number_bars`, which
  uses `check_bar_edge`. The search is proved for any group decoder that
  keeps the contract of `parse_number_bars`, and `NumberBarsDecoderValid`
  shows that `parse_number_bars` keeps it.
- **Input pixels.** The image is a sequence of pixel rows of equal width.
- **Width of the metadata.** src/main.rs:10 declares `BarcodeBarArray` with
  five metadata slots, but `find_bar_code` builds it with four
  (src/barcode_detector.rs:206), so the source as written does not
  compile there. The model takes the evident intent of the four slots
  `find_bar_code` fills and reads.

## Model

| member | source | states |
|---|---|---|
| BarcodeTypes.LowestIsMinimum | src/barcode_detector.rs:71-76 | the running minimum that starts at 255 is at most every value and equals one of them (255 when there are none) |
| BarcodeTypes.HighestIsMaximum | src/barcode_detector.rs:77-82 | the running maximum that starts at 0 is at least every value and equals one of them |
| BarcodeTypes.MeanBetween | src/barcode_detector.rs:88 | the floor of a slice's mean lies between its minimum and maximum, so the u8 cast never truncates |
| BarcodeTypes.HalfWidth | src/barcode_detector.rs:150 | the band half-width `max(3, span * 0.04)` lies between 3 and 10 for any u8 span |
| BarcodeTypes.BandAround | src/barcode_detector.rs:150-151 | the saturating band contains its centre, is at least 3 levels wide, and reaches at most one half-width from the centre on each side |
| BarcodeTypes.Weighted | src/barcode_detector.rs:191-192 | the pixel-weighted mean of the last full slice and the short final slice lies between the two slice averages |
| RowProfile.TrackExtremes | src/barcode_detector.rs:71-82 | the nested updates give the slice and row minimum and maximum with the new pixel, and the row extremes stay outside the slice extremes |
| RowProfile.ScanRow | src/barcode_detector.rs:64-98 | the pixel loop records one entry per slice (ceil(len / 30) of them), each the slice's minimum, maximum and floor of the mean, and the row's minimum, maximum and sum |
| RowProfile.CloseSlice | src/barcode_detector.rs:84-98 | pushing a finished slice, full or the shorter last one, extends the records by that slice's statistics |
| RowProfile.RowTotals | src/barcode_detector.rs:66-82 | after the loop the row accumulators hold the row's minimum, maximum and sum |
| RowProfile.RowWellFormed | src/barcode_detector.rs:59-98 | complete slice records give a well-formed line: min <= avg <= max for every slice |
| RowProfile.SliceMean | src/barcode_detector.rs:88 | a slice average lies between that slice's minimum and maximum |
| RowProfile.Profile | src/barcode_detector.rs:49-100 | the profile of a row is well formed and its slice records are the slices' statistics |
| RowProfile.SlicesDetermined | src/barcode_detector.rs:59-98 | any complete slice records of a row are exactly those of its `Profile` |
| RowProfile.BuildColorLine | src/barcode_detector.rs:49-100 | the line built from a row's pixels is that row's `Profile` |
| RowCrossings.RangeBuffer | src/barcode_detector.rs:178-202 | the band of a slice pair, or of the last slice, is ordered and at least 3 levels wide |
| RowCrossings.InitialBand | src/barcode_detector.rs:145-151 | the first band contains the first slice's average |
| RowCrossings.PhaseClosed | src/barcode_detector.rs:154-173 | after `num` pixels the slice counter that starts at half a slice has wrapped (num + size/2) / size times |
| RowCrossings.UpdateInRange | src/barcode_detector.rs:167-171 | every re-centring reads an existing slice, so `find_range_buffer` never indexes past the slice records |
| RowCrossings.BandAt | src/barcode_detector.rs:145-173 | the band in force at a pixel is ordered |
| RowCrossings.Bands | src/barcode_detector.rs:145-173 | there is one band per pixel of the row |
| RowCrossings.BandStep | src/barcode_detector.rs:167-173 | from one pixel to the next the band stays, except on a wrap, where it becomes the band of the slice pair just left |
| RowCrossings.ScanShape | src/barcode_detector.rs:155-166 | the crossings are increasing positions inside the row, and the scan points upward exactly after an even number of them |
| RowCrossings.ScanCrossing | src/barcode_detector.rs:155-166 | even-numbered crossings are pixels below their band, odd-numbered ones pixels above it |
| RowCrossings.ScanQuiet | src/barcode_detector.rs:155-166 | every pixel between two crossings stays on the side of the band that the last crossing left it on |
| RowCrossings.ScanPixel | src/barcode_detector.rs:155-166 | one pixel step of the loop is one step of `Scan` |
| RowCrossings.AdvanceSlice | src/barcode_detector.rs:167-173 | the slice counter step keeps the counter and the band in force in step with `PhaseAt` and `Bands` |
| RowCrossings.FindCrossings | src/barcode_detector.rs:140-176 | the flag says whether the first pixel is at or above the first slice's average, and the crossings are `Scan` over the whole row |
| NumberBars.CompareBarByColor | src/barcode_detector.rs:393-424 | the one-pass loop returns the colour score: both sums less len times (high + low) of the common extremes, negated when the second bar is brighter |
| NumberBars.PairExtremes | src/barcode_detector.rs:397-413 | the extremes that the branchy update keeps bound every pixel of both bars and are attained, or are 255 and 0 for empty bars |
| NumberBars.ExtremesOfBoth | src/barcode_detector.rs:397-413 | for equal lengths, those extremes are the minimum and maximum of both bars together |
| NumberBars.PairExtremesSymmetric | src/barcode_detector.rs:397-413 | swapping the bars leaves the common extremes unchanged |
| NumberBars.ColorScoreAntisymmetric | src/barcode_detector.rs:418-423 | swapping two equally long bars negates the score when their sums differ, and leaves it unchanged when the sums are equal |
| NumberBars.Estimates | src/barcode_detector.rs:298-315 | one estimate per bar |
| NumberBars.EstimateAt | src/barcode_detector.rs:299-315 | bar i's estimate is the estimator applied to its width, the unit and its own pixels |
| NumberBars.Entries | src/barcode_detector.rs:346 | entry i of the ranking input names bar i |
| NumberBars.Insert | src/barcode_detector.rs:321-346 | one insertion adds exactly one entry |
| NumberBars.InsertPermutes | src/barcode_detector.rs:321-346 | one insertion step adds the new entry and loses none |
| NumberBars.RankingPermutes | src/barcode_detector.rs:298-349 | the ranking is a permutation of the bars' entries |
| NumberBars.RankingByFraction | src/barcode_detector.rs:321-346 | the ranking orders the fractional parts from largest to smallest |
| NumberBars.RankingBars | src/barcode_detector.rs:298-349 | the ranking has one entry per bar and names only existing bars |
| NumberBars.TopUpFrom | src/barcode_detector.rs:350-358 | the round-robin top-up keeps the number of bars and adds exactly the missing modules |
| NumberBars.TopUpCounts | src/barcode_detector.rs:350-358 | each bar gains one module for every time it occurs among the `d` ranks the top-up visits, read cyclically from the start rank so that a top-up longer than the ranking wraps to its first entry |
| NumberBars.TopUpGrows | src/barcode_detector.rs:350-358 | the top-up never lowers a bar's count |
| NumberBars.SettleGroup | src/barcode_detector.rs:350-371 | after top-up and trim the result is empty or sums to exactly `units`, and bars of at least one module keep at least one |
| NumberBars.NumberBarsGroup | src/barcode_detector.rs:291-372 | `parse_number_bars` returns nothing or one count per bar summing to `units`, each at least 1 when every estimate was |
| NumberBars.InsertRanked | src/barcode_detector.rs:321-346 | the in-place shifting loop leaves the first num + 1 slots as the insertion of the new entry into the ranked prefix |
| NumberBars.RankNext | src/barcode_detector.rs:321-348 | after each bar the ranked prefix is the ranking of the bars seen so far |
| NumberBars.RankBars | src/barcode_detector.rs:298-349 | the loop over the bars reports a bar wider than `max_len`, or yields the whole parts and the ranking of the fractions |
| NumberBars.TopUp | src/barcode_detector.rs:350-358 | the top-up loop equals the round-robin `TopUpFrom` when short, and changes nothing otherwise |
| NumberBars.SettleDivs | src/barcode_detector.rs:350-371 | top-up, trim and over-count rejection equal `Settle` |
| NumberBars.ParseNumberBars | src/barcode_detector.rs:291-372 | the whole function equals `NumberBars`, the functional statement that `NumberBarsGroup` is proved about |
| BarcodeDetector.Gap | src/barcode_detector.rs:212 | the distance between consecutive crossings is positive |
| BarcodeDetector.Diffs | src/barcode_detector.rs:208-216 | one positive distance per consecutive pair of crossings |
| BarcodeDetector.DiffAt | src/barcode_detector.rs:212 | distance i is crossing i + 1 less crossing i |
| BarcodeDetector.DiffsSum | src/barcode_detector.rs:208-216 | the distances from crossing i to crossing j add up to c[j] - c[i] |
| BarcodeDetector.CrossingDistances | src/barcode_detector.rs:208-216 | the distance loop yields `Diffs` |
| BarcodeDetector.GuardTolerance | src/barcode_detector.rs:221-222 | the accepted range is [max(rc + 1, d) - rc, d + rc] with rc = d / 10 + 2: it contains every positive reference width and never 0 |
| BarcodeDetector.HasMiddleAndEnd | src/barcode_detector.rs:245-261 | true exactly when all five middle-guard widths and all three end-guard widths are within the range |
| BarcodeDetector.NumberBarsDecoderValid | src/barcode_detector.rs:287-289 | `parse_ean_code` (`parse_number_bars` with 7 units and at most 4 per bar) returns nothing or four counts adding up to 7 |
| BarcodeDetector.GroupBounds | src/barcode_detector.rs:268-272 | a group's widths, pixel slice and slice average are all inside the row |
| BarcodeDetector.Group | src/barcode_detector.rs:268-272 | a decoded group is empty or four counts adding up to 7 |
| BarcodeDetector.Groups | src/barcode_detector.rs:267-283 | the six group readings of a section are each empty or four counts |
| BarcodeDetector.KeepDecoded | src/barcode_detector.rs:273-280 | the groups kept up to the first empty one, padded with zero groups, are six groups of four |
| BarcodeDetector.Section | src/barcode_detector.rs:263-285 | a parsed section is six groups of four widths |
| BarcodeDetector.KeepDecodedAll | src/barcode_detector.rs:273-275 | when the last group of a section is not zero, every group was decoded and is kept as read |
| BarcodeDetector.WriteGroup | src/barcode_detector.rs:276-280 | the copy loop replaces exactly group `ix` with the decoded codes |
| BarcodeDetector.ParseGroup | src/barcode_detector.rs:268-272 | one group parse yields `Group` |
| BarcodeDetector.ParseBarcodeSection | src/barcode_detector.rs:263-285 | the section loop yields `Section`: decoded groups up to the first failure, zero groups after it |
| BarcodeDetector.LightFlips | src/barcode_detector.rs:217-219 | the colour flag alternates from one window to the next |
| BarcodeDetector.WindowRecord | src/barcode_detector.rs:226-235 | the record of a window is shaped: four metadata entries and two halves of six four-width groups |
| BarcodeDetector.Found | src/barcode_detector.rs:226-235 | the record of a window, with the unit width estimated there, is shaped |
| BarcodeDetector.FirstTrueIsFirst | src/barcode_detector.rs:218-240 | the linear search returns the first position that passes, or none when no position passes |
| BarcodeDetector.FirstAcceptIsFirst | src/barcode_detector.rs:218-240 | the window found is accepted and no earlier window is, or no window in 2 .. len - 57 is accepted |
| BarcodeDetector.HalfDecoded | src/barcode_detector.rs:227-234 | a half whose last group is not zero consists of six groups, each decoded from its own widths and pixels |
| BarcodeDetector.WindowDecoded | src/barcode_detector.rs:221-235 | an accepted window has ordered x bounds with a non-zero right end, and both halves fully decoded |
| BarcodeDetector.FoundDecoded | src/barcode_detector.rs:221-235 | the same for the window that the search accepts, with its own unit width |
| BarcodeDetector.CheckGuards | src/barcode_detector.rs:220-225 | the nested tests accept exactly when the start, middle and end guard widths all match width t - 2 |
| BarcodeDetector.ParseHalves | src/barcode_detector.rs:226-234 | success exactly when both halves decode their last group, and then the halves are the window's sections |
| BarcodeDetector.TryWindow | src/barcode_detector.rs:219-240 | one iteration accepts exactly the windows `Accepts` holds for |
| BarcodeDetector.FindBarCode | src/barcode_detector.rs:204-243 | fewer than 58 crossings give the zero record; otherwise the record of the first accepted window, or zero metadata when none is accepted |
| BarcodeDetector.SearchWindows | src/barcode_detector.rs:217-242 | the window loop returns the record of the first accepted window, or zero metadata |
| BarcodeDetector.Log10FloorBounds | src/barcode_detector.rs:120 | `Log10Floor(n)` is floor(log10 n): 10^k <= n < 10^(k+1) |
| BarcodeDetector.RowStepAsWrittenBounds | src/barcode_detector.rs:119-123 | the step as written is floor(log10 h^6), and it is 0 exactly for a one-row image |
| BarcodeDetector.RowStepAsWrittenStalls | src/barcode_detector.rs:113 | with a one-row image, any number of steps leaves `y` at row 0 |
| BarcodeDetector.RowStep | src/barcode_detector.rs:119-123 | the step is at least 1 and equals the written formula for every height of at least 2 |
| BarcodeDetector.AreBarcodesSame | src/barcode_detector.rs:125-138 | true exactly when the two right halves are equal group by group |
| BarcodeDetector.RowCrossingsOf | src/barcode_detector.rs:101 | the row's crossings are increasing positions inside the row |
| BarcodeDetector.RowDetectionShape | src/barcode_detector.rs:100-103 | a row's detection names its own row, has left x < right x with right x > 0, and has every group of both halves decoded, spanning seven modules |
| BarcodeDetector.ScanImageRow | src/barcode_detector.rs:49-102 | a row's record has a non-zero right x exactly when the row has a detection, and is then that detection |
| BarcodeDetector.DedupSound | src/barcode_detector.rs:103-112 | every kept record is a row's detection, the kept rows increase, and no kept record repeats the right half of the one before it |
| BarcodeDetector.DedupComplete | src/barcode_detector.rs:103-112 | every detected right half is among the kept records |
| BarcodeDetector.DedupExtends | src/barcode_detector.rs:103-112 | offering one more row only appends, and a detection always leaves its right half last |
| BarcodeDetector.RowCountBound | src/barcode_detector.rs:48 | row k * step is inside the image exactly when k < ceil(h / step) |
| BarcodeDetector.ScannedRows | src/barcode_detector.rs:41-113 | the scanned rows are ceil(h / step) increasing rows inside the image |
| BarcodeDetector.DetectorValid | src/barcode_detector.rs:100-103 | every row detection of the search is shaped, names its own row and has left x < right x with right x > 0 |
| BarcodeDetector.Offered | src/barcode_detector.rs:48-113 | one detection outcome per scanned row |
| BarcodeDetector.DetectedReported | src/barcode_detector.rs:40-117 | every reported record is the detection of a scanned row it names; rows increase; no record repeats the right half before it; every scanned row's detected right half is reported |
| BarcodeDetector.DetectedTranslatable | src/barcode_detector.rs:40-117 | every record `process_image_by_rows` reports meets what `translate_bar_code` needs to look up its twelve groups without going out of bounds |
| BarcodeDetector.OfferRow | src/barcode_detector.rs:102-112 | one row offers its detection to the list, which keeps it unless it repeats the last right half |
| BarcodeDetector.OfferedStep | src/barcode_detector.rs:48-113 | the k-th scanned row is row k * step, and offering it extends `Dedup` by one `Collect` |
| BarcodeDetector.ProcessImageByRows | src/barcode_detector.rs:40-117 | the row loop returns `Detected`, the de-duplicated detections of rows 0, step, 2 step, ... |
| ColorLineHelpers.PairSpan | src/color_line_helpers.rs:107-109 | the span of a slice pair is a u8 value |
| ColorLineHelpers.SkipFlat | src/color_line_helpers.rs:106-113 | the skip never moves backward |
| ColorLineHelpers.Centre | src/color_line_helpers.rs:129 | the band centre lies between the average and the middle of the extremes |
| ColorLineHelpers.RangeAt | src/color_line_helpers.rs:114-132 | the band of the chosen slice is ordered and continues from the next slice |
| ColorLineHelpers.RangeFrom | src/color_line_helpers.rs:100-134 | the returned band is ordered and moves the scan past `cur` |
| ColorLineHelpers.SkipFlatSkips | src/color_line_helpers.rs:106-113 | every pair skipped is flat (span below 16), and the pair stopped at, if any, is not |
| ColorLineHelpers.RangeFromSkips | src/color_line_helpers.rs:100-134 | the result moves past `cur`, is at least 3 levels wide, skips only flat pairs and stops at a non-flat pair or the end |
| ColorLineHelpers.AverageOfPair | src/color_line_helpers.rs:114-121 | the three-way, two-way or weighted average of the chosen pair |
| ColorLineHelpers.FindRangeBuffer | src/color_line_helpers.rs:100-134 | the skipping loop returns `RangeFrom`, including the zero band when `cur` is past the last slice |
| ColorLineHelpers.CompareRowValueWithBuffer | src/color_line_helpers.rs:87-98 | a value within the band extends the run; a spike ends it and reports the run's start and end when the run was armed and longer than 3; the crossings stay increasing |
| ColorLineHelpers.PushCrossing | src/color_line_helpers.rs:50-55 | a crossing is reported at the pixel, or half a run earlier on big images, and the crossings stay increasing and inside the row |
| ColorLineHelpers.Start | src/color_line_helpers.rs:22-43 | the scan starts upward with no run and no crossings |
| ColorLineHelpers.Compared | src/color_line_helpers.rs:57 | the run comparison keeps the position, the band and the direction |
| ColorLineHelpers.Crossed | src/color_line_helpers.rs:47-67 | a crossing keeps the position and the band |
| ColorLineHelpers.PixelStep | src/color_line_helpers.rs:46-71 | one pixel keeps the position and the band, and grows the run by at most one |
| ColorLineHelpers.SliceStep | src/color_line_helpers.rs:72-82 | advancing the counter always moves forward and never touches the direction, the run or the crossings |
| ColorLineHelpers.Step | src/color_line_helpers.rs:45-83 | every iteration moves forward and the run never exceeds the position |
| ColorLineHelpers.Scanned | src/color_line_helpers.rs:45-83 | the scan runs until it has passed the end of the row |
| ColorLineHelpers.CrossedProgress | src/color_line_helpers.rs:47-67 | a crossing keeps the crossings increasing and inside the row, ahead of the next pixel |
| ColorLineHelpers.ComparedProgress | src/color_line_helpers.rs:87-98 | a run comparison does the same |
| ColorLineHelpers.PixelStepProgress | src/color_line_helpers.rs:46-71 | so does every pixel step |
| ColorLineHelpers.ScannedProgress | src/color_line_helpers.rs:45-83 | so does the whole scan, including the jumps over skipped slices |
| ColorLineHelpers.CrossingsFromAverageShape | src/color_line_helpers.rs:20-85 | the reported crossings are strictly increasing pixel positions inside the row, so no `num - count` underflows |
| ColorLineHelpers.ScanPixel | src/color_line_helpers.rs:46-71 | the pixel handling of the loop is `PixelStep` |
| ColorLineHelpers.AdvanceSlice | src/color_line_helpers.rs:72-82 | the counter handling, including the jump of size * diff pixels over skipped slices, is `SliceStep` |
| ColorLineHelpers.StartScan | src/color_line_helpers.rs:22-43 | the flag says whether the first pixel is at or above the first centre, and the initial state is `Start`, including the skip of a flat first slice |
| ColorLineHelpers.ScanStep | src/color_line_helpers.rs:45-83 | one iteration of the loop is `Step` and keeps the crossings increasing |
| ColorLineHelpers.FindCrossingsFromAverage | src/color_line_helpers.rs:20-85 | the flag as above, and the crossings are those of `Scanned` from `Start` |
| BarcodeTranslate.DictEntriesAreSetsAAndB | src/barcode_translate.rs:5-26 | every table entry has widths from 1 to 4 adding up to 7, and is number set A of its digit when odd, set B when even |
| BarcodeTranslate.DictSortedByKey | src/barcode_translate.rs:5-26 | the table is strictly sorted by its widths |
| BarcodeTranslate.DictWidthsDistinct | src/barcode_translate.rs:5-26 | no two table entries share their widths |
| BarcodeTranslate.DictPosBlocks | src/barcode_translate.rs:3 | `BARCODE_DICT_POS[a-1][b-1] .. [a-1][b]` is exactly the block of entries whose first two widths are a and b |
| BarcodeTranslate.SearchBlockFirst | src/barcode_translate.rs:128-133 | the block search returns the first entry whose last two widths match |
| BarcodeTranslate.SearchBlockNone | src/barcode_translate.rs:128-134 | with no match it returns (10, false) |
| BarcodeTranslate.FindNumberFromBarsCorrect | src/barcode_translate.rs:124-135 | the lookup returns the digit and parity of the entry with those widths, or (10, false) when there is none |
| BarcodeTranslate.GroupIndexable | src/barcode_translate.rs:124-128 | a group spanning seven modules, or the all-zero padding group, never indexes `BARCODE_DICT_POS` out of bounds |
| BarcodeTranslate.SevenWideDecodable | src/barcode_translate.rs:124-128 | a record whose twelve groups each span seven modules can be translated without a lookup out of bounds |
| BarcodeTranslate.FindNumberFromBarsSets | src/barcode_translate.rs:124-135 | set A widths of d read as (d, odd), set B widths as (d, even) |
| BarcodeTranslate.PatternDigitOfTail | src/barcode_translate.rs:72 | the parity pattern of left digits 2 to 6 identifies the leading digit |
| BarcodeTranslate.FindFirstNumberReadsPrefix | src/barcode_translate.rs:85-103 | two leading odd parities read as digit 0 |
| BarcodeTranslate.WalkOddFirst | src/barcode_translate.rs:85-103 | the walk from an odd first parity ends at the encoded digit, except, with the source's table, on odd, even, even, even, where node 7 points back to itself |
| BarcodeTranslate.WalkEvenOdd | src/barcode_translate.rs:85-103 | walks starting even, odd end at the encoded digit |
| BarcodeTranslate.WalkEvenEven | src/barcode_translate.rs:85-103 | walks starting even, even end at the encoded digit |
| BarcodeTranslate.WalkSelfLoop | src/barcode_translate.rs:28-29 | as written, node 7 points back to itself: the pattern odd, even, even, even returns 3 when the fifth parity is even, and reads a sixth parity past the five-entry slice (a panic) when it is odd |
| BarcodeTranslate.WalkCorrected | src/barcode_translate.rs:85-103 | with node 7 pointing to node 8 the walk decodes every pattern |
| BarcodeTranslate.FindFirstNumber | src/barcode_translate.rs:85-103 | the leading digit is the digit the parity pattern encodes, or 10 for a pattern of no digit |
| BarcodeTranslate.FirstDigitFromParity | src/barcode_translate.rs:85-103 | every digit's parity pattern decodes back to that digit |
| BarcodeTranslate.FindFirstNumberAsWrittenDiffers | src/barcode_translate.rs:85-103 | the tree as written agrees with the corrected one on every pattern except odd, even, even, even, * |
| BarcodeTranslate.ParityTreeAsWrittenOnPatterns | src/barcode_translate.rs:28-29 | as written, every digit's pattern decodes correctly except 3's (odd, even, even, even, odd), whose walk panics |
| BarcodeTranslate.CalcChecksum | src/barcode_translate.rs:105-121 | the check digit is below 10 |
| BarcodeTranslate.ChecksumLoopIsWeighted | src/barcode_translate.rs:106-115 | the alternating loop adds the digits with weights 3, 1, 3, ... |
| BarcodeTranslate.CalcChecksumIsGs1 | src/barcode_translate.rs:105-121 | the check digit is (10 - weighted sum mod 10) mod 10, and so completes the weighted sum to a multiple of 10 |
| BarcodeTranslate.ChecksumDetectsSingleDigitError | src/barcode_translate.rs:105-121 | changing any single one of digits 2 to 12 changes the check digit |
| BarcodeTranslate.ChecksumDetectsLeadingDigitError | src/barcode_translate.rs:105-121 | changing the leading digit changes the check digit |
| BarcodeTranslate.DecodeHalfAt | src/barcode_translate.rs:44-45 | entry k of a decoded half is the lookup of group k |
| BarcodeTranslate.LeftParities | src/barcode_translate.rs:72 | `even_odd[2..7]` are the parities of left digits 2 to 6 |
| BarcodeTranslate.Digits | src/barcode_translate.rs:38-76 | the result has 13 digits |
| BarcodeTranslate.ChecksumMatchesIsGs1 | src/barcode_translate.rs:73-74 | the check digit comparison holds exactly when the last digit is a digit that makes the GS1 weighted sum a multiple of 10 |
| BarcodeTranslate.LookUpGroup | src/barcode_translate.rs:45 | one lookup is the decoded entry of its group |
| BarcodeTranslate.ReadLeftHalf | src/barcode_translate.rs:44-53 | the left loop succeeds exactly when every left group is a digit, and then stores digits and parities in slots 1 to 6 |
| BarcodeTranslate.ReadRightHalf | src/barcode_translate.rs:57-70 | the right loop succeeds exactly when every right group is an odd-parity digit, stores them in slots 7 to 12, and leaves slots 0 to 6 alone |
| BarcodeTranslate.TranslateBarCode | src/barcode_translate.rs:36-82 | the corrected translation returns `Translate`, the 13 digits exactly when both halves decode and the check digit matches |
| BarcodeTranslate.TranslateRejectsBadLeft | src/barcode_translate.rs:44-56 | a left group that is no digit gives no result |
| BarcodeTranslate.TranslateRejectsBadRight | src/barcode_translate.rs:57-70 | a right group that is no digit, or has even parity, gives no result |
| BarcodeTranslate.TranslateSound | src/barcode_translate.rs:36-82 | every result is 13 digits that satisfy the GS1 check, whose digits are the lookups of the groups, and whose right half is in number set A (C) |
| BarcodeTranslate.RightGroupIsSetA | src/barcode_translate.rs:65-68 | a right group accepted as an odd digit is exactly that digit's set A widths |
| BarcodeTranslate.TranslateScan | src/barcode_translate.rs:36-82 | the scan of every valid EAN-13 code translates back to exactly that code |
| BarcodeTranslate.TranslateAsWritten | src/barcode_translate.rs:40-81 | as written, the function never returns the decoded digits |
| BarcodeTranslate.TranslateAsWrittenPanics | src/barcode_translate.rs:60 | as written, every record that the corrected translation accepts panics at `even_odd[12]` |
| BarcodeTranslate.CheckIndexAsWrittenRejectsValidCode | src/barcode_translate.rs:74 | the valid code 4006381333931 fails the comparison with `barcode[11]` and passes it with `barcode[12]` |
| BarcodeTranslate.CheckIndexAsWrittenOnValidCodes | src/barcode_translate.rs:74 | a valid EAN-13 code passes the comparison with `barcode[11]` exactly when its twelfth digit equals its check digit |

## Left out

- **Image access and logging.** Reading pixels through `PixelValue` and
  `get_pixel_value`, and every `println!`, are left out. The image is given
  as a sequence of rows of equal width.
- **Zero-width images.** `process_image_by_rows` requires a non-zero width.
  The source divides by the width and reads `values[0]`, so a zero width
  panics there.
- **Unit length.** `find_unit_len` is floating-point code. It is a
  parameter (`UnitEstimator`), and the search is proved for every estimator.
- **Per-bar estimate.** The per-bar estimate of `parse_number_bars` is a
  parameter (`PartsEstimator`) that returns the truncated whole part and
  the fraction. That estimate is the f32 width / unit, its correction by
  `check_bar_edge`, and `trunc`/`fract`. Only the integer phase after it is
  modelled: ranking, top-up, trim and rejection.
- **NumberBars.ParseNumberBars:** requires at least one bar, and widths that
  fit in the pixels. An empty width list panics at `fracs[0]` in the
  source, and widths beyond the pixels panic at the slice.
  `parse_barcode_section` always passes four in-range widths
  (`GroupBounds`).
- **NumberBars.CompareBarByColor:** the i32 sums and product are unbounded
  integers. The source's i32 arithmetic overflows only for bars millions
  of pixels long.
- **BarcodeTypes.HalfWidth:** `(span as f32 * 0.04) as u8` is written as
  span / 25. The f32 rounding of the product is not modelled.
- **BarcodeDetector.GuardTolerance:** `(d as f32 * 0.1) as usize` is written
  as d / 10. The f32 rounding for very large widths is not modelled.
- **BarcodeDetector.RowStepAsWritten:** `(log10(h) as f64 * 6.0) as u32` is
  written as floor(log10 h^6). The f64 rounding of the logarithm is not
  modelled.
- **BarcodeDetector.SearchWindows:** the same gap as `FindBarCode` below:
  when no window is accepted, only the zero metadata is stated, not the
  stale halves the loop leaves in the record.
- **BarcodeDetector.FindBarCode:** when no window is accepted, only the zero
  metadata is stated. A window rejected after its left half was parsed
  leaves that half, and possibly the right one, in the returned record. The
  model keeps those stale halves, but no contract describes them.
  `process_image_by_rows` discards such records anyway, because their
  right x is 0.
- **Integer widths.** Record widths and module counts are `nat`, not u8.
  The row index `y += step` is not wrapped at u32. `deg` is always 0 in the
  source.
- **Newer detector not wired in.** `find_crossings_from_average` of
  color_line_helpers.rs is modelled on its own. Nothing in the repository
  calls it, so the row driver uses the detector of barcode_detector.rs.
- **Initial scan direction.** In both crossing detectors the scan starts
  upward even when the first pixel is below the band. The flag is set
  false, but `cur` is set true in both branches. This is modelled as
  written.
- **BarcodeTranslate.FindNumberFromBars:** requires that a group with no
  zero width has its first two widths at most 4 (`Indexable`), and so
  `Translate` and `TranslateBarCode` require it of all twelve groups
  (`Decodable`). A wider group panics in the source when it indexes
  `BARCODE_DICT_POS` (src/barcode_translate.rs:128); that panic is not
  modelled. The records `process_image_by_rows` reports always meet the
  requirement (`BarcodeDetector.DetectedTranslatable`).
- **Leading digit 10.** `translate_bar_code` does not reject a leading
  digit of 10, which a parity pattern of no digit produces. This is
  modelled as written: `TranslateSound` allows `ds[0] <= 10`.

## Findings

| source | as written | input that shows it | evidently intended | confidence | as-written member | corrected member |
|---|---|---|---|---|---|---|
| src/barcode_translate.rs:28-29 | `EAN_PARITY[7]` is `(7, 8)`, so the odd branch at node 7 points back to node 7 | left parities odd, even, even, even, odd (leading digit 3): the walk stays at node 7 and reads `parity[5]` past the five-entry slice, a panic instead of 3 | node 7's odd branch leads to node 8, which yields 3 | high (not executed) | BarcodeTranslate.ParityTreeAsWrittenOnPatterns | BarcodeTranslate.FirstDigitFromParity |
| src/barcode_translate.rs:40 | `even_odd` has 12 slots, and the right-half loop writes `even_odd[12]` for the sixth right group | any record whose left half and first five right groups decode, for example the scan of 4006381333931 | 13 slots, so that a decoded code is returned | high (not executed) | BarcodeTranslate.TranslateAsWrittenPanics | BarcodeTranslate.TranslateScan |
| src/barcode_translate.rs:74 | the check digit is compared with `barcode[11]` | 4006381333931: the check digit 1 differs from `barcode[11]` = 3 | compare with `barcode[12]`, the check digit | high (not executed) | BarcodeTranslate.CheckIndexAsWrittenRejectsValidCode | BarcodeTranslate.ChecksumMatchesIsGs1 |
| src/barcode_detector.rs:119-123 | `calculate_row_step(1)` is `(log10(1) * 6) as u32` = 0, and the row loop adds it to `y` | an image one pixel high: `y` stays 0 and the loop never ends | a step of at least one row | high (not executed) | BarcodeDetector.RowStepAsWrittenStalls | BarcodeDetector.RowStep |

In the second row, the code after the loops also gives `Some(barcode)` as
the value of an `if` without an `else` (src/barcode_translate.rs:74-78),
which does not type-check, so the function as written does not compile.
The corrected member takes the evident intent and returns the digits
there, as the comment at src/barcode_translate.rs:32-35 describes.
