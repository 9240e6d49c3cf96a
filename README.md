# ProMo morphing core in Dafny

This project models the numeric core of ProMo, a prosody morphing toolkit.
It covers four parts:

- **Stepwise pitch morph** (`promo/morph_utils/morph_sequence.py`).
  - Point lists are made relative on their time or value axis.
  - Each source point is aligned with the target point nearest in relative time.
  - Time and value are interpolated for every step fraction.
  - Times are mapped back onto the source's span.
  - The chunked variant morphs pitch contours chunk by chunk and concatenates the chunks at each step.
  - Two value-only transforms are included: average-pitch shifting and range (rank) matching.
- **Pitch accent editor** (`promo/morph_utils/modify_pitch_accent.py`, class `PitchAccent`).
  - Peak-height scaling, plateau insertion and accent shifting.
  - Deletion of the target points that the accent overlaps.
  - Reintegration of the accent into a full contour.
- **Duration arithmetic** (`promo/duration_morph.py`).
  - Per-interval stretch ratios, and padding of the window list with ratio-1 windows.
  - The duration points written for every step, and the interpolated durations used for plotting.
- **Step list** (`promo/morph_utils/utils.py`): `generateStepList`.

Points are `(time, value)` pairs over `real`. Python's exceptions are modelled as explicit results: `Result<T>` is either `Success(value)` or `Failure(error)`. The errors are:

- `RelativizeSequenceError`: fewer than two values, or all values equal;
- `NoChunkRetained`: the `IndexError` of popping an empty list;
- `EmptyDataList`: unpacking an empty `zip`;
- `ZeroDivision`;
- `EmptyParameterList`: indexing an empty parameter list.

Python code that builds lists in loops becomes Dafny methods with the same loops. Each method is proved equal to a specification function, and the properties are proved as lemmas about that function. `PitchAccent`, whose methods update its fields in place, is a Dafny class.

Modules, one per file:

- `Basics`: points, errors, min/max, order predicates.
- `Relativize`: relative/absolute conversions.
- `Nearest`: nearest-value search.
- `Sorting`: `sorted` and `list.sort`, modelled as functions.
- `Morph`: `morphDataLists` and `morphChunkedDataLists`.
- `Rescale`: `morphAveragePitch` and `morphRange`.
- `PitchAccents`.
- `DurationMorph`.
- `Steps`.

## Model

| member | source | states |
|---|---|---|
| Relativize.MakeSequenceRelative | promo/morph_utils/morph_sequence.py:33-47 | Fails with the relativize error exactly when the sequence has fewer than two values or all its values are equal. Otherwise it returns the minimum, the maximum (min < max) and one relative value per input value, each in [0, 1]; a value is 0 exactly at the minimum and 1 exactly at the maximum. |
| Relativize.MakeSequenceAbsolute | promo/morph_utils/morph_sequence.py:50-55 | Same length. Relative 0 maps to the minimum and 1 to the maximum; values in [0, 1] land in [min, max]. |
| Relativize.SequenceRoundTrip | promo/morph_utils/morph_sequence.py:33-55 | Making a relativizable sequence absolute again with its own minimum and maximum gives back the original sequence. |
| Relativize.TimingRelativeKeepsStrictOrder | promo/morph_utils/morph_sequence.py:58-76 | Strictly ascending times stay strictly ascending in relative time. |
| Relativize.RelativeSeqAscending | promo/morph_utils/morph_sequence.py:43-46 | Relativizing keeps an ascending sequence ascending. |
| Relativize.MakeTimingRelative | promo/morph_utils/morph_sequence.py:58-76 | Fails exactly when the times cannot be relativized. Otherwise the values are kept, the reported start and end are the minimum and maximum time, every relative time is in [0, 1], and ascending times stay ascending. |
| Relativize.TimingAbsoluteKeepsOrder | promo/morph_utils/morph_sequence.py:79-95 | When the start is not after the end, making times absolute keeps their order. |
| Relativize.TimingRoundTrip | promo/morph_utils/morph_sequence.py:58-95 | Making a point list's timing absolute with the start and end that relativization reported gives back the original list. |
| Nearest.NearestValueIsNearest | promo/morph_utils/morph_sequence.py:98-130 | On an ascending nonempty list, the corrected binary search returns a member of the list at minimal absolute distance from the target. |
| Nearest.GetSmallestDifference | promo/morph_utils/morph_sequence.py:98-130 | The loop version of the corrected search returns exactly the corrected search's value: a list member, and the nearest one when the list is ascending. |
| Nearest.SmallestDifferenceMissesExactHit | promo/morph_utils/morph_sequence.py:98-130 | The search as written, on [0, 1, 1, 1] with target 0, returns 1 although 0 is in the list. |
| Nearest.SmallestDifferenceAgreesWhenStrict | promo/morph_utils/morph_sequence.py:98-130 | On strictly ascending lists the search as written and the corrected search return the same value. |
| Nearest.SmallestDifferenceNearestWhenStrict | promo/morph_utils/morph_sequence.py:98-130 | On strictly ascending lists the search as written returns a nearest value. |
| Nearest.NearestValueMonotone | promo/morph_utils/morph_sequence.py:98-130 | With the corrected search, on an ascending list a larger target never gets a smaller nearest value. The search as written breaks this when values repeat (see Findings). |
| Nearest.SmallestDifferenceTrace | promo/morph_utils/morph_sequence.py:98-130 | The search as written is not monotone: on [0, 0.1, 0.2, 0.3, 0.3, 0.5, 0.5, 1] it returns 0.5 for 0.25 and 0.3 for 0.3. |
| Nearest.NearestIndexMonotone | promo/morph_utils/morph_sequence.py:142-147 | With the corrected search, on an ascending list the first index of the nearest value never decreases as the target grows. The index list as written breaks this when values repeat (see Findings). |
| Nearest.AsWrittenIndexNotMonotone | promo/morph_utils/morph_sequence.py:142-147 | On the ascending list [0, 0.1, 0.2, 0.3, 0.3, 0.5, 0.5, 1], the index as written is 5 for 0.25 and 3 for 0.3, while the corrected index is 3 for both. |
| Nearest.GetNearestMappingIndexList | promo/morph_utils/morph_sequence.py:133-148 | One index per source value. Each index is valid and is the first occurrence of the value the corrected search picks; on ascending lists it points at a nearest value, and the index list is monotone for ascending sources. Uses the corrected search (see Left out). |
| Nearest.SmallestDifference | promo/morph_utils/morph_sequence.py:98-130 | The halving search as the source writes it returns a member of the list. Where it can miss the nearest value is stated by SmallestDifferenceMissesExactHit, and where it agrees with the corrected search by SmallestDifferenceAgreesWhenStrict. |
| Nearest.AsWrittenIndex | promo/morph_utils/morph_sequence.py:144-145 | The index the source records: a valid position holding the value the search as written returns, and the first such position. |
| Nearest.AsWrittenIndexAgreesWhenStrict | promo/morph_utils/morph_sequence.py:142-147 | On a strictly ascending target list, the index as written equals the corrected index. |
| Sorting.SortReals | promo/morph_utils/morph_sequence.py:280-281 | `sorted()`: an ascending permutation of the input. |
| Sorting.SortPoints | promo/morph_utils/modify_pitch_accent.py:161 | `list.sort()` on (time, value) tuples: a permutation ordered by time, then value. |
| Morph.Interpolate | promo/morph_utils/morph_sequence.py:186-187 | Step 0 gives the source value and step 1 the target value. |
| Morph.InterpolateBetween | promo/morph_utils/morph_sequence.py:186-187 | For steps in [0, 1] the interpolated value lies between the two ends. |
| Morph.InterpolateMonotone | promo/morph_utils/morph_sequence.py:186-187 | For steps in [0, 1] interpolation is monotone in both ends. |
| Morph.MorphRelKeepsOrder | promo/morph_utils/morph_sequence.py:172-190 | With the corrected alignment, ascending source and target relative times give ascending morphed times. The alignment as written can break this when target times repeat. |
| Morph.MorphAtZeroIsIdentity | promo/morph_utils/morph_sequence.py:177-194 | At step 0 the morph returns the source list unchanged. |
| Morph.MorphAtValue | promo/morph_utils/morph_sequence.py:172-194 | Every morphed value interpolates between the source value and the value of its aligned target point; at step 1 it equals the aligned target value. |
| Morph.AlignedIndexIsNearest | promo/morph_utils/morph_sequence.py:172-175 | For ascending target times, the target point the model aligns to is at minimal relative-time distance from the source point. This holds for the corrected alignment; the alignment as written can miss it when target times repeat (see Left out). |
| Morph.AlignedToAsWritten | promo/morph_utils/morph_sequence.py:172-175 | With strictly ascending relative target times, the alignment list that the search as written builds is exactly the model's. |
| Morph.AlignedIndexAsWritten | promo/morph_utils/morph_sequence.py:167-175 | With strictly ascending target times, every source point is aligned with the target point that the search as written picks, so the model's morph is the source's. |
| Morph.AlignedIndexMonotone | promo/morph_utils/morph_sequence.py:172-175 | With the corrected search, for ascending times later source points never align with earlier target points. The alignment as written can break this when target times repeat. |
| Morph.MorphAtStaysInSpan | promo/morph_utils/morph_sequence.py:177-194 | For steps in [0, 1], every morphed time lies between the source list's smallest and largest time. |
| Morph.MorphAtKeepsTimeOrder | promo/morph_utils/morph_sequence.py:172-194 | With the corrected alignment, for steps in [0, 1] and ascending times on both sides the morphed times are ascending. The alignment as written can break this when target times repeat. |
| Morph.InterpolateStep | promo/morph_utils/morph_sequence.py:183-190 | The inner loop builds exactly the interpolated relative points. |
| Morph.AlignToNearest | promo/morph_utils/morph_sequence.py:172-175 | The alignment loop pairs each source point with the target point at the first occurrence of the time the corrected search picks. Uses the corrected search (see Left out). |
| Morph.MorphSteps | promo/morph_utils/morph_sequence.py:177-194 | One (step, list) pair per step. Each list is the morph at that step, mapped back onto the source's time span. |
| Morph.MorphDataLists | promo/morph_utils/morph_sequence.py:151-194 | Fails with the relativize error exactly when either list's times cannot be relativized (fewer than two points, or all at one time). Otherwise it yields one (step, list) pair per step, in order, each list being the morph at that step. Uses the corrected search (see Left out). |
| Morph.ChunkedAtZeroIsRetainedSource | promo/morph_utils/morph_sequence.py:197-228 | At step 0 the chunked morph is the concatenation of the retained source chunks. |
| Morph.ChunkedAtLength | promo/morph_utils/morph_sequence.py:197-228 | Every step holds as many points as the retained source chunks together. |
| Morph.MorphChunkPair | promo/morph_utils/morph_sequence.py:215-220 | One chunk pair gives exactly its per-step morphed lists, or the relativize error. Uses the corrected alignment (see Left out). |
| Morph.CollectChunkMorphs | promo/morph_utils/morph_sequence.py:207-220 | Chunk pairs with fewer than two points on either side are skipped. The loop fails exactly when a kept pair cannot be morphed and is empty exactly when no pair is kept; each step's concatenation is the chunked morph so far. |
| Morph.MergeChunks | promo/morph_utils/morph_sequence.py:223-226 | Starting from the first chunk and extending by the others, step k holds the concatenation of every chunk's k-th list. |
| Morph.MorphChunkedDataLists | promo/morph_utils/morph_sequence.py:197-228 | Fails with the relativize error when a kept pair cannot be morphed, and with the empty-pop error when no pair is kept. Otherwise every step's list is the concatenation of the kept pairs' morphs at that step. Uses the corrected search (see Left out). |
| Rescale.MorphAveragePitch | promo/morph_utils/morph_sequence.py:231-262 | Fails on an empty source, and with a division by zero when either side has no positive value. Otherwise it returns at most as many points as the source, all with positive values. |
| Rescale.MorphAveragePitchMembers | promo/morph_utils/morph_sequence.py:247-260 | A point is in the result exactly when it is a source point shifted by (target average - source average) of the positive values and its shifted value stays positive. This is membership only; order and repeats are covered by AveragedIsKeptShift and AroundIndex. |
| Rescale.AveragedIsKeptShift | promo/morph_utils/morph_sequence.py:247-260 | The result is the source list shifted by the difference of the averages, then filtered to the positive points. |
| Rescale.KeepPositiveAppend | promo/morph_utils/morph_sequence.py:258-260 | Keeping the positive points distributes over concatenation, so kept points stay in source order. |
| Rescale.AroundIndex | promo/morph_utils/morph_sequence.py:253-260 | For every position k, the shifted and filtered list is the result for the points before k, then point k shifted if its value stays positive, then the result for the points after k. So each point is kept or dropped on its own, in order, with repeats kept. |
| Rescale.MorphAveragePitchHitsTarget | promo/morph_utils/morph_sequence.py:247-260 | When every source value is positive and no point is dropped, the result's average equals the target's average of positive values. |
| Rescale.MorphAveragePitchKeepsTimeOrder | promo/morph_utils/morph_sequence.py:253-260 | Ascending source times stay ascending in the result. |
| Rescale.RangeValueKeepsExtremes | promo/morph_utils/morph_sequence.py:265-301 | With the corrected search, the range morph maps the source minimum to the target minimum and the source maximum to the target maximum, as the docstring promises. The source as written can fail this when target values repeat (see Findings). |
| Rescale.RankMatchAsWritten | promo/morph_utils/morph_sequence.py:283-299 | The rank match through the search as written; its value is one of the sorted target values. |
| Rescale.RankMatchAsWrittenWhenDistinct | promo/morph_utils/morph_sequence.py:283-299 | When the sorted target values are all distinct, the rank match as written equals the corrected one. |
| Rescale.RankMatchAsWrittenMissesMinimum | promo/morph_utils/morph_sequence.py:265-301 | For sorted source values [1, 2] and target values [100, 200, 200, 200], the rank match as written sends 1 to 200, while the corrected one sends it to 100. |
| Rescale.RangeValueAsWrittenWhenDistinct | promo/morph_utils/morph_sequence.py:265-301 | When the target values are all distinct, morphRange as written gives every source value the value the model gives it. |
| Rescale.RangeValueMonotone | promo/morph_utils/morph_sequence.py:265-301 | With the corrected search, the range morph is monotone: a larger source value never maps to a smaller target value. morphRange as written can break this when target values repeat. |
| Rescale.RankMatchMonotone | promo/morph_utils/morph_sequence.py:283-299 | With the corrected search, on ascending lists matching through the nearest relative rank is monotone. The rank match as written can break this when target values repeat. |
| Rescale.RangeMorphed | promo/morph_utils/morph_sequence.py:293-299 | Same length and times as the source. Every value is the rank-matched target value of the source value, so equal source values get equal results. Uses the corrected search (see Left out). |
| Rescale.MorphRange | promo/morph_utils/morph_sequence.py:265-301 | Fails with the relativize error exactly when either side's values are fewer than two or all equal. Otherwise it returns the rank-matched list. Uses the corrected search (see Left out). |
| Rescale.LookupRanks | promo/morph_utils/morph_sequence.py:293-299 | Each point keeps its time and takes the sorted target value at the mapped index of its source value's first rank. |
| PitchAccents.DeletePoints | promo/morph_utils/modify_pitch_accent.py:22-24 | The deletion never lengthens the list. Which points survive, and in what order, is stated by DeletePointsMembers and DeletePointsAppend. |
| PitchAccents.DeletePointsMembers | promo/morph_utils/modify_pitch_accent.py:22-24 | A point survives deletion exactly when it lies strictly outside [start, end]. |
| PitchAccents.DeletePointsAppend | promo/morph_utils/modify_pitch_accent.py:22-24 | Deletion works point by point: it distributes over concatenation, so survivors keep their order. |
| PitchAccents.DeletePointsNothingInside | promo/morph_utils/modify_pitch_accent.py:22-24 | A list with no point in [start, end] is left unchanged. |
| PitchAccents.ScaleValueAtEnds | promo/morph_utils/modify_pitch_accent.py:57-60 | The scale keeps the minimum and raises the maximum by exactly the height amount. |
| PitchAccents.ScalePeakEffect | promo/morph_utils/modify_pitch_accent.py:47-63 | Times are kept. Each value gains the amount in proportion to its height above the minimum, so the minimum points stay and the maximum points rise by the amount. |
| PitchAccents.PlateauOffsets | promo/morph_utils/modify_pitch_accent.py:82-91 | Without a sampling frequency the only offset is the amount itself. With one there are abs(int(amount / freq)) + 1 offsets: 0, freq, 2 freq, and so on. |
| PitchAccents.PlateauOffsetsNonNegative | promo/morph_utils/modify_pitch_accent.py:86-91 | With a positive sampling step the offsets are never negative, even for a plateau that grows to the left. |
| PitchAccents.PlateauedRight | promo/morph_utils/modify_pitch_accent.py:104-114 | A right-hand plateau keeps points 0..peak, then the plateau points at the peak value, then the later points shifted right by the amount. |
| PitchAccents.PlateauedLeft | promo/morph_utils/modify_pitch_accent.py:94-102 | A left-hand plateau shifts the points before the peak by the amount, then inserts the plateau points, then keeps the points from the peak on. |
| PitchAccents.PeakIndex | promo/morph_utils/modify_pitch_accent.py:40 | The first index holding the largest value. |
| PitchAccents.PitchAccent.constructor | promo/morph_utils/modify_pitch_accent.py:29-44 | Stores the points, the first peak index, the minimum and maximum time, and zero shifts. |
| PitchAccents.PitchAccent.AdjustPeakHeight | promo/morph_utils/modify_pitch_accent.py:47-63 | A zero amount changes nothing. Otherwise the points become the peak-scaled list; the shifts are unchanged. |
| PitchAccents.PitchAccent.AddPlateau | promo/morph_utils/modify_pitch_accent.py:65-114 | A zero amount changes nothing. Otherwise the plateau is inserted on the amount's side and that side is shifted; the left or right shift grows by the amount according to its sign. |
| PitchAccents.PitchAccent.ShiftAccent | promo/morph_utils/modify_pitch_accent.py:116-130 | A zero amount changes nothing. Otherwise every time moves by the amount, which is recorded as a left or right shift according to its sign. |
| PitchAccents.PitchAccent.DeleteOverlapping | promo/morph_utils/modify_pitch_accent.py:132-147 | Returns the target points outside the accent's current span, widened by the accumulated shifts. |
| PitchAccents.PitchAccent.Reintegrate | promo/morph_utils/modify_pitch_accent.py:149-163 | Returns the reintegrated contour for the accent's current state. |
| PitchAccents.ReintegratedContents | promo/morph_utils/modify_pitch_accent.py:149-163 | The reintegrated contour is sorted and holds every accent point. A point that is not an accent point is in it exactly when it comes from the full contour and lies outside both the original span and the current window. |
| PitchAccents.ReintegratedIsPermutation | promo/morph_utils/modify_pitch_accent.py:149-163 | The reintegrated contour is a permutation of the surviving contour points plus the accent points. |
| DurationMorph.RatioWindow | promo/duration_morph.py:115-128 | The window starts at the offset source start and ends at the source end. |
| DurationMorph.RatioWindowStretches | promo/duration_morph.py:119-125 | The ratio times the offset source span equals the offset target span. |
| DurationMorph.GetMorphParameters | promo/duration_morph.py:114-128 | Over the shorter of the two interval lists, fails with a division by zero exactly when some offset source span is zero. Otherwise it returns one ratio window per interval pair. |
| DurationMorph.GetManipulatedParameters | promo/duration_morph.py:165-179 | Fails with a division by zero exactly when some offset source span is zero. Otherwise it returns one window per interval, toward the interval that modFunc gives. |
| DurationMorph.PaddedShape | promo/duration_morph.py:54-65 | The padded list starts at 0 and ends at the later of the last end and the file duration. It keeps the original windows in order, and any added window has ratio 1. |
| DurationMorph.PadDurationParameters | promo/duration_morph.py:54-65 | Fails on an empty parameter list. Otherwise it returns exactly the padded list. |
| DurationMorph.PercentChange | promo/duration_morph.py:71 | Step 0 gives 1, step 1 gives the ratio, and a ratio of 1 always gives 1. |
| DurationMorph.PercentChangeBetween | promo/duration_morph.py:71 | For steps in [0, 1] the relative duration lies between 1 and the ratio. |
| DurationMorph.DurationPoints | promo/duration_morph.py:68-73 | Two points per window, at its start and its end, both carrying that window's relative duration. |
| DurationMorph.DurationPointsAtEnds | promo/duration_morph.py:68-73 | At step 0 every duration point is 1; at step 1 each window's points carry its ratio. |
| DurationMorph.DurationPointList | promo/duration_morph.py:69-73 | The inner loop builds exactly the duration points of one step. |
| DurationMorph.DurationPointLists | promo/duration_morph.py:68-73 | One duration point list per step, in order. |
| DurationMorph.InterpolatedDurationAtEnds | promo/duration_morph.py:217-224 | For a ratio window, step 0 keeps the window's own length and step 1 gives the offset target span. |
| DurationMorph.InterpolatedDurations | promo/duration_morph.py:217-224 | One list per step, with one interpolated duration per window. |
| Steps.GenerateStepList | promo/morph_utils/utils.py:33-43 | numSteps values (plus a leading 0 if requested), strictly ascending, all in [0, 1], ending at exactly 1. The value at position i is (i+1)/numSteps, and 0 appears only as the optional leading value. |
| Steps.StepValueBounds | promo/morph_utils/utils.py:40-41 | Every step value lies in (0, 1]. |
| Steps.StepValueIncreasing | promo/morph_utils/utils.py:40-41 | Step values strictly increase with their position. |

## Left out

- File, audio, Praat and TextGrid I/O are not modelled: reading intervals, writing scripts, running Praat, and the file duration, which is a parameter here.
- `praatio` is not part of this model. The tier-level morph and manipulation calls that consume the duration windows are external.
- Plotting (`plot_morphed_data.py`, and the plotting half of `_plotResults`) is not modelled.
- `interpolation.py` and the orchestration in `f0_morph.py` are not modelled. The `IndexError` that `f0_morph.py` turns into its missing-pitch exception is the `NoChunkRetained` failure here.
- Floating point is not modelled: all arithmetic is on mathematical reals, so rounding and the PRAAT_TIME_DIFF offset's interaction with float precision are not captured.
- Generators are not modelled: `morphDataLists` is a Python generator, and the model returns the list of (step, list) pairs it would yield.
- Sorting is modelled by value (functional insertion sorts). The in-place `list.sort` of `reintegrate` is not modelled as an in-place operation.
- The docstring example of `_getNearestMappingIndexList` at `promo/morph_utils/morph_sequence.py:138-139` is not encoded; the code, not the comment, is modelled.
- The label field of intervals is dropped, since the duration arithmetic does not use it.
- PitchAccents.PitchAccent.constructor requires a nonempty point list. Python's `max`/`min` raise on an empty list, and the class has no error value.
- PitchAccents.PitchAccent.AddPlateau requires a non-zero sampling frequency when one is given. Python would raise a ZeroDivisionError, which the class does not handle.
- PitchAccents.PitchAccent.AdjustPeakHeight requires a non-flat accent when the amount is non-zero. On a flat accent Python divides by zero.
- Morph.MorphChunkedDataLists requires equally many chunks on both sides. The source asserts this at `morph_sequence.py:207`.
- Steps.GenerateStepList requires numSteps > 0. The source asserts this at `utils.py:34`.
- Morph.ChunkedAt treats a kept pair that cannot be morphed as contributing nothing. It is only used where every kept pair is morphable; the failure itself is stated by Morph.CollectChunkMorphs.
- Nearest.GetNearestMappingIndexList uses the corrected search, so on target lists that repeat a value or are out of order its indices can differ from the source's (targets [0, 0.5, 0.5, 1] with source value 0: the source records 1, the model 0). It agrees with the source on strictly ascending targets (Nearest.AsWrittenIndexAgreesWhenStrict).
- Morph.AlignToNearest uses the corrected search. It agrees with the source when the relative target times are strictly ascending (Morph.AlignedToAsWritten); it can differ when they repeat or are out of order.
- Morph.MorphDataLists uses the corrected alignment, so when the target times repeat or are out of order it can morph toward a different target point than the source. With strictly ascending target times it is the source's morph (Morph.AlignedIndexAsWritten).
- Morph.MorphChunkedDataLists inherits the corrected alignment of Morph.MorphDataLists for every chunk pair, and agrees with the source on the same condition.
- Morph.AlignedIndexIsNearest holds for the corrected alignment only; the alignment as written need not be nearest when target times repeat.
- Rescale.MorphRange uses the corrected search, so when the target repeats a value it can return different values from the source (see Findings). With distinct target values it is the source's result (Rescale.RangeValueAsWrittenWhenDistinct).
- Rescale.RangeMorphed describes the corrected rank match, and the same difference applies.
- Rescale.RangeValueKeepsExtremes is proved of the corrected range morph; the source as written breaks it (Rescale.RankMatchAsWrittenMissesMinimum).
- Nearest.NearestValueMonotone is proved for the corrected search only; the search as written breaks it when the list repeats values (Nearest.SmallestDifferenceTrace).
- Nearest.NearestIndexMonotone is proved for the corrected index list only; the index list as written breaks it when the target repeats values (Nearest.AsWrittenIndexNotMonotone).
- Morph.MorphRelKeepsOrder is proved for the corrected alignment only; the alignment as written breaks it when target times repeat. For target times [0, 1, 2, 3, 3, 5, 5, 10] and source times [0, 2.5, 3, 10] the source aligns to relative times [0.5, 0.5, 0.3, 1], so its step-1 times are out of order.
- Morph.AlignedIndexMonotone is proved for the corrected alignment only; the alignment as written breaks it when target times repeat, for the reason Nearest.AsWrittenIndexNotMonotone shows.
- Morph.MorphAtKeepsTimeOrder is proved for the corrected alignment only; with the example above the source's step-1 output times are 5, 5, 3, 10.
- Morph.MorphChunkPair inherits the corrected alignment of Morph.MorphDataLists for its chunk pair, and agrees with the source on the same condition.
- Rescale.RangeValueMonotone is proved for the corrected search only; morphRange as written breaks it when target values repeat. With sorted source values [0, 25, 30, 100] and target values [0, 10, 20, 30, 30, 50, 50, 100] the program maps 25 to 50 and 30 to 30.
- Rescale.RankMatchMonotone is proved for the corrected search only; the rank match as written breaks it when target values repeat, as in the example above.
- Nearest.GetSmallestDifference requires a nonempty list. On an empty list the source fails with an IndexError, and its callers only pass relativized lists, which hold at least two values.
- Nearest.GetNearestMappingIndexList requires a nonempty target list, for the same reason.
- Nearest.GetSmallestDifference implements the corrected search (see Findings). The search as written is Nearest.SmallestDifference, and it is proved equal to the corrected one on strictly ascending lists.

## Findings

| source | as written | input that shows it | evidently intended | confidence | as-written member | corrected member |
|---|---|---|---|---|---|---|
| promo/morph_utils/morph_sequence.py:98-130 | The halving search keeps the half whose middle element has the smaller absolute difference from the target, and keeps the right half on a tie. When the two middle elements are equal, the tie discards the left half, even when that half holds the target exactly. | `_getSmallestDifference([0, 1, 1, 1], 0)` returns 1 although 0 is in the list | Return a value of the list nearest to the target | not executed | Nearest.SmallestDifferenceMissesExactHit | Nearest.NearestValueIsNearest |
| promo/morph_utils/morph_sequence.py:265-301 | morphRange matches through the halving search above, so a target that repeats its maximum can pull the source minimum up to that maximum. | `morphRange([(0, 1), (1, 2)], [(0, 100), (1, 200), (2, 200), (3, 200)])` returns `[(0, 200), (1, 200)]` | The source minimum maps to the target minimum, as the docstring promises: `[(0, 100), (1, 200)]` | not executed | Rescale.RankMatchAsWrittenMissesMinimum | Rescale.RangeValueKeepsExtremes |
| promo/morph_utils/morph_sequence.py:142-147 | The index list takes the first position of the value the halving search returns, and that search is not monotone once values repeat. | targets [0, 0.1, 0.2, 0.3, 0.3, 0.5, 0.5, 1] with source values [0.25, 0.3]: the program records [5, 3] | For ascending source and target values the indices never decrease: [3, 3] | not executed | Nearest.AsWrittenIndexNotMonotone | Nearest.NearestIndexMonotone |
