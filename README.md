# wearalyze PPG core, modelled in Dafny

wearalyze turns wrist PPG recordings into per-beat features. This project
models the part of that pipeline that is decision logic and index arithmetic,
and proves properties of the model:

- **Periodic peak detectors.** MSPTD (`msptd.dfy`, older copy in
  `msptd_legacy.dfy`) and AMPD (`ampd.dfy`, older copy in `ampd_legacy.dfy`)
  build a scale by sample scalogram of strict local extrema, choose a scale
  depth and return the positions marked at every kept scale. The detector
  factory (`detector_factory.dfy`) selects one by name.
- **Beat annotation.** `beat_detection.dfy` negates each compliance section,
  takes the detector's peaks as troughs, labels every row with its beat id,
  flags troughs and one peak per beat, and segments the beats.
  `beat_organiser.dfy` cuts the beat list into fixed-size groups.
- **Per-beat morphology.** `groups.dfy` models pandas `groupby` order;
  `derivatives.dfy` differentiates within groups; `smoothing.dfy` dispatches a
  smoother per group and isolates its errors; `pulse_wave_features.dfy` finds
  zero crossings, the systolic peak, ms, systole and diastole on the first
  derivative and the a to f waves on the second, and builds the per-beat
  feature table.
- **Aggregates and signal quality.** `basic_biomarkers.dfy` computes IBIs,
  their per-group minimum and maximum and the group heart rate;
  `sqi.dfy` holds the IBI-maximum, IBI-ratio and plausible-rate indices, the
  composite combiner and the SQI factory.
- **Compliance sectioning.** `compliance.dfy` splits a Polar Verity recording
  into maximal runs above the threshold, keeps the long enough ones and cuts
  them into sections of at most 60000 samples.
- **Data model and state.** `dicts.dfy` models Python's insertion-ordered
  dict; `sensor_data.dfy`, `condition.dfy`, `subject.dfy` and `study_data.dfy`
  are the containers; `subject_factory.dfy` builds subjects from nested dicts;
  `checkpoint.dfy` is the load-or-compute-then-save decorator over an
  abstract checkpoint manager; `app_state.dfy` is the lazily loaded
  application state; `flatten_nested_dict.dfy` flattens nested dicts.

Shared pieces: `wrappers.dfy` (Option, Result and the Python exceptions the
code raises), `seqs.dfy` (sequence helpers), `frames.dfy` (a table of
equal-length columns updated in place).

Conventions. Floats are `real`; NaN, `None` and `pd.NA` are `Option.None`. A
raised exception is `Result.Err` carrying the exception's class. Objects that
the source updates in place (frames, containers, the checkpoint manager, the
application state, the AMPD and MSPTD matrices) are classes and arrays with
`modifies` clauses. Foreign numerics are parameters constrained only by what
the code relies on: `find_peaks` returns ascending interior positions of
present values, `savgol_filter` keeps the length, the AMPD noise matrix has
cells in [1, 2), and the AMPD input is taken as already detrended.

Where the repository's tests and the code disagree, the model follows the
code. The zero-crossing tests expect index 3 for `[1, 2, 3, 0, -1, -2]` and
index 1 for `[-1, -2, 0, 1, 2]`; the code flags the step before the sign
change, so it returns 2 in both cases, and `CrossingIdxs` states that.

## Model

| member | source | states |
|---|---|---|
| Msptd.NanToNum | src/processors/periodic_peak_detectors/msptd.py:53 | every NaN and infinite sample becomes 0.0, every finite sample is kept |
| Msptd.Minus | src/processors/periodic_peak_detectors/msptd.py:68 | mean removal subtracts the same constant from every sample |
| Msptd.ColumnSums | src/processors/periodic_peak_detectors/msptd.py:94-99 | one column count per scale, L of them |
| Msptd.Depth | src/processors/periodic_peak_detectors/msptd.py:95-100 | the chosen depth is a scale index below L whose column count is the largest, and every earlier scale's count is strictly smaller (argmax picks the first maximum) |
| Msptd.Detect | src/processors/periodic_peak_detectors/msptd.py:94-108 | peaks (troughs) ascend, lie in range, and are exactly the rows that are strict maxima (minima) at every scale through the depth chosen for them |
| Msptd.Extrema | src/processors/periodic_peak_detectors/msptd.py:105-108 | the returned positions ascend, lie in range, and are exactly the rows flagged at every kept scale |
| Msptd.BuildScalograms | src/processors/periodic_peak_detectors/msptd.py:71-84 | the nested loops leave an N x L pair of matrices whose cell (p, s) is set iff p is a strict local maximum (minimum) against both neighbours at distance s + 1 |
| Msptd.BeatDetectMsptd | src/processors/periodic_peak_detectors/msptd.py:15-114 | NaN/inf cleaning, L from max_interval or the length, mean removal; L <= 0 raises ValueError; otherwise the peaks and troughs of the detection and the full scalograms |
| Msptd.DetectorDetect | src/processors/periodic_peak_detectors/msptd.py:8-12 | detect uses max_interval 1000, so the scalograms have 499 scales, cell (p, s) of each is the strict maximum (minimum) test of the NaN-cleaned signal at distance s + 1, and the result is the detection at depth 499 |
| Msptd.DetectScaleDepth | src/processors/periodic_peak_detectors/msptd.py:60-63 | L is 499 for max_interval 1000, and ceil(N/2) - 1 without it |
| Msptd.FlagShift | src/processors/periodic_peak_detectors/msptd.py:68-84 | subtracting the mean changes no scalogram cell |
| Msptd.ColumnCountShift | src/processors/periodic_peak_detectors/msptd.py:68-94 | subtracting the mean changes no column count |
| Msptd.ExtremaShift | src/processors/periodic_peak_detectors/msptd.py:68-108 | subtracting the mean changes no returned position |
| Msptd.DetectShift | src/processors/periodic_peak_detectors/msptd.py:68-108 | the detection is invariant under the mean removal |
| Msptd.ExtremaAtScaleOne | src/processors/periodic_peak_detectors/msptd.py:96-108 | every returned position is a strict extremum at distance 1 (column 0 is never cut) |
| Msptd.DetectShape | src/processors/periodic_peak_detectors/msptd.py:78-108 | peaks and troughs ascend, never include the first or last sample, and no position is both |
| Msptd.ConstantSignal | src/processors/periodic_peak_detectors/msptd.py:80-108 | a constant signal has no peaks and no troughs |
| MsptdLegacy.Finites | src/processors/beat_detector_MSPTD.py:31 | the finite samples nanmean averages, no more of them than samples |
| MsptdLegacy.Filled | src/processors/beat_detector_MSPTD.py:32 | NaN entries take the fill value, all others are kept |
| MsptdLegacy.FillNaN | src/processors/beat_detector_MSPTD.py:31-32 | the caller's array is overwritten in place: each NaN becomes the nanmean of the old contents |
| MsptdLegacy.Comparable | src/processors/beat_detector_MSPTD.py:33-48 | the values the comparisons see after the fill and the mean removal |
| MsptdLegacy.BeatDetectMsptdLegacy | src/processors/beat_detector_MSPTD.py:3-72 | the older copy mutates its input, raises ValueError for L <= 0, and otherwise returns the detection of the filled samples with N x L scalograms |
| MsptdLegacy.FillKeepsOthers | src/processors/beat_detector_MSPTD.py:32 | the fill leaves non-NaN entries alone and leaves no NaN when the mean is a number |
| MsptdLegacy.FinitesOfAllFinite | src/processors/beat_detector_MSPTD.py:31 | on an all-finite signal nanmean averages every sample |
| MsptdLegacy.FillFinite | src/processors/beat_detector_MSPTD.py:31-32 | with a finite sample and no infinity, the filled signal is all finite |
| MsptdLegacy.LegacyAgrees | src/processors/beat_detector_MSPTD.py:22-72 | on an all-finite signal the older copy finds what the newer one finds |
| MsptdLegacy.NonFiniteMeanSignal | src/processors/beat_detector_MSPTD.py:31-48 | an all-NaN signal, or one with both infinities, yields no peaks and no troughs |
| Ampd.Scalogram | src/processors/periodic_peak_detectors/ampd.py:65-85 | ceil(N/2) - 1 rows of N columns, each cell as the selected implementation leaves it |
| Ampd.RowSums | src/processors/periodic_peak_detectors/ampd.py:43 | gamma has one sum per scale row |
| Ampd.PeakDetection | src/processors/periodic_peak_detectors/ampd.py:43-47 | lambda is a scale below L and the cut keeps lambda + 1 rows; the peaks ascend, lie in range, and are exactly the columns whose cells agree across the kept scales |
| Ampd.ZeroStdColumns | src/processors/periodic_peak_detectors/ampd.py:46-47 | ascending columns in range, exactly those whose kept cells are all equal |
| Ampd.Contents | src/processors/periodic_peak_detectors/ampd.py:85 | the matrix read back row by row |
| Ampd.ComputeLms | src/processors/periodic_peak_detectors/ampd.py:55-85 | a negative row count raises ValueError; otherwise a fresh matrix equal to the scalogram of noise overwritten at the maxima |
| Ampd.ContentsIsScalogram | src/processors/periodic_peak_detectors/ampd.py:65-85 | a matrix whose every cell is the scalogram's cell reads back as the scalogram |
| Ampd.FillRow | src/processors/periodic_peak_detectors/ampd.py:72-83 | one pass of the k loop overwrites row k - 1 at the strict maxima of distance k and no other row |
| Ampd.PeakDetectAmpd | src/processors/periodic_peak_detectors/ampd.py:8-52 | fewer than 3 samples give empty results and lambda 0; otherwise the scalogram, gamma, the first argmin lambda and the zero-deviation columns |
| Ampd.CellRange | src/processors/periodic_peak_detectors/ampd.py:68-83 | every cell is 0 or in [1, 2) |
| Ampd.VectorisedZeroIff | src/processors/periodic_peak_detectors/ampd.py:79-83 | the vectorised version writes 0 exactly at the strict local maxima |
| Ampd.LoopNeverZero | src/processors/periodic_peak_detectors/ampd.py:71-75 | the loop version writes 1, so no cell is ever 0 |
| Ampd.AmpdScale | src/processors/periodic_peak_detectors/ampd.py:43-45 | gamma holds the row sums, lambda is the first minimum, and the cut keeps rows 0..lambda |
| Ampd.SingleRowAllColumns | src/processors/periodic_peak_detectors/ampd.py:46-47 | a one-row matrix has zero deviation in every column |
| Ampd.LambdaZeroAllPeaks | src/processors/periodic_peak_detectors/ampd.py:45-47 | when lambda is 0 every index is returned as a peak |
| Ampd.ShortSignalAllPeaks | src/processors/periodic_peak_detectors/ampd.py:35-47 | 3 or 4 samples give one scale, lambda 0 and every index as a peak |
| Ampd.KeptColumns | src/processors/periodic_peak_detectors/ampd.py:45-47 | a column that is a maximum at every kept scale is a peak; one that is a maximum at some kept scales and not others is not |
| Ampd.KeptColumnsExact | src/processors/periodic_peak_detectors/ampd.py:45-47 | when at least two scales are kept and their noise differs in a column, that column is a peak iff it is a strict maximum at every kept scale |
| AmpdLegacy.PeakDetectAmpdLegacy | src/processors/beat_detector_ampd.py:4-27 | without the short-signal guard, fewer than 3 samples raise ValueError; otherwise the same result as the newer copy |
| AmpdLegacy.LmsShape | src/processors/beat_detector_ampd.py:30-60 | ceil(N/2) - 1 rows of N cells in {0} or [1, 2), with 0 at every maximum of distance 1 |
| DetectorFactory.Create | src/processors/periodic_peak_detectors/factory.py:6-13 | "ampd" and "msptd" (exactly, case-sensitive) select their detector; any other name raises ValueError |
| DetectorFactory.AsSamples | src/processors/periodic_peak_detectors/msptd.py:47 | a float signal read as finite samples, same length |
| DetectorFactory.MsptdPeaks | src/processors/periodic_peak_detectors/msptd.py:8-12 | MSPTD's peaks are ascending in-range indices |
| DetectorFactory.AmpdPeaks | src/processors/periodic_peak_detectors/ampd.py:8-52 | AMPD's peaks are ascending in-range indices, for any detrending and noise |
| DetectorFactory.CaseSensitive | src/processors/periodic_peak_detectors/factory.py:11-12 | "AMPD" and "MSPTD" raise ValueError |
| BeatDetection.Values | src/processors/beat_detectors/beat_detection.py:45 | the filtered_value column, row for row |
| BeatDetection.Negated | src/processors/beat_detectors/beat_detection.py:45 | the detector sees the signal inverted sample by sample, so its peaks are the troughs |
| BeatDetection.Owner | src/processors/beat_detectors/beat_detection.py:135-138 | the last trough at or before a row, or -1 when none: the beat a row ends up in |
| BeatDetection.BeatPeak | src/processors/beat_detectors/beat_detection.py:141-142 | idxmax of a beat: a row from its opening trough up to the next trough, holding the first maximum of that span |
| BeatDetection.Annotation | src/processors/beat_detectors/beat_detection.py:125-143 | the annotated section keeps one row per input row |
| BeatDetection.LabelStep | src/processors/beat_detectors/beat_detection.py:138 | one loop iteration sets the beat id on the inclusive span between two troughs and leaves the other rows as they were |
| BeatDetection.MarkTroughs | src/processors/beat_detectors/beat_detection.py:129-132 | is_beat_trough is true exactly on the detected troughs |
| BeatDetection.AssignBeat | src/processors/beat_detectors/beat_detection.py:138 | loc[start:end] sets the beat id on both ends and everything between, and nothing else |
| BeatDetection.LabelBeats | src/processors/beat_detectors/beat_detection.py:127-143 | after the loop every row carries its final beat label and is a peak iff it is its beat's first maximum |
| BeatDetection.AnnotateHeartBeats | src/processors/beat_detectors/beat_detection.py:110-148 | the section gets section_id, beat, is_beat_peak and is_beat_trough as the annotation defines them |
| BeatDetection.BeatRows | src/processors/beat_detectors/beat_detection.py:60 | the rows of one beat id, a subsequence of the section |
| BeatDetection.SectionBeats | src/processors/beat_detectors/beat_detection.py:59-62 | one segment per beat id, k-1 of them for k troughs, -1 excluded |
| BeatDetection.SectionTroughs | src/processors/beat_detectors/beat_detection.py:45-47 | the troughs handed to the annotation are ascending row indices of the section |
| BeatDetection.AnnotatedSections | src/processors/beat_detectors/beat_detection.py:40-56 | one annotated section per input section |
| BeatDetection.SectionsStep | src/processors/beat_detectors/beat_detection.py:40-63 | one iteration appends the current section's annotation and extends the beats by its segments |
| BeatDetection.ProcessSections | src/processors/beat_detectors/beat_detection.py:17-70 | an unknown detector name or an empty section list raises ValueError; otherwise the concatenated annotated sections and all segmented beats, section by section |
| BeatDetection.OwnerIs | src/processors/beat_detectors/beat_detection.py:135-138 | a row between trough j and trough j+1 belongs to beat j |
| BeatDetection.LabelSpans | src/processors/beat_detectors/beat_detection.py:127-138 | beat j covers its opening trough up to the next trough, the last trough joins the last beat, rows outside the troughs stay -1 |
| BeatDetection.LabelMonotone | src/processors/beat_detectors/beat_detection.py:61 | beat ids never decrease along the section, so unique() lists them in ascending order |
| BeatDetection.OnePeakPerBeat | src/processors/beat_detectors/beat_detection.py:140-143 | a row is flagged as peak iff it is the first maximum of the beat it belongs to: one peak per beat |
| BeatDetection.FewTroughs | src/processors/beat_detectors/beat_detection.py:135 | with fewer than two troughs no row gets a beat and none is a peak |
| BeatDetection.BeatRowsSlice | src/processors/beat_detectors/beat_detection.py:60 | a beat whose rows are a contiguous block is segmented as exactly that slice |
| BeatDetection.BeatSegments | src/processors/beat_detectors/beat_detection.py:59-62 | each segmented beat is the slice from its trough to the next one, the last beat including its closing trough |
| BeatDetection.DetectFixedChunkSizeAsWritten | src/processors/beat_detectors/beat_detection.py:96-97 | as written, NameError on check_size exactly when the chunk size is positive and the signal non-empty |
| BeatDetection.ChunkSizeNameError | src/processors/beat_detectors/beat_detection.py:73-97 | the default chunk size 3000 fails on a one-sample signal |
| BeatDetection.ChunkTroughsSorted | src/processors/beat_detectors/beat_detection.py:96-106 | the chunk troughs moved by their offsets are strictly ascending and inside the signal |
| BeatDetection.CollectChunks | src/processors/beat_detectors/beat_detection.py:96-106 | the chunk loop collects each chunk's troughs, moved by the chunk's start, in chunk order |
| BeatDetection.DetectFixedChunkSize | src/processors/beat_detectors/beat_detection.py:73-108 | a zero step raises ValueError, a negative one gives no troughs, otherwise the offset troughs chunk by chunk, already sorted |
| BeatDetection.SingleChunk | src/processors/beat_detectors/beat_detection.py:96-108 | a chunk at least as long as the signal gives the detector's own troughs |
| BeatOrganiser.Groups | src/processors/sqi/beat_organiser.py:10-13 | one concatenated group per slice of group_size beats |
| BeatOrganiser.GroupNBeats | src/processors/sqi/beat_organiser.py:7-15 | a zero group size raises ValueError (and only it does), a negative one gives no groups, otherwise the concatenated slices |
| BeatOrganiser.SlicesFlatten | src/processors/sqi/beat_organiser.py:11-12 | the slices, put back together in order, are the beats |
| BeatOrganiser.SlicesSizes | src/processors/sqi/beat_organiser.py:11-12 | ceil(n / g) groups; all hold g beats except the last, which holds the remaining 1..g |
| BeatOrganiser.FlattenGroups | src/processors/sqi/beat_organiser.py:11 | concatenating each group and then the groups equals concatenating everything at once |
| BeatOrganiser.GroupsRows | src/processors/sqi/beat_organiser.py:10-13 | the groups hold exactly the rows of all beats, in order: no row lost, duplicated or moved |
| BeatOrganiser.NoBeats | src/processors/sqi/beat_organiser.py:12 | no beats give no groups (nothing is concatenated) |
| Groups.GroupIdx | src/processors/biomarkers/derivatives_calculator.py:46 | groupby: the ascending rows whose key is k; a missing key belongs to no group |
| Groups.Prev | src/processors/biomarkers/derivatives_calculator.py:47 | the row diff() pairs with: the nearest earlier row with the same key, or none for a group's first row |
| Groups.GroupValues | src/processors/biomarkers/signal_smoothing.py:68-70 | a group's values in table order, one per row of the group |
| Groups.GroupIdxPrefix | src/processors/biomarkers/derivatives_calculator.py:46 | going further down the table only appends to a group |
| Groups.RankIsPosition | src/processors/biomarkers/derivatives_calculator.py:46-48 | each row sits at its rank within its group, which reset_index maps back to the row |
| Groups.GroupValuesAtRank | src/processors/biomarkers/derivatives_calculator.py:46-48 | a row's value is found again in its group's series at its rank |
| Groups.GroupIdxGap | src/processors/biomarkers/derivatives_calculator.py:46 | rows without key k do not change group k |
| Groups.PrevRank | src/processors/biomarkers/derivatives_calculator.py:47 | the previous row of a group is exactly one rank lower |
| Groups.PrevFirst | src/processors/biomarkers/derivatives_calculator.py:47 | a row has no previous row iff it is its group's first |
| Groups.PrevContiguous | src/processors/biomarkers/derivatives_calculator.py:47 | in contiguous groups the previous row of a group is the row above |
| Derivatives.Diff | src/processors/biomarkers/derivatives_calculator.py:46-48 | the per-group difference quotient keeps one value per row |
| Derivatives.Derivative | src/processors/biomarkers/derivatives_calculator.py:55-75 | the n-th derivative keeps one value per row |
| Derivatives.Missing | src/processors/biomarkers/derivatives_calculator.py:25-27 | a column is reported missing iff it is one of the time, signal and group columns and the frame lacks it |
| Derivatives.DerivativesCalculator.New | src/processors/biomarkers/derivatives_calculator.py:4-29 | ValueError iff a required column is missing; otherwise a fresh calculator over the same frame |
| Derivatives.DerivativesCalculator.Make | src/processors/biomarkers/derivatives_calculator.py:4-18 | the constructor keeps the frame by reference and the three column names |
| Derivatives.DerivativesCalculator.ComputeDerivative | src/processors/biomarkers/derivatives_calculator.py:36-48 | an unknown column raises KeyError; otherwise its per-group difference quotient |
| Derivatives.DerivativesCalculator.ComputeFirstDerivative | src/processors/biomarkers/derivatives_calculator.py:50-55 | sig_1deriv becomes the derivative of sig_smooth, every other column unchanged; no sig_smooth raises KeyError and changes nothing |
| Derivatives.DerivativesCalculator.ComputeSecondDerivative | src/processors/biomarkers/derivatives_calculator.py:59-65 | sig_2deriv is the derivative of sig_1deriv, computing sig_1deriv first when it is absent |
| Derivatives.DerivativesCalculator.ComputeThirdDerivative | src/processors/biomarkers/derivatives_calculator.py:69-75 | sig_3deriv is the derivative of sig_2deriv, computing the lower derivatives first when absent |
| Derivatives.DiffWithinGroup | src/processors/biomarkers/derivatives_calculator.py:46-48 | a difference never spans two groups, and a group's first row has none |
| Derivatives.DiffContiguous | src/processors/biomarkers/derivatives_calculator.py:47 | in contiguous groups the derivative is (v[i] - v[i-1]) / (t[i] - t[i-1]) |
| Derivatives.LeadingRowsMissing | src/processors/biomarkers/derivatives_calculator.py:55-75 | the first n rows of every group are missing in the n-th derivative |
| Smoothing.SmootherNamed | src/processors/biomarkers/signal_smoothing.py:52-55 | "rolling_avg", "savitzky_golay" and "fda_bspline" name a private smoother; any other method raises ValueError |
| Smoothing.RollingMean | src/processors/biomarkers/signal_smoothing.py:19-23 | the centred rolling mean keeps one value per row |
| Smoothing.Window | src/processors/biomarkers/signal_smoothing.py:19-23 | the centred window at i runs from w / 2 samples before i to (w - 1) / 2 after it; the mean is present iff that window fits and is fully present, and then it times w is the window's sum |
| Smoothing.SmoothGroup | src/processors/biomarkers/signal_smoothing.py:19-43 | a smoother either keeps the group's length or raises ValueError (a negative window, or a group shorter than the Savitzky-Golay window) |
| Smoothing.Smoothed | src/processors/biomarkers/signal_smoothing.py:59-70 | the output column keeps one value per row |
| Smoothing.SignalSmoothing.constructor | src/processors/biomarkers/signal_smoothing.py:8-17 | stores the frame and the three column names |
| Smoothing.SignalSmoothing.GroupApply | src/processors/biomarkers/signal_smoothing.py:48-75 | unknown method: ValueError, frame unchanged; missing columns: KeyError; an argument the smoother does not take: TypeError; otherwise the output column holds every group's result and the flagged groups (which the source prints) are returned, every other column unchanged |
| Smoothing.SumPresentConstant | src/processors/biomarkers/signal_smoothing.py:23 | the sum over a constant run is its length times the constant |
| Smoothing.RollingConstant | src/processors/biomarkers/signal_smoothing.py:23 | a rolling mean of a constant series is that constant wherever the centred window fits, missing elsewhere |
| Smoothing.RollingOneIdentity | src/processors/biomarkers/signal_smoothing.py:23 | a one-sample window gives the series back |
| Smoothing.SmoothedRow | src/processors/biomarkers/signal_smoothing.py:59-72 | a row of an unflagged group takes its group's result at its rank; a row of a flagged group is missing (pd.NA) |
| Smoothing.FlaggedMember | src/processors/biomarkers/signal_smoothing.py:63-64 | a group is flagged iff its smoother raised ValueError |
| Smoothing.WindowOneKeepsSignal | src/processors/biomarkers/signal_smoothing.py:19-23 | rolling with window 1 writes every grouped row's own value |
| Smoothing.ShortGroupFlagged | src/processors/biomarkers/signal_smoothing.py:35-36 | a group shorter than the Savitzky-Golay window is flagged and its rows are missing |
| PulseWaveFeatures.CrossingIdxs | src/processors/biomarkers/pulse_wave_features2.py:40-50 | the ascending positions i whose step to i+1 crosses zero in the requested direction, and no others |
| PulseWaveFeatures.ZeroCrossings | src/processors/biomarkers/pulse_wave_features2.py:16-62 | an unknown crossing type raises ValueError; otherwise sum, type, times and idxs agree, and idxs are exactly the crossings, ascending, with their timestamps |
| PulseWaveFeatures.BothIsUnion | src/processors/biomarkers/pulse_wave_features2.py:43-50 | "both" finds exactly the union of the two directions, and no step crosses both ways |
| PulseWaveFeatures.FallsAlternate | src/processors/biomarkers/pulse_wave_features2.py:40-47 | between two falling crossings lies a rising one |
| PulseWaveFeatures.RiseBefore | src/processors/biomarkers/pulse_wave_features2.py:40-47 | a non-positive value followed later by a positive one contains a rising crossing |
| PulseWaveFeatures.Negate | src/processors/biomarkers/pulse_wave_features2.py:86 | -signal keeps the missing values missing |
| PulseWaveFeatures.Minima | src/processors/biomarkers/pulse_wave_features2.py:79-88 | local_minima returns ascending interior positions of present values, like local_maxima |
| PulseWaveFeatures.ValuesAt | src/processors/biomarkers/pulse_wave_features2.py:300 | region[peaks]: the values at the located positions |
| PulseWaveFeatures.FeaturesY | src/processors/biomarkers/pulse_wave_features2.py:529-563 | the systole is the first maximum of filtered_value, with its row label and time; the beat duration is last minus first timestamp, NaN for a single row |
| PulseWaveFeatures.MissingCount | src/processors/biomarkers/pulse_wave_features2.py:589 | the NaN count is at most the length, and fewer NaNs than rows leave a present value |
| PulseWaveFeatures.NanArgMax | src/processors/biomarkers/pulse_wave_features2.py:596 | nanargmax: the first position of the largest present value |
| PulseWaveFeatures.After | src/processors/biomarkers/pulse_wave_features2.py:614 | the crossings after ms, in their order |
| PulseWaveFeatures.DydxMs | src/processors/biomarkers/pulse_wave_features2.py:577-603 | not detected iff fewer than two rows or over half of sig_1deriv missing; otherwise ms is the first position of the largest present derivative |
| PulseWaveFeatures.DydxSystole | src/processors/biomarkers/pulse_wave_features2.py:605-628 | the systole is the first falling crossing after ms, at its timestamp; when absent, no falling crossing follows ms |
| PulseWaveFeatures.DydxDiastole | src/processors/biomarkers/pulse_wave_features2.py:630-651 | the diastole is a falling crossing after the systole, at its timestamp, with no falling crossing between them; it is absent only when the systole is, or when no falling crossing follows the systole |
| PulseWaveFeatures.NoCrossingBetween | src/processors/biomarkers/pulse_wave_features2.py:630-636 | the first two falling crossings after a bound have no falling crossing between them |
| PulseWaveFeatures.NoCrossingAfter | src/processors/biomarkers/pulse_wave_features2.py:630-636 | when only one falling crossing lies beyond a bound, no falling crossing follows it |
| PulseWaveFeatures.DydxDeltaT | src/processors/biomarkers/pulse_wave_features2.py:644-647 | the systole-to-diastole time exists exactly when the diastole does and is the diastole time minus the systole time |
| PulseWaveFeatures.NoDerivativeNoMs | src/processors/biomarkers/pulse_wave_features2.py:577-593 | a beat whose sig_1deriv is entirely missing has no ms |
| PulseWaveFeatures.Highest | src/processors/biomarkers/pulse_wave_features2.py:300 | peaks[argmax(region[peaks])] is a located peak holding the largest value among them, the first among ties: every earlier peak is strictly lower |
| PulseWaveFeatures.Lowest | src/processors/biomarkers/pulse_wave_features2.py:373 | minima[argmin(region[minima])] is a located minimum holding the smallest value among them, the first among ties: every earlier minimum is strictly higher |
| PulseWaveFeatures.AWave | src/processors/biomarkers/pulse_wave_features2.py:291-309 | the a wave is the highest local maximum of sig_2deriv before ms, the first among ties (every earlier maximum is strictly lower), with its value and time; none when ms is 0 or there is no maximum |
| PulseWaveFeatures.BWave | src/processors/biomarkers/pulse_wave_features2.py:311-329 | the b wave is a local minimum after a; none without a, with a on the last row, or without a minimum |
| PulseWaveFeatures.CWave | src/processors/biomarkers/pulse_wave_features2.py:332-356 | the c wave lies strictly between b and e at a present sample, and is one of the local maxima found in [b, e), the first highest of them; it is missing only when b or e is, when b >= e, or when no maximum is found |
| PulseWaveFeatures.DWave | src/processors/biomarkers/pulse_wave_features2.py:359-382 | the d wave lies strictly between c and e at a present sample, and is one of the local minima found in [c, e), the first lowest of them; it is missing only when c or e is, when c >= e, or when no minimum is found |
| PulseWaveFeatures.FWave | src/processors/biomarkers/pulse_wave_features2.py:385-403 | the f wave is a local minimum after e; none without e or without a minimum |
| PulseWaveFeatures.FeaturesD2ydx2 | src/processors/biomarkers/pulse_wave_features2.py:261-288 | nothing is detected iff ms is missing |
| PulseWaveFeatures.WaveOrder | src/processors/biomarkers/pulse_wave_features2.py:281-286 | an undetected wave leaves every wave depending on it undetected; detected waves come in the order a < b < c < d < e < f, with a before ms |
| PulseWaveFeatures.SummaryD2ydx2 | src/processors/biomarkers/pulse_wave_features2.py:656-743 | None without ms; otherwise the a wave as above and b, c, d and e filled with index 1, value 1 and the a wave's time |
| PulseWaveFeatures.FeaturesOf | src/processors/biomarkers/pulse_wave_features2.py:499-524 | a beat gets a row iff its ms exists; the row carries its global_beat_index and its y, dydx and second-derivative summary features |
| PulseWaveFeatures.Table | src/processors/biomarkers/pulse_wave_features2.py:496-526 | at most one row per beat |
| PulseWaveFeatures.CreateBeatsFeatures | src/processors/biomarkers/pulse_wave_features2.py:487-526 | the loop builds the beat table beat by beat |
| PulseWaveFeatures.TableKeys | src/processors/biomarkers/pulse_wave_features2.py:496-526 | the table holds one row per beat whose ms exists, in beat order, and none for the others |
| PulseWaveFeatures.DroppedWithoutDerivative | src/processors/biomarkers/pulse_wave_features2.py:515-521 | a beat without any first derivative is dropped from the table |
| BasicBiomarkers.LatestBefore | src/processors/biomarkers/basic_biomarkers.py:16-18 | the time of the latest same-group peak that sorts before a row, or none when there is no such peak |
| BasicBiomarkers.Ibis | src/processors/biomarkers/basic_biomarkers.py:15-22 | the ibi_ms column keeps one entry per row |
| BasicBiomarkers.GroupIbis | src/processors/biomarkers/basic_biomarkers.py:28 | the IBIs present on the peak rows of one group, and no others |
| BasicBiomarkers.MinOf | src/processors/biomarkers/basic_biomarkers.py:31 | the minimum is an element no larger than any other |
| BasicBiomarkers.MaxOf | src/processors/biomarkers/basic_biomarkers.py:31 | the maximum is an element no smaller than any other |
| BasicBiomarkers.GroupMin | src/processors/biomarkers/basic_biomarkers.py:31-34 | the mapped group minimum keeps one entry per row |
| BasicBiomarkers.GroupMax | src/processors/biomarkers/basic_biomarkers.py:31-35 | the mapped group maximum keeps one entry per row |
| BasicBiomarkers.GroupBpm | src/processors/biomarkers/basic_biomarkers.py:49-52 | the mapped group rate keeps one entry per row |
| BasicBiomarkers.BasicBiomarkers.constructor | src/processors/biomarkers/basic_biomarkers.py:2-3 | a copy of the input rows with no computed column |
| BasicBiomarkers.BasicBiomarkers.ComputeIbi | src/processors/biomarkers/basic_biomarkers.py:5-24 | writes ibi_ms and leaves the other computed columns unchanged |
| BasicBiomarkers.BasicBiomarkers.ComputeGroupIbiStats | src/processors/biomarkers/basic_biomarkers.py:26-37 | without ibi_ms a KeyError and nothing changes; otherwise ibi_min_group and ibi_max_group are written |
| BasicBiomarkers.BasicBiomarkers.ComputeBpmFromIbiGroup | src/processors/biomarkers/basic_biomarkers.py:39-54 | without ibi_ms a KeyError and nothing changes; otherwise group_bpm is written |
| BasicBiomarkers.IbiIsGapToPreviousPeak | src/processors/biomarkers/basic_biomarkers.py:11-22 | only peak rows carry an IBI; it is the non-negative time since the previous peak of the same group, no other peak of the group lies between, and the first peak of a group has none |
| BasicBiomarkers.GroupStats | src/processors/biomarkers/basic_biomarkers.py:28-35 | every row of a group carries the same minimum and maximum, min <= max, both are IBIs of the group, and every IBI of the group lies between them |
| BasicBiomarkers.SumBounds | src/processors/biomarkers/basic_biomarkers.py:49 | a sum of n values between lo and hi lies between n lo and n hi |
| BasicBiomarkers.RateBetween | src/processors/biomarkers/basic_biomarkers.py:49 | a mean IBI between lo and hi gives a rate between 60000/hi and 60000/lo |
| BasicBiomarkers.BpmBetweenExtremes | src/processors/biomarkers/basic_biomarkers.py:31-52 | with positive IBIs, the group rate lies between the rates of its longest and shortest IBI |
| SqiIbiMax.IbiMaxFlags | src/processors/sqi/ibi_max.py:8-22 | one flag per row: the IBI is present and below 60000 / 30 = 2000 ms |
| SqiIbiMax.SqiIbiMax.Compute | src/processors/sqi/ibi_max.py:4-16 | without ibi_ms a KeyError and no flag changes; otherwise sqi_ibi_max is written, every numeric column is unchanged, and the same table is returned |
| SqiIbiMax.FlagMeansRateAbove | src/processors/sqi/ibi_max.py:8-9 | a positive IBI passes exactly when the rate it implies is above 30 bpm |
| SqiIbiRatioGroup.RatioFlags | src/processors/sqi/ibi_ratio_group.py:18-21 | one flag per row: max / min is defined (not NaN) and below 1.1 |
| SqiIbiRatioGroup.SqiIbiRatioGroup.ComputeAsWritten | src/processors/sqi/ibi_ratio_group.py:6-21 | as written: ibi_min_group is replaced by ibi_max_group and the flag is computed from max / max |
| SqiIbiRatioGroup.SqiIbiRatioGroup.Compute | src/processors/sqi/ibi_ratio_group.py:6-21 | with the minimum read from ibi_min_group: a KeyError when a column is missing, otherwise the ratio flag and no numeric column changes |
| SqiIbiRatioGroup.AsWrittenIgnoresMin | src/processors/sqi/ibi_ratio_group.py:14-21 | as written, a row passes iff its group maximum is present and non-zero, whatever the minimum |
| SqiIbiRatioGroup.RatioCounterexample | src/processors/sqi/ibi_ratio_group.py:15 | IBIs 1000 and 3000 ms pass as written but fail with the minimum used |
| SqiIbiRatioGroup.RatioMeaning | src/processors/sqi/ibi_ratio_group.py:18-21 | with a positive minimum, a group passes iff max < 1.1 min |
| SqiBpmPlausible.Compute | src/processors/sqi/bpm_plausible.py:4-22 | the placeholder rate of 100 makes every segment pass |
| CompositeSqi.New | src/processors/sqi/composite_sqi.py:4-14 | keeps the SQI list; the strategy defaults to sequential_validation |
| CompositeSqi.Results | src/processors/sqi/composite_sqi.py:27 | every SQI's result on the segment, in list order |
| CompositeSqi.Compute | src/processors/sqi/composite_sqi.py:16-35 | "average" over no SQIs raises ZeroDivisionError, "sequential_validation" returns None, any other strategy raises ValueError; over a non-empty list "average" succeeds with the number of passing SQIs divided by the number of SQIs, a value in [0, 1] |
| CompositeSqi.CountAll | src/processors/sqi/composite_sqi.py:30 | all results count as passed iff every one is true |
| CompositeSqi.AverageOneIffAllPass | src/processors/sqi/composite_sqi.py:29-30 | the average is 1 exactly when every SQI passes |
| SqiFactory.CreateSqi | src/processors/sqi/factory.py:4-9 | only "bpm_plausible" is known, any other name raises ValueError; an extra argument raises TypeError |
| Compliance.Above | src/preprocessors/compliance_check_polar_verity.py:15 | a row is compliant iff its ppg exceeds the threshold |
| Compliance.RunIds | src/preprocessors/compliance_check_polar_verity.py:16 | one section_id per row |
| Compliance.RunEnd | src/preprocessors/compliance_check_polar_verity.py:16-17 | a run of equal compliance extends exactly until compliance changes |
| Compliance.Runs | src/preprocessors/compliance_check_polar_verity.py:17 | every group of compliant rows is nonempty |
| Compliance.LongRuns | src/preprocessors/compliance_check_polar_verity.py:20-22 | the kept runs are nonempty and last at least min_duration ms |
| Compliance.Numbered | src/preprocessors/compliance_check_polar_verity.py:28-29 | one renumbered section per valid section |
| Compliance.PolarFrame.constructor | src/preprocessors/compliance_check_polar_verity.py:3 | the recording before sectioning: no above_threshold or section_id column |
| Compliance.CreateComplianceSections | src/preprocessors/compliance_check_polar_verity.py:3-32 | writes above_threshold and section_id into the recording and returns the long enough compliant runs, cut into 60000-row blocks and numbered from 1 |
| Compliance.ValidSections | src/preprocessors/compliance_check_polar_verity.py:19-26 | the loop keeps runs of at least min_duration and slices the longer than 60000 ones, in order |
| Compliance.Renumber | src/preprocessors/compliance_check_polar_verity.py:28-30 | section i (from 1) gets section_id i on every row and loses above_threshold |
| Compliance.RunIdsSame | src/preprocessors/compliance_check_polar_verity.py:16 | section ids never decrease, and two rows share one iff compliance does not change between them |
| Compliance.CompliantRun | src/preprocessors/compliance_check_polar_verity.py:17 | a block of equal compliance contributes all or none of its rows |
| Compliance.RunsAreCompliantRows | src/preprocessors/compliance_check_polar_verity.py:17 | the groups hold exactly the compliant rows, in input order |
| Compliance.RunsMaximal | src/preprocessors/compliance_check_polar_verity.py:16-17 | every group is a slice of compliant rows that cannot be extended on either side |
| Compliance.RunsAbove | src/preprocessors/compliance_check_polar_verity.py:15-17 | every row of every group is above the threshold |
| Compliance.KeptShape | src/preprocessors/compliance_check_polar_verity.py:21-26 | a run yields blocks of 1..60000 rows that put back together give the run if it is long enough, nothing otherwise |
| Compliance.ChunksShape | src/preprocessors/compliance_check_polar_verity.py:19-26 | every valid section has 1..60000 rows, and together they are exactly the long enough runs, in order |
| Compliance.ChunksAbove | src/preprocessors/compliance_check_polar_verity.py:19-26 | slicing keeps every row above the threshold |
| Compliance.SectionsShape | src/preprocessors/compliance_check_polar_verity.py:3-32 | every returned section has 1..60000 rows, all above the threshold and carrying its position from 1 as section_id |
| Dicts.Dict.Get | src/data_model/condition.py:35 | dict.get: a value exactly for the mapped keys, and it is the mapped value |
| Dicts.Dict.Put | src/data_model/condition.py:23 | d[k] = v: k then maps to v, every other key keeps its value, a new key goes last and an existing key keeps its place |
| Dicts.Dict.Items | src/utils/flatten_nested_dict.py:10 | items() lists every key once, in key order, with its value |
| Dicts.MapOfItems | src/data_model/study_data.py:26 | the items of a dict, put back in order, give its map |
| Dicts.MapOfPrefix | src/data_model/study_data.py:26 | the first n items give the map of the first n keys |
| Dicts.PutAllValid | src/data_model/study_data.py:26 | putting items one by one keeps a dict well formed and only appends keys |
| Dicts.PutAllEntries | src/data_model/study_data.py:26 | putting items one by one overrides the dict's values with the items' (the last of a repeated key wins) |
| Dicts.UpdateMeaning | src/data_model/study_data.py:26 | update(other): the other dict's values override, the old keys keep their order and new keys follow |
| Dicts.FromItemsMeaning | src/utils/flatten_nested_dict.py:17 | dict(items) is well formed and maps each key to its last value among the items |
| Dicts.MapOfLast | src/utils/flatten_nested_dict.py:17 | a key is in dict(items) iff some item has it, and its value is that of the last such item |
| Dicts.KeysOf | src/utils/flatten_nested_dict.py:17 | the keys of the items, in order |
| Dicts.FromItemsKeys | src/utils/flatten_nested_dict.py:17 | dict(items) has exactly the keys of the items |
| Dicts.FromItemsDistinct | src/utils/flatten_nested_dict.py:17 | with distinct keys, dict(items) lists the keys in item order |
| Sensors.SensorData.constructor | src/data_model/sensor_data.py:5-7 | keeps the sensor type and the frame |
| Conditions.Condition.constructor | src/data_model/condition.py:11-13 | a named condition with no sensors |
| Conditions.Condition.AddSensorData | src/data_model/condition.py:15-23 | stores the recording under its sensor type, replacing one of the same type; the others are unchanged |
| Conditions.Condition.GetSensorData | src/data_model/condition.py:25-35 | the recording of that type, present iff stored, and of that type; None otherwise |
| Subjects.Subject.constructor | src/data_model/subject.py:8-10 | a subject with no conditions |
| Subjects.Subject.AddCondition | src/data_model/subject.py:12-13 | stores the condition under its name, replacing one of the same name; the others are unchanged |
| Subjects.Subject.GetCondition | src/data_model/subject.py:15-16 | the condition of that name, present iff stored; None otherwise |
| Study.EpochData.constructor | src/data_model/study_data.py:12-21 | an epoch with its id and times and no features |
| Study.EpochData.FeaturesOf | src/data_model/study_data.py:24-26 | a sensor's features, empty when it has none |
| Study.EpochData.AddSensorFeatures | src/data_model/study_data.py:23-26 | the sensor's features are its old ones updated with the new ones (new values override, old keys keep their order), created empty first when absent; other sensors and the cross-sensor features are unchanged |
| Study.MergeFeatures | src/data_model/study_data.py:23-26 | merging into one sensor's features keeps every per-sensor dict well formed, gives the old entries overridden by the new, keeps the old keys, and leaves every other sensor's features as they were |
| Study.SessionData.constructor | src/data_model/study_data.py:42-53 | a session with no sensors, outputs or epochs |
| Study.SessionData.AddSensorData | src/data_model/study_data.py:55-56 | stores the frame under the sensor type; outputs and epochs unchanged |
| Study.SessionData.GetSensorData | src/data_model/study_data.py:58-59 | the stored frame, or a new empty frame |
| Study.SessionData.AddEpoch | src/data_model/study_data.py:61-62 | stores the epoch under its id; sensors and outputs unchanged |
| Study.SessionData.GetEpoch | src/data_model/study_data.py:64-65 | the epoch of that id, present iff stored; None otherwise |
| Study.Subject.constructor | src/data_model/study_data.py:81-83 | a subject with no sessions |
| Study.Subject.AddSession | src/data_model/study_data.py:85-86 | stores the session under the given name; the others are unchanged |
| Study.Subject.GetSession | src/data_model/study_data.py:88-89 | the session of that name, present iff stored; None otherwise |
| Study.StudyData.constructor | src/data_model/study_data.py:100-101 | a study with no subjects |
| Study.StudyData.AddSubject | src/data_model/study_data.py:103-104 | stores the subject under its id; the others are unchanged |
| Study.StudyData.GetSubject | src/data_model/study_data.py:106-107 | the subject of that id, present iff stored; None otherwise |
| SubjectFactory.CreateCondition | src/data_model/subject_factory.py:31-35 | a fresh condition holding exactly the given sensors, in their order, each under its type |
| SubjectFactory.CreateSubjectFromNestedDict | src/data_model/subject_factory.py:8-39 | a fresh subject with the given id holding exactly the given conditions in order, each holding exactly its sensors' frames |
| SubjectFactory.AddCreatedCondition | src/data_model/subject_factory.py:30-37 | one step of the conditions loop: the condition built from its sensors is added under its name, and every stored condition still holds exactly its own sensors |
| SubjectFactory.HoldsGives | src/data_model/subject_factory.py:28-39 | for every condition and sensor type of the input, `get_condition(c).get_sensor_data(t)` of the built subject returns that sensor's frame |
| SubjectFactory.CreateSubjectsFromNestedDicts | src/data_model/subject_factory.py:42-68 | one fresh subject per top-level key, in key order, each built as above |
| SubjectFactory.AppendSubject | src/data_model/subject_factory.py:64-66 | one step of the subjects loop: the subjects built so far are kept and a fresh subject for the next key, holding that key's conditions, is appended |
| Checkpoints.CheckpointManager.constructor | src/checkpoints/checkpoint_manager.py:7-12 | the configured load and save switches and ids, and what the checkpoint file holds |
| Checkpoints.CheckpointManager.Exists | src/checkpoints/checkpoint_manager.py:46-47 | true iff the checkpoint exists; nothing else changes |
| Checkpoints.CheckpointManager.Load | src/checkpoints/checkpoint_manager.py:30-44 | the stored value, or FileNotFoundError without a checkpoint |
| Checkpoints.CheckpointManager.Save | src/checkpoints/checkpoint_manager.py:15-27 | records the saved value; nothing else changes |
| Checkpoints.WithCheckpoint | src/checkpoints/checkpoint_decorator.py:14-35 | the stored result iff loading is on for this id and the checkpoint exists (then the stage does not run and nothing is saved); otherwise the stage runs and its result is saved iff saving is on for this id; exists is asked only when loading is on for this id |
| AppStates.StudyDataOf | src/state/app_state.py:23 | state.get("study_data"): present iff the key is |
| AppStates.AppState.constructor | src/state/app_state.py:11-14 | the checkpoint manager and no study data |
| AppStates.AppState.Load | src/state/app_state.py:16-28 | with loading on and a checkpoint present, the study data comes from it and nothing is built or saved; otherwise it is built, and saved as {"study_data": ...} iff saving is on; returns itself |
| AppStates.AppState.BuildState | src/state/app_state.py:30-40 | the loaders' study data, saved iff saving is on |
| AppStates.AppState.GetStudyData | src/state/app_state.py:42-46 | returns the study data, loading it only while there is none; once present nothing changes |
| FlattenNestedDict.NewKey | src/utils/flatten_nested_dict.py:11 | the key itself at the top level, otherwise parent + sep + key |
| FlattenNestedDict.FlattenNestedDictAsWritten | src/utils/flatten_nested_dict.py:1-17 | as written, NameError exactly when some value is a dict; otherwise the flattened dict |
| FlattenNestedDict.FlattenNestedDict | src/utils/flatten_nested_dict.py:1-17 | with the recursive call made to itself: the flattened dict, items in order, a later key overriding an earlier one |
| FlattenNestedDict.FlattenItem | src/utils/flatten_nested_dict.py:10-15 | one item adds itself under its new key when plain, or the items of its flattened sub-dict when nested |
| FlattenNestedDict.FlatKeysPrefixed | src/utils/flatten_nested_dict.py:11-13 | below the top level every key starts with parent + sep |
| FlattenNestedDict.ContributionPrefixed | src/utils/flatten_nested_dict.py:11-15 | everything a value contributes is keyed under its new key |
| FlattenNestedDict.FlatItemsPlain | src/utils/flatten_nested_dict.py:10-15 | without nested dicts every value is kept under its new key, in order |
| FlattenNestedDict.FlatOfPlainDict | src/utils/flatten_nested_dict.py:1-17 | a top-level dict without nested dicts flattens to itself: same keys, same order, same values |
| FlattenNestedDict.NestedExample | src/utils/flatten_nested_dict.py:1-17 | {"a": {"b": 1}, "c": 2} flattens to {"a_b": 1, "c": 2}, and as written it raises NameError |

## Left out

- Loaders, the command line, pipelines, `main.py`, plotting and `ppg_preprocess.py` are file I/O, orchestration or scipy filtering; they are not part of this model. `AppStates.AppState.Load` takes what `LoaderOrchestrator(config).load_study_data()` would return as the parameter `loaded`.
- `checkpoint_manager.py` is pickle file I/O and is not part of this model. `Checkpoints.CheckpointManager` is an abstract manager whose status flags, ids and stored value are fields. The shipped manager has no `get_load_status`, `get_load_id`, `get_save_status` or `get_save_id`, and its `exists` reads a path set only by `save`/`load`; the decorator and the application state would fail on those calls. The model gives the manager the accessors the callers use.
- AppStates.AppState.Load: follows the code in not comparing the checkpoint's load id with anything, unlike the decorator.
- Timing, memory and progress prints have no effect on results and are left out.
- A missing key in the configuration dictionary (a `KeyError` in the compliance check or a detector) is not modelled: the threshold and the minimum duration are parameters.
- DetectorFactory.Create: `create` builds both detector objects before the lookup; construction has no effect, so only the lookup and the `ValueError` are modelled.
- Msptd.DetectorDetect: `detect` calls `_beat_detect_msptd`, a name that does not exist (the function is `beat_detect_msptd`, src/processors/periodic_peak_detectors/msptd.py:9, 15); the model takes the evident call with `max_interval = 1000`.
- AMPD: scipy `detrend` and `np.random.rand` are not part of this model. The input is taken as already detrended and the noise matrix is a parameter with cells in [1, 2).
- Ampd.KeptColumns: for a column that is a strict maximum at no kept scale, whether it is a peak depends on the noise draw; Ampd.KeptColumnsExact settles it when two kept scales draw different noise there, which `np.random.rand` does with probability 1.
- DetectorFactory.Finder: the AMPD detector takes one noise draw, shared by every call; the source draws fresh noise on each `detect`. A model of per-call noise would need a fresh draw per section, an input the callers do not have.
- `find_peaks` (with prominence and distance) and `savgol_filter` are foreign: `PulseWaveFeatures.Locator` only promises ascending interior positions of present values, and `Smoothing.Filter` only promises an output as long as its input.
- Floating point is real arithmetic: no rounding, overflow or infinity. NaN, `None` and `pd.NA` are all `None`.
- Derivatives.Derivative: a zero time step gives `None` where pandas gives ±inf or NaN.
- Derivatives.DerivativesCalculator.Make: requires that the time and group columns are not named `sig_1deriv`, `sig_2deriv` or `sig_3deriv`; the source would overwrite them with a derivative.
- Derivatives.DerivativesCalculator.ComputeDerivative: assumes `groupby(...).apply` returns one value per grouped row. pandas has two edge cases here, and the model does not follow either. First, when the grouped rows form exactly one group of two or more rows, pandas stacks that group's series into a one-row frame. Second, when every group key is missing, the lambda never runs, so pandas returns an empty frame and raises no KeyError, even for a missing column. The model gives the per-group derivative in the first case, and an all-missing column or a KeyError in the second.
- Derivatives.DerivativesCalculator.ComputeFirstDerivative: in those two pandas cases, assigning the frame to the column raises ValueError (src/processors/biomarkers/derivatives_calculator.py:55). The model writes the column and succeeds.
- Derivatives.DerivativesCalculator.ComputeSecondDerivative: in those two pandas cases, assigning the frame to the column raises ValueError (src/processors/biomarkers/derivatives_calculator.py:65). The model writes the column and succeeds.
- Derivatives.DerivativesCalculator.ComputeThirdDerivative: in those two pandas cases, assigning the frame to the column raises ValueError (src/processors/biomarkers/derivatives_calculator.py:75). The model writes the column and succeeds.
- Smoothing.SignalSmoothing.GroupApply: `flagged_groups` is a set, where the source keeps a list in group-key order. Method names are looked up by name, so the `hasattr` dispatch to dunder or inherited attributes is not modelled. The source returns None and only prints the flagged groups as a warning (src/processors/biomarkers/signal_smoothing.py:74-75); the model returns that list in place of the print.
- Smoothing.SmoothGroup: the source's `_fda_bspline` has body `pass` and returns None (src/processors/biomarkers/signal_smoothing.py:39-43), so `groupby(...).apply` gets None for every group and yields an empty result rather than a column; the model gives it an all-missing column of the group's length.
- Smoothing.SignalSmoothing.GroupApply: when no row has a group, `apply` over zero groups likewise yields an empty result; the model writes an all-missing column.
- Smoothing.SignalSmoothing.GroupApply: when the grouped rows form exactly one group of two or more rows, `groupby(...).apply` stacks that group's result into a one-row frame, and assigning it to the output column raises ValueError (src/processors/biomarkers/signal_smoothing.py:68-72). The model writes the group's result and succeeds.
- Smoothing: the public `savitzky_golay` (which reads an undefined `y`), `fda_bspline` (empty) and `rolling_avg` (an unused fixed-window copy of `_rolling_avg`) at src/processors/biomarkers/signal_smoothing.py:78-102 are left out.
- PulseWaveFeatures.FeaturesY: takes the filtered values of a beat to be present; with a NaN present numpy `argmax` would return the first NaN.
- PulseWaveFeatures.CreateBeatsFeatures: beats are taken in the order given; `groupby('global_beat_index')` sorts the beat ids and drops rows whose id is NaN (src/processors/biomarkers/pulse_wave_features2.py:496), so the model matches the source when the beats arrive with ascending, present ids.
- BeatDetection: filtered values are taken to be present. The source's `idxmax` skips NaN (src/processors/beat_detectors/beat_detection.py:142) and the detectors clean NaN themselves, neither of which is modelled for a missing filtered value.
- PulseWaveFeatures: `_compute_e_wave` is never defined (src/processors/biomarkers/pulse_wave_features2.py:283), so the e wave is an input to the second-derivative chain.
- PulseWaveFeatures: `pulse_wave_features2.py` does not run as shipped. The model gives the evident meaning to the following; none of them is a modelled behaviour of its own:
  - `np.argmac` (125) and the misspelt `_compute_feeature_sys_dia_deltaT_ms` (165);
  - the missing commas in dict literals (175, 213, 251, 378), the `'features_dydx'. {}` typo (263) and the tuple written for a dict (309);
  - the `timestamp=` keyword (277), `sig_dydx` undefined in `_compute_feature_ms` (194) and `sig_d2ydx2` undefined in `_compute_f_wave` (390-391);
  - `_compute_zero_crossings_dict`, `_local_maxima` and `_local_minima` called on the wrong class (607, 675, 696, 715).
- PulseWaveFeatures.FWave: the source stores a sample value where it means its index (399); the model uses the index.
- PulseWaveFeatures: the third- and fourth-derivative extractors are empty (746-788) and are left out. The b to e summary entries are stubs (716-739) and are modelled as the constants they are.
- PulseWaveFeatures: the `compute`, `_apply_signal_smoothing` and `_compute_derivatives` orchestration (424-485) only chains smoothing, derivatives and the table builder, which are modelled one by one.
- BasicBiomarkers: `compute_bpm_from_ibi` is marked as not working and `compute_bpm_from_total_time` is a stub (src/processors/biomarkers/basic_biomarkers.py:56-76); both are left out.
- BasicBiomarkers.Ibis: `sort_values` uses quicksort, which is not stable; the model breaks ties in `(group_id, timestamp_ms)` by row position.
- BasicBiomarkers.GroupBpm: a group whose mean IBI is 0 gets `None`, where pandas gives inf. Group id -1 is grouped like any other id.
- SqiBpmPlausible: `compute` uses a fixed rate of 100 bpm, and it is modelled as written. The SQIs' own errors on malformed frames (missing columns, non-numeric values) are not modelled.
- CompositeSqi.Compute: each SQI is a pure test of a segment; the source's `compute` returns a frame, and SQIs such as `SQIIBIMax` write their result column into it (src/processors/sqi/ibi_max.py:12-16). The strategies only read the tests' outcomes.
- `BeatOrganiser.group_n_beats_inplace`, called by the pipeline, does not exist and is left out.
- Compliance.CreateComplianceSections: sections are returned as values of the row type without `above_threshold`. In-place column drops on the pandas frames are not modelled beyond that shape.
- The `__repr__` strings of the containers are left out; the key order they would show is the `Dicts.Dict` key order the model keeps.
- Feature values (`Any` in the source) are a type parameter. `SensorData` is a minimal class whose `get_data` is its field.
- Frames are columns of `Option<real>` plus flag columns; dtypes, indexes and empty (zero-row) frames with missing columns are not modelled.

## Findings

| source | as written | input that shows it | evidently intended | confidence | as-written member | corrected member |
|---|---|---|---|---|---|---|
| src/processors/beat_detectors/beat_detection.py:97 | the chunk end uses `check_size`, a name defined nowhere, so every chunk raises NameError | the default chunk size 3000 on the signal [0.0] | the chunk ends at `start_idx + chunk_size` | high, not executed | BeatDetection.DetectFixedChunkSizeAsWritten | BeatDetection.DetectFixedChunkSize |
| src/processors/sqi/ibi_ratio_group.py:15 | `ibi_min_group` is overwritten with `ibi_max_group`, so the ratio is max / max and the minimum is ignored | a group with IBIs 1000 and 3000 ms passes (ratio 1) although 3000 / 1000 = 3 | the ratio is the group maximum over the group minimum, and the check fails at 1.1 or above | high, not executed | SqiIbiRatioGroup.SqiIbiRatioGroup.ComputeAsWritten | SqiIbiRatioGroup.SqiIbiRatioGroup.Compute |
| src/utils/flatten_nested_dict.py:13 | the recursive call names `flatten_dict`, which does not exist, so any nested dict raises NameError | {"a": {"b": 1}, "c": 2} | a recursive call to `flatten_nested_dict`, giving {"a_b": 1, "c": 2} | high, not executed | FlattenNestedDict.FlattenNestedDictAsWritten | FlattenNestedDict.FlattenNestedDict |
