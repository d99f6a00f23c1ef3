# Shutter value generator — a Dafny model

This project models the planning logic of the MCP detector's shutter value
generator. In its preset modes the generator writes a fixed `ShutterValues.txt`.
Otherwise it works out the time-of-flight (TOF) frames of a measurement from
dead-time wavelengths and keeps them on the object. The model covers:

- the wavelength/TOF conversion of the `MakeShutterValueFile` class (λ in
  Angstrom, distance as given, offset and TOF in µs or s);
- splitting the baseline window [1 µs, 15.9 ms] at dead-time markers;
- choosing each frame's clock divisor from the clock-cycle table, and the
  row text built from it;
- the constructor's validation and the resonance / default / computed dispatch of `run`;
- the requested-wavelength helpers (band dictionary, chopper-range check);
- the wizard scripts' helpers: metre-based conversion, offset derivation,
  largest-gap ranking and the negative-TOF filter.

Floats are `real`. COEFF is `662607004/1674927471`, which is exactly
(H / MN)·1e6 for the source's two constants (≈ 0.3956). The padding G equals
`TOF_FRAMES[1][0] − TOF_FRAMES[0][1]`, which is 0.0004 s exactly. Python
exceptions become `Result`/`Outcome` failures. A `ZeroDivisionError` becomes
`None`.

Modules, one per component: `Results` (Option/Result/Outcome),
`ShutterConstants`, `Conversion`, `Frames`, `ClockTable`, `ShutterRows`,
`Requested`, `Generator`, `ScriptConversion`, `Gaps`, `Preview`.

Behaviour kept as the code has it:

- **Lookup failure.** `get_above_closest_divided` returns the divisor of the
  *last* row whose `Clock ≥` the duration in ms. On a strictly descending table,
  that is the smallest period not below the duration. Its `-1` branch cannot be
  reached: the tuple from `np.where` is always truthy
  (make_shutter_value_file.py:176-180). A duration above every
  period therefore fails with an IndexError. The model gives `None` there.
- **Frame width.** `make_list_tof_frames` never checks widths. Marker k always
  sits at the centre of a 2G gap between frames k and k+1. A frame can still end
  before it starts (`Frames.FirstFrameCanBeInverted`).
- **Distance units.** The class uses the distance as given; its converters'
  docstrings say cm. The wizard scripts take metres and multiply by 100. The
  preview script passes 25.0 (metres) to the class. With that distance, a
  wavelength spacing of 0.3 Å is far less than 2G of TOF, so an accepted
  dead-time list can produce an inverted frame
  (`Generator.MetreDistanceInvertsFrame`). That is what the class does when
  given distance 25. The preview script does not reach it as written: its
  constructor call (preview_bragg_peak_requested.py:177-185) also passes
  `verbose`, `time_bin` and `no_output_file`, which `__init__` does not accept,
  so the call raises a TypeError before `run`. Above roughly 1055 distance
  units, 0.3 Å spans 2G, and all interior frames are open
  (`Generator.InteriorFramesOpen`).
- **Computed frames are not written.** In the computed branch `run` stores the
  dead-time TOFs and the frames (make_shutter_value_file.py:129, 134) and writes
  no file. Its call of `make_shutter_values_string` is commented out (line 132),
  and nothing else calls it. `ShutterRows.MakeShutterValues` and
  `ShutterRows.ShutterValuesText` model that function as written, though the
  program never reaches it from `run`.
- **Exact 0.3 Å spacing.** The `run` docstring (make_shutter_value_file.py:98-100)
  and its error message (lines 122-123) ask for markers "at least" 0.3 Å apart.
  The test at line 186 (`_offset <= MIN_LAMBDA_PEAK_VALUE_INTERVAL`) also rejects
  a spacing of exactly 0.3. `Generator.ListLambdaDeadTimeTooClose` follows the
  code: a spacing of exactly 0.3 is too close.
- **Marker count.** The at-least-two check lives only in `run`
  (make_shutter_value_file.py:117). `make_list_tof_frames` accepts any count:
  one marker gives two frames, no marker gives none.

## Model

| member | source | states |
|---|---|---|
| ShutterConstants.BaselineFacts | shutter_value_generator/make_shutter_value_file.py:10-21 | the three baseline windows are ordered and separated; G = 0.4 ms; the default dead times lie strictly inside the two gaps; 0.3955 < COEFF < 0.3957 |
| Conversion.RoundTrip | shutter_value_generator/make_shutter_value_file.py:242-254 | for a non-zero distance, converting λ to µs and back with `convert_tof_to_lambda` returns λ |
| Conversion.InverseRoundTrip | shutter_value_generator/make_shutter_value_file.py:266-286 | for a non-zero distance, converting a TOF to λ and back returns the TOF |
| Conversion.TofToLambda | shutter_value_generator/make_shutter_value_file.py:242-254 | the inverse conversion is defined exactly when the distance is non-zero (otherwise division by zero) |
| Conversion.ConvertLambdaToTof | shutter_value_generator/make_shutter_value_file.py:280-286 | one TOF per input wavelength, in input order |
| Conversion.SecondsAreScaledMicros | shutter_value_generator/make_shutter_value_file.py:281-285 | the `'s'` output is the µs output times 1e-6, element by element |
| Conversion.ConvertKeepsStrictOrder | shutter_value_generator/make_shutter_value_file.py:280-286 | for a positive distance a strictly ascending wavelength list converts to a strictly ascending TOF list |
| Conversion.ConvertedListRoundTrip | shutter_value_generator/make_shutter_value_file.py:267-286 | every converted TOF of a list converts back to its own wavelength |
| Conversion.LambdaToTofInjective | shutter_value_generator/make_shutter_value_file.py:282 | for a non-zero distance distinct wavelengths never share a TOF |
| Conversion.LambdaToTofStrictlyIncreasing | shutter_value_generator/make_shutter_value_file.py:282-284 | for a positive distance the TOF strictly increases with λ, in both units |
| Conversion.MinimumMeasurableLambda | shutter_value_generator/make_shutter_value_file.py:223-225 | a value exists iff distance and offset are both set and non-zero, and it is the wavelength of TOF 0 |
| Frames.MakeListTofFrames | shutter_value_generator/make_shutter_value_file.py:136-154 | no markers give no frames; n ≥ 1 markers give n+1 frames from 1 µs to 15.9 ms with marker k at the centre of the 2G gap between frames k and k+1 |
| Frames.PartitionIsUnique | shutter_value_generator/make_shutter_value_file.py:136-154 | the frame list is fully determined by the markers: any two partitions of the same markers are equal |
| Frames.FramesSeparatedByTwoG | shutter_value_generator/make_shutter_value_file.py:142-152 | consecutive frames are exactly 2G = 0.8 ms apart, for any markers |
| Frames.AllFramesOpenIff | shutter_value_generator/make_shutter_value_file.py:136-154 | every frame has end > start iff the first marker is > G after 1 µs, the last is > G before 15.9 ms, and consecutive markers are > 2G apart |
| Frames.FirstFrameCanBeInverted | shutter_value_generator/make_shutter_value_file.py:140-143 | a marker at 0.3 ms yields a first frame whose end precedes its start |
| ClockTable.LastIndexAtLeast | shutter_value_generator/make_shutter_value_file.py:175-178 | finds the last row with `Clock ≥` the duration, or reports that every period is below it |
| ClockTable.GetAboveClosestDivided | shutter_value_generator/make_shutter_value_file.py:166-180 | the duration is scaled s→ms; no result iff every period is below it; else the divisor of a row covering it with every later row below it |
| ClockTable.SelectsSmallestSufficientPeriod | shutter_value_generator/make_shutter_value_file.py:176-178 | on a strictly descending table the selected row has the smallest period not below the duration |
| ClockTable.LookupIsSmallestSufficient | shutter_value_generator/make_shutter_value_file.py:166-180 | on a strictly descending table the returned divisor belongs to the smallest covering period |
| ClockTable.SelectsBoundaryRow | shutter_value_generator/make_shutter_value_file.py:176-178 | on a descending table the row covering the duration whose successor does not is the one selected |
| ClockTable.ReferenceTableDescending | test/test_make_shutter_value_file.py:11-15 | the reference table (100 ms halved 19 times) is strictly descending |
| ClockTable.ReferenceExamples | test/test_make_shutter_value_file.py:11-15 | on the test's reference table (lines 11-15, compared at 41-43), lookups computed from the table: 2.5 ms, 0.1 ms and 25 ms give divisors 5, 9 and 2, and 200 ms gives none |
| ShutterRows.MakeShutterValues | shutter_value_generator/make_shutter_value_file.py:156-164 | rows exist iff every frame's divisor is found; then one row per frame, with the frame's ends, its divisor and 10.24 µs; on a descending table each divisor is the smallest covering period |
| ShutterRows.SplitJoin | shutter_value_generator/make_shutter_value_file.py:164 | newline-joining newline-free lines and splitting the text again gives the same lines: one line per row, no trailing newline |
| ShutterRows.ShutterValuesTextLines | shutter_value_generator/make_shutter_value_file.py:156-164 | with a newline-free row formatter, the file text splits back into exactly the formatted rows in order |
| ShutterRows.PresetLines | shutter_value_generator/make_shutter_value_file.py:23-24 | the default preset is three rows (the baseline windows, divisors 5, 6, 7); the resonance preset is one row |
| Requested.InitializeRequestedDictionary | shutter_value_generator/make_shutter_value_file.py:303-310 | the keys are exactly the requested wavelengths, each mapped to [λ−0.3, λ+0.3]; distinct requests keep their order |
| Requested.ConvertLambdaDictToTof | shutter_value_generator/make_shutter_value_file.py:227-240 | every key's TOF is a key of the result, and every result key is the TOF of an input key, holding that key's converted band |
| Requested.ConvertLambdaDictEntrywise | shutter_value_generator/make_shutter_value_file.py:227-240 | for a non-zero distance the result keys are the converted keys in order, each with its converted band |
| Requested.InsertAllLastWins | shutter_value_generator/make_shutter_value_file.py:239 | assigning keys in turn leaves a key not re-assigned later with the value given at its position |
| Requested.CheckOverlapWithChopperSettings | shutter_value_generator/make_shutter_value_file.py:293-301 | passes iff every band [λ−0.3, λ+0.3] lies inside the chopper range; otherwise it reports the first offending wavelength |
| Generator.NewShutterValueFile | shutter_value_generator/make_shutter_value_file.py:43-92 | fails iff the output folder is missing, or, outside resonance/default mode, the distance or offset is missing or the chopper range is not a 2-element list; errors come in the source's order, each named: missing folder, then missing distance, then missing offset, then a bad chopper range; success keeps the arguments |
| Generator.ListLambdaDeadTimeTooClose | shutter_value_generator/make_shutter_value_file.py:182-188 | true iff some consecutive difference is ≤ 0.3 Å (exactly 0.3 included); lists shorter than two are never too close |
| Generator.WellSpacedIsStrictlyAscending | shutter_value_generator/make_shutter_value_file.py:183-188 | an accepted list is strictly ascending (elements k apart differ by more than 0.3·k), so an unsorted list is always rejected |
| Generator.Run | shutter_value_generator/make_shutter_value_file.py:95-134 | resonance preset first; then default preset for default mode or a missing list; then a non-list, fewer than two, or too-close list is rejected; otherwise the TOFs in seconds and their n+1-frame partition |
| Generator.InteriorFramesOpen | shutter_value_generator/make_shutter_value_file.py:121-130 | when 0.3 Å converts to at least 2G, every frame between two accepted markers has end > start |
| Generator.MetreDistanceInvertsFrame | preview_bragg_peak_requested.py:177-189 | what the class does when given distance 25 (the preview's metres): it accepts [3.0, 3.5] and yields an inverted middle frame; the script's own call, as written, raises a TypeError before `run` |
| ScriptConversion.FromTofToLambda | create_shutter_value_file_step1.py:45-55 | defined exactly when the distance in metres is non-zero |
| ScriptConversion.ScriptRoundTrip | create_shutter_value_file_step1.py:27-55 | with distance in metres ×100 and coefficient 0.3956, λ → TOF → λ returns λ for a non-zero distance |
| ScriptConversion.ScriptInverseRoundTrip | create_shutter_value_file_step1.py:27-55 | TOF → λ → TOF returns the TOF for a non-zero distance |
| ScriptConversion.OffsetZeroesMinimum | create_shutter_value_file_step1.py:27-43 | the offset derived from λmin maps λmin to TOF 0 |
| ScriptConversion.OffsetSign | create_shutter_value_file_step1.py:68-73 | with that offset and a positive distance, the TOF is negative, zero or positive exactly as λ is below, at or above λmin |
| ScriptConversion.ScriptTofMonotonic | create_shutter_value_file_step1.py:27-37 | for a positive distance the script's TOF is monotone in λ, strictly for distinct λ |
| Gaps.SortDescending | create_shutter_value_file_step1.py:60 | the result is non-increasing and a permutation of the input |
| Gaps.PrefixSlice | create_shutter_value_file_step1.py:60 | Python's `[:k]`: the first min(k, n) elements, or for negative k all but the last −k |
| Gaps.FindLargestGaps | create_shutter_value_file_step1.py:58-61 | min(k, n−1) values for k ≥ 0 and max(n−1+k, 0) for negative k (Python's slice), non-increasing, drawn from the consecutive differences, and no unreported difference exceeds a reported one |
| Gaps.SlicedRanking | create_shutter_value_file_step1.py:60 | `[:k]` of a descending ranking keeps the largest values, largest first, with the slice's length for either sign of k |
| Gaps.GapCentreInside | create_shutter_value_file_step1.py:63-64 | a gap's centre `left + mid(right − left)` lies between its ends, strictly for a non-empty gap |
| Gaps.LargestGapsOfAscending | create_shutter_value_file_step1.py:97-103 | on an ascending list all reported gaps are ≥ 0 and every gap centre lies within its gap |
| Gaps.KeptIndices | create_shutter_value_file_step1.py:75-78 | the indices kept are in increasing order, in range, and exactly those whose TOF is ≥ 0 |
| Gaps.FilterNegativeTofs | create_shutter_value_file_step1.py:75-78 | both lists lose the same indices, stay aligned and of equal length, and every remaining TOF is ≥ 0 |
| Gaps.FilterKeepsReachableWavelengths | create_shutter_value_file_step1.py:68-78 | with the λmin-derived offset the filter keeps exactly the requested wavelengths ≥ λmin |
| Gaps.AscendingWavelengthsGiveAscendingTofs | create_shutter_value_file_step1.py:73 | for a positive distance the TOFs of an ascending λ list are ascending |
| Preview.PreviewRoundTrip | preview_bragg_peak_requested.py:54-76 | the preview's inverse uses 25 m, so the round trip gives λ·d/25: it returns λ iff d = 25 (the default) or λ = 0 |
| Preview.PreviewLargestGaps | preview_bragg_peak_requested.py:79-113 | on the sorted request list with positive distance, for any `number_of_gaps_to_display` the gaps are non-increasing, non-negative and each a consecutive TOF gap; a non-negative count bounds their number, and the default of 6 (lines 30-33) reports the 6 largest, or all when fewer |

## Left out

- Prompts and command-line parsing (argparse, click), plotting, the JSON scratch file in the home directory, and the scripts' top-level code: user interaction and I/O.
- `make_ascii_file_from_string` and the output path: in the preset modes `Generator.Run` returns the preset text instead of writing it; in the computed mode it returns the TOFs and frames that `run` stores (no file is written there).
- `get_clock_cycle_table`: it reads `clock_cycle.txt`, which is not part of this model. The table is a parameter, and the test's reference table is modelled.
- `make_sure_list_wavelength_requested_can_be_measure`: dead code. It reads an attribute the constructor never sets.
- The commented-out merge logic and `set_final_tof_frames`: not part of the program.
- Float formatting of rows and float parsing of user input: rows are records, and `ShutterRows.ShutterValuesText` takes the row formatter as a parameter. IEEE rounding is not modelled. For example, G is exactly 0.0004 here, not the double that 2.9e-3 − 2.5e-3 rounds to (≈ 0.00039999999999999975).
- Tests that use the stale class name or removed attributes, and script calls that pass `verbose`, `time_bin`, `no_output_file` and similar arguments, which the constructor shown does not accept.
- create_shutter_value_file_step2.py, create_shutter_value_file_step3.py and setup.py: glue and packaging.
- Requested.CheckOverlapWithChopperSettings: requires a range of at least two elements. It is a static method with its own range argument, and nothing in the source calls it. With a shorter list Python raises IndexError, or ValueError when the lower-bound test already fails (the `or` short-circuits). That error path is not modelled.
- Conversion.ConvertLambdaToTof: any `output_units` other than `'s'` is microseconds, so the model has just the two cases.
- Generator.Run: list elements are reals. A list holding non-numbers, which Python would reject while subtracting, is not modelled.
- Preview.PreviewLargestGaps: the wavelength list is assumed already sorted, as `list.sort()` leaves it. The sort itself is not modelled.
