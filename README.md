# SWV peak analysis — a Dafny model of `pybaseline_loop.py`

`pybaseline_loop.py` takes square-wave-voltammetry (SWV) measurement files
and does three things:

- It reads each file as a table of (Potential, Current) rows.
- It finds the signal's corrected peak:
  - it drops the zero-current rows, sorts the rest by potential and negates
    the current;
  - it smooths the signal with an 11-sample Savitzky-Golay filter;
  - it finds a first peak in the interior of the trace, among the samples
    whose slope is below 500;
  - it fits an asPLS baseline, with the samples near that peak almost
    switched off;
  - it subtracts the baseline and searches the peak again.
- It gathers the per-file `{loop, "<canal> - <variante> - Tension (V)",
  "<canal> - <variante> - Courant (A)"}` records into a summary table. The
  rows are ordered by loop number. The columns are ordered by channel, then
  variant, then Tension before Courant, and carry three-level headers.

This project models the processing core. It has one Dafny module per stage:

| module | file | models |
|---|---|---|
| `Base` | base.dfy | options and results; the error kinds; decimal digit runs (`[0-9]+`, `int()`) |
| `Sorting` | sorting.dfy | sorting by a key relation (insertion sort, proved sorted and a permutation) |
| `Trace` | trace.dfy | `processData`: filter, sort and negate |
| `PeakSearch` | peak.dfy | `getPeakValue`: margin, the `[m:-m]` slice, `np.gradient`, the slope filter, `np.argmax` and the fallback |
| `Baseline` | baseline.dfy | `calculateSignalBaseLine`: exclusion window, weights and lambda; the fitter is a parameter |
| `FileName` | filename.dfy | the file-name regular expression, including how Python's `$` treats a final newline |
| `Pipeline` | pipeline.dfy | `smoothSignal`, the per-file analysis and `processSignalFile`'s records |
| `Aggregate` | aggregate.dfy | the batch loop of `run_analysis`, `key_loop`, `key_col`, the column sort and the header tuples |

The model treats its inputs as follows:

- Floating-point numbers are modelled as real numbers.
- The two numerical library routines are parameters. `savgol_filter` moves
  in as a `Smoother` and `aspls` as a `Fitter`. The model requires only that
  each returns one value per input sample.
- A file's contents are given as the `Load` value `readFile` would
  produce. There are three cases:
  - numeric rows;
  - a table with a column of text, as `read_csv` produces with the wrong
    decimal mark;
  - a read failure.
- Each exception that reading and analysing can raise becomes either a
  `Failure` carrying an `Error` kind or an error record.
  `processSignalFile`'s `except` clause turns that kind into an error
  record. Exceptions raised while plotting or exporting are not modelled
  (see below).

## Model

| member | source | states |
|---|---|---|
| Base.LeadingDigits | pybaseline_loop.py:216 | the greedy `\d+` run: a digit prefix of the input followed by a non-digit or the end |
| Base.TrailingDigitCount | pybaseline_loop.py:96 | the length of the maximal digit suffix, which `[0-9]+` before `\.txt` must consume |
| Base.LeadingDigitsOfRun | pybaseline_loop.py:216 | a digit run followed by a non-digit is exactly what the greedy match consumes |
| Base.TrailingDigitsOfRun | pybaseline_loop.py:96 | a digit run after a non-digit is exactly the trailing digit run |
| Base.TwoDigitsBelowHundred | pybaseline_loop.py:224-227 | `int` of a two-digit group is at most 99, below the 999 of unmatched columns |
| Sorting.SortBy | pybaseline_loop.py:32 | for a total order, the result is sorted and is a permutation of the input |
| Sorting.SortedPairwise | pybaseline_loop.py:220-230 | a sequence sorted pair by pair under a transitive order is ordered between any two positions |
| Trace.NonZeroRows | pybaseline_loop.py:32 | the filter keeps no more rows than it is given, and every row it keeps has a non-zero current |
| Trace.Tabulate | pybaseline_loop.py:33-34 | the potential column and the negated current column, aligned with the table's rows |
| Trace.NonZeroRowsCount | pybaseline_loop.py:32 | the filter keeps each non-zero-current row exactly as many times as it occurs, and no zero-current row |
| Trace.TabulateCleaned | pybaseline_loop.py:32-34 | any sorted permutation of the kept rows yields aligned potential and negated-current columns, sorted by potential and with no zero signal |
| Trace.ProcessData | pybaseline_loop.py:31-35 | the cleaned table is a permutation of the non-zero-current rows; it is sorted by potential; potentials and signal are its columns, the signal negated and never zero |
| PeakSearch.Margin | pybaseline_loop.py:42 | `int(n * ratio)` is the floor of `n * ratio` when the ratio is not negative |
| PeakSearch.DefaultMargin | pybaseline_loop.py:42 | with ratio 0.10 the margin is `n / 10` |
| PeakSearch.Region | pybaseline_loop.py:43-44 | the slice `[m:-m]` is empty exactly when `m = 0` or `2m >= n`, and otherwise is `[m, n-m)` |
| PeakSearch.GradientAt | pybaseline_loop.py:47 | one entry of `np.gradient` over the slice; it is finite wherever the potentials of the slice strictly increase |
| PeakSearch.ArgMaxIn | pybaseline_loop.py:54 | `np.argmax`: an index of the range holding its maximum, with every earlier sample strictly smaller |
| PeakSearch.BestQualified | pybaseline_loop.py:48-51 | none exactly when no sample below the bound qualifies; otherwise a qualifying sample that is the first maximum among the qualifying ones |
| PeakSearch.PlainSearch | pybaseline_loop.py:53-57 | raises exactly on an empty slice; otherwise it returns the potential and signal of the first maximum of `[m, n-m)` |
| PeakSearch.SlopeSearch | pybaseline_loop.py:46-57 | raises exactly when the slice has fewer than two samples; it returns the first maximum among the samples whose slope is below the bound, or sample `m` when none qualifies |
| PeakSearch.GetPeakValue | pybaseline_loop.py:40-57 | the whole search: failure conditions and error kind for both modes; the result lies in the region, voltage and current come from the same index, and the maximum and fallback properties hold |
| PeakSearch.ShortTraceSearchRaises | pybaseline_loop.py:42-44 | with ratio 0.10, a trace of fewer than 10 samples makes either search raise |
| PeakSearch.DuplicatePotentialSlopes | pybaseline_loop.py:47-48 | a repeated potential makes the slopes on both sides of it non-finite, so neither sample qualifies |
| PeakSearch.GradientOfLine | pybaseline_loop.py:47 | on a straight line sampled at increasing potentials, every gradient entry is the line's slope |
| PeakSearch.ThreePointOfLine | pybaseline_loop.py:47 | numpy's non-uniform three-point formula is exact on lines |
| Baseline.ExclusionWeights | pybaseline_loop.py:63-66 | one weight per sample: 0.001 exactly strictly inside the window, 1 exactly outside it |
| Baseline.BuildExclusionWeights | pybaseline_loop.py:62-66 | the window `peak ± ratio·(last − first potential)`; the weight is 0.001 exactly inside the open window and 1 elsewhere |
| Baseline.CalculateSignalBaseLine | pybaseline_loop.py:59-68 | raises exactly on an empty potential array; otherwise it returns the window bounds and the fitter's baseline for those weights and `lambda = factor · n²` |
| Baseline.SuppressedBlockIsContiguous | pybaseline_loop.py:66 | on potentials sorted as `processData` sorts them, the suppressed samples form one block of consecutive indices |
| Baseline.PeakSampleIsSuppressed | pybaseline_loop.py:62-66 | with a positive ratio and an increasing potential range, the sample at the peak voltage is suppressed |
| FileName.StripFinalNewline | pybaseline_loop.py:96 | `$` matches at the end or before one final newline |
| FileName.SplitHead | pybaseline_loop.py:96 | an accepted head is a newline-free prefix followed by `_<2 digits>_SWV_C<2 digits>_loop` |
| FileName.ParseStem | pybaseline_loop.py:96 | an accepted name is exactly the composition of well-formed fields followed by `.txt` |
| FileName.ParseFileName | pybaseline_loop.py:96-101 | an accepted name is the composition of well-formed fields, possibly followed by one newline |
| FileName.ParseCompose | pybaseline_loop.py:96-101 | a composed name, with or without a final newline, is accepted and gives back exactly its variant, channel and loop |
| FileName.ParseRejectsOnlyForeignNames | pybaseline_loop.py:96-99 | a rejected name is not the composition of any well-formed fields |
| Pipeline.SmoothSignal | pybaseline_loop.py:37-38 | smoothing raises exactly when the trace is shorter than the 11-sample window; otherwise the length is kept |
| Pipeline.Subtract | pybaseline_loop.py:107 | `signalSmoothed - baseline`, element by element |
| Pipeline.BoundedSearchSucceeds | pybaseline_loop.py:105-108 | on an 11-sample or longer trace, the search with ratio 0.10 and slope 500 succeeds inside `[n/10, n - n/10)` |
| Pipeline.Correct | pybaseline_loop.py:105-108 | the first peak is the slope-bounded search on the smoothed signal; the baseline is the fit around that peak's voltage; the corrected signal is smoothed minus baseline; the corrected peak is the same search on the corrected signal, and lies in `[n/10, n - n/10)` |
| Pipeline.Analyse | pybaseline_loop.py:103-108 | the analysis raises exactly when fewer than 11 rows have a non-zero current, and only in smoothing; otherwise it is the correction of the smoothed cleaned trace |
| Pipeline.MeasurementRecord | pybaseline_loop.py:118-122 | the record carries the loop label `"loop" + N` of the file name |
| Pipeline.ErrorRecord | pybaseline_loop.py:126 | the record has the single key `error`, whose text names the file and the exception |
| Pipeline.MeasurementRecordShape | pybaseline_loop.py:118-122 | a measurement record has exactly the three distinct keys `loop`, Tension and Courant, with their values, and no error key |
| Pipeline.ErrorRecordShape | pybaseline_loop.py:126 | an error record has the error key alone |
| Pipeline.ProcessSignalFile | pybaseline_loop.py:88-126 | none exactly for a readable file, numeric or textual, with a foreign name; an error record for an unreadable file, for a textual table with a matching name, or for a short trace; otherwise the measurement record of the corrected peak |
| Pipeline.RecordKinds | pybaseline_loop.py:118-126 | every record is either an error record or a measurement record; a measurement record comes from a readable, matching, long-enough file and holds its corrected peak |
| Aggregate.Outcomes | pybaseline_loop.py:191-192 | one outcome per file |
| Aggregate.Kept | pybaseline_loop.py:194-198 | no more records than outcomes, each non-empty and without an `error` key |
| Aggregate.OutcomeAt | pybaseline_loop.py:191-192 | outcome i is the result of processing file i |
| Aggregate.RunAnalysis | pybaseline_loop.py:185-201 | the results are the kept records of all files, in file order |
| Aggregate.KeptConcat | pybaseline_loop.py:191-198 | keeping distributes over concatenation of batches |
| Aggregate.KeptMembers | pybaseline_loop.py:194-198 | a record is kept exactly when some outcome is that record and it is non-empty and not an error record |
| Aggregate.KeptAreMeasurements | pybaseline_loop.py:191-198 | every kept record is the measurement record of one of the files |
| Aggregate.FileIsKeptIff | pybaseline_loop.py:88-198 | a file's record is kept exactly when the file was read as numbers, its name matches and at least 11 rows have a non-zero current |
| Aggregate.KeyLoop | pybaseline_loop.py:215-217 | `key_loop`: a label that does not start with `loop` and a digit gets 99999 |
| Aggregate.KeyLoopOfLabel | pybaseline_loop.py:215-217 | the key of `"loop" + N + rest` is `int(N)` when rest does not start with a digit |
| Aggregate.RecordLoopKey | pybaseline_loop.py:215-217 | a record's loop label sorts by the loop number in its file name |
| Aggregate.SortLoops | pybaseline_loop.py:220 | the labels are sorted by `key_loop` and are a permutation of the input |
| Aggregate.LoopsInNumericOrder | pybaseline_loop.py:220 | in the sorted labels, a smaller loop number comes first |
| Aggregate.ParseColumn | pybaseline_loop.py:224 | an accepted column starts with `C<2 digits> - <2 digits> - ` followed by a measure label |
| Aggregate.ParseColumnName | pybaseline_loop.py:224 | a column name built by `processSignalFile`, followed by anything, is read back into its channel, variant and measure |
| Aggregate.KeyCol | pybaseline_loop.py:223-228 | `key_col`: (999, 999, 999) for a column the pattern rejects; otherwise channel and variant at most 99, and the last field 0 exactly for Tension and otherwise 1 |
| Aggregate.KeyColOfColumnName | pybaseline_loop.py:223-228 | the key of a measurement column is its channel number, its variant number, and 0 for Tension or 1 for Courant |
| Aggregate.SortColumns | pybaseline_loop.py:230 | the columns are sorted by `key_col` and are a permutation of the input |
| Aggregate.TensionBeforeCourant | pybaseline_loop.py:223-230 | in the sorted columns, the Tension column of a channel and variant comes before its Courant column |
| Aggregate.MeasurementsBeforeOthers | pybaseline_loop.py:224-230 | in the sorted columns, every measurement column comes before every unmatched one |
| Aggregate.HeaderTuple | pybaseline_loop.py:236-241 | `("", "", col)` for a column the pattern rejects; otherwise the three levels joined by ` - ` give back the matched prefix of the name |
| Aggregate.HeaderTupleOfColumnName | pybaseline_loop.py:236-239 | the header of a measurement column splits back into channel, variant and measure label |
| Aggregate.HeaderTuples | pybaseline_loop.py:234-241 | one header tuple per column, in order: the regex groups, or `("", "", col)` |

Four behaviours of the code are worth noting:

- **Empty traces.** No stage raises a dedicated "empty trace" error.
  Filtering everything out leaves a trace too short for the smoothing
  window, and that error is what the model reports.
- **Baseline convergence.** No non-convergence warning is raised for the
  baseline fit.
- **Margin of zero.** A margin of 0 empties the search region,
  since `[0:-0]` is `[0:0]`.
- **Unreadable files.** A file is read before its name is checked. An
  unreadable file yields an error record even when its name would not
  match. A table read with a column of text fails only after the name
  check, so it yields no record at all under a foreign name.

## Left out

- Reading the file (`open`, `read_csv`, the separator and the decimal mark)
  is I/O. The model starts from the `Load` it produced.
- Which stage raises on a textual table is not modelled. The model reports
  every such failure as one error kind raised after the name check: the
  negation at line 34 when the Current column is text, and a later step
  when only the Potential column is text.
- `RunAnalysis` processes the files in the order it is given. The
  directory listing `sorted(glob.glob(...*.txt))` at line 182, which
  supplies that order, is outside the model.
- The unreachable `dataFrame is None` branch is not modelled: `readFile`
  never returns `None`.
- `savgol_filter` and `aspls` are parameters. Their numerics are outside
  the model: the polynomial fit, the iterative reweighting, the tolerance
  and the iteration cap.
- IEEE rounding, overflow and NaN inputs are not modelled; values are
  exact reals. The only non-finite values modelled are the infinities and
  NaNs that `np.gradient` produces on a zero spacing, which never pass the
  slope test.
- PeakSearch.GetPeakValue: requires a non-negative margin ratio. A negative
  ratio would reach Python's negative indexing, and no caller passes one.
- PeakSearch.GetPeakValue: requires the signal and the potentials to have
  the same length, as every caller guarantees. It also returns the chosen
  index alongside the (voltage, current) pair.
- Trace.ProcessData: states sorted-by-potential and permutation, but not the
  relative order of rows with equal potentials. pandas' default sort does
  not fix that order.
- Aggregate.SortColumns: does not state the stability of Python's `sorted`
  among columns with equal keys.
- Baseline.BuildExclusionWeights: requires a non-empty trace. The empty
  case raises, as in `CalculateSignalBaseLine`.
- Baseline.BuildExclusionWeights: takes the potentials to be floating-point,
  and so does `Baseline.ExclusionWeights`. When every Potential value is a
  whole number, `read_csv` yields an integer column. `np.ones_like` then
  builds an integer array, and the assignment at line 66 truncates 0.001 to
  0. That truncation is not modelled.
- Exception texts come from the libraries, so the model uses one fixed
  description per error kind instead.
- Digits are ASCII only. Python's `\d` also accepts other Unicode decimal
  digits. It is used in `key_loop` (line 216), in `key_col` (line 224) and
  in the header pattern (line 236).
- Three table steps are not modelled: `groupby('loop').first()`, the
  pandas MultiIndex and `to_excel`. The model covers the orders and the
  header tuples that feed them.
- These parts of the program are not modelled:
  - the console `print`;
  - plotting (`plotSignalAnalysis`);
  - CSV and XLSX export of the cleaned tables;
  - the output-folder preparation;
  - the Tk interface, log box, progress bar and timing;
  - `multiprocessing`.

  They are presentation or I/O, and none of them changes a record. An
  exception raised while plotting or exporting is not modelled.
