# Summary statistics of warmup experiments, modelled in Dafny

This project models `warmup/summary_statistics.py`, the module of the warmup
benchmarking tools that turns per-process-execution changepoint results into
per-benchmark summaries and then into a LaTeX table. It covers three parts:

- **`collect_summary_statistics`**, modelled in `steady_state.dfy` and
  `summarise.dfy`. For each key `bench:vm:variant` of one machine, visited in
  sorted order, it:
  - finds the steady-state segments of every process execution (a tolerance
    band around the last segment mean and a backward walk);
  - derives the steady mean, the steady iteration and the time to reach it;
  - folds the labels into an overall classification and a count table;
  - decides which statistics are null or defaulted;
  - groups the summaries per VM.

  Keys with no executions, or whose first execution is empty, are skipped.
- **`convert_to_latex`**, modelled in `latex_cells.dfy`. Each summary becomes a
  style string:
  - inconsistent classifications get a breakdown of the non-zero counts by
    descending count;
  - consistent ones get the bare symbol, or the symbol with a count.

  It also produces the three statistic cells, which are empty when null, and
  the sorted set of benchmark names.
- **`write_latex_table`**, modelled in `table_layout.dfy`. It covers:
  - the split of the sorted VMs into `num_splits` contiguous column groups,
    padded with `None`;
  - the rows that `zip(*splits)` forms;
  - the cell fallback rules for missing pairs, empty cells and the flat
    check;
  - the row terminator.

Supporting modules:
- `numeric.dfy`: exact sums, `math.ceil` and ceiling division.
- `text.dfy`: `str.split`, `str.join`, `'%d'` and `sorted()` on strings.
- `tally.dfy`: the sum of a count table's values, whatever the dict order.
- `wrappers.dfy`: `Option`.

Conventions of the model:
- Times and means are exact reals. `math.fsum` is the exact sum and
  `math.ceil` is a ceiling on reals.
- `bootstrap_confidence_interval`, `STYLE_SYMBOLS` and `format_median_error`
  are function-valued parameters (`ci`, `symbol`, `format`).
- Python 2 dict iteration order is not fixed. Where it matters (ties among
  equal counts, the order in which VMs are visited), the model leaves the
  choice open with `:|` and states the result relationally.
- The VMs are dealt into contiguous runs of ⌈n / num_splits⌉, split after
  split (lines 202-215; `TableLayout.Layout`); the slots past the last VM
  hold `None`.
- The flat check at line 259 compares the already wrapped style from line
  258, so it never fires for a bare flat symbol. The model keeps that
  behaviour and models the evidently intended check beside it; see
  "Findings".

## Model

| member | source | states |
|---|---|---|
| SteadyState.ToleranceBand | warmup/summary_statistics.py:61-62 | the band contains both the absolute band `last ± delta` and the relative band `last·(1 ± half_bound)`; each bound is one of the two candidates; it contains the last mean when `delta >= 0` |
| SteadyState.WalkBack | warmup/summary_statistics.py:63-69 | the walk from segment i stops at f <= i; every segment in [f, i) lies in the band; segment f-1, if any, lies outside it |
| SteadyState.SteadyStartUnique | warmup/summary_statistics.py:63-69 | any index whose trailing segments lie in the band and whose predecessor does not is the first steady segment: the walk's result is the unique such index |
| SteadyState.FindSteadyState | warmup/summary_statistics.py:58-69 | the imperative walk with `break` returns first_steady_segment equal to the walk's stopping index, and `num_steady_segments >= 1` with `first + num == len(segments)` |
| SteadyState.SteadyRegionInBand | warmup/summary_statistics.py:61-69 | with `delta >= 0`, every steady segment, the last one included, lies in the band |
| SteadyState.AllInBandAllSteady | warmup/summary_statistics.py:63-69 | when all earlier segment means lie in the band, the walk absorbs every segment (first steady segment 0) |
| SteadyState.SteadyMeanInBand | warmup/summary_statistics.py:70-71 | the steady-state mean, an average of in-band segment means, lies in the band when `delta >= 0` |
| SteadyState.SteadyIteration | warmup/summary_statistics.py:76 | the steady iteration is the changepoint before the first steady segment; when every segment was absorbed, index -1 yields the LAST changepoint |
| SteadyState.TimeToSteady | warmup/summary_statistics.py:78-81 | the accumulation loop returns the sum of the first steady_iter wallclock times |
| SteadyState.TimeToSteadyWithinRun | warmup/summary_statistics.py:78-81 | the time before the steady iteration plus the time after it is the whole run; with non-negative times it lies between 0 and the whole |
| SteadyState.Analyse | warmup/summary_statistics.py:58-83 | an execution has no steady iteration exactly when it has no changepoints, and then its time-to-steady is 0.0 and its mean is its single segment mean; a steady iteration never exceeds the iteration count; the mean lies in the band |
| SteadyState.AnalyseExecution | warmup/summary_statistics.py:58-83 | the per-execution loop body computes the analysis `Analyse` specifies |
| SteadyState.ExampleLastSegmentAlone | warmup/summary_statistics.py:58-71 | means [10.0, 10.2, 9.9, 5.0] with half_bound 0.05 and delta 0.1 give the band [4.75, 5.25], a steady region of the last segment alone and mean 5.0 |
| Numeric.Ceil | warmup/summary_statistics.py:107-108 | `math.ceil(x)` is the integer c with x <= c < x + 1 |
| Numeric.CeilOfRatio | warmup/summary_statistics.py:202 | `ceil(n / float(d))` is the integer ceiling division of n by d |
| Numeric.MeanWithin | warmup/summary_statistics.py:70-71 | a mean of values in [lo, hi] lies in [lo, hi] |
| Text.Split | warmup/summary_statistics.py:37 | `key.split(':')` yields at least one part and no part contains the separator |
| Text.JoinSplit | warmup/summary_statistics.py:37 | joining the split parts with the separator gives the key back |
| Text.SplitJoin | warmup/summary_statistics.py:37 | splitting a join of separator-free parts gives the parts back |
| Text.DecimalRoundTrip | warmup/summary_statistics.py:151 | the `'%d'` text of a count denotes that count |
| Text.SortedUnique | warmup/summary_statistics.py:27-28 | two strictly sorted lists with the same elements are equal, so `sorted()` of a set of strings is determined |
| Text.SortedEnumeration | warmup/summary_statistics.py:27-28 | `sorted(keys)` is strictly ascending in Python's string order and has exactly the keys as elements, each once |
| Text.SortStrings | warmup/summary_statistics.py:27-28 | the sorting method returns exactly `SortedEnumeration` of its input |
| Tally.TotalRemove | warmup/summary_statistics.py:163 | the sum of a count table's values does not depend on the order in which entries are taken |
| Tally.SumValues | warmup/summary_statistics.py:163 | `sum(dict.values())`, visiting entries in any order, returns the table's total |
| Summarise.SingleLabel | warmup/summary_statistics.py:86 | `len(set(categories)) == 1` exactly when all labels equal the first |
| Summarise.FlatWarmupPair | warmup/summary_statistics.py:88 | when the labels disagree, `set(categories) == {flat, warmup}` exactly when every label is flat or warmup |
| Summarise.Classify | warmup/summary_statistics.py:85-91 | all labels agree: that label; they disagree and all are flat or warmup: "good inconsistent"; they disagree and one is something else: "bad inconsistent" |
| Summarise.CountTableTotal | warmup/summary_statistics.py:92-97 | the count table's values sum to the number of process executions |
| Summarise.CountTableEntries | warmup/summary_statistics.py:92-97 | flat, warmup, slowdown and no steady state are always keys; every value is the number of executions with that label; the no-steady-state count is positive exactly when that label occurs |
| Summarise.CountCategories | warmup/summary_statistics.py:92-97 | the two loops (copy the Counter, then add the missing standard labels with 0) build exactly `CountTable(categories)` |
| Summarise.SteadyStatistics | warmup/summary_statistics.py:99-112 | a no-steady-state count > 0 voids all statistics (steady time is None exactly then); otherwise the steady time is `ci(means)`; with no steady iterations the iteration pair is (0, 0) and time-to-steady None; otherwise both iteration values are the ceilings of the interval's bounds and time-to-steady is `ci(times)` |
| Summarise.ExecutionsOf | warmup/summary_statistics.py:45-52 | one process execution per wallclock entry of the key |
| Summarise.ItersAndTimes | warmup/summary_statistics.py:73-83 | time_to_steadys has one entry per execution; steady_iters has at most as many, as many exactly when every execution has changepoints, and none exactly when no execution has |
| Summarise.SummaryCounts | warmup/summary_statistics.py:85-117 | a summary's detailed classification totals the execution count and holds the four standard labels; its classification is `Classify` of the labels |
| Summarise.NoSteadyStateLabel | warmup/summary_statistics.py:52 | the categories list that line 52 builds contains "no steady state" exactly when some process execution was classified so; this is the condition that line 99 tests through the count |
| Summarise.SummaryNoSteadyState | warmup/summary_statistics.py:99-104 | one non-converging execution makes the steady time None, and only then; it also voids the iteration and time-to-steady statistics |
| Summarise.ItersEmpty | warmup/summary_statistics.py:105 | steady_iters is empty exactly when no execution has a changepoint |
| Summarise.SummaryNoChangepoints | warmup/summary_statistics.py:110-112 | when every execution converges without changepoints, the iteration statistic is (0, 0), time-to-steady None and steady time present |
| Summarise.AnalyseExecutions | warmup/summary_statistics.py:48-83 | the per-execution loop fills categories, steady_state_means, steady_iters and time_to_steadys with exactly the labels and the analyses' means, present iterations and times, in execution order |
| Summarise.ExecutionDetails | warmup/summary_statistics.py:124-129 | record i carries index i, categories[i] and execution i's outliers, changepoints and segment means |
| Summarise.SummariseExecutions | warmup/summary_statistics.py:37-129 | the body for one summarised key builds exactly the summary `SummaryOf` specifies |
| Summarise.KeysOfVm | warmup/summary_statistics.py:37-39 | the keys grouped under a VM are summarised keys among those visited, all naming that VM |
| Summarise.CorpusGroupsByVm | warmup/summary_statistics.py:38-39 | a VM has a list exactly when some summarised key names it, and the list holds those keys' summaries in visiting order |
| Summarise.KeysOfVmSorted | warmup/summary_statistics.py:27-28 | each VM's keys are visited in strictly ascending order |
| Summarise.VisitKey | warmup/summary_statistics.py:29-130 | the loop body skips a key with no executions or an empty first execution, and otherwise appends the key's summary to its VM's list, creating it if needed |
| Summarise.CollectSummaryStatistics | warmup/summary_statistics.py:19-131 | for the single machine, summary_data has that machine as its only key, and its value is `Corpus`: the fold of the function `Visit` over the keys in sorted order. The loop body `VisitKey` is proved to compute `Visit` |
| LatexCells.SortByCountDescending | warmup/summary_statistics.py:145-146 | the items come out each label once, with its count, covering the table, in non-increasing count order |
| LatexCells.NonZeroMembers | warmup/summary_statistics.py:148-150 | an entry survives the `== 0: continue` filter exactly when its count is non-zero |
| LatexCells.NonZeroDescending | warmup/summary_statistics.py:148-150 | filtering out zero counts keeps the entries distinct and in non-increasing order |
| LatexCells.NonZeroBreakdown | warmup/summary_statistics.py:145-151 | the breakdown lists every label with a non-zero count exactly once, with its count, in non-increasing order, and no zero count |
| LatexCells.Breakdown | warmup/summary_statistics.py:147-151 | the loop builds one `$count$symbol` part per non-zero entry, in order |
| LatexCells.StyleOf | warmup/summary_statistics.py:143-170 | an inconsistent classification gets its symbol and the breakdown of a by-count ordering; a consistent one gets the bare symbol when its count equals the total, otherwise the symbol with its count |
| LatexCells.ConsistentHasNoErrors | warmup/summary_statistics.py:163-170 | for a collected summary that is not inconsistent, the classification's count equals the total, so its style is exactly the bare symbol |
| LatexCells.CollectedStyleDefined | warmup/summary_statistics.py:164 | every collected summary has its classification in the count table or is inconsistent, so line 164 raises no KeyError |
| LatexCells.CorpusStyleDefined | warmup/summary_statistics.py:28-130 | every summary that collect_summary_statistics files under any VM has a defined style, so convert_to_latex on collected data never raises at line 164 |
| LatexCells.StatisticCells | warmup/summary_statistics.py:171-187 | all three cells are empty, and the steady time None, exactly when some execution did not converge; with no changepoints anywhere the time-to-steady cell is empty and the iteration cell formats (0, 0) |
| LatexCells.LastWith | warmup/summary_statistics.py:188 | finds the last summary with a given benchmark name, or reports that there is none |
| LatexCells.VmTableSnoc | warmup/summary_statistics.py:188 | writing one more entry keeps each name mapped to the entry of its last summary |
| LatexCells.ConvertVm | warmup/summary_statistics.py:139-190 | one VM's table has an entry per benchmark name, made from the last summary of that name; the names are those of the list |
| LatexCells.ConvertMachine | warmup/summary_statistics.py:137-191 | every VM gets its table, and benchmark_names is the sorted set of all names |
| LatexCells.ConvertToLatex | warmup/summary_statistics.py:134-191 | returns the machine, the sorted benchmark names of all its VMs and a table for every VM |
| TableLayout.RoundedPerSplit | warmup/summary_statistics.py:202-203 | rounding the VM count up to a multiple of num_splits and dividing back gives ceil(n / num_splits) |
| TableLayout.SlotAdvance | warmup/summary_statistics.py:211-215 | `vm_num % vms_per_split == 0` fires exactly when a split has just been filled, and the next split exists exactly while slots remain |
| TableLayout.DealStep | warmup/summary_statistics.py:212 | appending the current slot to the current split keeps earlier splits full and later ones empty |
| TableLayout.SplitLayout | warmup/summary_statistics.py:202-215 | vms_per_split is ceil(n / num_splits), and the splits are the contiguous layout padded with None |
| TableLayout.Deal | warmup/summary_statistics.py:204-215 | the dealing loop produces exactly `Layout`: split i holds slots i·k to (i+1)·k − 1 |
| TableLayout.ExampleSevenVmsTwoSplits | warmup/summary_statistics.py:202-215 | seven VMs in two splits give two splits of four, the second ending in padding |
| TableLayout.SlotInjective | warmup/summary_statistics.py:207-215 | for offsets below k, the position i·k + j determines both the split i and the offset j. Together with `Layout` and `LayoutShape`, which put position i·k + j at slot j of split i, this means no two slots receive the same position of the padded VM list |
| TableLayout.LayoutShape | warmup/summary_statistics.py:204-215 | there are num_splits splits of k slots each; a slot is None exactly past the end of the VM list; the padded list covers every VM |
| TableLayout.LayoutPlacesEachVm | warmup/summary_statistics.py:207-212 | VM v is in split v div k at offset v mod k |
| TableLayout.LayoutNoDuplicates | warmup/summary_statistics.py:207-212 | with distinct VMs, no VM is in two slots |
| TableLayout.VmSplits | warmup/summary_statistics.py:198-215 | the summary's VMs, sorted, are dealt into the contiguous layout |
| TableLayout.EveryVmPlaced | warmup/summary_statistics.py:198-215 | every VM of the summary is in some slot |
| TableLayout.OnlySummaryVms | warmup/summary_statistics.py:198-215 | every filled slot holds a VM of the summary |
| TableLayout.NoVmTwice | warmup/summary_statistics.py:198-215 | no VM of the summary is in two slots |
| TableLayout.MinLength | warmup/summary_statistics.py:238 | the length zip stops at is the length of the shortest split |
| TableLayout.ZipTransposes | warmup/summary_statistics.py:238 | `zip(*lists)` has as many rows as the shortest list, each with one entry per list, and entry i of row j is entry j of list i |
| TableLayout.LayoutRows | warmup/summary_statistics.py:238 | `zip(*splits)` has k rows; row j holds slot i·k + j of every split i |
| TableLayout.FillCells | warmup/summary_statistics.py:244-267 | a missing pair gives an empty classification and three blank cells; a present one gives the wrapped style; no statistic cell is left empty |
| TableLayout.RowCellsPerVm | warmup/summary_statistics.py:241-243 | padding slots give no cells; a row without padding gets one group of cells per VM, in column order |
| TableLayout.RowCells | warmup/summary_statistics.py:241-267 | the loop over a row's VMs skips None and fills cells for the rest, in order |
| TableLayout.FlatCheckMissesFlat | warmup/summary_statistics.py:257-260 | as written, a benchmark whose style is the flat symbol keeps its iteration and time-to-steady cells |
| TableLayout.FlatCheckMissesFlatExample | warmup/summary_statistics.py:257-260 | a flat benchmark with iteration cell "3" shows "3" |
| TableLayout.FlatCellsBlanked | warmup/summary_statistics.py:257-260 | with the check on the unwrapped style, a flat benchmark's iteration and time-to-steady cells are blank; a missing pair, or a style that neither is nor wraps to the flat symbol, gets the cells the code as written gives |
| TableLayout.RowTerminatorAgreement | warmup/summary_statistics.py:287-291 | over a block of at least two benchmark rows, the test as written gives every row the intended terminator exactly when the number of VMs equals the number of benchmarks |
| TableLayout.RowTerminatorMismatch | warmup/summary_statistics.py:286-290 | as written, with 5 VMs the second and last of 2 benchmark rows ends tight, and with 2 VMs the second of 5 rows ends plainly |
| TableLayout.IntendedPlainOnlyAtBlockEnd | warmup/summary_statistics.py:286-290 | comparing with the benchmark count, exactly the last row of a block ends plainly |

## Left out

- File output in `write_latex_table` (lines 217-237, 268-299) is not modelled: the `open`/`fp.write` calls, the header constants and the preamble. So is the text assembly of each row: the `fudge` and `\multirow` VM cell, `escape(bench)`, `'&'.join(row)`, the midrule between row groups, and the stray `vm_idx += 1`. This is I/O and text templating. The cells of a row (`RowCells`) and the row terminator test (`RowTerminator`) are modelled.
- The warning `print`s (lines 31-35) are not modelled, as they are output only. The skip itself is modelled.
- `bootstrap_confidence_interval`, `STYLE_SYMBOLS` and `format_median_error` are not part of this model; they become the parameters `ci`, `symbol` and `format`. A label with no symbol (a KeyError in `STYLE_SYMBOLS`) therefore cannot arise. `escape` appears only in the row text, which is left out.
- `bootstrap_confidence_interval` resamples at random. The model passes it as one fixed function `ci`, so in the model two equal sample lists always get equal intervals, which the program does not promise. The statements about `ci`'s results (`Summarise.SteadyStatistics`) hold for whatever interval the call returns.
- Floating-point rounding of `fsum`, `/ float(...)`, `+=` and `math.ceil` is not modelled: all arithmetic is exact, and the model does not capture rounding effects.
- Inputs on which the source raises are excluded by preconditions rather than modelled as errors:
  - a key that does not split into three fields (the ValueError at line 37);
  - a key missing from one of the other four dicts (KeyError at lines 49-52), or a list there shorter than the key's wallclock list (IndexError at lines 49-52);
  - a steady iteration beyond the wallclock list (IndexError at line 80);
  - `len(data_dictionaries) != 1` (the assert at line 23) and `len(summary_data) != 1` (line 135);
  - `num_splits == 0` (ZeroDivisionError at line 202).
- The model also assumes an invariant of the changepoint analysis's output that the source never checks: each process execution has exactly one more segment mean than changepoints (`SteadyState.ExecutionWellFormed`). Inputs that break it are not modelled. Some of them raise. No segment means at all raises at line 60. Too few changepoints raises at line 76, but only when the walk stops past the last changepoint: with means [5.0, 9.0, 5.0] and changepoints [3], line 76 reads changepoint index 1. Otherwise such inputs run on silently. With means [5.0, 5.0, 5.0] and changepoints [3], the walk absorbs every segment and line 76 reads changepoint 3. With means [5.0] and changepoints [3, 7], line 76 reads changepoint 7.
- Changepoints are natural numbers in the model, so `xrange` over a negative steady iteration (lines 79-80) does not arise.
- Python 2 dict iteration order is not modelled concretely, because it is not fixed by the language. The order of ties in the by-count sort (lines 145-146) and the order of VMs in `convert_to_latex` (line 139) are therefore chosen nondeterministically. The contracts hold for every choice.
- `sorted(keys)` at line 28 re-sorts an already sorted list. The model sorts once, because sorting is idempotent on a strictly sorted list of distinct keys (`Text.SortedUnique`).
- `sorted(all_benchs)` at line 240 and the `num_benchmarks` used by the row text are part of the row text assembly and are not modelled.
- The two inconsistent branches of `convert_to_latex` (lines 143-152 and 153-162) differ only in the label, and are modelled as one branch of `StyleOf` that uses the summary's own label.

## Findings

| source | as written | input that shows it | evidently intended | confidence | as-written member | corrected member |
|---|---|---|---|---|---|---|
| warmup/summary_statistics.py:257-260 | the flat check compares `\multicolumn{1}{l}{style}`, the style after wrapping, with the flat symbol. The wrapped text is 20 characters longer than the style, so it never equals a bare flat symbol, and flat benchmarks keep their iteration and time-to-steady cells | a summary whose style is the flat symbol "F" and whose iteration cell is "3": the iteration cell shows "3" | compare the style before wrapping it, so flat benchmarks get blank iteration and time-to-steady cells | not executed | TableLayout.FlatCheckMissesFlat | TableLayout.FlatCellsBlanked |
| warmup/summary_statistics.py:288 | the tight row terminator `\\[-3pt]` is chosen while `bench_idx < num_vms - 1`, a comparison with the number of VMs and not the number of benchmark rows in the block | 2 benchmarks and 5 VMs: the last row of a block, which sits above a midrule, ends tight. 5 benchmarks and 2 VMs: the second row ends plainly in mid-block | compare with the number of benchmarks, so only the last row of each block ends plainly | not executed | TableLayout.RowTerminatorMismatch | TableLayout.IntendedPlainOnlyAtBlockEnd |
