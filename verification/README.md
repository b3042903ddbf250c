# CLASS spectrum scripts: a Dafny model

This project models the data-handling core of four Python scripts that process
Chandrayaan-2 CLASS X-ray spectrometer products:

- **Label statistics** (`scripts/xml_parsing.py`). The coordinate and time fields
  extracted from PDS4 XML labels are converted to numbers. The script then
  computes each parameter's observed range and summary statistics, and builds a
  ten-bin histogram per parameter over that range. The result is assembled into
  an export tree. Modules `TextNumber`, `XmlStats`, `Histogram`, `StatsExport`.
- **96-second grouping** (`scripts/imp_grouping_csv_imp_sat_alt_sol_ang_phase_ang.py`).
  FITS files are sorted by the start time parsed from their names. They are
  grouped greedily: a group holds at most twelve files, all starting within 96
  seconds of its first file. Each group becomes one row holding:
  - the group's per-channel count totals, in first-seen channel order;
  - the latitude/longitude box of its footprint corners;
  - the channels re-indexed from 0, with 0.0135 keV per channel;
  - four header averages.

  Modules `Grouping`, `ChannelCounts`, `FootprintBox`, `GroupSummary`.
- **Time-window summation** (`scripts/class2.py`). Two stamps are cut from each L1
  file name and converted to ISO layout. The COUNTS columns of the files whose
  stamps fall inside a UTC window are summed into one 2048-channel spectrum. The
  output name and exposure come from the window. Module `WindowSum`.
- **Channel window** (`scripts/plot_fits.py`). The spectrum is kept where the
  channel lies in the inclusive band 37..800. A background's counts at the same
  rows are subtracted. Module `ChannelWindow`.

Shared pieces:
- `Wrappers`: `Option` and `Result`.
- `Dict`: Python's insertion-ordered dictionaries as association lists.
- `Reals`: sums, minima, maxima and means of real sequences.

File reading, directory listing and the library time parser are not modelled.
Their results are inputs:
- parsed labels, as `Option<RawParams>`;
- FITS files, as `FitsFile` and `L1File` values;
- `secs: string -> Option<int>` for `utc_to_seconds`, where None stands for a
  `strptime` failure.

Numbers are exact reals. Time stamps are integers: microseconds in the grouping
script, seconds in the window summation.

Behaviours of the scripts worth knowing, all of which the model follows:
- **Uncaught errors stop the whole run.** Two cases:
  - A whitespace-only field text raises an `IndexError` that the conversion loop
    does not catch.
  - A missing corner card makes `float(None)` raise.

  Neither is a per-file error that the batch recovers from.
- **Batches with no files are not errors.** An empty batch gives no groups, and a
  window that selects nothing gives an all-zero spectrum.
- **No exposure normalisation in plotting.** The plotting script subtracts raw
  counts.
- **Equal values break the histogram.** Any parameter whose values are all equal
  makes `assign_to_batch` divide by a zero bin width.

## Model

| member | source | states |
|---|---|---|
| TextNumber.FirstToken | scripts/xml_parsing.py:54 | `split()[0]` is absent exactly when the text is all whitespace (the uncaught IndexError); otherwise it is a non-empty token without whitespace |
| TextNumber.FirstTokenOf | scripts/xml_parsing.py:54 | leading whitespace, a token, then the end or whitespace: the first token is exactly that token |
| TextNumber.ParseNatText | scripts/xml_parsing.py:55 | `float(str(n))` gives back `n` |
| TextNumber.ParseNegatedNatText | scripts/xml_parsing.py:55 | `float("-" + str(n))` gives back `-n` |
| XmlStats.ConvertField | scripts/xml_parsing.py:51-60 | a field fails exactly on blank text; otherwise None stays None and text becomes the number of its first token (None when that is not a number) |
| XmlStats.ConvertParams | scripts/xml_parsing.py:50-62 | conversion keeps exactly the same keys in order and converts every value; it fails exactly when some text is blank, naming the first such field |
| XmlStats.ParseBatch | scripts/xml_parsing.py:50-62 | the batch parses exactly when every label does, and then label by label |
| XmlStats.ObsMember | scripts/xml_parsing.py:73-77 | a (parameter, value) pair is observed exactly when some parsed label holds that field with that number |
| XmlStats.ObserveSummarizes | scripts/xml_parsing.py:74-77 | one more value keeps the ranges the exact minimum and maximum per observed parameter, creating the entry on first use |
| XmlStats.ParameterRanges | scripts/xml_parsing.py:64-81 | one range per parameter with a numeric value and no other; min <= max, both observed values, bounding every value |
| XmlStats.CollectEntriesSpec | scripts/xml_parsing.py:139-143 | appending one label's values gives each parameter its old list followed by that label's values for it, and creates no empty list |
| XmlStats.ParamValues | scripts/xml_parsing.py:128-143 | each parameter's list is all its numeric values in batch order; parameters without values get no list |
| XmlStats.AggregateParameters | scripts/xml_parsing.py:129-154 | total is the number of labels, processed counts labels with a non-empty result, and processed plus errors is the total |
| XmlStats.SummarizeSpec | scripts/xml_parsing.py:156-164 | count is the length; min and max are members bounding every value; the average lies between them; range is max - min >= 0 |
| XmlStats.StatisticsOf | scripts/xml_parsing.py:156-166 | a parameter is reported exactly when it has numeric values, with the statistics of all of them |
| XmlStats.StatisticsMatchRanges | scripts/xml_parsing.py:64-81 | the histogram's range for a parameter is the minimum and maximum of its values as the statistics report them |
| Histogram.InitialCounts | scripts/xml_parsing.py:83-100 | every parameter with a range gets ten zero counters, in the ranges' order, and no other parameter gets any |
| Histogram.BinIndex | scripts/xml_parsing.py:106-111 | for min <= v <= max with min < max, the index is in 0..9 and v lies in that bin's [start, end]; v = max lands in bin 9 through the clamp |
| Histogram.BinIndexUnique | scripts/xml_parsing.py:108-111 | a value in [start, end) of bin j, or the top of the range for bin 9, is assigned bin j |
| Histogram.BinWithinRange | scripts/xml_parsing.py:90-95 | every bin lies within the range |
| Histogram.BinsOrdered | scripts/xml_parsing.py:90-95 | earlier bins end before later ones start |
| Histogram.IncrementSpec | scripts/xml_parsing.py:114 | a `+= 1` raises exactly one counter of one parameter by 1 and leaves everything else unchanged |
| Histogram.IncrementOthers | scripts/xml_parsing.py:114 | the counters of every other parameter are unchanged |
| Histogram.AssignToBatch | scripts/xml_parsing.py:102-124 | unknown parameter: KeyError; zero width with an in-range value: ZeroDivisionError; out-of-range values go to Underflow/Overflow, created at 0; success bumps exactly the target counter |
| Histogram.AssignEntriesSpec | scripts/xml_parsing.py:187-191 | one label's values fail exactly on a zero-width parameter; otherwise each of its numeric fields is counted in the bin its value falls in, every other counter unchanged |
| Histogram.AssignFilesSpec | scripts/xml_parsing.py:181-191 | from fresh counters, the batch fails exactly when some value belongs to a zero-width parameter; otherwise bin j of each parameter counts exactly those of its values whose bin index is j, all its values in all |
| Histogram.BatchCounterFails | scripts/xml_parsing.py:170-193 | the histogram fails exactly when some parameter's values are all equal |
| Histogram.BatchCounterSpec | scripts/xml_parsing.py:170-193 | on success every parameter keeps just its ten non-negative bins, bin j counting exactly its values whose bin index is j, and their total is the number of its values; total and processed counts match the batch |
| StatsExport.ParamNodes | scripts/xml_parsing.py:228-237 | a parameter element is written exactly for each parameter with statistics |
| StatsExport.BatchNodes | scripts/xml_parsing.py:250-255 | batch elements are exactly the counters with a positive count |
| StatsExport.BatchNodesSum | scripts/xml_parsing.py:245-255 | leaving out empty counters loses nothing: the listed counts add up to `total_counted` |
| StatsExport.ExportStats | scripts/xml_parsing.py:218-255 | the tree carries the file summary; a parameter element exactly for each parameter with statistics; per counted parameter, in order, its name, the sum of its counters as total, and exactly its positive counters as batches, adding up to that total when no counter is negative |
| StatsExport.DistributionTotals | scripts/xml_parsing.py:240-255 | each distribution's total is the sum of its counters, and its listed positive batches add up to it |
| StatsExport.AnalyzeAndExportParseFails | scripts/xml_parsing.py:269-287 | the run stops at parsing exactly when some label has a blank field text |
| StatsExport.ExportBatchFails | scripts/xml_parsing.py:277-287 | after parsing, the export fails exactly when some parameter's values are all equal |
| StatsExport.ExportSummary | scripts/xml_parsing.py:281-284 | the summary counts every label once, as processed or as an error |
| StatsExport.ExportParameters | scripts/xml_parsing.py:226-237 | exported parameters are exactly those with numeric values, with their statistics |
| StatsExport.ExportDistributions | scripts/xml_parsing.py:239-255 | one distribution per parameter with a range, in order, each totalling that parameter's number of values |
| StatsExport.ExportedParameters | scripts/xml_parsing.py:226-237 | parameter nodes are exactly the parameters with a numeric value, each with the statistics of those values |
| Grouping.FloorDiv | scripts/imp_grouping_csv_imp_sat_alt_sol_ang_phase_ang.py:36 | Python's `//` rounds toward negative infinity for either sign of divisor |
| Grouping.IntervalStart | scripts/imp_grouping_csv_imp_sat_alt_sol_ang_phase_ang.py:33-37 | the interval start is a multiple of the interval at or before the time, less than one interval away |
| Grouping.IntervalStartIdempotent | scripts/imp_grouping_csv_imp_sat_alt_sol_ang_phase_ang.py:33-37 | an interval start is its own interval start |
| Grouping.SplitJoin | scripts/imp_grouping_csv_imp_sat_alt_sol_ang_phase_ang.py:28 | joining the pieces of `split('_')` gives the name back |
| Grouping.StampField | scripts/imp_grouping_csv_imp_sat_alt_sol_ang_phase_ang.py:26-31 | the second-to-last piece holds no `_`, and is absent (IndexError) exactly when the name has no `_` |
| Grouping.StampFieldOf | scripts/imp_grouping_csv_imp_sat_alt_sol_ang_phase_ang.py:26-31 | a name `<anything>_<stamp>_<rest>` yields its stamp |
| Grouping.SortByStart | scripts/imp_grouping_csv_imp_sat_alt_sol_ang_phase_ang.py:52-53 | the result is ordered by start time and a permutation of the files |
| Grouping.GroupFiles | scripts/imp_grouping_csv_imp_sat_alt_sol_ang_phase_ang.py:61-135 | the loop's state machine, final group included, equals the recursive greedy reference grouping |
| Grouping.FitCountSpec | scripts/imp_grouping_csv_imp_sat_alt_sol_ang_phase_ang.py:70 | the files before the count fit the window, and the one at the count, if any, is the thirteenth or starts later |
| Grouping.FeedGreedy | scripts/imp_grouping_csv_imp_sat_alt_sol_ang_phase_ang.py:61-135 | from any reachable state, the loop ends with the emitted groups followed by the greedy groups of the rest |
| Grouping.GroupsPartition | scripts/imp_grouping_csv_imp_sat_alt_sol_ang_phase_ang.py:61-135 | concatenating the groups gives the files back in order, and there are no groups exactly when there are no files |
| Grouping.GroupsWellFormed | scripts/imp_grouping_csv_imp_sat_alt_sol_ang_phase_ang.py:66-72 | every group has 1 to 12 files, starts at its first file, ends 96 s later, and every member starts by the end |
| Grouping.GroupsGreedy | scripts/imp_grouping_csv_imp_sat_alt_sol_ang_phase_ang.py:70-73 | a group is closed only when it is full or the next file starts after its end |
| Grouping.SortedGroups | scripts/imp_grouping_csv_imp_sat_alt_sol_ang_phase_ang.py:52-53 | the groups in order hold every file once, by non-decreasing start |
| ChannelCounts.AddCountSame | scripts/imp_grouping_csv_imp_sat_alt_sol_ang_phase_ang.py:90 | after `+=` the channel holds its old total (0.0 if new) plus the count |
| ChannelCounts.AddCountOther | scripts/imp_grouping_csv_imp_sat_alt_sol_ang_phase_ang.py:90 | a `+=` leaves every other channel unchanged |
| ChannelCounts.AddCountKeys | scripts/imp_grouping_csv_imp_sat_alt_sol_ang_phase_ang.py:90 | a new channel is appended at the end; otherwise the key order is kept |
| ChannelCounts.AddPairsTrack | scripts/imp_grouping_csv_imp_sat_alt_sol_ang_phase_ang.py:89-90 | the dictionary's entry for a channel after a file's pairs is that channel's entry followed alone |
| ChannelCounts.TrackFilesSpec | scripts/imp_grouping_csv_imp_sat_alt_sol_ang_phase_ang.py:83-90 | the entry exists once it did or some file has the channel, and then it grew by all its counts |
| ChannelCounts.ChannelTotalsSpec | scripts/imp_grouping_csv_imp_sat_alt_sol_ang_phase_ang.py:81-90 | the totals hold each channel some file has a count for, once, with the sum of its counts over the group, and no other channel |
| ChannelCounts.HasChannelSpec | scripts/imp_grouping_csv_imp_sat_alt_sol_ang_phase_ang.py:83-90 | a group has a channel exactly when one of its files does |
| ChannelCounts.ChannelSumAppend | scripts/imp_grouping_csv_imp_sat_alt_sol_ang_phase_ang.py:83-90 | per-channel sums split over consecutive runs of files |
| ChannelCounts.ChannelTotalsOrderFree | scripts/imp_grouping_csv_imp_sat_alt_sol_ang_phase_ang.py:81-90 | each channel's total is the same for any permutation of the group's files |
| FootprintBox.Corners | scripts/imp_grouping_csv_imp_sat_alt_sol_ang_phase_ang.py:93-108 | reading corners succeeds exactly when every card is present, gives their values in order, and otherwise names the file and a missing card |
| FootprintBox.BoxFromFails | scripts/imp_grouping_csv_imp_sat_alt_sol_ang_phase_ang.py:92-108 | the box fails exactly when some file with data lacks a corner card |
| FootprintBox.AllCornersLength | scripts/imp_grouping_csv_imp_sat_alt_sol_ang_phase_ang.py:93-104 | both corner lists have four values per file with data, and are empty exactly when no file has data |
| FootprintBox.BoxFromValue | scripts/imp_grouping_csv_imp_sat_alt_sol_ang_phase_ang.py:105-108 | the running box widened file by file equals the box widened once by all corner values |
| FootprintBox.BoxFails | scripts/imp_grouping_csv_imp_sat_alt_sol_ang_phase_ang.py:92-108 | a group's box fails exactly when some file with data lacks a corner card |
| FootprintBox.BoxSpec | scripts/imp_grouping_csv_imp_sat_alt_sol_ang_phase_ang.py:105-108 | the box is the least and greatest corner values over the files with data, and is empty exactly when no file has data |
| FootprintBox.BoxContains | scripts/imp_grouping_csv_imp_sat_alt_sol_ang_phase_ang.py:105-108 | every corner of every file with data lies inside the box |
| GroupSummary.PresentValuesSpec | scripts/imp_grouping_csv_imp_sat_alt_sol_ang_phase_ang.py:41-47 | the collected values are exactly the group's values for the card; none exactly when no file has it |
| GroupSummary.AverageOf | scripts/imp_grouping_csv_imp_sat_alt_sol_ang_phase_ang.py:39-50 | None exactly when no file has the card; otherwise the mean of the values present (their sum over their number), which lies between the least and greatest of them |
| GroupSummary.RowLists | scripts/imp_grouping_csv_imp_sat_alt_sol_ang_phase_ang.py:110-115 | totals, indices and energies have one entry per distinct channel; indices run 0, 1, 2, …; energies are 0.0135 keV per index; each total is its channel's sum |
| GroupSummary.RowsSpec | scripts/imp_grouping_csv_imp_sat_alt_sol_ang_phase_ang.py:117-124 | rows are written for all groups exactly when every group's row can be built, and row i is group i's |
| GroupSummary.ReportRows | scripts/imp_grouping_csv_imp_sat_alt_sol_ang_phase_ang.py:61-135 | one row per group of the sorted files, each spanning 96 s from its group's first file |
| WindowSum.Slice | scripts/class2.py:55-56 | Python slicing with both ends clamped: the plain slice when in bounds, never longer than the bounds allow |
| WindowSum.ConvertLayout | scripts/class2.py:7-9 | an 18-character stamp becomes 23 characters with `-`, `-`, `T`, `:`, `:`, `.` in place, every other character copied from a fixed position other than 8 |
| WindowSum.ConvertRoundTrip | scripts/class2.py:7-9 | deleting the separators gives the stamp back with `T` at index 8 |
| WindowSum.ConvertInverse | scripts/class2.py:7-9 | an ISO string with its separators in place is the conversion of its separator-free form |
| WindowSum.StampsOfName | scripts/class2.py:55-59 | a name of at least 48 characters yields the stamps at 11..28 and 30..47, each converted to the 23-character layout |
| WindowSum.ReplaceColons | scripts/class2.py:76-77 | same length, colons become dashes, every other character kept |
| WindowSum.OutputNameSpec | scripts/class2.py:75-78 | the output name has no colon, starts `added_`, ends `.fits`, and keeps the window strings' other characters in place |
| WindowSum.AddCountsSpec | scripts/class2.py:64 | `+=` succeeds exactly for a column of the sum's length or of length 1, and adds it channel by channel (one value to every channel) |
| WindowSum.SumFromOk | scripts/class2.py:53-65 | the loop fails exactly when some stamp does not parse or a selected column cannot be added |
| WindowSum.SumFromValue | scripts/class2.py:53-65 | each channel of the sum is the start value plus that channel over the files inside the window |
| WindowSum.SumFromNames | scripts/class2.py:52-65 | the selected names are those of the files inside the window, in file order |
| WindowSum.SumFromZero | scripts/class2.py:50-65 | from 2048 zeros: succeeds exactly when summable, and each channel is the window total |
| WindowSum.AddL1FilesTimeSpec | scripts/class2.py:39-89 | succeeds exactly when both window times parse and the files are summable; 2048 channels numbered from 0, each the window total; exposure end - start from the window alone; the cleaned output name |
| WindowSum.NothingPicked | scripts/class2.py:50-65 | with no file inside the window, every channel is 0 and nothing is selected |
| ChannelWindow.PositionsKept | scripts/plot_fits.py:29-31 | every kept position is a row the mask keeps |
| ChannelWindow.PositionsIncrease | scripts/plot_fits.py:29-31 | the kept positions strictly increase |
| ChannelWindow.PositionsComplete | scripts/plot_fits.py:29-31 | every row the mask keeps is a kept position |
| ChannelWindow.PickAt | scripts/plot_fits.py:30-31 | entry j of a masked array is the array's entry at the j-th kept position |
| ChannelWindow.KeptRows | scripts/plot_fits.py:29-31 | the kept rows are exactly the rows with channel in [37, 800], each once, in original order |
| ChannelWindow.WindowedSpec | scripts/plot_fits.py:15-35 | fails exactly when a background of another length is given; otherwise channel and count pairs stay together, channels lie in [37, 800], and counts are original minus the background at the same original row |
| ChannelWindow.ZeroBackground | scripts/plot_fits.py:35 | an all-zero background gives the same result as none |
| ChannelWindow.NoBackground | scripts/plot_fits.py:33-35 | without a background the plotted counts are the kept rows' own counts |

## Left out

- Reading XML labels with ElementTree is left out: each label arrives as its extracted fields, or None when it cannot be read.
- Reading FITS files with astropy, directory listing and glob order are left out. Files arrive as values, in the order given.
- CSV, XML and FITS writing, `os.makedirs`, and the exact text of the CSV rows and XML elements are left out.
- The printed messages and all module-level script execution with hard-coded paths are left out.
- `datetime.strptime`, `.timestamp()` and `strftime` are left out:
  - the grouping model takes each file's parsed start time, in microseconds;
  - `WindowSum` takes `utc_to_seconds` as the parameter `secs`.
- Rounding and string formatting are left out:
  - `round(…, 3)` of the averages;
  - `:.3f` in bin names, and `:.6f` and `str()` in the export.

  Bins are identified by index and counters by `BinKey`.
- Floating-point arithmetic is left out: all values are exact reals.
- The DATE card is left out, because it reads the clock.
- The constant TELESCOP, INSTRUME and PROGRAM cards are left out.
- The placeholder SPICE values written with the summed spectrum are left out. They are fixed constants with no behaviour.
- The summed file's `input_filename` is left out. It is computed, but `write_summed_fits` never uses it. The model returns the selected names instead.
- matplotlib plotting is left out.
- A grouping run that fails part-way has already written the rows of earlier groups. The model returns only the error.
- An empty footprint box is modelled as None. The script writes `inf`/`-inf` there.
- `Grouping.SortByStart`: states the ordering and the permutation. It does not state stability, which Python's `sorted` guarantees and the model's insertion also keeps.
- `TextNumber.ParseNumber`: accepts only decimal literals (sign, digits, fraction, exponent). `float` also accepts `inf`, `nan`, underscores between digits and non-ASCII digits, which the model rejects.
- `ChannelCounts.ChannelTotalsOrderFree`: holds for exact reals. With float64 addition, different file orders can change totals in the last bits.
- The grouping model takes each file's start time as given. `parse_start_timestamp` is modelled on its own by `Grouping.StampField`, but `GroupSummary.Report` does not call it. So the run's abort on a name without `_`, or with a stamp `strptime` rejects, is not part of the report.
- Header cards are modelled as numbers (`map<string, real>`). The `ValueError` that `float(value)` raises in `calculate_average_of_key` on a non-numeric card is not modelled.
- `GroupSummary.AverageOf`: states the exact mean; the script's `round(..., 3)` is not modelled.
- `Grouping.IntervalStart`: requires a non-zero interval, so the `ZeroDivisionError` that `elapsed // interval` raises for `timedelta(0)` is not modelled. The script only ever uses 96 seconds and never calls `get_interval_start`.
- `WindowSum.AddL1FilesTimeSpec`: the window test compares the given integers. The source's `int(...timestamp())` truncation of fractional seconds is part of `secs`.
- `WindowSum.AddCountsSpec`: numpy casting between the file's float32 column and the float64 sum is not modelled.
