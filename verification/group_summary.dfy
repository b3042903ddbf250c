/** The row the grouping script writes for each group: per-channel count
    totals, the latitude/longitude box of the group's footprints, the
    channels re-indexed from 0 with their energies, and four header
    averages. */
module GroupSummary {
  import opened Wrappers
  import opened Dict
  import opened Reals
  import opened Grouping
  import opened ChannelCounts
  import opened FootprintBox

  /** Energy step per channel, in keV. */
  const ENERGY_PER_CHANNEL: real := 0.0135

  /** The header cards averaged over a group, in column order. */
  const AVERAGED_KEYS: seq<string> := ["SAT_ALT", "SOLARANG", "PHASEANG", "EMISNANG"]

  // ---------------------------------------------------------------------
  // Header averages

  /** `header.get(key)` over the group, the missing ones skipped. */
  function PresentValues(fs: seq<FitsFile>, key: string): seq<real> {
    if fs == [] then []
    else
      var f := fs[|fs| - 1];
      PresentValues(fs[..|fs| - 1], key) + (if key in f.header then [f.header[key]] else [])
  }

  /** The present values are exactly the group's values for the key. */
  lemma {:induction false} PresentValuesSpec(fs: seq<FitsFile>, key: string)
    ensures PresentValues(fs, key) == [] <==> forall i :: 0 <= i < |fs| ==> key !in fs[i].header
    ensures forall i :: 0 <= i < |fs| && key in fs[i].header ==> fs[i].header[key] in PresentValues(fs, key)
    ensures forall v :: v in PresentValues(fs, key) ==> exists i :: 0 <= i < |fs| && key in fs[i].header && fs[i].header[key] == v
  {
    if fs != [] {
      var init := fs[..|fs| - 1];
      PresentValuesSpec(init, key);
      assert forall i :: 0 <= i < |init| ==> init[i] == fs[i];
    }
  }

  /** `calculate_average_of_key` before rounding: None when no file has the
      card, otherwise the mean of the values present: their sum divided by
      their number, which lies between the smallest and the largest. */
  function AverageOf(fs: seq<FitsFile>, key: string): (r: Option<real>)
    ensures r.None? <==> forall i :: 0 <= i < |fs| ==> key !in fs[i].header
    ensures r.Some? ==> PresentValues(fs, key) != [] &&
                        Min(PresentValues(fs, key)) <= r.value <= Max(PresentValues(fs, key))
    ensures r.Some? ==> r.value == Sum(PresentValues(fs, key)) / |PresentValues(fs, key)| as real
  {
    var vs := PresentValues(fs, key);
    PresentValuesSpec(fs, key);
    if vs != [] then
      MeanBetween(vs);
      Some(Mean(vs))
    else None
  }

  // ---------------------------------------------------------------------
  // Rows

  /** One CSV row: start and end of the group, the box, the summed counts in
      first-seen channel order, the channel indices, their energies, and the
      four averages. */
  datatype Row = Row(
    start: int, end: int, box: Option<Box>,
    summed: seq<real>, channels: seq<int>, energy: seq<real>,
    averages: seq<Option<real>>)

  /** The row of one group; it fails only on a missing corner card. */
  function GroupRow(g: Group): Result<Row, GroupError> {
    var averages := seq(|AVERAGED_KEYS|, i requires 0 <= i < |AVERAGED_KEYS| => AverageOf(g.files, AVERAGED_KEYS[i]));
    var box :- BoxOf(g.files);
    var summed := Values(ChannelTotals(g.files));
    var channels := seq(|summed|, i requires 0 <= i < |summed| => i);
    var energy := seq(|channels|, i requires 0 <= i < |channels| => channels[i] as real * ENERGY_PER_CHANNEL);
    Ok(Row(g.start, g.end, box, summed, channels, energy, averages))
  }

  /** The three lists of a row have one entry per distinct channel: the
      totals in first-seen order, the indices 0, 1, 2, … whatever the
      original channel numbers were, and 0.0135 keV per index. */
  lemma RowLists(g: Group)
    requires GroupRow(g).Ok?
    ensures var r := GroupRow(g).value;
            var t := ChannelTotals(g.files);
            && |r.summed| == |t| && |r.channels| == |t| && |r.energy| == |t|
            && (forall i :: 0 <= i < |t| ==> r.channels[i] == i && r.energy[i] == i as real * ENERGY_PER_CHANNEL)
            && (forall i :: 0 <= i < |t| ==> HasChannel(g.files, t[i].0) && r.summed[i] == ChannelSum(g.files, t[i].0))
            && (forall ch :: HasChannel(g.files, ch) ==> ch in Keys(t))
  {
    var t := ChannelTotals(g.files);
    forall i | 0 <= i < |t|
      ensures HasChannel(g.files, t[i].0) && t[i].1 == ChannelSum(g.files, t[i].0)
    {
      ChannelTotalsSpec(g.files, t[i].0);
      GetEntry(t, i);
    }
    forall ch | HasChannel(g.files, ch)
      ensures ch in Keys(t)
    {
      ChannelTotalsSpec(g.files, ch);
    }
  }

  /** Every group's row, in order; the first failing group stops the run. */
  function Rows(gs: seq<Group>): Result<seq<Row>, GroupError> {
    if gs == [] then Ok([])
    else
      var row :- GroupRow(gs[0]);
      var rest :- Rows(gs[1..]);
      Ok([row] + rest)
  }

  /** The whole script: sort, group, and write one row per group. */
  function Report(fs: seq<FitsFile>): Result<seq<Row>, GroupError> {
    Rows(GroupFiles(SortByStart(fs)))
  }

  /** Rows are written for all groups exactly when every group's row can be
      built, and then row `i` is the row of group `i` alone. */
  lemma {:induction false} RowsSpec(gs: seq<Group>)
    ensures Rows(gs).Ok? <==> forall i :: 0 <= i < |gs| ==> GroupRow(gs[i]).Ok?
    ensures Rows(gs).Ok? ==>
              && |Rows(gs).value| == |gs|
              && forall i :: 0 <= i < |gs| ==> Rows(gs).value[i] == GroupRow(gs[i]).value
  {
    if gs != [] {
      RowsSpec(gs[1..]);
      assert forall i :: 1 <= i < |gs| ==> gs[1..][i - 1] == gs[i];
    }
  }

  /** The report has one row per group of the sorted files; each row spans
      its group's 96-second window from the group's first file and carries
      that group's own totals, box and averages. */
  lemma ReportRows(fs: seq<FitsFile>)
    requires Report(fs).Ok?
    ensures var gs := GroupFiles(SortByStart(fs));
            var rows := Report(fs).value;
            && |rows| == |gs|
            && forall i :: 0 <= i < |gs| ==>
                 && GroupRow(gs[i]).Ok?
                 && rows[i] == GroupRow(gs[i]).value
                 && gs[i].files != []
                 && rows[i].start == gs[i].files[0].start
                 && rows[i].end == rows[i].start + WINDOW
  {
    var gs := GroupFiles(SortByStart(fs));
    RowsSpec(gs);
    GroupsWellFormed(SortByStart(fs));
  }
}
