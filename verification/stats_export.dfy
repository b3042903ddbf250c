/** The summary tree `export_stats_to_xml` writes and the `analyze_and_export`
    pipeline that feeds it. The tree is modelled as data; laying it out as
    XML text, the number formatting and the output file are not modelled. */
module StatsExport {
  import opened Wrappers
  import opened Dict
  import opened XmlStats
  import opened Histogram

  /** A `<parameter>` element under `<parameters>`. */
  datatype ParamNode = ParamNode(name: string, stats: ParamSummary)

  /** A `<batch>` element: one counter and its count. */
  datatype BatchNode = BatchNode(bin: BinKey, count: int)

  /** A `<parameter>` element under `<batch_distributions>`. */
  datatype DistNode = DistNode(name: string, totalCounted: int, batches: seq<BatchNode>)

  datatype ExportTree = ExportTree(summary: FileCounts, parameters: seq<ParamNode>, distributions: seq<DistNode>)

  /** The parameters with statistics, in order; a None entry is skipped. */
  function ParamNodes(ps: Dict<string, Option<ParamSummary>>): (ns: seq<ParamNode>)
    ensures forall n :: n in ns ==> (n.name, Some(n.stats)) in ps
    ensures forall i :: 0 <= i < |ps| && ps[i].1.Some? ==> ParamNode(ps[i].0, ps[i].1.value) in ns
  {
    if ps == [] then []
    else
      var rest := ParamNodes(ps[1..]);
      assert forall i :: 1 <= i < |ps| ==> ps[i] == ps[1..][i - 1];
      (if ps[0].1.Some? then [ParamNode(ps[0].0, ps[0].1.value)] else []) + rest
  }

  /** The counters with a positive count, in order. */
  function BatchNodes(b: Bins): (ns: seq<BatchNode>)
    ensures forall n :: n in ns ==> n.count > 0 && (n.bin, n.count) in b
    ensures forall i :: 0 <= i < |b| && b[i].1 > 0 ==> BatchNode(b[i].0, b[i].1) in ns
  {
    if b == [] then []
    else
      var rest := BatchNodes(b[1..]);
      assert forall i :: 1 <= i < |b| ==> b[i] == b[1..][i - 1];
      (if b[0].1 > 0 then [BatchNode(b[0].0, b[0].1)] else []) + rest
  }

  function SumNodes(ns: seq<BatchNode>): int {
    if ns == [] then 0 else ns[0].count + SumNodes(ns[1..])
  }

  /** Leaving out the empty counters loses nothing: the emitted counts add up
      to the total of all counters. */
  lemma {:induction false} BatchNodesSum(b: Bins)
    requires forall i :: 0 <= i < |b| ==> b[i].1 >= 0
    ensures SumNodes(BatchNodes(b)) == SumCounts(b)
  {
    if b != [] {
      assert forall i :: 1 <= i < |b| ==> b[i] == b[1..][i - 1];
      BatchNodesSum(b[1..]);
      var rest := BatchNodes(b[1..]);
      if b[0].1 > 0 {
        assert ([BatchNode(b[0].0, b[0].1)] + rest)[1..] == rest;
      } else {
        assert [] + rest == rest;
      }
    }
  }

  function DistNodeOf(name: string, b: Bins): DistNode {
    DistNode(name, SumCounts(b), BatchNodes(b))
  }

  /** Every distribution of non-negative counters lists batches adding up to
      its total. */
  lemma DistributionSums(counts: Counts)
    ensures forall i :: 0 <= i < |counts| && (forall j :: 0 <= j < |counts[i].1| ==> counts[i].1[j].1 >= 0) ==>
              SumNodes(BatchNodes(counts[i].1)) == SumCounts(counts[i].1)
  {
    forall i | 0 <= i < |counts| && (forall j :: 0 <= j < |counts[i].1| ==> counts[i].1[j].1 >= 0)
      ensures SumNodes(BatchNodes(counts[i].1)) == SumCounts(counts[i].1)
    {
      BatchNodesSum(counts[i].1);
    }
  }

  /** `export_stats_to_xml` as a tree: the file summary; a parameter element
      for exactly the parameters with statistics; and, per counted parameter
      in order, its total and the counters with a positive count, which add
      up to that total when no counter is negative. */
  function ExportStats(stats: Statistics, counts: Counts): (t: ExportTree)
    ensures t.summary == stats.fileCounts
    ensures forall n :: n in t.parameters <==> (n.name, Some(n.stats)) in stats.parameters
    ensures |t.distributions| == |counts|
    ensures forall i :: 0 <= i < |counts| ==>
              && t.distributions[i].name == counts[i].0
              && t.distributions[i].totalCounted == SumCounts(counts[i].1)
              && (forall n :: n in t.distributions[i].batches ==> n.count > 0 && (n.bin, n.count) in counts[i].1)
              && (forall j :: 0 <= j < |counts[i].1| && counts[i].1[j].1 > 0 ==>
                    BatchNode(counts[i].1[j].0, counts[i].1[j].1) in t.distributions[i].batches)
    ensures forall i :: 0 <= i < |counts| && (forall j :: 0 <= j < |counts[i].1| ==> counts[i].1[j].1 >= 0) ==>
              SumNodes(t.distributions[i].batches) == t.distributions[i].totalCounted
  {
    var ps := ParamNodes(stats.parameters);
    assert forall x :: x in stats.parameters && x.1.Some? ==> ParamNode(x.0, x.1.value) in ps by {
      forall x | x in stats.parameters && x.1.Some? ensures ParamNode(x.0, x.1.value) in ps {
        var i :| 0 <= i < |stats.parameters| && stats.parameters[i] == x;
      }
    }
    DistributionSums(counts);
    ExportTree(
      stats.fileCounts,
      ps,
      seq(|counts|, i requires 0 <= i < |counts| => DistNodeOf(counts[i].0, counts[i].1)))
  }

  /** Each distribution reports the total of its counters, and the batches it
      lists, all with a positive count, add up to that total. */
  lemma DistributionTotals(stats: Statistics, counts: Counts, i: nat)
    requires i < |counts|
    requires forall j :: 0 <= j < |counts[i].1| ==> counts[i].1[j].1 >= 0
    ensures var d := ExportStats(stats, counts).distributions[i];
            && d.name == counts[i].0
            && d.totalCounted == SumCounts(counts[i].1)
            && SumNodes(d.batches) == d.totalCounted
            && forall n :: n in d.batches ==> n.count > 0
  {
    BatchNodesSum(counts[i].1);
  }

  datatype ExportError =
    | ParseFailed(conversion: ConversionError)
    | BinningFailed(histogram: HistError)

  /** `analyze_and_export` up to the write: statistics and histogram of the
      same batch, the file counts taken from the histogram pass. */
  function AnalyzeAndExport(raws: seq<Option<RawParams>>): Result<ExportTree, ExportError> {
    match ParseBatch(raws)
    case Err(e) => Err(ParseFailed(e))
    case Ok(files) =>
      match ExportBatch(files)
      case Err(e) => Err(BinningFailed(e))
      case Ok(t) => Ok(t)
  }

  /** The part of `analyze_and_export` after every label has been parsed. */
  function ExportBatch(files: seq<ParsedFile>): Result<ExportTree, HistError> {
    var stats := AggregateParameters(files);
    var br :- BatchCounter(files);
    var counts := FileCounts(br.total, br.processed, br.total - br.processed);
    Ok(ExportStats(Statistics(counts, stats.parameters), br.counts))
  }

  /** The run stops at parsing exactly when some label has a blank field
      text. */
  lemma AnalyzeAndExportParseFails(raws: seq<Option<RawParams>>)
    ensures AnalyzeAndExport(raws).Err? && AnalyzeAndExport(raws).error.ParseFailed? <==>
              exists i :: 0 <= i < |raws| && ParseLabel(raws[i]).Err?
  {
    var pb := ParseBatch(raws);
    if pb.Err? {
      assert AnalyzeAndExport(raws) == Err(ParseFailed(pb.error));
    } else {
      assert !AnalyzeAndExport(raws).Err? || AnalyzeAndExport(raws).error.BinningFailed?;
    }
  }

  /** Once every label is parsed, the run fails exactly when some parameter's
      values are all equal. */
  lemma ExportBatchFails(files: seq<ParsedFile>)
    ensures var ranges := ParameterRanges(files);
            ExportBatch(files).Ok? <==> forall k :: k in Keys(ranges) ==> Get(ranges, k).value.lo < Get(ranges, k).value.hi
  {
    BatchCounterFails(files);
  }

  /** The file summary of an exported batch: every label counted once, as
      processed or as an error. */
  lemma ExportSummary(files: seq<ParsedFile>)
    ensures ExportBatch(files).Ok? ==>
            var t := ExportBatch(files).value;
            && t.summary.total == |files|
            && t.summary.processed == |ProcessedSet(files)|
            && t.summary.processed + t.summary.errors == t.summary.total
  {
    if ExportBatch(files).Ok? {
      BatchCounterSpec(files);
    }
  }

  /** The parameters of an exported batch: exactly those with a numeric
      value, each with the statistics of all its values. */
  lemma ExportParameters(files: seq<ParsedFile>)
    ensures ExportBatch(files).Ok? ==>
            var t := ExportBatch(files).value;
            && (forall n :: n in t.parameters ==> n.stats == Summarize(ValuesOf(files, n.name)).value)
            && (forall k :: ValuesOf(files, k) != [] ==> exists n :: n in t.parameters && n.name == k)
  {
    if ExportBatch(files).Ok? {
      ExportedParameters(files);
    }
  }

  /** The distributions of an exported batch: one per parameter with a
      range, in the ranges' order, each totalling the number of that
      parameter's values, with listed batches that add up to the total. */
  lemma ExportDistributions(files: seq<ParsedFile>)
    ensures ExportBatch(files).Ok? ==> |ExportBatch(files).value.distributions| == |ParameterRanges(files)|
    ensures ExportBatch(files).Ok? ==>
            var t := ExportBatch(files).value;
            forall i :: 0 <= i < |t.distributions| ==>
              var d := t.distributions[i];
              && d.name == ParameterRanges(files)[i].0
              && d.totalCounted == |ValuesOf(files, d.name)|
              && SumNodes(d.batches) == d.totalCounted
  {
    if ExportBatch(files).Err? {
      return;
    }
    var br := BatchCounter(files).value;
    var stats := AggregateParameters(files);
    var st := Statistics(FileCounts(br.total, br.processed, br.total - br.processed), stats.parameters);
    var t := ExportBatch(files).value;
    assert t == ExportStats(st, br.counts);
    BatchCounterSpec(files);
    assert |ParameterRanges(files)| == |Keys(br.counts)|;
    forall i | 0 <= i < |t.distributions|
      ensures var d := t.distributions[i];
              && d.name == ParameterRanges(files)[i].0
              && d.totalCounted == |ValuesOf(files, d.name)|
              && SumNodes(d.batches) == d.totalCounted
    {
      ExportedDistribution(files, st, i);
    }
  }

  /** The parameter nodes of a batch's statistics: exactly the parameters with
      a numeric value, each with the statistics of those values. */
  lemma ExportedParameters(files: seq<ParsedFile>)
    ensures var ps := AggregateParameters(files).parameters;
            && (forall n :: n in ParamNodes(ps) ==> n.stats == Summarize(ValuesOf(files, n.name)).value)
            && (forall k :: ValuesOf(files, k) != [] ==> exists n :: n in ParamNodes(ps) && n.name == k)
  {
    var ps := AggregateParameters(files).parameters;
    var ns := ParamNodes(ps);
    forall n | n in ns
      ensures n.stats == Summarize(ValuesOf(files, n.name)).value
    {
      assert (n.name, Some(n.stats)) in ps;
      var i :| 0 <= i < |ps| && ps[i] == (n.name, Some(n.stats));
      StatisticsOf(files, n.name);
      assert Distinct(ps);
      GetEntry(ps, i);
    }
    forall k | ValuesOf(files, k) != []
      ensures exists n :: n in ns && n.name == k
    {
      StatisticsOf(files, k);
      GetStored(ps, k);
      var i :| 0 <= i < |ps| && ps[i] == (k, Get(ps, k).value);
      assert ParamNode(k, ps[i].1.value) in ns;
    }
  }

  /** The distribution of the `i`-th parameter with a range: its total is
      the number of that parameter's values, and its listed batches add up to
      it. */
  lemma ExportedDistribution(files: seq<ParsedFile>, st: Statistics, i: nat)
    requires BatchCounter(files).Ok?
    requires i < |BatchCounter(files).value.counts|
    ensures |BatchCounter(files).value.counts| == |ParameterRanges(files)|
    ensures var d := ExportStats(st, BatchCounter(files).value.counts).distributions[i];
            && d.name == ParameterRanges(files)[i].0
            && d.totalCounted == |ValuesOf(files, d.name)|
            && SumNodes(d.batches) == d.totalCounted
  {
    var counts := BatchCounter(files).value.counts;
    BatchCounterSpec(files);
    var k := counts[i].0;
    assert Keys(counts)[i] == k;
    assert Keys(ParameterRanges(files))[i] == ParameterRanges(files)[i].0;
    assert Distinct(counts);
    GetEntry(counts, i);
    DistributionTotals(st, counts, i);
  }
}
