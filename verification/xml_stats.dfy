/** The numeric core of the XML label statistics: converting the text of each
    extracted field to a number, the per-parameter min/max ranges over a batch
    of labels, and the count/average/min/max/range summary per parameter.
    Reading the XML itself is outside the model: a label arrives as the
    ordered fields it yielded, or as None when it was not well-formed. */
module XmlStats {
  import opened Wrappers
  import opened Dict
  import opened TextNumber
  import opened Reals

  /** Field name to extracted text, in extraction order; None where the
      element had no text. */
  type RawParams = Dict<string, Option<string>>

  /** Field name to converted number; None where there was no text or the
      text is not a number. */
  type Params = Dict<string, Option<real>>

  /** One label as the statistics see it: None when parsing failed. */
  type ParsedFile = Option<Params>

  /** Converting a whitespace-only text raises IndexError, which the
      conversion loop does not catch. */
  datatype ConversionError = EmptyText(key: string)

  ghost predicate Blank(text: Option<string>) {
    text.Some? && AllSpace(text.value)
  }

  /** `v` is what one field's text converts to: None stays None, otherwise the
      number its first whitespace-separated token denotes (None when the
      token is not a number). */
  ghost predicate ConvertedFrom(text: Option<string>, v: Option<real>) {
    match text
    case None => v == None
    case Some(s) => FirstToken(s).Some? && v == ParseNumber(FirstToken(s).value)
  }

  /** `float(text.split()[0])` for one field whose text exists, None for a
      field without text; the outer None is the IndexError of a blank text. */
  function ConvertField(text: Option<string>): (r: Option<Option<real>>)
    ensures r.None? <==> Blank(text)
    ensures r.Some? ==> ConvertedFrom(text, r.value)
  {
    match text
    case None => Some(None)
    case Some(s) =>
      match FirstToken(s)
      case None => None
      case Some(t) => Some(ParseNumber(t))
  }

  /** Conversion of every extracted field, in order; the first blank text
      aborts with IndexError. */
  function ConvertParams(raw: RawParams): (r: Result<Params, ConversionError>)
    ensures r.Ok? <==> forall i :: 0 <= i < |raw| ==> !Blank(raw[i].1)
    ensures r.Ok? ==> Keys(r.value) == Keys(raw)
    ensures r.Ok? ==> forall i :: 0 <= i < |raw| ==> ConvertedFrom(raw[i].1, r.value[i].1)
    ensures r.Err? ==> exists i :: 0 <= i < |raw| && Blank(raw[i].1) && r.error == EmptyText(raw[i].0)
                                   && forall j :: 0 <= j < i ==> !Blank(raw[j].1)
  {
    if raw == [] then Ok([])
    else
      var k := raw[0].0;
      var converted := ConvertField(raw[0].1);
      assert forall i :: 0 < i < |raw| ==> raw[1..][i - 1] == raw[i];
      if converted.None? then Err(EmptyText(k))
      else
        match ConvertParams(raw[1..])
        case Err(e) => Err(e)
        case Ok(rest) =>
          var r := [(k, converted.value)] + rest;
          assert forall i :: 0 < i < |r| ==> r[i] == rest[i - 1];
          assert Keys(r) == [k] + Keys(rest);
          Ok(r)
  }

  /** `parse_xml_file` after extraction: None (an unreadable label) stays
      None, otherwise the extracted fields are converted. */
  function ParseLabel(raw: Option<RawParams>): Result<ParsedFile, ConversionError> {
    match raw
    case None => Ok(None)
    case Some(fields) =>
      var ps :- ConvertParams(fields);
      Ok(Some(ps))
  }

  /** Every label of a batch parsed in turn; the first uncaught IndexError
      ends the run. */
  function ParseBatch(raws: seq<Option<RawParams>>): (r: Result<seq<ParsedFile>, ConversionError>)
    ensures r.Ok? <==> forall i :: 0 <= i < |raws| ==> ParseLabel(raws[i]).Ok?
    ensures r.Ok? ==> |r.value| == |raws| && forall i :: 0 <= i < |raws| ==> r.value[i] == ParseLabel(raws[i]).value
  {
    if raws == [] then Ok([])
    else
      var init := raws[..|raws| - 1];
      assert forall i :: 0 <= i < |init| ==> init[i] == raws[i];
      var ps :- ParseBatch(init);
      var p :- ParseLabel(raws[|raws| - 1]);
      Ok(ps + [p])
  }

  /** A label counts as processed when it parsed and yielded at least one
      field (an empty dictionary is falsy in the source). */
  predicate Processed(f: ParsedFile) {
    f.Some? && f.value != []
  }

  // ---------------------------------------------------------------------
  // Observations: the numeric (parameter, value) pairs of a batch

  /** The numeric fields of one label, as (name, value) pairs. */
  ghost function EntryObs(es: Params): set<(string, real)> {
    if es == [] then {}
    else
      var e := es[|es| - 1];
      EntryObs(es[..|es| - 1]) + (if e.1.Some? then {(e.0, e.1.value)} else {})
  }

  ghost function FileObs(f: ParsedFile): set<(string, real)> {
    if f.Some? then EntryObs(f.value) else {}
  }

  /** Every numeric (name, value) pair found in the batch. */
  ghost function Obs(files: seq<ParsedFile>): set<(string, real)> {
    if files == [] then {} else Obs(files[..|files| - 1]) + FileObs(files[|files| - 1])
  }

  lemma {:induction false} EntryObsMember(es: Params, k: string, x: real)
    ensures (k, x) in EntryObs(es) <==> (k, Some(x)) in es
  {
    if es != [] {
      var init := es[..|es| - 1];
      EntryObsMember(init, k, x);
      assert es == init + [es[|es| - 1]];
    }
  }

  /** A pair is observed exactly when some parsed label has that field with
      that numeric value. */
  lemma {:induction false} ObsMember(files: seq<ParsedFile>, k: string, x: real)
    ensures (k, x) in Obs(files) <==>
            exists i :: 0 <= i < |files| && files[i].Some? && (k, Some(x)) in files[i].value
  {
    if files != [] {
      var init := files[..|files| - 1];
      var f := files[|files| - 1];
      ObsMember(init, k, x);
      if f.Some? {
        EntryObsMember(f.value, k, x);
      }
      assert forall i :: 0 <= i < |init| ==> init[i] == files[i];
    }
  }

  // ---------------------------------------------------------------------
  // Per-parameter ranges

  datatype Range = Range(lo: real, hi: real)

  /** `rg` is the smallest and the largest value observed for `k` in `S`. */
  ghost predicate Bounds(rg: Range, k: string, S: set<(string, real)>) {
    && rg.lo <= rg.hi
    && (k, rg.lo) in S
    && (k, rg.hi) in S
    && forall x :: (k, x) in S ==> rg.lo <= x <= rg.hi
  }

  /** `r` holds one range per observed parameter and nothing else. */
  ghost predicate Summarizes(r: Dict<string, Range>, S: set<(string, real)>) {
    && Distinct(r)
    && (forall k :: k in Keys(r) <==> exists x :: (k, x) in S)
    && (forall k :: k in Keys(r) ==> Bounds(Get(r, k).value, k, S))
  }

  /** The range of a parameter after one more value: that value alone on
      first sight, otherwise the old range stretched to include it. */
  function Widen(prev: Option<Range>, x: real): Range {
    match prev
    case None => Range(x, x)
    case Some(rg) => Range(Min2(rg.lo, x), Max2(rg.hi, x))
  }

  /** One numeric value widening its parameter's range (created on first
      use, like the source's defaultdict entry). */
  function Observe(r: Dict<string, Range>, k: string, x: real): Dict<string, Range> {
    Put(r, k, Widen(Get(r, k), x))
  }

  lemma ObserveSummarizes(r: Dict<string, Range>, S: set<(string, real)>, k: string, x: real)
    requires Summarizes(r, S)
    ensures Summarizes(Observe(r, k, x), S + {(k, x)})
  {
    var r' := Observe(r, k, x);
    var S' := S + {(k, x)};
    PutDistinct(r, k, Widen(Get(r, k), x));
    forall k' | k' in Keys(r')
      ensures Bounds(Get(r', k').value, k', S')
    {
      if k' != k {
        assert Get(r', k') == Get(r, k');
        BoundsOther(Get(r, k').value, k', S, k, x);
      } else if Get(r, k).None? {
        BoundsFresh(k, S, x);
      } else {
        BoundsWiden(Get(r, k).value, k, S, x);
      }
    }
    forall k' | exists y :: (k', y) in S'
      ensures k' in Keys(r')
    {
      if k' != k {
        var y :| (k', y) in S';
        assert (k', y) in S;
      }
    }
  }

  lemma BoundsOther(rg: Range, k': string, S: set<(string, real)>, k: string, x: real)
    requires k' != k
    requires Bounds(rg, k', S)
    ensures Bounds(rg, k', S + {(k, x)})
  {
  }

  lemma BoundsFresh(k: string, S: set<(string, real)>, x: real)
    requires forall y :: (k, y) !in S
    ensures Bounds(Range(x, x), k, S + {(k, x)})
  {
  }

  lemma BoundsWiden(rg: Range, k: string, S: set<(string, real)>, x: real)
    requires Bounds(rg, k, S)
    ensures Bounds(Widen(Some(rg), x), k, S + {(k, x)})
  {
  }

  /** The range update for every numeric field of one label, in field order. */
  function ObserveEntries(r: Dict<string, Range>, es: Params): Dict<string, Range> {
    if es == [] then r
    else
      var e := es[|es| - 1];
      var acc := ObserveEntries(r, es[..|es| - 1]);
      if e.1.Some? then Observe(acc, e.0, e.1.value) else acc
  }

  lemma {:induction false} ObserveEntriesSummarizes(r: Dict<string, Range>, S: set<(string, real)>, es: Params)
    requires Summarizes(r, S)
    ensures Summarizes(ObserveEntries(r, es), S + EntryObs(es))
  {
    if es == [] {
      assert S + EntryObs(es) == S;
    } else {
      var e := es[|es| - 1];
      var init := es[..|es| - 1];
      ObserveEntriesSummarizes(r, S, init);
      if e.1.Some? {
        ObserveSummarizes(ObserveEntries(r, init), S + EntryObs(init), e.0, e.1.value);
        assert S + EntryObs(es) == S + EntryObs(init) + {(e.0, e.1.value)};
      } else {
        assert S + EntryObs(es) == S + EntryObs(init);
      }
    }
  }

  /** `get_parameter_ranges`: for each parameter with at least one numeric
      value in the batch, the least and the greatest of those values.
      Parameters never seen with a number get no entry. */
  function ParameterRanges(files: seq<ParsedFile>): (r: Dict<string, Range>)
    ensures Summarizes(r, Obs(files))
  {
    if files == [] then []
    else
      var init := files[..|files| - 1];
      var f := files[|files| - 1];
      var acc := ParameterRanges(init);
      if Processed(f) then
        ObserveEntriesSummarizes(acc, Obs(init), f.value);
        ObserveEntries(acc, f.value)
      else
        assert Obs(files) == Obs(init);
        acc
  }

  // ---------------------------------------------------------------------
  // Per-parameter value lists and statistics

  /** The numeric values of field `k` in one label, in field order. */
  ghost function ValuesIn(es: Params, k: string): seq<real> {
    if es == [] then []
    else
      var e := es[|es| - 1];
      ValuesIn(es[..|es| - 1], k) + (if e.0 == k && e.1.Some? then [e.1.value] else [])
  }

  /** The numeric values of field `k` across the batch, label by label. */
  ghost function ValuesOf(files: seq<ParsedFile>, k: string): seq<real> {
    if files == [] then []
    else
      var f := files[|files| - 1];
      ValuesOf(files[..|files| - 1], k) + (if f.Some? then ValuesIn(f.value, k) else [])
  }

  /** A dictionary entry for a list that Python only creates on first append. */
  function AsEntry(vs: seq<real>): Option<seq<real>> {
    if vs == [] then None else Some(vs)
  }

  /** `param_values[key].append(value)` for every numeric field of one label. */
  function CollectEntries(pv: Dict<string, seq<real>>, es: Params): Dict<string, seq<real>> {
    if es == [] then pv
    else
      var e := es[|es| - 1];
      var acc := CollectEntries(pv, es[..|es| - 1]);
      if e.1.Some? then Put(acc, e.0, Get(acc, e.0).GetOr([]) + [e.1.value]) else acc
  }

  lemma {:induction false} CollectEntriesSpec(pv: Dict<string, seq<real>>, es: Params)
    requires Distinct(pv)
    requires forall k :: Get(pv, k) != Some([])
    ensures Distinct(CollectEntries(pv, es))
    ensures forall k :: Get(CollectEntries(pv, es), k) == AsEntry(Get(pv, k).GetOr([]) + ValuesIn(es, k))
  {
    if es == [] {
      forall k ensures Get(pv, k) == AsEntry(Get(pv, k).GetOr([]) + ValuesIn(es, k)) {
        assert Get(pv, k).GetOr([]) + [] == Get(pv, k).GetOr([]);
      }
    } else {
      var e := es[|es| - 1];
      var init := es[..|es| - 1];
      CollectEntriesSpec(pv, init);
      var acc := CollectEntries(pv, init);
      if e.1.Some? {
        PutDistinct(acc, e.0, Get(acc, e.0).GetOr([]) + [e.1.value]);
      }
      forall k ensures Get(CollectEntries(pv, es), k) == AsEntry(Get(pv, k).GetOr([]) + ValuesIn(es, k)) {
        CollectStep(pv, acc, es, k);
      }
    }
  }

  /** One more field appends its value to its own parameter's list only. */
  lemma CollectStep(pv: Dict<string, seq<real>>, acc: Dict<string, seq<real>>, es: Params, k: string)
    requires es != []
    requires acc == CollectEntries(pv, es[..|es| - 1])
    requires Get(acc, k) == AsEntry(Get(pv, k).GetOr([]) + ValuesIn(es[..|es| - 1], k))
    ensures Get(CollectEntries(pv, es), k) == AsEntry(Get(pv, k).GetOr([]) + ValuesIn(es, k))
  {
    var e := es[|es| - 1];
    var before := Get(pv, k).GetOr([]) + ValuesIn(es[..|es| - 1], k);
    assert Get(acc, k).GetOr([]) == before;
    if e.0 == k && e.1.Some? {
      assert before + [e.1.value] == Get(pv, k).GetOr([]) + ValuesIn(es, k);
    } else {
      assert before == Get(pv, k).GetOr([]) + ValuesIn(es, k);
    }
  }

  /** The value lists `aggregate_parameters` gathers, one per parameter that
      has a numeric value somewhere in the batch. */
  function ParamValues(files: seq<ParsedFile>): (pv: Dict<string, seq<real>>)
    ensures Distinct(pv)
    ensures forall k :: Get(pv, k) == AsEntry(ValuesOf(files, k))
  {
    if files == [] then []
    else
      var init := files[..|files| - 1];
      var f := files[|files| - 1];
      var acc := ParamValues(init);
      if Processed(f) then
        CollectEntriesSpec(acc, f.value);
        CollectEntries(acc, f.value)
      else
        assert forall k :: ValuesOf(files, k) == ValuesOf(init, k) by {
          forall k ensures ValuesOf(files, k) == ValuesOf(init, k) {
            if f.Some? {
              assert f.value == [];
            }
          }
        }
        acc
  }

  datatype ParamSummary = ParamSummary(count: nat, average: real, minimum: real, maximum: real, range: real)

  datatype FileCounts = FileCounts(total: nat, processed: nat, errors: nat)

  datatype Statistics = Statistics(fileCounts: FileCounts, parameters: Dict<string, Option<ParamSummary>>)

  /** The statistics of one value list; None for an empty list. */
  function Summarize(vs: seq<real>): Option<ParamSummary> {
    if vs == [] then None
    else Some(ParamSummary(|vs|, Mean(vs), Min(vs), Max(vs), Max(vs) - Min(vs)))
  }

  function SummarizeAll(pv: Dict<string, seq<real>>): (st: Dict<string, Option<ParamSummary>>)
    ensures Keys(st) == Keys(pv)
    ensures forall i :: 0 <= i < |pv| ==> st[i].1 == Summarize(pv[i].1)
  {
    if pv == [] then []
    else
      var rest := SummarizeAll(pv[1..]);
      var st := [(pv[0].0, Summarize(pv[0].1))] + rest;
      assert Keys(st) == [pv[0].0] + Keys(rest);
      assert forall i :: 0 < i < |pv| ==> pv[i] == pv[1..][i - 1] && st[i] == rest[i - 1];
      st
  }

  /** The labels of the batch that count as processed. */
  ghost function ProcessedSet(files: seq<ParsedFile>): set<nat> {
    set i: nat | i < |files| && Processed(files[i])
  }

  /** `aggregate_parameters`: file counts and per-parameter statistics. */
  function AggregateParameters(files: seq<ParsedFile>): (st: Statistics)
    ensures st.fileCounts.total == |files|
    ensures st.fileCounts.processed == |ProcessedSet(files)|
    ensures st.fileCounts.processed + st.fileCounts.errors == st.fileCounts.total
  {
    var processed := CountProcessed(files);
    Statistics(FileCounts(|files|, processed, |files| - processed), SummarizeAll(ParamValues(files)))
  }

  function CountProcessed(files: seq<ParsedFile>): (n: nat)
    ensures n == |ProcessedSet(files)|
    ensures n <= |files|
  {
    if files == [] then
      assert ProcessedSet(files) == {};
      0
    else
      var init := files[..|files| - 1];
      var f := files[|files| - 1];
      var n := CountProcessed(init);
      assert forall i :: 0 <= i < |init| ==> init[i] == files[i];
      if Processed(f) then
        assert ProcessedSet(files) == ProcessedSet(init) + {|files| - 1};
        n + 1
      else
        assert ProcessedSet(files) == ProcessedSet(init);
        n
  }

  /** The statistics of a non-empty list: the count is its length, the
      minimum and maximum are members bounding all of it, the average lies
      between the two, and the range is their non-negative difference. */
  lemma SummarizeSpec(vs: seq<real>)
    requires vs != []
    ensures Summarize(vs).Some?
    ensures var s := Summarize(vs).value;
            && s.count == |vs|
            && s.minimum in vs && s.maximum in vs
            && (forall i :: 0 <= i < |vs| ==> s.minimum <= vs[i] <= s.maximum)
            && s.minimum <= s.average <= s.maximum
            && s.range == s.maximum - s.minimum >= 0.0
  {
    MeanBetween(vs);
  }

  /** A parameter is reported exactly when the batch holds a numeric value
      for it, and then with the statistics of all those values in batch
      order. */
  lemma StatisticsOf(files: seq<ParsedFile>, k: string)
    ensures var st := AggregateParameters(files).parameters;
            k in Keys(st) <==> ValuesOf(files, k) != []
    ensures var st := AggregateParameters(files).parameters;
            k in Keys(st) ==> Get(st, k) == Some(Summarize(ValuesOf(files, k)))
  {
    var pv := ParamValues(files);
    var st := AggregateParameters(files).parameters;
    assert Keys(st) == Keys(pv);
    if k in Keys(st) {
      var i :| 0 <= i < |pv| && pv[i].0 == k;
      GetEntry(pv, i);
      assert Distinct(st);
      GetEntry(st, i);
    }
  }

  lemma {:induction false} ValuesInObs(es: Params, k: string, x: real)
    ensures x in ValuesIn(es, k) <==> (k, x) in EntryObs(es)
  {
    if es != [] {
      ValuesInObs(es[..|es| - 1], k, x);
    }
  }

  lemma {:induction false} ValuesOfObs(files: seq<ParsedFile>, k: string, x: real)
    ensures x in ValuesOf(files, k) <==> (k, x) in Obs(files)
  {
    if files != [] {
      ValuesOfObs(files[..|files| - 1], k, x);
      var f := files[|files| - 1];
      if f.Some? {
        ValuesInObs(f.value, k, x);
      }
    }
  }

  /** The range the histogram is built on is the minimum and the maximum
      the statistics report for the same parameter. */
  lemma StatisticsMatchRanges(files: seq<ParsedFile>, k: string)
    requires ValuesOf(files, k) != []
    ensures Get(ParameterRanges(files), k) == Some(Range(Min(ValuesOf(files, k)), Max(ValuesOf(files, k))))
  {
    var vs := ValuesOf(files, k);
    var r := ParameterRanges(files);
    var S := Obs(files);
    assert vs[0] in vs;
    ValuesOfObs(files, k, vs[0]);
    assert k in Keys(r);
    var rg := Get(r, k).value;
    assert Bounds(rg, k, S);
    RangeIsMinMax(files, k, rg);
  }

  lemma RangeIsMinMax(files: seq<ParsedFile>, k: string, rg: Range)
    requires ValuesOf(files, k) != []
    requires Bounds(rg, k, Obs(files))
    ensures rg == Range(Min(ValuesOf(files, k)), Max(ValuesOf(files, k)))
  {
    var vs := ValuesOf(files, k);
    ValuesOfObs(files, k, Min(vs));
    ValuesOfObs(files, k, Max(vs));
    ValuesOfObs(files, k, rg.lo);
    ValuesOfObs(files, k, rg.hi);
    var i :| 0 <= i < |vs| && vs[i] == rg.lo;
    var j :| 0 <= j < |vs| && vs[j] == rg.hi;
  }
}
