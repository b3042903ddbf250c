/** The ten-bin equal-width histogram of every parameter over its observed
    range (`initialize_batch_counts`, `assign_to_batch`, `batch_counter`).
    Bins are identified by index: `Bin(i)` is the source's counter named
    `Batch_{i+1}(start,end)`, whose start and end both initialisation and
    assignment compute from the same range with the same formula. */
module Histogram {
  import opened Wrappers
  import opened Dict
  import opened XmlStats

  const BIN_COUNT: nat := 10

  datatype BinKey = Bin(index: nat) | Underflow | Overflow

  type Bins = Dict<BinKey, int>

  /** Parameter name to its counters. */
  type Counts = Dict<string, Bins>

  datatype HistError =
    | UnknownParameter(name: string)  // KeyError on the ranges or the counters
    | ZeroWidth(name: string)         // ZeroDivisionError: floor division by a zero bin width
    | MissingBin(name: string)        // KeyError on a bin name never initialised

  function Width(rg: Range): real {
    (rg.hi - rg.lo) / BIN_COUNT as real
  }

  function BinStart(rg: Range, i: nat): real {
    rg.lo + i as real * Width(rg)
  }

  function BinEnd(rg: Range, i: nat): real {
    rg.lo + (i + 1) as real * Width(rg)
  }

  /** The keys of a freshly initialised parameter: the ten bins, in order. */
  function BinKeys(): seq<BinKey> {
    seq(BIN_COUNT, i requires 0 <= i < BIN_COUNT => Bin(i))
  }

  /** Ten counters at zero. */
  function EmptyBins(): Bins {
    seq(BIN_COUNT, i requires 0 <= i < BIN_COUNT => (Bin(i), 0))
  }

  /** `initialize_batch_counts`: ten zero counters for every parameter that
      has a range, in the ranges' order. */
  function InitialCounts(ranges: Dict<string, Range>): (c: Counts)
    ensures Keys(c) == Keys(ranges)
    ensures forall i :: 0 <= i < |c| ==> c[i].1 == EmptyBins()
  {
    if ranges == [] then []
    else
      var rest := InitialCounts(ranges[1..]);
      var c := [(ranges[0].0, EmptyBins())] + rest;
      assert Keys(c) == [ranges[0].0] + Keys(rest);
      assert forall i :: 0 < i < |c| ==> c[i] == rest[i - 1];
      c
  }

  /** `min(9, int((v - lo) // width))` for a value inside a range of positive
      width: the bin whose [start, end] holds `v`, the top value going to the
      last bin. */
  function BinIndex(v: real, rg: Range): (i: nat)
    requires rg.lo < rg.hi
    requires rg.lo <= v <= rg.hi
    ensures i < BIN_COUNT
    ensures BinStart(rg, i) <= v <= BinEnd(rg, i)
    ensures i < BIN_COUNT - 1 ==> v < BinEnd(rg, i)
    ensures v == rg.hi ==> i == BIN_COUNT - 1
  {
    var x := Offset(v, rg);
    var q := x.Floor;
    var i := if q < 9 then q else 9;
    OffsetBounds(v, rg);
    OffsetCompare(v, rg, i as real);
    OffsetCompare(v, rg, (i + 1) as real);
    i
  }

  /** How many bin widths `v` lies above the bottom of the range. */
  function Offset(v: real, rg: Range): real
    requires rg.lo < rg.hi
  {
    (v - rg.lo) / Width(rg)
  }

  lemma OffsetBounds(v: real, rg: Range)
    requires rg.lo < rg.hi
    requires rg.lo <= v <= rg.hi
    ensures 0.0 <= Offset(v, rg) <= 10.0
    ensures v == rg.hi ==> Offset(v, rg) == 10.0
  {
    var w := Width(rg);
    var x := Offset(v, rg);
    assert rg.hi - rg.lo == 10.0 * w;
    assert v - rg.lo == x * w;
    MulCancel(x, 10.0, w);
  }

  /** Comparing `v` with a bin boundary is comparing its offset with the
      boundary's index. */
  lemma OffsetCompare(v: real, rg: Range, t: real)
    requires rg.lo < rg.hi
    ensures rg.lo + t * Width(rg) <= v <==> t <= Offset(v, rg)
    ensures v <= rg.lo + t * Width(rg) <==> Offset(v, rg) <= t
    ensures v < rg.lo + t * Width(rg) <==> Offset(v, rg) < t
  {
    var w := Width(rg);
    var x := Offset(v, rg);
    assert v - rg.lo == x * w;
    if t <= x {
      ScaleMono(t, x, w);
    } else {
      ScaleMono(x, t, w);
    }
  }

  /** Bins are half-open except the last, closed one: a value in
      [start, end) of bin `j`, or the top of the range for the last bin, is
      assigned to bin `j`. */
  lemma BinIndexUnique(v: real, rg: Range, j: nat)
    requires rg.lo < rg.hi
    requires j < BIN_COUNT
    requires BinStart(rg, j) <= v < BinEnd(rg, j) || (j == BIN_COUNT - 1 && v == rg.hi)
    ensures rg.lo <= v <= rg.hi
    ensures BinIndex(v, rg) == j
  {
    BinWithinRange(rg, j);
    var i := BinIndex(v, rg);
    if i < j {
      BinsOrdered(rg, i, j);
    } else if i > j {
      BinsOrdered(rg, j, i);
    }
  }

  lemma BinWithinRange(rg: Range, j: nat)
    requires rg.lo < rg.hi
    requires j < BIN_COUNT
    ensures rg.lo <= BinStart(rg, j) && BinEnd(rg, j) <= rg.hi
  {
    var w := Width(rg);
    assert rg.hi == rg.lo + 10.0 * w;
    ScaleMono(0.0, j as real, w);
    ScaleMono((j + 1) as real, 10.0, w);
  }

  lemma BinsOrdered(rg: Range, i: nat, j: nat)
    requires rg.lo < rg.hi
    requires i < j
    ensures BinEnd(rg, i) <= BinStart(rg, j)
  {
    ScaleMono((i + 1) as real, j as real, Width(rg));
  }

  lemma MulCancel(a: real, b: real, w: real)
    requires w > 0.0 && a * w <= b * w
    ensures a <= b
  {
  }

  lemma ScaleMono(a: real, b: real, w: real)
    requires a <= b && w > 0.0
    ensures a * w <= b * w
  {
  }

  /** The counter a value goes to: a bin when inside the range, otherwise the
      underflow or overflow bucket. */
  function Target(v: real, rg: Range): BinKey
    requires rg.lo < rg.hi || v < rg.lo || v > rg.hi
  {
    if v < rg.lo then Underflow
    else if v > rg.hi then Overflow
    else Bin(BinIndex(v, rg))
  }

  /** Whether `v` goes to bin `j` of a range of positive width. */
  ghost predicate InBin(v: real, rg: Range, j: nat) {
    rg.lo < rg.hi && rg.lo <= v <= rg.hi && BinIndex(v, rg) == j
  }

  /** How many of the values go to bin `j` of the range. */
  ghost function CountIn(vs: seq<real>, rg: Range, j: nat): nat {
    if vs == [] then 0
    else CountIn(vs[..|vs| - 1], rg, j) + (if InBin(vs[|vs| - 1], rg, j) then 1 else 0)
  }

  lemma CountInSnoc(vs: seq<real>, x: real, rg: Range, j: nat)
    ensures CountIn(vs + [x], rg, j) == CountIn(vs, rg, j) + (if InBin(x, rg, j) then 1 else 0)
  {
    assert (vs + [x])[..|vs|] == vs;
  }

  /** `c'` is `c` with one counter of parameter `p`, the one under `key`,
      raised by one (created at zero first if absent); nothing else differs. */
  ghost predicate Incremented(c: Counts, c': Counts, p: string, key: BinKey) {
    && p in Keys(c)
    && Keys(c') == Keys(c)
    && (forall q :: q != p ==> Get(c', q) == Get(c, q))
    && var b := Get(c, p).value;
    && Get(c', p) == Some(Bump(b, key))
  }

  /** `batches[key] += 1`, the counter created at zero first if absent. */
  function Bump(b: Bins, key: BinKey): Bins {
    Put(b, key, Get(b, key).GetOr(0) + 1)
  }

  /** `counts[p][key] += 1`. */
  function Increment(c: Counts, p: string, key: BinKey): Counts
    requires p in Keys(c)
  {
    var bins := Get(c, p).value;
    Put(c, p, Bump(bins, key))
  }

  lemma IncrementSpec(c: Counts, p: string, key: BinKey)
    requires p in Keys(c)
    ensures Incremented(c, Increment(c, p, key), p, key)
  {
    IncrementKeys(c, p, key);
    IncrementOthers(c, p, key);
    IncrementAt(c, p, key);
  }

  lemma IncrementKeys(c: Counts, p: string, key: BinKey)
    requires p in Keys(c)
    ensures Keys(Increment(c, p, key)) == Keys(c)
  {
  }

  lemma IncrementOthers(c: Counts, p: string, key: BinKey)
    requires p in Keys(c)
    ensures forall q :: q != p ==> Get(Increment(c, p, key), q) == Get(c, q)
  {
  }

  lemma IncrementAt(c: Counts, p: string, key: BinKey)
    requires p in Keys(c)
    ensures var b := Get(c, p).value;
            Get(Increment(c, p, key), p) == Some(Bump(b, key))
  {
    assert Increment(c, p, key) == Put(c, p, Bump(Get(c, p).value, key));
  }

  ghost predicate Flat(ranges: Dict<string, Range>, p: string)
    requires p in Keys(ranges)
  {
    Get(ranges, p).value.lo == Get(ranges, p).value.hi
  }

  /** `assign_to_batch`. */
  function AssignToBatch(v: real, param: string, counts: Counts, ranges: Dict<string, Range>): (r: Result<Counts, HistError>)
    ensures param !in Keys(ranges) ==> r == Err(UnknownParameter(param))
    ensures param in Keys(ranges) ==>
              var rg := Get(ranges, param).value;
              (r == Err(ZeroWidth(param)) <==> rg.lo == rg.hi && rg.lo <= v <= rg.hi)
    ensures r.Ok? ==> param in Keys(ranges) && Incremented(counts, r.value, param, Target(v, Get(ranges, param).value))
    ensures r == Err(MissingBin(param)) ==>
              param in Keys(ranges) && param in Keys(counts) && Target(v, Get(ranges, param).value) !in Keys(Get(counts, param).value)
    ensures (&& param in Keys(ranges)
             && param in Keys(counts)
             && !(Flat(ranges, param) && Get(ranges, param).value.lo <= v <= Get(ranges, param).value.hi)
             && (Get(ranges, param).value.lo <= v <= Get(ranges, param).value.hi ==>
                   Target(v, Get(ranges, param).value) in Keys(Get(counts, param).value))) ==> r.Ok?
  {
    if param !in Keys(ranges) then Err(UnknownParameter(param))
    else
      var rg := Get(ranges, param).value;
      if rg.lo <= v <= rg.hi then
        if rg.lo == rg.hi then Err(ZeroWidth(param))
        else
          var key := Bin(BinIndex(v, rg));
          if param !in Keys(counts) then Err(UnknownParameter(param))
          else
            var bins := Get(counts, param).value;
            if key !in Keys(bins) then Err(MissingBin(param))
            else
              IncrementSpec(counts, param, key);
              Ok(Increment(counts, param, key))
      else
        var key := if v < rg.lo then Underflow else Overflow;
        if param !in Keys(counts) then Err(UnknownParameter(param))
        else
          IncrementSpec(counts, param, key);
          Ok(Increment(counts, param, key))
  }

  /** `sum(batches.values())`. */
  function SumCounts(b: Bins): int {
    if b == [] then 0 else b[0].1 + SumCounts(b[1..])
  }

  /** Overwriting one counter changes the total by the difference. */
  lemma {:induction false} SumCountsPut(b: Bins, k: BinKey, n: int)
    ensures SumCounts(Put(b, k, n)) + Get(b, k).GetOr(0) == SumCounts(b) + n
  {
    if b != [] && b[0].0 != k {
      SumCountsPut(b[1..], k, n);
    }
  }

  // ---------------------------------------------------------------------
  // batch_counter

  /** `assign_to_batch` for every numeric field of one label whose name has
      counters; the first error aborts. */
  function AssignEntries(counts: Counts, ranges: Dict<string, Range>, es: Params): Result<Counts, HistError> {
    if es == [] then Ok(counts)
    else
      var e := es[|es| - 1];
      var acc :- AssignEntries(counts, ranges, es[..|es| - 1]);
      if e.1.Some? && e.0 in Keys(acc) then AssignToBatch(e.1.value, e.0, acc, ranges) else Ok(acc)
  }

  /** The same over every processed label of the batch. */
  function AssignFiles(counts: Counts, ranges: Dict<string, Range>, files: seq<ParsedFile>): Result<Counts, HistError> {
    if files == [] then Ok(counts)
    else
      var f := files[|files| - 1];
      var acc :- AssignFiles(counts, ranges, files[..|files| - 1]);
      if Processed(f) then AssignEntries(acc, ranges, f.value) else Ok(acc)
  }

  datatype BatchResult = BatchResult(counts: Counts, total: nat, processed: nat)

  /** `batch_counter`: ranges from the batch, ten counters per parameter,
      then every numeric field assigned, with the file counts. */
  function BatchCounter(files: seq<ParsedFile>): Result<BatchResult, HistError> {
    var ranges := ParameterRanges(files);
    var counts :- AssignFiles(InitialCounts(ranges), ranges, files);
    Ok(BatchResult(counts, |files|, CountProcessed(files)))
  }

  /** Every numeric value of `S` lies within its parameter's range. */
  ghost predicate InRange(S: set<(string, real)>, ranges: Dict<string, Range>) {
    forall k, x :: (k, x) in S ==> k in Keys(ranges) && Get(ranges, k).value.lo <= x <= Get(ranges, k).value.hi
  }

  lemma InRangeAt(S: set<(string, real)>, ranges: Dict<string, Range>, k: string, x: real)
    requires InRange(S, ranges)
    requires (k, x) in S
    ensures k in Keys(ranges) && Get(ranges, k).value.lo <= x <= Get(ranges, k).value.hi
  {
  }

  /** Counters shaped as initialised (the ten bins and nothing else), each
      bin counting the values of `vs` that fall in it, `vs` in all. */
  ghost predicate BinsHold(b: Bins, vs: seq<real>, rg: Range) {
    && BinsShaped(b, |vs|)
    && (forall j :: 0 <= j < BIN_COUNT ==> Get(b, Bin(j)) == Some(CountIn(vs, rg, j)))
  }

  /** The ten bins and nothing else, non-negative, `n` in all. */
  ghost predicate BinsShaped(b: Bins, n: nat) {
    && Keys(b) == BinKeys()
    && (forall i :: 0 <= i < |b| ==> b[i].1 >= 0)
    && SumCounts(b) == n
  }

  /** After the labels `p` and then the fields `es`: one set of counters per
      ranged parameter, holding exactly that parameter's values so far. */
  ghost predicate CountsHold(c: Counts, ranges: Dict<string, Range>, p: seq<ParsedFile>, es: Params) {
    && Keys(c) == Keys(ranges)
    && forall k :: k in Keys(c) ==> BinsHold(Get(c, k).value, ValuesOf(p, k) + ValuesIn(es, k), Get(ranges, k).value)
  }

  /** Some parameter with a zero-width range has a value in `es`. */
  ghost predicate FlatValueIn(ranges: Dict<string, Range>, es: Params) {
    exists k :: k in Keys(ranges) && Flat(ranges, k) && ValuesIn(es, k) != []
  }

  ghost predicate FlatValueOf(ranges: Dict<string, Range>, files: seq<ParsedFile>) {
    exists k :: k in Keys(ranges) && Flat(ranges, k) && ValuesOf(files, k) != []
  }

  /** Assigning one in-range value: it fails exactly on a zero-width range,
      and otherwise the counters hold one more value of that parameter. */
  lemma AssignStep(acc: Counts, ranges: Dict<string, Range>, p: seq<ParsedFile>, init: Params, e: (string, Option<real>))
    requires CountsHold(acc, ranges, p, init)
    requires e.1.Some? && e.0 in Keys(ranges)
    requires Get(ranges, e.0).value.lo <= e.1.value <= Get(ranges, e.0).value.hi
    ensures AssignToBatch(e.1.value, e.0, acc, ranges).Ok? <==> !Flat(ranges, e.0)
    ensures AssignToBatch(e.1.value, e.0, acc, ranges).Ok? ==>
              CountsHold(AssignToBatch(e.1.value, e.0, acc, ranges).value, ranges, p, init + [e])
  {
    var x := e.1.value;
    var rg := Get(ranges, e.0).value;
    assert e.0 in Keys(acc);
    if rg.lo < rg.hi {
      var c' := AssignToBatch(x, e.0, acc, ranges).value;
      IncrementHolds(acc, c', ranges, p, init, e);
    }
  }

  lemma IncrementHolds(acc: Counts, c': Counts, ranges: Dict<string, Range>, p: seq<ParsedFile>, init: Params,
                       e: (string, Option<real>))
    requires CountsHold(acc, ranges, p, init)
    requires e.1.Some? && e.0 in Keys(ranges)
    requires Get(ranges, e.0).value.lo < Get(ranges, e.0).value.hi
    requires Get(ranges, e.0).value.lo <= e.1.value <= Get(ranges, e.0).value.hi
    requires Incremented(acc, c', e.0, Bin(BinIndex(e.1.value, Get(ranges, e.0).value)))
    ensures CountsHold(c', ranges, p, init + [e])
  {
    assert Keys(c') == Keys(acc);
    forall k | k in Keys(c')
      ensures BinsHold(Get(c', k).value, ValuesOf(p, k) + ValuesIn(init + [e], k), Get(ranges, k).value)
    {
      var b := Get(acc, k).value;
      var b' := Get(c', k).value;
      assert BinsHold(b, ValuesOf(p, k) + ValuesIn(init, k), Get(ranges, k).value);
      assert k != e.0 ==> b' == b;
      IncrementHoldsAt(b, b', ValuesOf(p, k), Get(ranges, k).value, init, e, k);
    }
  }

  /** The counters of one parameter after one more field: that value counted
      in its bin if the field is that parameter's, the same otherwise. */
  lemma IncrementHoldsAt(b: Bins, b': Bins, pre: seq<real>, rg: Range, init: Params,
                         e: (string, Option<real>), k: string)
    requires BinsHold(b, pre + ValuesIn(init, k), rg)
    requires e.1.Some?
    requires k == e.0 ==> rg.lo < rg.hi && rg.lo <= e.1.value <= rg.hi && b' == Bump(b, Bin(BinIndex(e.1.value, rg)))
    requires k != e.0 ==> b' == b
    ensures BinsHold(b', pre + ValuesIn(init + [e], k), rg)
  {
    ValuesInSnoc(init, e, k);
    if k == e.0 {
      var vs := pre + ValuesIn(init, k);
      assert pre + ValuesIn(init + [e], k) == vs + [e.1.value];
      BinsStep(b, b', vs, e.1.value, rg);
    } else {
      assert ValuesIn(init + [e], k) == ValuesIn(init, k);
    }
  }

  /** One more in-range value counted in the bin it falls in. */
  lemma BinsStep(b: Bins, b': Bins, vs: seq<real>, x: real, rg: Range)
    requires BinsHold(b, vs, rg)
    requires rg.lo < rg.hi && rg.lo <= x <= rg.hi
    requires b' == Bump(b, Bin(BinIndex(x, rg)))
    ensures BinsHold(b', vs + [x], rg)
  {
    var i := BinIndex(x, rg);
    assert Bin(i) == BinKeys()[i];
    ShapedStep(b, b', Bin(i), |vs|);
    BinsStepCount(b, b', vs, x, rg);
  }

  /** One more value counted in a bin that exists. */
  lemma ShapedStep(b: Bins, b': Bins, key: BinKey, n: nat)
    requires BinsShaped(b, n)
    requires key in BinKeys()
    requires b' == Bump(b, key)
    ensures BinsShaped(b', n + 1)
  {
    var v := Get(b, key).GetOr(0) + 1;
    assert b' == Put(b, key, v);
    assert key in Keys(b);
    assert Keys(b') == Keys(b);
    SumCountsPut(b, key, v);
    assert SumCounts(b') == SumCounts(b) + 1;
    PutEntries(b, key, v);
    GetStored(b, key);
    forall i | 0 <= i < |b'|
      ensures b'[i].1 >= 0
    {
      if b'[i] != (key, v) {
        var j :| 0 <= j < |b| && b[j] == b'[i];
      }
    }
  }

  /** Only the bin `x` falls in counts one more value. */
  lemma BinsStepCount(b: Bins, b': Bins, vs: seq<real>, x: real, rg: Range)
    requires forall j :: 0 <= j < BIN_COUNT ==> Get(b, Bin(j)) == Some(CountIn(vs, rg, j))
    requires rg.lo < rg.hi && rg.lo <= x <= rg.hi
    requires b' == Bump(b, Bin(BinIndex(x, rg)))
    ensures forall j :: 0 <= j < BIN_COUNT ==> Get(b', Bin(j)) == Some(CountIn(vs + [x], rg, j))
  {
    var i := BinIndex(x, rg);
    var v := Get(b, Bin(i)).GetOr(0) + 1;
    assert b' == Put(b, Bin(i), v);
    forall j | 0 <= j < BIN_COUNT
      ensures Get(b', Bin(j)) == Some(CountIn(vs + [x], rg, j))
    {
      assert InBin(x, rg, j) <==> i == j;
      BinStepAt(b, i, v, vs, x, rg, j);
    }
  }

  lemma BinStepAt(b: Bins, i: nat, v: int, vs: seq<real>, x: real, rg: Range, j: nat)
    requires Get(b, Bin(j)) == Some(CountIn(vs, rg, j))
    requires InBin(x, rg, j) <==> i == j
    requires v == Get(b, Bin(i)).GetOr(0) + 1
    ensures Get(Put(b, Bin(i), v), Bin(j)) == Some(CountIn(vs + [x], rg, j))
  {
    CountInSnoc(vs, x, rg, j);
    GetPut(b, Bin(i), v, Bin(j));
  }

  lemma ValuesInSnoc(init: Params, e: (string, Option<real>), k: string)
    ensures ValuesIn(init + [e], k) == ValuesIn(init, k) + (if e.0 == k && e.1.Some? then [e.1.value] else [])
  {
    assert (init + [e])[..|init|] == init;
  }

  lemma {:induction false} AssignEntriesSpec(c: Counts, ranges: Dict<string, Range>, p: seq<ParsedFile>, es: Params)
    requires CountsHold(c, ranges, p, [])
    requires InRange(EntryObs(es), ranges)
    ensures AssignEntries(c, ranges, es).Ok? <==> !FlatValueIn(ranges, es)
    ensures AssignEntries(c, ranges, es).Ok? ==> CountsHold(AssignEntries(c, ranges, es).value, ranges, p, es)
  {
    if es == [] {
      assert !FlatValueIn(ranges, es);
    } else {
      var e := es[|es| - 1];
      var init := es[..|es| - 1];
      assert es == init + [e];
      assert EntryObs(init) <= EntryObs(es);
      AssignEntriesSpec(c, ranges, p, init);
      var r := AssignEntries(c, ranges, init);
      if e.1.Some? {
        assert (e.0, e.1.value) in EntryObs(es);
        InRangeAt(EntryObs(es), ranges, e.0, e.1.value);
      }
      FlatValueInSnoc(ranges, init, e);
      if r.Ok? {
        if e.1.Some? {
          assert e.0 in Keys(r.value);
          AssignStep(r.value, ranges, p, init, e);
        } else {
          CountsHoldNone(r.value, ranges, p, init, e);
        }
      }
    }
  }

  /** One more field adds a zero-width parameter's value exactly when it is a
      numeric field of such a parameter. */
  lemma FlatValueInSnoc(ranges: Dict<string, Range>, init: Params, e: (string, Option<real>))
    requires e.1.Some? ==> e.0 in Keys(ranges)
    ensures FlatValueIn(ranges, init + [e]) <==> FlatValueIn(ranges, init) || (e.1.Some? && Flat(ranges, e.0))
  {
    forall k {
      ValuesInSnoc(init, e, k);
    }
    if e.1.Some? && Flat(ranges, e.0) {
      assert ValuesIn(init + [e], e.0) != [];
    }
  }

  /** A field without a number changes no counter. */
  lemma CountsHoldNone(c: Counts, ranges: Dict<string, Range>, p: seq<ParsedFile>, init: Params, e: (string, Option<real>))
    requires e.1.None?
    requires CountsHold(c, ranges, p, init)
    ensures CountsHold(c, ranges, p, init + [e])
  {
    forall k | k in Keys(c)
      ensures BinsHold(Get(c, k).value, ValuesOf(p, k) + ValuesIn(init + [e], k), Get(ranges, k).value)
    {
      ValuesInSnoc(init, e, k);
      assert ValuesIn(init + [e], k) == ValuesIn(init, k);
    }
  }

  lemma {:induction false} AssignFilesSpec(ranges: Dict<string, Range>, files: seq<ParsedFile>)
    requires Distinct(ranges)
    requires InRange(Obs(files), ranges)
    ensures AssignFiles(InitialCounts(ranges), ranges, files).Ok? <==> !FlatValueOf(ranges, files)
    ensures AssignFiles(InitialCounts(ranges), ranges, files).Ok? ==>
              CountsHold(AssignFiles(InitialCounts(ranges), ranges, files).value, ranges, files, [])
  {
    var c0 := InitialCounts(ranges);
    if files == [] {
      assert !FlatValueOf(ranges, files);
      InitialCountsHold(ranges);
    } else {
      var f := files[|files| - 1];
      var init := files[..|files| - 1];
      assert InRange(Obs(init), ranges);
      AssignFilesSpec(ranges, init);
      FlatValueOfSnoc(ranges, files);
      var r := AssignFiles(c0, ranges, init);
      if r.Ok? {
        if Processed(f) {
          assert InRange(EntryObs(f.value), ranges);
          AssignEntriesSpec(r.value, ranges, init, f.value);
          var r' := AssignEntries(r.value, ranges, f.value);
          if r'.Ok? {
            CountsHoldFile(r'.value, ranges, files);
          }
        } else {
          CountsHoldSkip(r.value, ranges, files);
        }
      }
    }
  }

  /** The counters as initialised hold nothing. */
  lemma InitialCountsHold(ranges: Dict<string, Range>)
    requires Distinct(ranges)
    ensures CountsHold(InitialCounts(ranges), ranges, [], [])
  {
    var c0 := InitialCounts(ranges);
    forall k | k in Keys(c0)
      ensures BinsHold(Get(c0, k).value, ValuesOf([], k) + ValuesIn([], k), Get(ranges, k).value)
    {
      InitialCountsAt(ranges, k);
      EmptyBinsHold(ValuesOf([], k) + ValuesIn([], k), Get(ranges, k).value);
    }
  }

  /** One more label adds a zero-width parameter's value exactly when it
      holds a numeric field of such a parameter. */
  lemma FlatValueOfSnoc(ranges: Dict<string, Range>, files: seq<ParsedFile>)
    requires files != []
    ensures var f := files[|files| - 1];
            FlatValueOf(ranges, files) <==>
              FlatValueOf(ranges, files[..|files| - 1]) || (Processed(f) && FlatValueIn(ranges, f.value))
  {
    var f := files[|files| - 1];
    var init := files[..|files| - 1];
    assert forall k :: ValuesOf(files, k) == ValuesOf(init, k) + (if f.Some? then ValuesIn(f.value, k) else []);
    if f.Some? && f.value == [] {
      assert forall k :: ValuesIn(f.value, k) == [];
    }
  }

  /** Counters after the fields of the last label are counters after the
      whole batch. */
  lemma CountsHoldFile(c: Counts, ranges: Dict<string, Range>, files: seq<ParsedFile>)
    requires files != [] && Processed(files[|files| - 1])
    requires CountsHold(c, ranges, files[..|files| - 1], files[|files| - 1].value)
    ensures CountsHold(c, ranges, files, [])
  {
    var f := files[|files| - 1];
    var init := files[..|files| - 1];
    forall k | k in Keys(c)
      ensures BinsHold(Get(c, k).value, ValuesOf(files, k) + ValuesIn([], k), Get(ranges, k).value)
    {
      assert ValuesOf(files, k) + ValuesIn([], k) == ValuesOf(init, k) + ValuesIn(f.value, k);
    }
  }

  /** A label that is not processed changes no counter. */
  lemma CountsHoldSkip(c: Counts, ranges: Dict<string, Range>, files: seq<ParsedFile>)
    requires files != [] && !Processed(files[|files| - 1])
    requires CountsHold(c, ranges, files[..|files| - 1], [])
    ensures CountsHold(c, ranges, files, [])
  {
    var f := files[|files| - 1];
    var init := files[..|files| - 1];
    forall k | k in Keys(c)
      ensures BinsHold(Get(c, k).value, ValuesOf(files, k) + ValuesIn([], k), Get(ranges, k).value)
    {
      assert ValuesOf(files, k) == ValuesOf(init, k) by {
        if f.Some? {
          assert f.value == [];
        }
      }
      assert ValuesIn([], k) == [];
    }
  }

  /** Every parameter with a range starts with ten zero counters. */
  lemma InitialCountsAt(ranges: Dict<string, Range>, k: string)
    requires Distinct(ranges)
    requires k in Keys(ranges)
    ensures Get(InitialCounts(ranges), k) == Some(EmptyBins())
  {
    var c0 := InitialCounts(ranges);
    assert Distinct(c0);
    var i :| 0 <= i < |c0| && c0[i].0 == k;
    GetEntry(c0, i);
  }

  /** Ten zero counters hold no value. */
  lemma EmptyBinsHold(vs: seq<real>, rg: Range)
    requires vs == []
    ensures BinsHold(EmptyBins(), vs, rg)
  {
    var b := EmptyBins();
    assert Keys(b) == BinKeys();
    ZeroCounts(b);
    assert Distinct(b);
    forall j | 0 <= j < BIN_COUNT
      ensures Get(b, Bin(j)) == Some(CountIn([], rg, j))
    {
      GetEntry(b, j);
    }
  }

  lemma {:induction false} ZeroCounts(b: Bins)
    requires forall i :: 0 <= i < |b| ==> b[i].1 == 0
    ensures SumCounts(b) == 0
  {
    if b != [] {
      ZeroCounts(b[1..]);
    }
  }

  /** The histogram of a batch fails exactly when some parameter's values
      are all equal. */
  lemma BatchCounterFails(files: seq<ParsedFile>)
    ensures var ranges := ParameterRanges(files);
            BatchCounter(files).Ok? <==> forall k :: k in Keys(ranges) ==> Get(ranges, k).value.lo < Get(ranges, k).value.hi
  {
    BatchCounterSpec(files);
  }

  /** The histogram of a batch succeeds exactly when every parameter's range
      has positive width (a parameter whose values are all equal makes the
      floor division by a zero width raise); then every parameter keeps just
      its ten bins, no value falls outside its range, and the bins of a
      parameter together count every numeric value it has in the batch,
      bin `j` holding exactly those whose bin index is `j`. */
  lemma BatchCounterSpec(files: seq<ParsedFile>)
    ensures var ranges := ParameterRanges(files);
            BatchCounter(files).Ok? <==> forall k :: k in Keys(ranges) ==> Get(ranges, k).value.lo < Get(ranges, k).value.hi
    ensures BatchCounter(files).Ok? ==>
              var res := BatchCounter(files).value;
              && res.total == |files|
              && res.processed == |ProcessedSet(files)|
              && Keys(res.counts) == Keys(ParameterRanges(files))
              && forall k :: k in Keys(res.counts) ==>
                   && var b := Get(res.counts, k).value;
                   && Keys(b) == BinKeys()
                   && (forall i :: 0 <= i < |b| ==> b[i].1 >= 0)
                   && SumCounts(b) == |ValuesOf(files, k)|
                   && forall j :: 0 <= j < BIN_COUNT ==>
                        Get(b, Bin(j)) == Some(CountIn(ValuesOf(files, k), Get(ParameterRanges(files), k).value, j))
  {
    var ranges := ParameterRanges(files);
    var S := Obs(files);
    assert Summarizes(ranges, S);
    AssignFilesSpec(ranges, files);
    var ok := BatchCounter(files).Ok?;
    assert ok <==> !FlatValueOf(ranges, files);
    forall k | k in Keys(ranges)
      ensures ValuesOf(files, k) != []
    {
      var x :| (k, x) in S;
      ValuesOfObs(files, k, x);
    }
    if ok {
      var res := BatchCounter(files).value;
      forall k | k in Keys(res.counts)
        ensures ValuesOf(files, k) + ValuesIn([], k) == ValuesOf(files, k)
      {
      }
    }
  }
}
