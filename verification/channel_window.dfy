/** `process_and_plot_fits` before plotting: the spectrum's rows are kept
    where the channel lies in the inclusive band 37..800, and the kept counts
    have the background's counts at the same rows subtracted. Reading the
    FITS files and drawing the plot are not modelled; the spectrum arrives
    as its table rows and the background, when one is given, as its COUNTS
    column. */
module ChannelWindow {
  import opened Wrappers

  /** The inclusive channel band that is plotted. */
  const LOW_CHANNEL: int := 37
  const HIGH_CHANNEL: int := 800

  predicate InBand(ch: int) {
    LOW_CHANNEL <= ch <= HIGH_CHANNEL
  }

  /** The spectrum table, one (CHANNEL, COUNTS) pair per row. */
  type Spectrum = seq<(int, real)>

  /** numpy's boolean index fails when the mask and the array differ in
      length. */
  datatype WindowError = MaskMismatch(maskLength: nat, arrayLength: nat)

  /** The plotted series. */
  datatype Plotted = Plotted(channels: seq<int>, counts: seq<real>)

  // ---------------------------------------------------------------------
  // Boolean masks

  /** The number of rows a mask keeps. */
  function Kept(mask: seq<bool>): nat
    decreases mask
  {
    if mask == [] then 0 else (if mask[0] then 1 else 0) + Kept(mask[1..])
  }

  /** The kept row numbers in increasing order, counted from `base`. */
  function Positions(mask: seq<bool>, base: int): (r: seq<int>)
    ensures |r| == Kept(mask)
    decreases mask
  {
    if mask == [] then [] else (if mask[0] then [base] else []) + Positions(mask[1..], base + 1)
  }

  /** `xs[mask]` for a mask of the array's own length. */
  function Pick<T>(xs: seq<T>, mask: seq<bool>): (r: seq<T>)
    requires |xs| == |mask|
    ensures |r| == Kept(mask)
    decreases xs
  {
    if xs == [] then [] else (if mask[0] then [xs[0]] else []) + Pick(xs[1..], mask[1..])
  }

  /** Every position is a kept row of the mask. */
  lemma {:induction false} PositionsKept(mask: seq<bool>, base: int)
    ensures forall j :: 0 <= j < |Positions(mask, base)| ==>
              base <= Positions(mask, base)[j] < base + |mask| && mask[Positions(mask, base)[j] - base]
    decreases mask
  {
    if mask != [] {
      var rest := Positions(mask[1..], base + 1);
      PositionsKept(mask[1..], base + 1);
      var p := Positions(mask, base);
      var head: seq<int> := if mask[0] then [base] else [];
      assert p == head + rest;
      forall j | 0 <= j < |p|
        ensures base <= p[j] < base + |mask| && mask[p[j] - base]
      {
        if j >= |head| {
          var k := j - |head|;
          assert p[j] == rest[k];
          assert base + 1 <= rest[k] < base + 1 + |mask[1..]| && mask[1..][rest[k] - (base + 1)];
        }
      }
    }
  }

  /** The positions increase strictly. */
  lemma {:induction false} PositionsIncrease(mask: seq<bool>, base: int)
    ensures forall j, k :: 0 <= j < k < |Positions(mask, base)| ==> Positions(mask, base)[j] < Positions(mask, base)[k]
    decreases mask
  {
    if mask != [] {
      var rest := Positions(mask[1..], base + 1);
      PositionsIncrease(mask[1..], base + 1);
      PositionsKept(mask[1..], base + 1);
      var p := Positions(mask, base);
      var head: seq<int> := if mask[0] then [base] else [];
      assert p == head + rest;
      forall j, k | 0 <= j < k < |p|
        ensures p[j] < p[k]
      {
        assert p[k] == rest[k - |head|];
        if j >= |head| {
          assert p[j] == rest[j - |head|];
        }
      }
    }
  }

  /** Every kept row of the mask is a position. */
  lemma {:induction false} PositionsComplete(mask: seq<bool>, base: int)
    ensures forall i :: 0 <= i < |mask| && mask[i] ==> base + i in Positions(mask, base)
    decreases mask
  {
    if mask != [] {
      var rest := Positions(mask[1..], base + 1);
      PositionsComplete(mask[1..], base + 1);
      var p := Positions(mask, base);
      var head: seq<int> := if mask[0] then [base] else [];
      assert p == head + rest;
      forall i | 0 <= i < |mask| && mask[i]
        ensures base + i in p
      {
        if i > 0 {
          assert mask[1..][i - 1] == mask[i];
          assert base + 1 + (i - 1) in rest;
        } else {
          assert p[0] == base;
        }
      }
    }
  }

  /** Row `j` of the picked array is the array's row at the `j`th kept
      position. */
  lemma {:induction false} PickAt<T>(xs: seq<T>, mask: seq<bool>, base: int)
    requires |xs| == |mask|
    ensures var p := Positions(mask, base);
            forall j :: 0 <= j < |p| ==> 0 <= p[j] - base < |xs| && Pick(xs, mask)[j] == xs[p[j] - base]
    decreases xs
  {
    PositionsKept(mask, base);
    if xs != [] {
      PickAt(xs[1..], mask[1..], base + 1);
      var p := Positions(mask, base);
      var rest := Positions(mask[1..], base + 1);
      var head: seq<int> := if mask[0] then [base] else [];
      var picked: seq<T> := if mask[0] then [xs[0]] else [];
      assert p == head + rest;
      assert Pick(xs, mask) == picked + Pick(xs[1..], mask[1..]);
      forall j | 0 <= j < |p|
        ensures Pick(xs, mask)[j] == xs[p[j] - base]
      {
        if j >= |head| {
          assert p[j] == rest[j - |head|];
          assert Pick(xs, mask)[j] == Pick(xs[1..], mask[1..])[j - |head|];
        }
      }
    }
  }

  // ---------------------------------------------------------------------
  // The window and the subtraction

  /** `(channels >= 37) & (channels <= 800)`. */
  function Mask(rows: Spectrum): (m: seq<bool>)
    ensures |m| == |rows|
  {
    seq(|rows|, i requires 0 <= i < |rows| => InBand(rows[i].0))
  }

  function ChannelColumn(rows: Spectrum): (r: seq<int>)
    ensures |r| == |rows|
  {
    seq(|rows|, i requires 0 <= i < |rows| => rows[i].0)
  }

  function CountColumn(rows: Spectrum): (r: seq<real>)
    ensures |r| == |rows|
  {
    seq(|rows|, i requires 0 <= i < |rows| => rows[i].1)
  }

  /** The series `process_and_plot_fits` plots: channels and counts masked
      to the band, the masked background subtracted when there is one. */
  function Windowed(rows: Spectrum, background: Option<seq<real>>): Result<Plotted, WindowError> {
    var mask := Mask(rows);
    var channels := Pick(ChannelColumn(rows), mask);
    var counts := Pick(CountColumn(rows), mask);
    match background
    case None => Ok(Plotted(channels, counts))
    case Some(bg) =>
      if |bg| != |mask| then Err(MaskMismatch(|mask|, |bg|))
      else
        var sub := Pick(bg, mask);
        Ok(Plotted(channels, seq(|counts|, j requires 0 <= j < |counts| => counts[j] - sub[j])))
  }

  /** The background count subtracted at original row `i`. */
  function BackgroundAt(background: Option<seq<real>>, i: int): real {
    if background.Some? && 0 <= i < |background.value| then background.value[i] else 0.0
  }

  /** The kept rows are exactly the in-band rows, each once, in their
      original order. */
  lemma KeptRows(rows: Spectrum)
    ensures var p := Positions(Mask(rows), 0);
            && (forall j :: 0 <= j < |p| ==> 0 <= p[j] < |rows| && InBand(rows[p[j]].0))
            && (forall j, k :: 0 <= j < k < |p| ==> p[j] < p[k])
            && (forall i :: 0 <= i < |rows| ==> (InBand(rows[i].0) <==> i in p))
  {
    var mask := Mask(rows);
    var p := Positions(mask, 0);
    PositionsKept(mask, 0);
    PositionsIncrease(mask, 0);
    PositionsComplete(mask, 0);
    forall j | 0 <= j < |p|
      ensures InBand(rows[p[j]].0)
    {
      assert mask[p[j] - 0];
    }
    forall i | 0 <= i < |rows| && InBand(rows[i].0)
      ensures i in p
    {
      assert mask[i];
      assert 0 + i in p;
    }
  }

  /** The window fails exactly when a background of another length than the
      spectrum is given. Otherwise plotted point `j` pairs the `j`th kept
      row's channel, which lies in the band, with its count less the
      background count at that same row. */
  lemma WindowedSpec(rows: Spectrum, background: Option<seq<real>>)
    ensures Windowed(rows, background).Ok? <==> background.None? || |background.value| == |rows|
    ensures Windowed(rows, background).Ok? ==>
              var out := Windowed(rows, background).value;
              var p := Positions(Mask(rows), 0);
              && |out.channels| == |p| && |out.counts| == |p|
              && forall j :: 0 <= j < |p| ==>
                   && 0 <= p[j] < |rows|
                   && out.channels[j] == rows[p[j]].0
                   && InBand(out.channels[j])
                   && out.counts[j] == rows[p[j]].1 - BackgroundAt(background, p[j])
  {
    var mask := Mask(rows);
    KeptRows(rows);
    PickAt(ChannelColumn(rows), mask, 0);
    PickAt(CountColumn(rows), mask, 0);
    if background.Some? && |background.value| == |rows| {
      PickAt(background.value, mask, 0);
    }
  }

  /** A background of zeros changes nothing. */
  lemma ZeroBackground(rows: Spectrum, bg: seq<real>)
    requires |bg| == |rows|
    requires forall i :: 0 <= i < |bg| ==> bg[i] == 0.0
    ensures Windowed(rows, Some(bg)) == Windowed(rows, None)
  {
    var mask := Mask(rows);
    PickAt(bg, mask, 0);
    PositionsKept(mask, 0);
    var counts := Pick(CountColumn(rows), mask);
    var sub := Pick(bg, mask);
    assert seq(|counts|, j requires 0 <= j < |counts| => counts[j] - sub[j]) == counts;
  }

  /** Without a background the plotted counts are the kept rows' own
      counts. */
  lemma NoBackground(rows: Spectrum)
    ensures Windowed(rows, None).Ok?
    ensures var out := Windowed(rows, None).value;
            var p := Positions(Mask(rows), 0);
            |out.counts| == |p| &&
            forall j :: 0 <= j < |p| ==> 0 <= p[j] < |rows| && out.counts[j] == rows[p[j]].1
  {
    WindowedSpec(rows, None);
  }
}
