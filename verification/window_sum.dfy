/** `add_l1_files_time`: the files whose time stamps fall inside a UTC window
    are summed channel by channel into one 2048-channel spectrum, written with
    the window's exposure under a name built from the window. Parsing the
    times to seconds (`utc_to_seconds`, which goes through `strptime` and the
    local time zone) is a parameter; reading and writing FITS files is not
    modelled. */
module WindowSum {
  import opened Wrappers

  // ---------------------------------------------------------------------
  // Time strings

  /** Python's `s[i:j]` for non-negative bounds: both ends clamped to the
      length. */
  function Slice(s: string, i: nat, j: nat): (r: string)
    requires i <= j
    ensures j <= |s| ==> r == s[i..j]
    ensures |r| <= j - i
  {
    var hi := if j < |s| then j else |s|;
    var lo := if i < hi then i else hi;
    s[lo..hi]
  }

  /** `convert_time_str_format`: `YYYYMMDDTHHMMSSMMM` to
      `YYYY-MM-DDTHH:MM:SS.MMM`, by fixed positions; the input's own `T`
      (index 8) is not copied. */
  function ConvertTimeStr(t: string): string {
    var tail := if 15 <= |t| then t[15..] else "";
    Slice(t, 0, 4) + "-" + Slice(t, 4, 6) + "-" + Slice(t, 6, 8) + "T" + Slice(t, 9, 11) + ":" +
    Slice(t, 11, 13) + ":" + Slice(t, 13, 15) + "." + tail
  }

  /** Where each character of the converted form comes from: the separator
      positions of the ISO layout, every other output position from a fixed
      input position. */
  predicate IsSeparator(k: int) {
    k == 4 || k == 7 || k == 10 || k == 13 || k == 16 || k == 19
  }

  function SeparatorAt(k: int): char
    requires IsSeparator(k)
  {
    if k == 4 || k == 7 then '-' else if k == 10 then 'T' else if k == 19 then '.' else ':'
  }

  /** The input position copied to output position `k`. */
  function SourceOf(k: int): int
    requires !IsSeparator(k)
  {
    if k < 4 then k
    else if k < 7 then k - 1
    else if k < 13 then k - 2
    else if k < 16 then k - 3
    else if k < 19 then k - 4
    else k - 5
  }

  /** The ISO layout of a full 18-character stamp: 23 characters, the six
      separators in place, every other character copied from its source
      position. */
  lemma ConvertLayout(t: string)
    requires |t| == 18
    ensures |ConvertTimeStr(t)| == 23
    ensures forall k :: 0 <= k < 23 && IsSeparator(k) ==> ConvertTimeStr(t)[k] == SeparatorAt(k)
    ensures forall k :: 0 <= k < 23 && !IsSeparator(k) ==> 0 <= SourceOf(k) < 18 && SourceOf(k) != 8 && ConvertTimeStr(t)[k] == t[SourceOf(k)]
  {
    var r := ConvertTimeStr(t);
    var a := t[0..4] + "-" + t[4..6] + "-";
    var b := t[6..8] + "T" + t[9..11] + ":";
    var c := t[11..13] + ":" + t[13..15] + "." + t[15..];
    assert r == a + b + c;
    assert |a| == 8 && |b| == 6 && |c| == 9;
    forall k | 0 <= k < 23
      ensures IsSeparator(k) ==> r[k] == SeparatorAt(k)
      ensures !IsSeparator(k) ==> r[k] == t[SourceOf(k)]
    {
      if k < 8 {
        assert r[k] == a[k];
      } else if k < 14 {
        assert r[k] == b[k - 8];
      } else {
        assert r[k] == c[k - 14];
      }
    }
  }

  /** Deleting the five separators the conversion inserts. */
  function DropSeparators(r: string): string
    requires |r| >= 20
  {
    r[..4] + r[5..7] + r[8..13] + r[14..16] + r[17..19] + r[20..]
  }

  /** Round trip: deleting the separators from the converted form gives back
      the stamp, with its `T` at index 8 whatever was there. */
  lemma ConvertRoundTrip(t: string)
    requires |t| == 18
    ensures |ConvertTimeStr(t)| == 23
    ensures DropSeparators(ConvertTimeStr(t)) == t[8 := 'T']
  {
    ConvertLayout(t);
    var r := ConvertTimeStr(t);
    var d := DropSeparators(r);
    assert |d| == 18;
    forall k | 0 <= k < 18
      ensures d[k] == t[8 := 'T'][k]
    {
      var j := if k < 4 then k else if k < 6 then k + 1 else if k < 11 then k + 2 else if k < 13 then k + 3 else if k < 15 then k + 4 else k + 5;
      assert d[k] == r[j];
      if j != 10 {
        assert !IsSeparator(j) && SourceOf(j) == k;
      }
    }
  }

  /** The other direction: an ISO string with its separators in place is the
      conversion of what is left once they are deleted. */
  lemma ConvertInverse(r: string)
    requires |r| == 23
    requires forall k :: 0 <= k < 23 && IsSeparator(k) ==> r[k] == SeparatorAt(k)
    ensures ConvertTimeStr(DropSeparators(r)) == r
  {
    var t := DropSeparators(r);
    assert |t| == 18;
    ConvertLayout(t);
    var c := ConvertTimeStr(t);
    forall k | 0 <= k < 23
      ensures c[k] == r[k]
    {
      if !IsSeparator(k) {
        var j := SourceOf(k);
        assert t[j] == r[k];
      }
    }
  }

  // ---------------------------------------------------------------------
  // File names

  /** The start stamp of an L1 file name: characters 11 to 28. */
  function StartStamp(name: string): string {
    Slice(name, 11, 29)
  }

  /** The end stamp of an L1 file name: characters 30 to 47. */
  function EndStamp(name: string): string {
    Slice(name, 30, 48)
  }

  /** A name of at least 48 characters yields two full 18-character stamps,
      each converted to the 23-character ISO layout. */
  lemma StampsOfName(name: string)
    requires |name| >= 48
    ensures StartStamp(name) == name[11..29] && EndStamp(name) == name[30..48]
    ensures |ConvertTimeStr(StartStamp(name))| == 23 && |ConvertTimeStr(EndStamp(name))| == 23
    ensures ConvertTimeStr(StartStamp(name))[10] == 'T' && ConvertTimeStr(EndStamp(name))[10] == 'T'
  {
    ConvertLayout(StartStamp(name));
    ConvertLayout(EndStamp(name));
    assert IsSeparator(10) && SeparatorAt(10) == 'T';
  }

  /** `s.replace(":", "-")`. */
  function ReplaceColons(s: string): (r: string)
    ensures |r| == |s|
    ensures forall i :: 0 <= i < |s| ==> r[i] == if s[i] == ':' then '-' else s[i]
  {
    if s == [] then [] else [if s[0] == ':' then '-' else s[0]] + ReplaceColons(s[1..])
  }

  /** `added_<start>_<end>.fits`, colons replaced. */
  function OutputName(startUtc: string, endUtc: string): string {
    "added_" + ReplaceColons(startUtc) + "_" + ReplaceColons(endUtc) + ".fits"
  }

  /** The output name holds no colon, whatever the window strings hold, and
      keeps every other character of the two window strings in place. */
  lemma OutputNameSpec(startUtc: string, endUtc: string)
    ensures var n := OutputName(startUtc, endUtc);
            && ':' !in n
            && |n| == |startUtc| + |endUtc| + 12
            && n[..6] == "added_" && n[|n| - 5..] == ".fits"
            && (forall i :: 0 <= i < |startUtc| && startUtc[i] != ':' ==> n[6 + i] == startUtc[i])
            && (forall i :: 0 <= i < |endUtc| && endUtc[i] != ':' ==> n[7 + |startUtc| + i] == endUtc[i])
  {
    var a := ReplaceColons(startUtc);
    var b := ReplaceColons(endUtc);
    var n := OutputName(startUtc, endUtc);
    assert n == "added_" + a + "_" + b + ".fits";
    assert ':' !in a && ':' !in b;
    forall i | 0 <= i < |n|
      ensures n[i] != ':'
    {
      if i < 6 {
        assert n[i] == "added_"[i];
      } else if i < 6 + |a| {
        assert n[i] == a[i - 6];
      } else if i == 6 + |a| {
        assert n[i] == '_';
      } else if i < 7 + |a| + |b| {
        assert n[i] == b[i - 7 - |a|];
      } else {
        assert n[i] == ".fits"[i - 7 - |a| - |b|];
      }
    }
  }

  // ---------------------------------------------------------------------
  // Selection and summation

  /** The length of the summed spectrum. */
  const CHANNELS: nat := 2048

  /** An L1 file: its name and its COUNTS column. */
  datatype L1File = L1File(name: string, counts: seq<real>)

  datatype SumError =
    | BadTime(text: string)                  // `strptime` rejects a time string
    | ShapeMismatch(name: string, length: nat) // numpy cannot broadcast the column

  /** The window test of the selection loop. */
  predicate InWindow(start: int, end: int, windowStart: int, windowEnd: int) {
    start >= windowStart && end <= windowEnd
  }

  /** `utc_to_seconds` applied to a time string; `secs` stands for the
      library parse, None where it raises. */
  function Seconds(text: string, secs: string -> Option<int>): Result<int, SumError> {
    match secs(text)
    case None => Err(BadTime(text))
    case Some(v) => Ok(v)
  }

  /** Both stamps of a file, converted and parsed before the window test. */
  function FileTimes(f: L1File, secs: string -> Option<int>): Result<(int, int), SumError> {
    var start :- Seconds(ConvertTimeStr(StartStamp(f.name)), secs);
    var end :- Seconds(ConvertTimeStr(EndStamp(f.name)), secs);
    Ok((start, end))
  }

  /** The parsed start and end of a file, or the parse error. */
  type Stamps = L1File -> Result<(int, int), SumError>

  /** The stamps the script derives from the file names. */
  function NameStamps(secs: string -> Option<int>): Stamps {
    f => FileTimes(f, secs)
  }

  /** A column numpy can add into an array of length `n`. */
  predicate Fits(data: seq<real>, n: nat) {
    |data| == n || |data| == 1
  }

  /** `summed_data += data`: element-wise when the lengths agree, a single
      value added everywhere, None where numpy raises. */
  function AddCounts(acc: seq<real>, data: seq<real>): Option<seq<real>> {
    if |data| == |acc| then Some(seq(|acc|, i requires 0 <= i < |acc| => acc[i] + data[i]))
    else if |data| == 1 then Some(seq(|acc|, i requires 0 <= i < |acc| => acc[i] + data[0]))
    else None
  }

  /** The selection loop over the files in order, from the running sum and
      the names selected so far. */
  function SumFrom(acc: seq<real>, names: seq<string>, fs: seq<L1File>, ws: int, we: int, times: Stamps)
    : Result<(seq<real>, seq<string>), SumError>
    decreases fs
  {
    if fs == [] then Ok((acc, names))
    else
      var t :- times(fs[0]);
      if InWindow(t.0, t.1, ws, we) then
        match AddCounts(acc, fs[0].counts)
        case None => Err(ShapeMismatch(fs[0].name, |fs[0].counts|))
        case Some(next) => SumFrom(next, names + [fs[0].name], fs[1..], ws, we, times)
      else SumFrom(acc, names, fs[1..], ws, we, times)
  }

  // ---------------------------------------------------------------------
  // The reference: the selected files and their total

  /** A file whose stamps parse and lie inside the window. */
  predicate Picked(f: L1File, ws: int, we: int, times: Stamps) {
    match times(f)
    case Ok(t) => InWindow(t.0, t.1, ws, we)
    case Err(_) => false
  }

  /** What a column adds to channel `i` of an `n`-channel sum. */
  function Contribution(data: seq<real>, i: nat, n: nat): real {
    if |data| == n && i < n then data[i] else if |data| == 1 then data[0] else 0.0
  }

  /** Channel `i` summed over the picked files. */
  function WindowTotal(fs: seq<L1File>, i: nat, n: nat, ws: int, we: int, times: Stamps): real
    decreases fs
  {
    if fs == [] then 0.0
    else (if Picked(fs[0], ws, we, times) then Contribution(fs[0].counts, i, n) else 0.0) + WindowTotal(fs[1..], i, n, ws, we, times)
  }

  /** The names of the picked files, in order. */
  function PickedNames(fs: seq<L1File>, ws: int, we: int, times: Stamps): seq<string>
    decreases fs
  {
    if fs == [] then []
    else (if Picked(fs[0], ws, we, times) then [fs[0].name] else []) + PickedNames(fs[1..], ws, we, times)
  }

  /** Every stamp parses and every picked file's column can be added. */
  predicate Summable(fs: seq<L1File>, n: nat, ws: int, we: int, times: Stamps) {
    forall k :: 0 <= k < |fs| ==> times(fs[k]).Ok? && (Picked(fs[k], ws, we, times) ==> Fits(fs[k].counts, n))
  }

  /** One step of the addition: defined exactly on the columns numpy can
      broadcast, and then adding the column's contribution channel by
      channel. */
  lemma AddCountsSpec(acc: seq<real>, data: seq<real>)
    ensures AddCounts(acc, data).Some? <==> Fits(data, |acc|)
    ensures AddCounts(acc, data).Some? ==>
              |AddCounts(acc, data).value| == |acc| &&
              forall i :: 0 <= i < |acc| ==> AddCounts(acc, data).value[i] == acc[i] + Contribution(data, i, |acc|)
  {
  }

  lemma SummableCons(fs: seq<L1File>, n: nat, ws: int, we: int, times: Stamps)
    requires fs != []
    ensures Summable(fs, n, ws, we, times) <==>
              && times(fs[0]).Ok?
              && (Picked(fs[0], ws, we, times) ==> Fits(fs[0].counts, n))
              && Summable(fs[1..], n, ws, we, times)
  {
    assert forall k :: 1 <= k < |fs| ==> fs[k] == fs[1..][k - 1];
  }

  /** The loop fails exactly when a stamp does not parse or a selected
      column cannot be added. */
  lemma {:induction false} SumFromOk(acc: seq<real>, names: seq<string>, fs: seq<L1File>, ws: int, we: int, times: Stamps)
    ensures SumFrom(acc, names, fs, ws, we, times).Ok? <==> Summable(fs, |acc|, ws, we, times)
    decreases fs
  {
    if fs != [] {
      SummableCons(fs, |acc|, ws, we, times);
      var f := fs[0];
      if Picked(f, ws, we, times) {
        AddCountsSpec(acc, f.counts);
        if Fits(f.counts, |acc|) {
          SumFromOk(AddCounts(acc, f.counts).value, names + [f.name], fs[1..], ws, we, times);
        }
      } else if times(f).Ok? {
        SumFromOk(acc, names, fs[1..], ws, we, times);
      }
    }
  }

  /** Each channel of a completed sum is the running value plus that channel
      over the picked files. */
  lemma {:induction false} SumFromValue(acc: seq<real>, names: seq<string>, fs: seq<L1File>, ws: int, we: int, times: Stamps, i: nat)
    requires SumFrom(acc, names, fs, ws, we, times).Ok?
    requires i < |acc|
    ensures |SumFrom(acc, names, fs, ws, we, times).value.0| == |acc|
    ensures SumFrom(acc, names, fs, ws, we, times).value.0[i] == acc[i] + WindowTotal(fs, i, |acc|, ws, we, times)
    decreases fs
  {
    if fs != [] {
      var f := fs[0];
      if Picked(f, ws, we, times) {
        AddCountsSpec(acc, f.counts);
        var next := AddCounts(acc, f.counts).value;
        SumFromValue(next, names + [f.name], fs[1..], ws, we, times, i);
      } else {
        SumFromValue(acc, names, fs[1..], ws, we, times, i);
      }
    }
  }

  /** The selected names of a completed run are the picked files' names, in
      file order. */
  lemma {:induction false} SumFromNames(acc: seq<real>, names: seq<string>, fs: seq<L1File>, ws: int, we: int, times: Stamps)
    requires SumFrom(acc, names, fs, ws, we, times).Ok?
    ensures SumFrom(acc, names, fs, ws, we, times).value.1 == names + PickedNames(fs, ws, we, times)
    decreases fs
  {
    if fs == [] {
      assert names + [] == names;
    } else {
      var f := fs[0];
      var rest := PickedNames(fs[1..], ws, we, times);
      assert times(f).Ok?;
      if Picked(f, ws, we, times) {
        assert AddCounts(acc, f.counts).Some?;
        var next := AddCounts(acc, f.counts).value;
        assert SumFrom(acc, names, fs, ws, we, times) == SumFrom(next, names + [f.name], fs[1..], ws, we, times);
        SumFromNames(next, names + [f.name], fs[1..], ws, we, times);
        assert names + [f.name] + rest == names + ([f.name] + rest);
      } else {
        assert SumFrom(acc, names, fs, ws, we, times) == SumFrom(acc, names, fs[1..], ws, we, times);
        SumFromNames(acc, names, fs[1..], ws, we, times);
        assert [] + rest == rest;
      }
    }
  }

  // ---------------------------------------------------------------------
  // The whole run

  /** What `write_summed_fits` receives. */
  datatype Summed = Summed(
    fileName: string, exposure: int, startTime: string, endTime: string,
    selected: seq<string>,
    channel: seq<int>, counts: seq<real>)

  /** `add_l1_files_time` over the directory's files in sorted order. */
  function AddL1FilesTime(fs: seq<L1File>, startUtc: string, endUtc: string, secs: string -> Option<int>)
    : Result<Summed, SumError>
  {
    var ws :- Seconds(startUtc, secs);
    var we :- Seconds(endUtc, secs);
    var r :- SumFrom(seq(CHANNELS, _ => 0.0), [], fs, ws, we, NameStamps(secs));
    Ok(Summed(OutputName(startUtc, endUtc), we - ws, startUtc, endUtc, r.1,
              seq(|r.0|, i requires 0 <= i < |r.0| => i), r.0))
  }

  /** The run succeeds exactly when both window times parse and the files are
      summable; the output then has 2048 channels numbered from 0, each the
      sum of that channel over the files inside the window (a one-value
      column counting in every channel), the selected names in file order,
      and an exposure that depends on the window alone. */
  lemma AddL1FilesTimeSpec(fs: seq<L1File>, startUtc: string, endUtc: string, secs: string -> Option<int>)
    ensures AddL1FilesTime(fs, startUtc, endUtc, secs).Ok? <==>
              && secs(startUtc).Some? && secs(endUtc).Some?
              && Summable(fs, CHANNELS, secs(startUtc).value, secs(endUtc).value, NameStamps(secs))
    ensures AddL1FilesTime(fs, startUtc, endUtc, secs).Ok? ==>
              var out := AddL1FilesTime(fs, startUtc, endUtc, secs).value;
              var ws := secs(startUtc).value;
              var we := secs(endUtc).value;
              && out.exposure == we - ws
              && out.fileName == OutputName(startUtc, endUtc)
              && out.selected == PickedNames(fs, ws, we, NameStamps(secs))
              && |out.channel| == CHANNELS && |out.counts| == CHANNELS
              && (forall i :: 0 <= i < CHANNELS ==>
                    out.channel[i] == i && out.counts[i] == WindowTotal(fs, i, CHANNELS, ws, we, NameStamps(secs)))
  {
    if secs(startUtc).Some? && secs(endUtc).Some? {
      SumFromZero(fs, secs(startUtc).value, secs(endUtc).value, NameStamps(secs));
    }
  }

  /** The loop started from 2048 zeros and no names. */
  lemma SumFromZero(fs: seq<L1File>, ws: int, we: int, times: Stamps)
    ensures SumFrom(seq(CHANNELS, _ => 0.0), [], fs, ws, we, times).Ok? <==> Summable(fs, CHANNELS, ws, we, times)
    ensures SumFrom(seq(CHANNELS, _ => 0.0), [], fs, ws, we, times).Ok? ==>
              var r := SumFrom(seq(CHANNELS, _ => 0.0), [], fs, ws, we, times).value;
              && r.1 == PickedNames(fs, ws, we, times)
              && |r.0| == CHANNELS
              && forall i :: 0 <= i < CHANNELS ==> r.0[i] == WindowTotal(fs, i, CHANNELS, ws, we, times)
  {
    var zeros: seq<real> := seq(CHANNELS, _ => 0.0);
    SumFromOk(zeros, [], fs, ws, we, times);
    if SumFrom(zeros, [], fs, ws, we, times).Ok? {
      SumFromNames(zeros, [], fs, ws, we, times);
      assert [] + PickedNames(fs, ws, we, times) == PickedNames(fs, ws, we, times);
      SumFromValue(zeros, [], fs, ws, we, times, 0);
      forall i | 0 <= i < CHANNELS
        ensures SumFrom(zeros, [], fs, ws, we, times).value.0[i] == WindowTotal(fs, i, CHANNELS, ws, we, times)
      {
        SumFromValue(zeros, [], fs, ws, we, times, i);
      }
    }
  }

  /** With no file inside the window the sum is all zeros. */
  lemma {:induction false} NothingPicked(fs: seq<L1File>, i: nat, n: nat, ws: int, we: int, times: Stamps)
    requires forall k :: 0 <= k < |fs| ==> !Picked(fs[k], ws, we, times)
    ensures WindowTotal(fs, i, n, ws, we, times) == 0.0
    ensures PickedNames(fs, ws, we, times) == []
    decreases fs
  {
    if fs != [] {
      assert forall k :: 1 <= k < |fs| ==> fs[1..][k - 1] == fs[k];
      NothingPicked(fs[1..], i, n, ws, we, times);
    }
  }
}
