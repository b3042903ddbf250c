/** The latitude/longitude box of a group's footprints, read from the four
    corner cards of each file's header. */
module FootprintBox {
  import opened Wrappers
  import opened Reals
  import opened Grouping

  /** The header cards holding the footprint's four corners. */
  const LAT_KEYS: seq<string> := ["V0_LAT", "V1_LAT", "V2_LAT", "V3_LAT"]
  const LON_KEYS: seq<string> := ["V0_LON", "V1_LON", "V2_LON", "V3_LON"]

  /** The extent of a group's footprints. */
  datatype Box = Box(minLat: real, maxLat: real, minLon: real, maxLon: real)

  /** `float(None)` on a missing corner card raises `TypeError`. */
  datatype GroupError = MissingCorner(file: string, key: string)

  /** `[float(header.get(k)) for k in keys]`, failing on the first missing
      card. */
  function Corners(f: FitsFile, keys: seq<string>): (r: Result<seq<real>, GroupError>)
    ensures r.Ok? <==> forall i :: 0 <= i < |keys| ==> keys[i] in f.header
    ensures r.Ok? ==> |r.value| == |keys| && forall i :: 0 <= i < |keys| ==> r.value[i] == f.header[keys[i]]
    ensures r.Err? ==> r.error.file == f.name && r.error.key in keys && r.error.key !in f.header
  {
    if keys == [] then Ok([])
    else if keys[0] !in f.header then Err(MissingCorner(f.name, keys[0]))
    else
      var rest :- Corners(f, keys[1..]);
      assert forall i :: 1 <= i < |keys| ==> keys[i] == keys[1..][i - 1];
      Ok([f.header[keys[0]]] + rest)
  }

  /** `min_lat = min(min_lat, *lats)` and the three like it; an empty box is
      the script's `(inf, -inf)` pair. */
  function ExtendBox(prev: Option<Box>, lats: seq<real>, lons: seq<real>): Box
    requires lats != [] && lons != []
  {
    match prev
    case None => Box(Min(lats), Max(lats), Min(lons), Max(lons))
    case Some(b) => Box(Min2(b.minLat, Min(lats)), Max2(b.maxLat, Max(lats)), Min2(b.minLon, Min(lons)), Max2(b.maxLon, Max(lons)))
  }

  /** The box over the corners of every file with data, in order, starting
      from the running box `prev`; the first missing corner card stops it. */
  function BoxFrom(prev: Option<Box>, fs: seq<FitsFile>): Result<Option<Box>, GroupError>
    decreases fs
  {
    if fs == [] then Ok(prev)
    else if fs[0].data.None? then BoxFrom(prev, fs[1..])
    else
      var lats :- Corners(fs[0], LAT_KEYS);
      var lons :- Corners(fs[0], LON_KEYS);
      BoxFrom(Some(ExtendBox(prev, lats, lons)), fs[1..])
  }

  /** A fresh `(inf, -inf)` box per group. */
  function BoxOf(fs: seq<FitsFile>): Result<Option<Box>, GroupError> {
    BoxFrom(None, fs)
  }

  /** All eight corner cards are present. */
  predicate HasCorners(f: FitsFile) {
    forall i :: 0 <= i < 4 ==> LAT_KEYS[i] in f.header && LON_KEYS[i] in f.header
  }

  /** Every file with data has all eight corner cards. */
  predicate CornersPresent(fs: seq<FitsFile>) {
    forall i :: 0 <= i < |fs| && fs[i].data.Some? ==> HasCorners(fs[i])
  }

  /** No file has data. */
  predicate NoData(fs: seq<FitsFile>) {
    forall i :: 0 <= i < |fs| ==> fs[i].data.None?
  }

  /** The corner values a file contributes: none without data. */
  function FileCorners(f: FitsFile, keys: seq<string>): seq<real> {
    if f.data.Some? && Corners(f, keys).Ok? then Corners(f, keys).value else []
  }

  /** The reference list: every corner value of every file with data. */
  function AllCorners(fs: seq<FitsFile>, keys: seq<string>): seq<real> {
    if fs == [] then [] else FileCorners(fs[0], keys) + AllCorners(fs[1..], keys)
  }

  /** The running box widened by a list of corner values, if there are any. */
  function Widen(prev: Option<Box>, lat: seq<real>, lon: seq<real>): Option<Box> {
    if lat == [] || lon == [] then prev else Some(ExtendBox(prev, lat, lon))
  }

  /** Reading a file's corners succeeds exactly when all eight cards are
      there. */
  lemma HasCornersOk(f: FitsFile)
    ensures HasCorners(f) <==> Corners(f, LAT_KEYS).Ok? && Corners(f, LON_KEYS).Ok?
  {
    assert |LAT_KEYS| == 4 && |LON_KEYS| == 4;
  }

  /** The conditions on a run of files with one more in front. */
  lemma FilesCons(fs: seq<FitsFile>)
    requires fs != []
    ensures CornersPresent(fs) <==> (fs[0].data.Some? ==> HasCorners(fs[0])) && CornersPresent(fs[1..])
    ensures NoData(fs) <==> fs[0].data.None? && NoData(fs[1..])
  {
    assert forall i :: 1 <= i < |fs| ==> fs[i] == fs[1..][i - 1];
  }

  /** The box fails exactly when some file with data lacks a corner card. */
  lemma {:induction false} BoxFromFails(prev: Option<Box>, fs: seq<FitsFile>)
    ensures BoxFrom(prev, fs).Err? <==> !CornersPresent(fs)
    decreases fs
  {
    if fs != [] {
      FilesCons(fs);
      var f := fs[0];
      if f.data.None? {
        BoxFromFails(prev, fs[1..]);
      } else {
        HasCornersOk(f);
        if HasCorners(f) {
          var lats := Corners(f, LAT_KEYS).value;
          var lons := Corners(f, LON_KEYS).value;
          BoxFromFails(Some(ExtendBox(prev, lats, lons)), fs[1..]);
        }
      }
    }
  }

  /** With every corner card present, both lists have four values per file
      with data, and are empty exactly when no file has data. */
  lemma {:induction false} AllCornersLength(fs: seq<FitsFile>)
    requires CornersPresent(fs)
    ensures |AllCorners(fs, LAT_KEYS)| == |AllCorners(fs, LON_KEYS)|
    ensures AllCorners(fs, LAT_KEYS) == [] <==> NoData(fs)
  {
    if fs != [] {
      FilesCons(fs);
      HasCornersOk(fs[0]);
      AllCornersLength(fs[1..]);
    }
  }

  /** Lowering a bound by two lists in turn is lowering it by the two
      joined. */
  lemma LowerTwice(lo: real, a: seq<real>, c: seq<real>)
    requires a != [] && c != []
    ensures Min2(Min2(lo, Min(a)), Min(c)) == Min2(lo, Min(a + c))
  {
    MinAppend(a, c);
  }

  /** Raising a bound by two lists in turn is raising it by the two joined. */
  lemma RaiseTwice(hi: real, a: seq<real>, c: seq<real>)
    requires a != [] && c != []
    ensures Max2(Max2(hi, Max(a)), Max(c)) == Max2(hi, Max(a + c))
  {
    MaxAppend(a, c);
  }

  /** Widening by two lists in turn is widening by the two joined. */
  lemma ExtendTwice(prev: Option<Box>, a: seq<real>, b: seq<real>, c: seq<real>, d: seq<real>)
    requires a != [] && b != [] && c != [] && d != []
    ensures ExtendBox(Some(ExtendBox(prev, a, b)), c, d) == ExtendBox(prev, a + c, b + d)
  {
    if prev.Some? {
      var p := prev.value;
      LowerTwice(p.minLat, a, c);
      RaiseTwice(p.maxLat, a, c);
      LowerTwice(p.minLon, b, d);
      RaiseTwice(p.maxLon, b, d);
    } else {
      MinAppend(a, c);
      MaxAppend(a, c);
      MinAppend(b, d);
      MaxAppend(b, d);
    }
  }

  /** Widening by one file's corners and then by the rest's is widening by
      all of them. */
  lemma WidenAppend(prev: Option<Box>, lats: seq<real>, lons: seq<real>, latR: seq<real>, lonR: seq<real>)
    requires lats != [] && lons != [] && |latR| == |lonR|
    ensures Widen(Some(ExtendBox(prev, lats, lons)), latR, lonR) == Widen(prev, lats + latR, lons + lonR)
  {
    if latR == [] {
      assert lats + latR == lats && lons + lonR == lons;
    } else {
      ExtendTwice(prev, lats, lons, latR, lonR);
    }
  }

  /** The box is the running box widened by all corner values of the files
      with data. */
  lemma {:induction false} BoxFromValue(prev: Option<Box>, fs: seq<FitsFile>)
    requires BoxFrom(prev, fs).Ok?
    ensures BoxFrom(prev, fs).value == Widen(prev, AllCorners(fs, LAT_KEYS), AllCorners(fs, LON_KEYS))
    decreases fs
  {
    if fs != [] {
      var f := fs[0];
      var rest := fs[1..];
      if f.data.None? {
        BoxFromValue(prev, rest);
        assert FileCorners(f, LAT_KEYS) == [] && FileCorners(f, LON_KEYS) == [];
        assert AllCorners(fs, LAT_KEYS) == AllCorners(rest, LAT_KEYS);
        assert AllCorners(fs, LON_KEYS) == AllCorners(rest, LON_KEYS);
      } else {
        var lats := Corners(f, LAT_KEYS).value;
        var lons := Corners(f, LON_KEYS).value;
        var next := Some(ExtendBox(prev, lats, lons));
        assert BoxFrom(prev, fs) == BoxFrom(next, rest);
        BoxFromValue(next, rest);
        BoxFromFails(next, rest);
        AllCornersLength(rest);
        var latR := AllCorners(rest, LAT_KEYS);
        var lonR := AllCorners(rest, LON_KEYS);
        assert AllCorners(fs, LAT_KEYS) == lats + latR;
        assert AllCorners(fs, LON_KEYS) == lons + lonR;
        WidenAppend(prev, lats, lons, latR, lonR);
      }
    }
  }

  /** The box of a group is the smallest and largest of all its corner
      values, empty exactly when no file has data. */
  ghost predicate BoxMatches(fs: seq<FitsFile>)
    requires BoxOf(fs).Ok?
  {
    var lat := AllCorners(fs, LAT_KEYS);
    var lon := AllCorners(fs, LON_KEYS);
    && (lat == [] <==> NoData(fs))
    && (lon == [] <==> lat == [])
    && BoxOf(fs).value == if lat == [] then None else Some(Box(Min(lat), Max(lat), Min(lon), Max(lon)))
  }

  /** The box fails exactly when some file with data lacks a corner card. */
  lemma BoxFails(fs: seq<FitsFile>)
    ensures BoxOf(fs).Err? <==> exists i :: 0 <= i < |fs| && fs[i].data.Some? && !HasCorners(fs[i])
  {
    BoxFromFails(None, fs);
  }

  /** The box is the smallest and largest of all corner values of the
      group's files with data; it is empty exactly when no file has data. */
  lemma BoxSpec(fs: seq<FitsFile>)
    requires BoxOf(fs).Ok?
    ensures BoxMatches(fs)
  {
    BoxFromFails(None, fs);
    AllCornersLength(fs);
    BoxFromValue(None, fs);
  }

  /** Every corner of every file with data lies inside the box. */
  lemma BoxContains(fs: seq<FitsFile>, i: nat, j: nat)
    requires BoxOf(fs).Ok? && i < |fs| && j < 4 && fs[i].data.Some?
    ensures HasCorners(fs[i])
    ensures BoxOf(fs).value.Some?
    ensures var b := BoxOf(fs).value.value;
            && b.minLat <= fs[i].header[LAT_KEYS[j]] <= b.maxLat
            && b.minLon <= fs[i].header[LON_KEYS[j]] <= b.maxLon
  {
    BoxSpec(fs);
    BoxFails(fs);
    assert !NoData(fs);
    var lat := AllCorners(fs, LAT_KEYS);
    var lon := AllCorners(fs, LON_KEYS);
    CornerIn(fs, i, j, LAT_KEYS);
    CornerIn(fs, i, j, LON_KEYS);
    var a :| 0 <= a < |lat| && lat[a] == fs[i].header[LAT_KEYS[j]];
    var b :| 0 <= b < |lon| && lon[b] == fs[i].header[LON_KEYS[j]];
  }

  /** A corner of a file with all its corner cards is in the reference list. */
  lemma {:induction false} CornerIn(fs: seq<FitsFile>, i: nat, j: nat, keys: seq<string>)
    requires i < |fs| && j < |keys| && fs[i].data.Some?
    requires forall k :: 0 <= k < |keys| ==> keys[k] in fs[i].header
    ensures fs[i].header[keys[j]] in AllCorners(fs, keys)
  {
    if i == 0 {
      assert FileCorners(fs[0], keys)[j] == fs[i].header[keys[j]];
    } else {
      assert fs[1..][i - 1] == fs[i];
      CornerIn(fs[1..], i - 1, j, keys);
    }
  }
}
