/** The per-channel totals of one group: a `defaultdict(float)` keyed by
    channel number, filled file by file and pair by pair. */
module ChannelCounts {
  import opened Wrappers
  import opened Dict
  import opened Grouping

  /** `zip(channels, counts)`: pairs up to the shorter column. */
  function Zip(channels: seq<int>, counts: seq<real>): seq<(int, real)> {
    if channels == [] || counts == [] then [] else [(channels[0], counts[0])] + Zip(channels[1..], counts[1..])
  }

  /** The (channel, count) pairs a file adds: none when it has no data. */
  function FilePairs(f: FitsFile): seq<(int, real)> {
    if f.data.Some? then Zip(f.data.value.channel, f.data.value.counts) else []
  }

  // ---------------------------------------------------------------------
  // The dictionary the script fills

  /** `totals[channel] += float(count)` on a `defaultdict(float)`: a missing
      channel starts from 0.0 and is appended at the end. */
  function AddCount(d: Dict<int, real>, p: (int, real)): Dict<int, real> {
    if d == [] then [p]
    else if d[0].0 == p.0 then [(p.0, d[0].1 + p.1)] + d[1..]
    else [d[0]] + AddCount(d[1..], p)
  }

  /** The inner loop over one file's pairs, in order. */
  function AddPairs(d: Dict<int, real>, ps: seq<(int, real)>): Dict<int, real>
    decreases ps
  {
    if ps == [] then d else AddPairs(AddCount(d, ps[0]), ps[1..])
  }

  /** The outer loop over the group's files, in order. */
  function AddFiles(d: Dict<int, real>, fs: seq<FitsFile>): Dict<int, real>
    decreases fs
  {
    if fs == [] then d else AddFiles(AddPairs(d, FilePairs(fs[0])), fs[1..])
  }

  /** A fresh `defaultdict` per group: nothing carries over from the
      previous group. */
  function ChannelTotals(fs: seq<FitsFile>): Dict<int, real> {
    AddFiles([], fs)
  }

  // ---------------------------------------------------------------------
  // The reference: each channel on its own

  /** Some pair is for channel `ch`. */
  predicate Mentions(ps: seq<(int, real)>, ch: int) {
    ps != [] && (ps[0].0 == ch || Mentions(ps[1..], ch))
  }

  /** The counts paired with `ch`, added up. */
  function CountFor(ps: seq<(int, real)>, ch: int): real {
    if ps == [] then 0.0 else (if ps[0].0 == ch then ps[0].1 else 0.0) + CountFor(ps[1..], ch)
  }

  /** Some file of the group has a count for channel `ch`. */
  predicate HasChannel(fs: seq<FitsFile>, ch: int) {
    fs != [] && (Mentions(FilePairs(fs[0]), ch) || HasChannel(fs[1..], ch))
  }

  /** Each file's own total for `ch`, added up over the files. */
  function ChannelSum(fs: seq<FitsFile>, ch: int): real {
    if fs == [] then 0.0 else CountFor(FilePairs(fs[0]), ch) + ChannelSum(fs[1..], ch)
  }

  /** What the group's totals should hold for `ch`: the sum of its counts
      when some file has one, nothing otherwise. */
  function TotalOf(fs: seq<FitsFile>, ch: int): Option<real> {
    if HasChannel(fs, ch) then Some(ChannelSum(fs, ch)) else None
  }

  /** The entry for `ch` alone, followed through the pairs the way the
      dictionary updates it. */
  function Track(prev: Option<real>, ps: seq<(int, real)>, ch: int): Option<real>
    decreases ps
  {
    if ps == [] then prev
    else Track(if ps[0].0 == ch then Some(prev.GetOr(0.0) + ps[0].1) else prev, ps[1..], ch)
  }

  /** `Track` over the files of a group. */
  function TrackFiles(prev: Option<real>, fs: seq<FitsFile>, ch: int): Option<real>
    decreases fs
  {
    if fs == [] then prev else TrackFiles(Track(prev, FilePairs(fs[0]), ch), fs[1..], ch)
  }

  // ---------------------------------------------------------------------
  // One `+=`

  /** Looking up the bumped channel after a `+=`: its old total (0.0 when
      missing) plus the count. */
  lemma {:induction false} AddCountSame(d: Dict<int, real>, p: (int, real))
    ensures Get(AddCount(d, p), p.0) == Some(Get(d, p.0).GetOr(0.0) + p.1)
  {
    if d == [] {
      GetCons(p, [], p.0);
      assert [p] + [] == [p];
    } else {
      assert d == [d[0]] + d[1..];
      GetCons(d[0], d[1..], p.0);
      if d[0].0 == p.0 {
        GetCons((p.0, d[0].1 + p.1), d[1..], p.0);
      } else {
        AddCountSame(d[1..], p);
        GetCons(d[0], AddCount(d[1..], p), p.0);
      }
    }
  }

  /** A `+=` leaves every other channel as it was. */
  lemma {:induction false} AddCountOther(d: Dict<int, real>, p: (int, real), ch: int)
    requires ch != p.0
    ensures Get(AddCount(d, p), ch) == Get(d, ch)
  {
    if d == [] {
      GetCons(p, [], ch);
      assert [p] + [] == [p];
    } else {
      assert d == [d[0]] + d[1..];
      GetCons(d[0], d[1..], ch);
      if d[0].0 == p.0 {
        GetCons((p.0, d[0].1 + p.1), d[1..], ch);
      } else {
        AddCountOther(d[1..], p, ch);
        GetCons(d[0], AddCount(d[1..], p), ch);
      }
    }
  }

  /** A `+=` appends the channel when it is new and keeps the keys otherwise. */
  lemma {:induction false} AddCountKeys(d: Dict<int, real>, p: (int, real))
    ensures Keys(AddCount(d, p)) == if p.0 in Keys(d) then Keys(d) else Keys(d) + [p.0]
  {
    if d != [] && d[0].0 != p.0 {
      AddCountKeys(d[1..], p);
      assert AddCount(d, p) == [d[0]] + AddCount(d[1..], p);
      assert Keys(d) == [d[0].0] + Keys(d[1..]);
      assert Keys(AddCount(d, p)) == [d[0].0] + Keys(AddCount(d[1..], p));
    } else if d != [] {
      assert Keys(d)[0] == p.0;
      assert Keys(AddCount(d, p)) == Keys(d);
    }
  }

  /** A `+=` never repeats a channel. */
  lemma AddCountDistinct(d: Dict<int, real>, p: (int, real))
    requires Distinct(d)
    ensures Distinct(AddCount(d, p))
  {
    AddCountKeys(d, p);
    if p.0 !in Keys(d) {
      assert Keys(AddCount(d, p)) == Keys(d) + [p.0];
    }
  }

  // ---------------------------------------------------------------------
  // The loops, one channel at a time

  /** The dictionary's entry for `ch` after a file's pairs is the tracked
      entry. */
  lemma {:induction false} AddPairsTrack(d: Dict<int, real>, ps: seq<(int, real)>, ch: int)
    ensures Get(AddPairs(d, ps), ch) == Track(Get(d, ch), ps, ch)
    decreases ps
  {
    if ps != [] {
      var p := ps[0];
      var next := if p.0 == ch then Some(Get(d, ch).GetOr(0.0) + p.1) else Get(d, ch);
      if p.0 == ch {
        AddCountSame(d, p);
      } else {
        AddCountOther(d, p, ch);
      }
      assert Get(AddCount(d, p), ch) == next;
      assert Track(Get(d, ch), ps, ch) == Track(next, ps[1..], ch);
      AddPairsTrack(AddCount(d, p), ps[1..], ch);
      assert AddPairs(d, ps) == AddPairs(AddCount(d, p), ps[1..]);
    }
  }

  /** The dictionary's entry for `ch` after the group's files is the tracked
      entry. */
  lemma {:induction false} AddFilesTrack(d: Dict<int, real>, fs: seq<FitsFile>, ch: int)
    ensures Get(AddFiles(d, fs), ch) == TrackFiles(Get(d, ch), fs, ch)
    decreases fs
  {
    if fs != [] {
      AddPairsTrack(d, FilePairs(fs[0]), ch);
      AddFilesTrack(AddPairs(d, FilePairs(fs[0])), fs[1..], ch);
    }
  }

  lemma {:induction false} CountForAbsent(ps: seq<(int, real)>, ch: int)
    requires !Mentions(ps, ch)
    ensures CountFor(ps, ch) == 0.0
  {
    if ps != [] {
      CountForAbsent(ps[1..], ch);
    }
  }

  /** The tracked entry is present once it was or the channel occurs among
      the pairs, and then it has grown by the pairs' counts for it. */
  lemma {:induction false} TrackSpec(prev: Option<real>, ps: seq<(int, real)>, ch: int)
    ensures prev.Some? || Mentions(ps, ch) ==> Track(prev, ps, ch) == Some(prev.GetOr(0.0) + CountFor(ps, ch))
    ensures prev.None? && !Mentions(ps, ch) ==> Track(prev, ps, ch) == None
    decreases ps
  {
    if ps != [] {
      var next := if ps[0].0 == ch then Some(prev.GetOr(0.0) + ps[0].1) else prev;
      TrackSpec(next, ps[1..], ch);
    }
  }

  /** `TrackSpec` over the files of a group. */
  lemma {:induction false} TrackFilesSpec(prev: Option<real>, fs: seq<FitsFile>, ch: int)
    ensures prev.Some? || HasChannel(fs, ch) ==> TrackFiles(prev, fs, ch) == Some(prev.GetOr(0.0) + ChannelSum(fs, ch))
    ensures prev.None? && !HasChannel(fs, ch) ==> TrackFiles(prev, fs, ch) == None
    decreases fs
  {
    if fs != [] {
      var ps := FilePairs(fs[0]);
      TrackSpec(prev, ps, ch);
      if !Mentions(ps, ch) {
        CountForAbsent(ps, ch);
      }
      TrackFilesSpec(Track(prev, ps, ch), fs[1..], ch);
    }
  }

  /** Running totals never hold a channel twice. */
  lemma {:induction false} AddPairsDistinct(d: Dict<int, real>, ps: seq<(int, real)>)
    requires Distinct(d)
    ensures Distinct(AddPairs(d, ps))
    decreases ps
  {
    if ps != [] {
      AddCountDistinct(d, ps[0]);
      AddPairsDistinct(AddCount(d, ps[0]), ps[1..]);
    }
  }

  lemma {:induction false} AddFilesDistinct(d: Dict<int, real>, fs: seq<FitsFile>)
    requires Distinct(d)
    ensures Distinct(AddFiles(d, fs))
    decreases fs
  {
    if fs != [] {
      AddPairsDistinct(d, FilePairs(fs[0]));
      AddFilesDistinct(AddPairs(d, FilePairs(fs[0])), fs[1..]);
    }
  }

  // ---------------------------------------------------------------------
  // The group's totals

  /** The group's totals hold each channel some file has a count for, once,
      with the sum of all that channel's counts over the group's files; and
      no other channel. */
  lemma ChannelTotalsSpec(fs: seq<FitsFile>, ch: int)
    ensures Distinct(ChannelTotals(fs))
    ensures Get(ChannelTotals(fs), ch) == TotalOf(fs, ch)
  {
    assert Keys<int, real>([]) == [];
    AddFilesDistinct([], fs);
    AddFilesTrack([], fs, ch);
    TrackFilesSpec(None, fs, ch);
  }

  /** A group has a count for `ch` exactly when one of its files does. */
  lemma {:induction false} HasChannelSpec(fs: seq<FitsFile>, ch: int)
    ensures HasChannel(fs, ch) <==> exists f :: f in fs && Mentions(FilePairs(f), ch)
  {
    if fs != [] {
      HasChannelSpec(fs[1..], ch);
      assert forall f :: f in fs <==> f == fs[0] || f in fs[1..];
    }
  }

  /** The sum of a run of files with one more in front. */
  lemma ChannelSumCons(x: FitsFile, rest: seq<FitsFile>, ch: int)
    ensures ChannelSum([x] + rest, ch) == CountFor(FilePairs(x), ch) + ChannelSum(rest, ch)
  {
    assert ([x] + rest)[0] == x;
    assert ([x] + rest)[1..] == rest;
  }

  /** Per-channel sums split over consecutive runs of files. */
  lemma {:induction false} ChannelSumAppend(a: seq<FitsFile>, b: seq<FitsFile>, ch: int)
    ensures ChannelSum(a + b, ch) == ChannelSum(a, ch) + ChannelSum(b, ch)
  {
    if a == [] {
      assert a + b == b;
    } else {
      var x := a[0];
      var rest := a[1..];
      assert a == [x] + rest;
      assert a + b == [x] + (rest + b);
      ChannelSumAppend(rest, b, ch);
      ChannelSumCons(x, rest, ch);
      ChannelSumCons(x, rest + b, ch);
    }
  }

  /** Taking the first element of one sequence and a matching element of a
      permutation of it leaves permutations of each other. */
  lemma RemoveOne<T>(fs: seq<T>, gs: seq<T>, j: nat)
    requires multiset(fs) == multiset(gs)
    requires fs != [] && j < |gs| && gs[j] == fs[0]
    ensures multiset(fs[1..]) == multiset(gs[..j] + gs[j + 1..])
  {
    var x := fs[0];
    var m := multiset(gs[..j]) + multiset(gs[j + 1..]);
    assert fs == [x] + fs[1..];
    assert gs == gs[..j] + [x] + gs[j + 1..];
    assert multiset(gs[..j] + gs[j + 1..]) == m;
    assert multiset(gs) == m + multiset{x};
    assert multiset(fs) == multiset(fs[1..]) + multiset{x};
    assert multiset(fs[1..]) == multiset(fs) - multiset{x};
    assert m == multiset(gs) - multiset{x};
  }

  /** Each channel's sum does not depend on the order of the files. */
  lemma {:induction false} ChannelSumOrderFree(fs: seq<FitsFile>, gs: seq<FitsFile>, ch: int)
    requires multiset(fs) == multiset(gs)
    ensures ChannelSum(fs, ch) == ChannelSum(gs, ch)
    decreases |fs|
  {
    if fs == [] {
      assert |gs| == |multiset(gs)| == 0;
    } else {
      var x := fs[0];
      var rest := fs[1..];
      assert fs == [x] + rest;
      assert x in multiset(gs);
      var j :| 0 <= j < |gs| && gs[j] == x;
      var left := gs[..j];
      var right := gs[j + 1..];
      assert gs == left + ([x] + right);
      RemoveOne(fs, gs, j);
      ChannelSumOrderFree(rest, left + right, ch);
      ChannelSumAppend(left, right, ch);
      ChannelSumAppend(left, [x] + right, ch);
      ChannelSumCons(x, right, ch);
      ChannelSumCons(x, rest, ch);
    }
  }

  /** The written totals do not depend on the order the group's files are
      read in. */
  lemma ChannelTotalsOrderFree(fs: seq<FitsFile>, gs: seq<FitsFile>, ch: int)
    requires multiset(fs) == multiset(gs)
    ensures Get(ChannelTotals(fs), ch) == Get(ChannelTotals(gs), ch)
  {
    ChannelTotalsSpec(fs, ch);
    ChannelTotalsSpec(gs, ch);
    ChannelSumOrderFree(fs, gs, ch);
    HasChannelSpec(fs, ch);
    HasChannelSpec(gs, ch);
    assert forall f :: f in fs <==> f in multiset(fs);
    assert forall f :: f in gs <==> f in multiset(gs);
  }
}
