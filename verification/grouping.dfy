/** The time-window grouping of calibrated spectra: files are sorted by the
    start time written in their names and cut, greedily, into groups of at
    most twelve files that start within 96 seconds of the group's first file.
    Times are whole microseconds since 1970-01-01, the resolution of
    Python's `timedelta`. */
module Grouping {
  import opened Wrappers

  /** The largest number of files in one group. */
  const MAX_GROUP: nat := 12

  /** The 96-second window after a group's first start, in microseconds. */
  const WINDOW: int := 96_000_000

  /** The `CHANNEL` and `COUNTS` columns of a file's first extension. */
  datatype Table = Table(channel: seq<int>, counts: seq<real>)

  /** A FITS file as the script sees it: its name, the start time parsed
      from that name, the numeric cards of its first extension header, and
      that extension's table (None when the extension holds no data). */
  datatype FitsFile = FitsFile(name: string, start: int, header: map<string, real>, data: Option<Table>)

  // ---------------------------------------------------------------------
  // Interval boundaries

  /** Python's `//` on integers, which rounds toward negative infinity. */
  function FloorDiv(a: int, b: int): (q: int)
    requires b != 0
    ensures b > 0 ==> q * b <= a < q * b + b
    ensures b < 0 ==> q * b + b < a <= q * b
  {
    if b > 0 then a / b
    else
      var d := -b;
      var q := (-a) / d;
      assert q * d <= -a < q * d + d;
      assert q * b == -(q * d);
      q
  }

  /** `get_interval_start`: the boundary of the interval that holds `t`,
      counting whole intervals from the epoch. */
  function IntervalStart(t: int, interval: int): (s: int)
    requires interval != 0
    ensures interval > 0 ==> s <= t < s + interval
    ensures interval < 0 ==> s + interval < t <= s
    ensures s % interval == 0
  {
    var q := FloorDiv(t, interval);
    MulMod(q, interval);
    q * interval
  }

  lemma MulMod(q: int, b: int)
    requires b != 0
    ensures (q * b) % b == 0
  {
    var d := if b > 0 then b else -b;
    assert q * b == (if b > 0 then q else -q) * d;
    MulModPos(if b > 0 then q else -q, d);
    assert (q * b) % b == (q * b) % d;
  }

  lemma MulModPos(q: int, d: int)
    requires d > 0
    ensures (q * d) % d == 0
  {
    DivModUnique(q * d, d, q, 0);
  }

  /** Euclidean division has one quotient and one remainder. */
  lemma DivModUnique(a: int, d: int, k: int, r: int)
    requires d > 0 && 0 <= r < d
    requires a == k * d + r
    ensures a / d == k && a % d == r
  {
    var q := a / d;
    var m := a % d;
    assert (k - q) * d == m - r;
    MulStrict(k - q, 1, d);
    MulStrict(-1, k - q, d);
  }

  /** Flooring an interval boundary gives the boundary back. */
  lemma IntervalStartIdempotent(t: int, interval: int)
    requires interval != 0
    ensures IntervalStart(IntervalStart(t, interval), interval) == IntervalStart(t, interval)
  {
    var s := IntervalStart(t, interval);
    var q := FloorDiv(t, interval);
    var q' := FloorDiv(s, interval);
    assert s == q * interval;
    if interval > 0 {
      assert q' * interval <= q * interval < q' * interval + interval;
      MulStrict(q', q, interval);
      MulStrict(q, q' + 1, interval);
    } else {
      assert q' * interval + interval < q * interval <= q' * interval;
      MulStrict(q', q, -interval);
      MulStrict(q, q' + 1, -interval);
    }
  }

  /** Multiplying by a positive number keeps the order of integers. */
  lemma MulStrict(a: int, b: int, d: int)
    requires d > 0
    ensures a < b <==> a * d < b * d
  {
    if a < b {
      assert b * d - a * d == (b - a) * d;
    } else {
      assert a * d - b * d == (a - b) * d;
    }
  }

  // ---------------------------------------------------------------------
  // The start-time field of a file name

  /** `s.split(sep)`: the pieces between separators, at least one. */
  function Split(s: string, sep: char): (parts: seq<string>)
    ensures |parts| >= 1
    ensures forall i :: 0 <= i < |parts| ==> sep !in parts[i]
  {
    if s == [] then [[]]
    else
      var rest := Split(s[1..], sep);
      if s[0] == sep then [[]] + rest
      else [[s[0]] + rest[0]] + rest[1..]
  }

  /** `sep.join(parts)`. */
  function Join(parts: seq<string>, sep: char): string
    requires |parts| >= 1
  {
    if |parts| == 1 then parts[0] else parts[0] + [sep] + Join(parts[1..], sep)
  }

  /** Splitting loses nothing: joining the pieces gives the name back. */
  lemma {:induction false} SplitJoin(s: string, sep: char)
    ensures Join(Split(s, sep), sep) == s
  {
    if s != [] {
      SplitJoin(s[1..], sep);
      var rest := Split(s[1..], sep);
      if s[0] != sep {
        var parts := Split(s, sep);
        assert parts[0] == [s[0]] + rest[0];
        if |rest| == 1 {
          assert Join(parts, sep) == [s[0]] + rest[0];
        } else {
          assert parts[1..] == rest[1..];
          assert Join(parts, sep) == [s[0]] + (rest[0] + [sep] + Join(rest[1..], sep));
        }
      } else {
        assert Split(s, sep)[1..] == rest;
        assert s == [sep] + s[1..];
      }
    }
  }

  /** A separator splits the pieces on its left from those on its right. */
  lemma {:induction false} SplitAround(a: string, sep: char, b: string)
    ensures Split(a + [sep] + b, sep) == Split(a, sep) + Split(b, sep)
  {
    if a == [] {
      assert a + [sep] + b == [sep] + b;
      assert ([sep] + b)[1..] == b;
    } else {
      var x := a + [sep] + b;
      assert x[0] == a[0];
      assert x[1..] == a[1..] + [sep] + b;
      SplitAround(a[1..], sep, b);
      var left := Split(a[1..], sep);
      var rest := Split(x[1..], sep);
      assert rest == left + Split(b, sep);
      if a[0] == sep {
        ConcatAssoc([[]], left, Split(b, sep));
      } else {
        assert rest[0] == left[0];
        assert rest[1..] == left[1..] + Split(b, sep);
        ConcatAssoc([[a[0]] + left[0]], left[1..], Split(b, sep));
      }
    }
  }

  /** A piece without separators splits into itself. */
  lemma {:induction false} SplitPlain(s: string, sep: char)
    requires sep !in s
    ensures Split(s, sep) == [s]
  {
    if s != [] {
      SplitPlain(s[1..], sep);
      assert [s[0]] + s[1..] == s;
    }
  }

  /** There is more than one piece exactly when the separator occurs. */
  lemma SplitPieces(s: string, sep: char)
    ensures |Split(s, sep)| >= 2 <==> sep in s
  {
    if sep !in s {
      SplitPlain(s, sep);
    } else {
      var i :| 0 <= i < |s| && s[i] == sep;
      SplitAround(s[..i], sep, s[i + 1..]);
      assert s == s[..i] + [sep] + s[i + 1..];
    }
  }

  /** The field `parse_start_timestamp` reads: the second-to-last
      `_`-separated piece of the name, None where indexing it raises
      `IndexError` (no `_` at all). */
  function StampField(name: string): (f: Option<string>)
    ensures f.Some? ==> '_' !in f.value
    ensures f.None? <==> '_' !in name
  {
    var parts := Split(name, '_');
    SplitPieces(name, '_');
    if |parts| >= 2 then Some(parts[|parts| - 2]) else None
  }

  /** A name laid out as `<anything>_<stamp>_<rest>` yields its stamp. */
  lemma StampFieldOf(prefix: string, stamp: string, rest: string)
    requires '_' !in stamp && '_' !in rest
    ensures StampField(prefix + "_" + stamp + "_" + rest) == Some(stamp)
  {
    var name := prefix + "_" + stamp + "_" + rest;
    assert name == prefix + ['_'] + (stamp + ['_'] + rest);
    SplitAround(prefix, '_', stamp + ['_'] + rest);
    SplitAround(stamp, '_', rest);
    SplitPlain(stamp, '_');
    SplitPlain(rest, '_');
  }

  // ---------------------------------------------------------------------
  // Sorting by start time

  predicate SortedByStart(fs: seq<FitsFile>) {
    forall i, j :: 0 <= i < j < |fs| ==> fs[i].start <= fs[j].start
  }

  /** Places `f` before the first file that does not start earlier. */
  function Insert(f: FitsFile, fs: seq<FitsFile>): (r: seq<FitsFile>)
    requires SortedByStart(fs)
    ensures SortedByStart(r)
    ensures multiset(r) == multiset(fs) + multiset{f}
    ensures r != [] && (r[0] == f || (fs != [] && r[0] == fs[0]))
  {
    if fs == [] || f.start <= fs[0].start then
      SortedCons(f, fs);
      [f] + fs
    else
      SortedTail(fs);
      var rest := Insert(f, fs[1..]);
      assert fs == [fs[0]] + fs[1..];
      SortedCons(fs[0], rest);
      [fs[0]] + rest
  }

  lemma SortedTail(fs: seq<FitsFile>)
    requires SortedByStart(fs) && fs != []
    ensures SortedByStart(fs[1..])
  {
    assert forall i :: 0 <= i < |fs| - 1 ==> fs[1..][i] == fs[i + 1];
  }

  lemma SortedCons(x: FitsFile, fs: seq<FitsFile>)
    requires SortedByStart(fs)
    requires fs == [] || x.start <= fs[0].start
    ensures SortedByStart([x] + fs)
  {
    var r := [x] + fs;
    forall i, j | 0 <= i < j < |r|
      ensures r[i].start <= r[j].start
    {
      assert r[j] == fs[j - 1];
      if i > 0 {
        assert r[i] == fs[i - 1];
      }
    }
  }

  /** `sorted(files, key=start)`. */
  function SortByStart(fs: seq<FitsFile>): (r: seq<FitsFile>)
    ensures SortedByStart(r)
    ensures multiset(r) == multiset(fs)
  {
    if fs == [] then []
    else
      assert fs == [fs[0]] + fs[1..];
      Insert(fs[0], SortByStart(fs[1..]))
  }

  // ---------------------------------------------------------------------
  // The grouping loop

  /** An emitted group: its files, its start and its end time. */
  datatype Group = Group(files: seq<FitsFile>, start: int, end: int)

  /** The loop's variables: the groups emitted so far, the files of the open
      group, its start and end time and its file count. Start and end are
      only read once the count is positive. */
  datatype State = State(done: seq<Group>, current: seq<FitsFile>, start: int, end: int, count: int)

  const Initial: State := State([], [], 0, 0, 0)

  /** One turn of the loop: the first file opens the window; a file joins
      the open group while it has fewer than twelve files and the file starts
      no later than the group's end; otherwise the group is emitted and the
      file opens the next one. */
  function Step(s: State, f: FitsFile): State {
    var s1 := if s.count == 0 then s.(start := f.start, end := f.start + WINDOW) else s;
    if s1.count < MAX_GROUP && f.start <= s1.end then
      s1.(current := s1.current + [f], count := s1.count + 1)
    else
      State(s1.done + [Group(s1.current, s1.start, s1.end)], [f], f.start, f.start + WINDOW, 1)
  }

  function Feed(s: State, fs: seq<FitsFile>): State
    decreases |fs|
  {
    if fs == [] then s else Feed(Step(s, fs[0]), fs[1..])
  }

  /** After the loop the open group, if any, is emitted too. */
  function Finish(s: State): seq<Group> {
    if s.current != [] then s.done + [Group(s.current, s.start, s.end)] else s.done
  }

  /** The groups the script writes, one row each, for files in the order
      given; they are the greedy groups of the reference definition. */
  function GroupFiles(fs: seq<FitsFile>): (gs: seq<Group>)
    ensures gs == Greedy(fs)
  {
    FeedGreedy(Initial, fs);
    assert Initial.current + fs == fs;
    Finish(Feed(Initial, fs))
  }

  /** The index of the first file from `i` on that may not join a group
      ending at `end`: the twelfth, or the first that starts later. */
  function FitCount(fs: seq<FitsFile>, end: int, i: nat): (n: nat)
    requires i <= |fs|
    ensures i <= n <= |fs|
    ensures i <= MAX_GROUP ==> n <= MAX_GROUP
    decreases |fs| - i
  {
    if i < |fs| && i < MAX_GROUP && fs[i].start <= end then FitCount(fs, end, i + 1) else i
  }

  /** The files from `i` up to the count fit, and the one at the count,
      if any, does not. */
  lemma {:induction false} FitCountSpec(fs: seq<FitsFile>, end: int, i: nat)
    requires i <= |fs|
    ensures forall j :: i <= j < FitCount(fs, end, i) ==> fs[j].start <= end
    ensures var n := FitCount(fs, end, i);
            n < |fs| ==> n >= MAX_GROUP || fs[n].start > end
    decreases |fs| - i
  {
    if i < |fs| && i < MAX_GROUP && fs[i].start <= end {
      FitCountSpec(fs, end, i + 1);
    }
  }

  /** The size of the first group: the files that fit a window opened by
      the first one, at most twelve. */
  function GroupLen(fs: seq<FitsFile>): (n: nat)
    requires fs != []
    ensures 1 <= n <= |fs| && n <= MAX_GROUP
  {
    FitCount(fs, fs[0].start + WINDOW, 0)
  }

  /** The reference grouping: take the longest fitting prefix, then group
      the rest the same way. */
  function Greedy(fs: seq<FitsFile>): seq<Group>
    decreases |fs|
  {
    if fs == [] then []
    else
      var n := GroupLen(fs);
      [Group(fs[..n], fs[0].start, fs[0].start + WINDOW)] + Greedy(fs[n..])
  }

  /** The first group has exactly `m` files when the first `m` fit and the
      next one does not. */
  lemma GroupLenAt(fs: seq<FitsFile>, m: nat)
    requires 1 <= m <= |fs| && m <= MAX_GROUP
    requires forall j :: 0 <= j < m ==> fs[j].start <= fs[0].start + WINDOW
    requires m < |fs| ==> m == MAX_GROUP || fs[m].start > fs[0].start + WINDOW
    ensures GroupLen(fs) == m
  {
    FitCountSpec(fs, fs[0].start + WINDOW, 0);
  }

  /** What the loop keeps true: the count is the open group's size, and an
      open group starts at its first file, ends a window later, holds at most
      twelve files and all of them start before its end. */
  ghost predicate Inv(s: State) {
    && s.count == |s.current|
    && (s.current != [] ==>
          && s.start == s.current[0].start
          && s.end == s.start + WINDOW
          && |s.current| <= MAX_GROUP
          && forall i :: 0 <= i < |s.current| ==> s.current[i].start <= s.end)
  }

  /** Whether `f` joins the open group (an empty one opens on `f`). */
  predicate Joins(s: State, f: FitsFile) {
    s.count == 0 || (s.count < MAX_GROUP && f.start <= s.end)
  }

  /** A joining file extends the open group and keeps the invariant. */
  lemma StepJoins(s: State, fs: seq<FitsFile>)
    requires fs != [] && Joins(s, fs[0])
    ensures Step(s, fs[0]).done == s.done
    ensures Step(s, fs[0]).current + fs[1..] == s.current + fs
  {
    assert Step(s, fs[0]).current == s.current + [fs[0]];
    assert s.current + [fs[0]] + fs[1..] == s.current + fs;
  }

  lemma StepJoinsInv(s: State, f: FitsFile)
    requires Inv(s) && Joins(s, f)
    ensures Inv(Step(s, f))
  {
  }

  /** Any other file emits the open group and opens the next one. */
  lemma StepCloses(s: State, fs: seq<FitsFile>)
    requires fs != [] && !Joins(s, fs[0])
    ensures Step(s, fs[0]).done == s.done + [Group(s.current, s.start, s.end)]
    ensures Step(s, fs[0]).current + fs[1..] == fs
  {
    assert Step(s, fs[0]).current == [fs[0]];
    assert [fs[0]] + fs[1..] == fs;
  }

  lemma StepClosesInv(s: State, f: FitsFile)
    requires Inv(s) && !Joins(s, f)
    ensures Inv(Step(s, f))
  {
  }

  /** When the next file does not join, the open group is a whole greedy
      group in front of the groups of the remaining files. */
  lemma GreedyCloses(s: State, fs: seq<FitsFile>)
    requires Inv(s) && fs != [] && !Joins(s, fs[0])
    ensures Greedy(s.current + fs) == [Group(s.current, s.start, s.end)] + Greedy(fs)
  {
    var c := s.current;
    var all := c + fs;
    ClosedLen(s, fs);
    assert all[..|c|] == c;
    assert all[|c|..] == fs;
    GreedyUnfold(all);
  }

  /** The open group, followed by a file that does not join it, is exactly
      the first greedy group. */
  lemma ClosedLen(s: State, fs: seq<FitsFile>)
    requires Inv(s) && fs != [] && !Joins(s, fs[0])
    ensures s.current != []
    ensures (s.current + fs)[0] == s.current[0]
    ensures GroupLen(s.current + fs) == |s.current|
  {
    var c := s.current;
    var all := c + fs;
    assert all[|c|] == fs[0];
    assert forall j :: 0 <= j < |c| ==> all[j] == c[j];
    GroupLenAt(all, |c|);
  }

  lemma GreedyUnfold(fs: seq<FitsFile>)
    requires fs != []
    ensures Greedy(fs) == [Group(fs[..GroupLen(fs)], fs[0].start, fs[0].start + WINDOW)] + Greedy(fs[GroupLen(fs)..])
  {
  }

  /** At the end of the input the open group is one whole greedy group. */
  lemma FinishGreedy(s: State)
    requires Inv(s)
    ensures Finish(s) == s.done + Greedy(s.current)
  {
    var c := s.current;
    if c != [] {
      GroupLenAt(c, |c|);
      assert c[..|c|] == c && c[|c|..] == [];
      assert Greedy(c) == [Group(c, s.start, s.end)];
    }
  }

  /** The loop, from any state satisfying the invariant, ends with the
      groups already emitted followed by the greedy groups of the open
      group's files and the files still to come. */
  lemma {:induction false} FeedGreedy(s: State, fs: seq<FitsFile>)
    requires Inv(s)
    ensures Finish(Feed(s, fs)) == s.done + Greedy(s.current + fs)
    decreases |fs|
  {
    if fs == [] {
      assert s.current + fs == s.current;
      FinishGreedy(s);
    } else {
      var s' := Step(s, fs[0]);
      if Joins(s, fs[0]) {
        StepJoinsInv(s, fs[0]);
      } else {
        StepClosesInv(s, fs[0]);
      }
      FeedGreedy(s', fs[1..]);
      FeedStep(s, fs);
    }
  }

  /** One turn of the loop carries the claim for the remaining files over
      to the claim for all of them. */
  lemma FeedStep(s: State, fs: seq<FitsFile>)
    requires Inv(s) && fs != []
    requires Finish(Feed(Step(s, fs[0]), fs[1..])) == Step(s, fs[0]).done + Greedy(Step(s, fs[0]).current + fs[1..])
    ensures Finish(Feed(s, fs)) == s.done + Greedy(s.current + fs)
  {
    FeedUnfold(s, fs);
    if Joins(s, fs[0]) {
      FeedJoinStep(s, fs);
    } else {
      FeedCloseStep(s, fs);
    }
  }

  lemma FeedUnfold(s: State, fs: seq<FitsFile>)
    requires fs != []
    ensures Feed(s, fs) == Feed(Step(s, fs[0]), fs[1..])
  {
  }

  lemma FeedJoinStep(s: State, fs: seq<FitsFile>)
    requires fs != [] && Joins(s, fs[0])
    ensures Step(s, fs[0]).done + Greedy(Step(s, fs[0]).current + fs[1..]) == s.done + Greedy(s.current + fs)
  {
    StepJoins(s, fs);
  }

  lemma FeedCloseStep(s: State, fs: seq<FitsFile>)
    requires Inv(s) && fs != [] && !Joins(s, fs[0])
    ensures Step(s, fs[0]).done + Greedy(Step(s, fs[0]).current + fs[1..]) == s.done + Greedy(s.current + fs)
  {
    StepCloses(s, fs);
    GreedyCloses(s, fs);
    ConcatAssoc(s.done, [Group(s.current, s.start, s.end)], Greedy(fs));
  }

  lemma ConcatAssoc<T>(a: seq<T>, b: seq<T>, c: seq<T>)
    ensures (a + b) + c == a + (b + c)
  {
  }

  function Flatten(gs: seq<Group>): seq<FitsFile> {
    if gs == [] then [] else gs[0].files + Flatten(gs[1..])
  }

  /** A well-formed group: one to twelve files, starting at its first file,
      ending a window later, every member starting no later than the end. */
  predicate WellFormed(g: Group) {
    && 1 <= |g.files| <= MAX_GROUP
    && g.start == g.files[0].start
    && g.end == g.start + WINDOW
    && forall i :: 0 <= i < |g.files| ==> g.files[i].start <= g.end
  }

  /** The groups, in order, are the files in order: none lost, none
      repeated; and there are no groups exactly when there are no files. */
  lemma {:induction false} GroupsPartition(fs: seq<FitsFile>)
    ensures Flatten(GroupFiles(fs)) == fs
    ensures GroupFiles(fs) == [] <==> fs == []
    decreases |fs|
  {
    if fs != [] {
      var n := GroupLen(fs);
      GroupsPartition(fs[n..]);
      assert fs[..n] + fs[n..] == fs;
    }
  }

  /** Every group holds one to twelve files within its window. */
  lemma {:induction false} GroupsWellFormed(fs: seq<FitsFile>)
    ensures forall i :: 0 <= i < |GroupFiles(fs)| ==> WellFormed(GroupFiles(fs)[i])
    decreases |fs|
  {
    if fs != [] {
      var n := GroupLen(fs);
      GroupsWellFormed(fs[n..]);
      var gs := GroupFiles(fs);
      assert forall i :: 1 <= i < |gs| ==> gs[i] == GroupFiles(fs[n..])[i - 1];
      FitCountSpec(fs, fs[0].start + WINDOW, 0);
      assert WellFormed(gs[0]);
    }
  }

  /** The grouping is greedy: a group is closed only when it is full or the
      next group's first file starts after its end. */
  lemma {:induction false} GroupsGreedy(fs: seq<FitsFile>)
    ensures var gs := GroupFiles(fs);
            forall i :: 1 <= i < |gs| ==>
              && gs[i].files != []
              && (|gs[i - 1].files| == MAX_GROUP || gs[i].files[0].start > gs[i - 1].end)
    decreases |fs|
  {
    if fs != [] {
      var n := GroupLen(fs);
      GroupsGreedy(fs[n..]);
      var gs := GroupFiles(fs);
      var rest := GroupFiles(fs[n..]);
      assert forall i :: 1 <= i < |gs| ==> gs[i] == rest[i - 1];
      if |gs| > 1 {
        FitCountSpec(fs, fs[0].start + WINDOW, 0);
        assert fs[n..] != [];
        assert rest[0].files[0] == fs[n];
        assert gs[0].end == fs[0].start + WINDOW;
      }
    }
  }

  /** The script sorts before grouping, so the groups in order hold every
      file once, by non-decreasing start time. */
  lemma SortedGroups(fs: seq<FitsFile>)
    ensures var sorted := Flatten(GroupFiles(SortByStart(fs)));
            SortedByStart(sorted) && multiset(sorted) == multiset(fs)
  {
    GroupsPartition(SortByStart(fs));
  }
}
