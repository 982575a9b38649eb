/** The time aligner and merger of the script's main block: collect the tables
    of the rowing-machine (`concept2*`) files and of the wrist-device
    (`activity*`) file, bring the rowing-machine clock onto the wrist-device
    clock, and attach to every rowing-machine trackpoint the heart rate of the
    latest wrist-device sample at or before it. */
module Aligner {
  import opened Wrappers
  import opened Xml
  import opened Tcx
  import opened Walker

  // ------------------------------------------------------------ ordering

  /** `s` is non-decreasing under `key`. */
  predicate SortedBy<T>(s: seq<T>, key: T -> int) {
    forall i, j :: 0 <= i < j < |s| ==> key(s[i]) <= key(s[j])
  }

  /** The sort keys of the two tables: a lap's start and a trackpoint's time. */
  function LapStart(e: LapEntry): int {
    e.lap.startTime
  }

  function PointTime(p: Point): int {
    p.time
  }

  /** Insertion of `x` into a sorted sequence. */
  function Insert<T(==)>(x: T, s: seq<T>, key: T -> int): (r: seq<T>)
    requires SortedBy(s, key)
    ensures |r| == |s| + 1
    ensures SortedBy(r, key)
    ensures multiset(r) == multiset(s) + multiset{x}
  {
    if s == [] then [x]
    else if key(x) <= key(s[0]) then [x] + s
    else
      assert s == [s[0]] + s[1..];
      var rest := Insert(x, s[1..], key);
      LowerBound(rest, s[1..], x, key, key(s[0]));
      [s[0]] + rest
  }

  /** A bound below every key of `s` and below `key(x)` is below every key of
      any arrangement of `s` with `x` added. */
  lemma LowerBound<T>(r: seq<T>, s: seq<T>, x: T, key: T -> int, b: int)
    requires multiset(r) == multiset(s) + multiset{x}
    requires b <= key(x) && forall j :: 0 <= j < |s| ==> b <= key(s[j])
    ensures forall i :: 0 <= i < |r| ==> b <= key(r[i])
  {
    forall i | 0 <= i < |r|
      ensures b <= key(r[i])
    {
      assert r[i] in multiset(r);
      if r[i] != x {
        assert r[i] in multiset(s);
        var j :| 0 <= j < |s| && s[j] == r[i];
      }
    }
  }

  /** `sort_values(by=...)`: some non-decreasing arrangement of exactly the
      rows of `s`. Nothing is promised about the order of rows with equal keys. */
  function SortBy<T(==)>(s: seq<T>, key: T -> int): (r: seq<T>)
    ensures SortedBy(r, key)
    ensures multiset(r) == multiset(s)
  {
    if s == [] then []
    else
      assert s == [s[0]] + s[1..];
      Insert(s[0], SortBy(s[1..], key), key)
  }

  /** The smallest key of a non-empty sequence (`Series.min()`). */
  function MinKey<T>(s: seq<T>, key: T -> int): (m: int)
    requires |s| > 0
    ensures exists k :: 0 <= k < |s| && key(s[k]) == m
    ensures forall k :: 0 <= k < |s| ==> m <= key(s[k])
  {
    if |s| == 1 then key(s[0])
    else
      var rest := MinKey(s[1..], key);
      assert forall k :: 1 <= k < |s| ==> s[k] == s[1..][k - 1];
      if key(s[0]) <= rest then key(s[0]) else rest
  }

  /** The minimum does not depend on the order of the rows. */
  lemma MinKeyPermutation<T>(a: seq<T>, b: seq<T>, key: T -> int)
    requires |a| > 0 && multiset(a) == multiset(b)
    ensures |b| > 0 && MinKey(a, key) == MinKey(b, key)
  {
    assert |a| == |multiset(a)| == |multiset(b)| == |b|;
    var i :| 0 <= i < |a| && key(a[i]) == MinKey(a, key);
    var j :| 0 <= j < |b| && key(b[j]) == MinKey(b, key);
    assert a[i] in multiset(b);
    assert b[j] in multiset(a);
  }

  /** The sorted rows start with the minimum. */
  lemma SortedMin<T>(s: seq<T>, key: T -> int)
    requires |s| > 0 && SortedBy(s, key)
    ensures MinKey(s, key) == key(s[0])
  {
  }

  /** Sorting keeps the number of rows and the minimum. */
  lemma SortKeepsMin<T>(s: seq<T>, key: T -> int)
    requires |s| > 0
    ensures |SortBy(s, key)| == |s| && MinKey(SortBy(s, key), key) == MinKey(s, key)
  {
    SameLength(SortBy(s, key), s);
    MinKeyPermutation(SortBy(s, key), s, key);
  }

  // ----------------------------------------------------------- the files

  /** One entry of the activity directory: its name and its parsed document. */
  datatype SourceFile = SourceFile(name: string, root: Element)

  /** What the file loop gathers: the rowing-machine tables in directory order,
      and the tables of the wrist-device file read last, if any. */
  datatype Collected = Collected(concept2: seq<Tables>, garmin: Option<Tables>)

  const CONCEPT2_PREFIX: string := "concept2"
  const ACTIVITY_PREFIX: string := "activity"

  /** `file.startswith("concept2")`: a rowing-machine export. */
  predicate IsConcept2(f: SourceFile) {
    CONCEPT2_PREFIX <= f.name
  }

  /** `file.startswith("activity")`: a wrist-device export. */
  predicate IsActivity(f: SourceFile) {
    ACTIVITY_PREFIX <= f.name
  }

  /** File `k` is the last wrist-device export of the listing. */
  ghost predicate LastActivity(files: seq<SourceFile>, k: int) {
    && 0 <= k < |files|
    && IsActivity(files[k])
    && forall k' :: k < k' < |files| ==> !IsActivity(files[k'])
  }

  /** One pass of the file loop: a `concept2*` file is read and appended, an
      `activity*` file is read and replaces the wrist-device tables. */
  function Absorb(col: Collected, f: SourceFile, ex: Extractors): Result<Collected, Error> {
    var afterConcept2 :-
      if IsConcept2(f) then
        var t :- LoadDocument(f.root, ex);
        Success(col.(concept2 := col.concept2 + [t]))
      else Success(col);
    if IsActivity(f) then
      var t :- LoadDocument(f.root, ex);
      Success(afterConcept2.(garmin := Some(t)))
    else Success(afterConcept2)
  }

  /** The file loop over the directory listing, as a fold; the first file that
      fails to load fails the run. */
  function CollectSpec(files: seq<SourceFile>, ex: Extractors): Result<Collected, Error> {
    if files == [] then Success(Collected([], None))
    else
      var prev :- CollectSpec(files[..|files| - 1], ex);
      Absorb(prev, files[|files| - 1], ex)
  }

  /** The loop over `os.listdir`, reading each matching file with `get_dataframes`. */
  method CollectFiles(files: seq<SourceFile>, c: Coercions, localOffset: int) returns (r: Result<Collected, Error>)
    ensures r == CollectSpec(files, Reader(c, localOffset))
  {
    var concept2: seq<Tables> := [];
    var garmin: Option<Tables> := None;
    var i := 0;
    while i < |files|
      invariant 0 <= i <= |files|
      invariant CollectSpec(files[..i], Reader(c, localOffset)) == Success(Collected(concept2, garmin))
    {
      assert files[..i + 1][..i] == files[..i] && files[..i + 1][i] == files[i];
      var next := ReadFile(files[i], concept2, garmin, c, localOffset);
      if next.Failure? {
        CollectPrefixFailure(files, i + 1, Reader(c, localOffset));
        return Failure(next.error);
      }
      concept2, garmin := next.value.concept2, next.value.garmin;
      i := i + 1;
    }
    assert files[..i] == files;
    return Success(Collected(concept2, garmin));
  }

  /** One pass of the file loop: a `concept2*` file's tables are appended to
      `concept2`, an `activity*` file's tables replace `garmin`. */
  method ReadFile(f: SourceFile, concept2: seq<Tables>, garmin: Option<Tables>, c: Coercions, localOffset: int)
    returns (r: Result<Collected, Error>)
    ensures r == Absorb(Collected(concept2, garmin), f, Reader(c, localOffset))
  {
    var laps := concept2;
    if IsConcept2(f) {
      var t := GetDataframes(f.root, c, localOffset);
      if t.Failure? {
        return Failure(t.error);
      }
      laps := laps + [t.value];
    }
    var wrist := garmin;
    if IsActivity(f) {
      var t := GetDataframes(f.root, c, localOffset);
      if t.Failure? {
        return Failure(t.error);
      }
      wrist := Some(t.value);
    }
    return Success(Collected(laps, wrist));
  }

  /** A failure among the first `k` files is the failure of the whole loop. */
  lemma {:induction false} CollectPrefixFailure(files: seq<SourceFile>, k: nat, ex: Extractors)
    requires k <= |files|
    requires CollectSpec(files[..k], ex).Failure?
    ensures CollectSpec(files, ex) == CollectSpec(files[..k], ex)
    decreases |files| - k
  {
    if k < |files| {
      var front := files[..|files| - 1];
      assert front[..k] == files[..k];
      CollectPrefixFailure(front, k, ex);
    } else {
      assert files[..k] == files;
    }
  }

  /** The `concept2*` files of a listing, in listing order. */
  function Concept2Files(files: seq<SourceFile>): (r: seq<SourceFile>)
    ensures |r| <= |files|
    ensures forall k :: 0 <= k < |r| ==> IsConcept2(r[k])
  {
    if files == [] then []
    else
      var last := files[|files| - 1];
      Concept2Files(files[..|files| - 1]) + if IsConcept2(last) then [last] else []
  }

  /** The selected files are exactly the `concept2*` files of the listing. */
  lemma {:induction false} Concept2FilesMembers(files: seq<SourceFile>)
    ensures forall f :: f in Concept2Files(files) <==> f in files && IsConcept2(f)
  {
    if files != [] {
      var front := files[..|files| - 1];
      Concept2FilesMembers(front);
      assert files == front + [files[|files| - 1]];
    }
  }

  /** After a successful loop, the rowing-machine tables are those of the
      `concept2*` files, one per file, in listing order. */
  lemma {:induction false} CollectConcept2(files: seq<SourceFile>, ex: Extractors)
    requires CollectSpec(files, ex).Success?
    ensures var col := CollectSpec(files, ex).value;
      && |col.concept2| == |Concept2Files(files)|
      && forall k :: 0 <= k < |col.concept2| ==>
           LoadDocument(Concept2Files(files)[k].root, ex) == Success(col.concept2[k])
  {
    if files != [] {
      CollectConcept2(files[..|files| - 1], ex);
    }
  }

  /** After a successful loop, the wrist-device tables are those of the last
      `activity*` file of the listing, and there are none when no file is one. */
  lemma {:induction false} CollectLastActivityWins(files: seq<SourceFile>, ex: Extractors)
    requires CollectSpec(files, ex).Success?
    ensures var g := CollectSpec(files, ex).value.garmin;
      && (g.None? <==> forall k :: 0 <= k < |files| ==> !IsActivity(files[k]))
      && (g.Some? ==> exists k :: LastActivity(files, k) && LoadDocument(files[k].root, ex) == Success(g.value))
  {
    if files != [] {
      CollectLastActivityWins(files[..|files| - 1], ex);
      LastFileGarmin(files, ex);
      ExtendLastActivity(files, ex, CollectSpec(files[..|files| - 1], ex).value.garmin, CollectSpec(files, ex).value.garmin);
    }
  }

  /** One more file keeps "the tables of the last `activity*` file": it sets
      them if it is one, and leaves them alone otherwise. */
  lemma ExtendLastActivity(files: seq<SourceFile>, ex: Extractors, before: Option<Tables>, after: Option<Tables>)
    requires files != []
    requires var front := files[..|files| - 1];
      && (before.None? <==> forall k :: 0 <= k < |front| ==> !IsActivity(front[k]))
      && (before.Some? ==> exists k :: LastActivity(front, k) && LoadDocument(front[k].root, ex) == Success(before.value))
    requires IsActivity(files[|files| - 1]) ==> after.Some? && LoadDocument(files[|files| - 1].root, ex) == Success(after.value)
    requires !IsActivity(files[|files| - 1]) ==> after == before
    ensures after.None? <==> forall k :: 0 <= k < |files| ==> !IsActivity(files[k])
    ensures after.Some? ==> exists k :: LastActivity(files, k) && LoadDocument(files[k].root, ex) == Success(after.value)
  {
    if IsActivity(files[|files| - 1]) {
      assert LastActivity(files, |files| - 1);
    } else {
      var front := files[..|files| - 1];
      assert forall k :: 0 <= k < |front| ==> front[k] == files[k];
      if after.Some? {
        var k :| LastActivity(front, k) && LoadDocument(front[k].root, ex) == Success(before.value);
        LastActivityExtends(files, k);
      }
    }
  }

  /** The last `activity*` file among all but the last file stays the last one
      when the last file is not an `activity*` file. */
  lemma LastActivityExtends(files: seq<SourceFile>, k: int)
    requires files != [] && !IsActivity(files[|files| - 1])
    requires LastActivity(files[..|files| - 1], k)
    ensures LastActivity(files, k)
  {
    assert files[k] == files[..|files| - 1][k];
  }

  /** The last file of a listing sets the wrist-device tables when it is an
      `activity*` file, and leaves them as the files before it set them otherwise. */
  lemma LastFileGarmin(files: seq<SourceFile>, ex: Extractors)
    requires files != []
    requires CollectSpec(files, ex).Success?
    ensures CollectSpec(files[..|files| - 1], ex).Success?
    ensures var g := CollectSpec(files, ex).value.garmin;
      if IsActivity(files[|files| - 1]) then
        g.Some? && LoadDocument(files[|files| - 1].root, ex) == Success(g.value)
      else
        g == CollectSpec(files[..|files| - 1], ex).value.garmin
  {
  }

  // ---------------------------------------------------- concat and shift

  /** `pd.concat` of the laps tables, in file order. */
  function ConcatLaps(ts: seq<Tables>): seq<LapEntry> {
    if ts == [] then [] else ConcatLaps(ts[..|ts| - 1]) + ts[|ts| - 1].laps
  }

  /** `pd.concat` of the trackpoints tables, in file order. */
  function ConcatPoints(ts: seq<Tables>): seq<Point> {
    if ts == [] then [] else ConcatPoints(ts[..|ts| - 1]) + ts[|ts| - 1].points
  }

  /** The concatenations hold exactly the rows of the per-file tables. */
  lemma {:induction false} ConcatMembers(ts: seq<Tables>)
    ensures forall x :: x in ConcatLaps(ts) <==> exists k :: 0 <= k < |ts| && x in ts[k].laps
    ensures forall x :: x in ConcatPoints(ts) <==> exists k :: 0 <= k < |ts| && x in ts[k].points
  {
    if ts != [] {
      var front := ts[..|ts| - 1];
      ConcatMembers(front);
      assert forall k :: 0 <= k < |front| ==> front[k] == ts[k];
    }
  }

  /** Concatenation keeps every row of every table, repeats included, in
      file order: concatenating two runs of tables is concatenating their
      concatenations. */
  lemma {:induction false} ConcatAppend(a: seq<Tables>, b: seq<Tables>)
    ensures ConcatLaps(a + b) == ConcatLaps(a) + ConcatLaps(b)
    ensures ConcatPoints(a + b) == ConcatPoints(a) + ConcatPoints(b)
    decreases |b|
  {
    if b != [] {
      assert (a + b)[..|a + b| - 1] == a + b[..|b| - 1];
      ConcatAppend(a, b[..|b| - 1]);
    } else {
      assert a + b == a;
    }
  }

  /** The rows of the concatenations number the sum of the per-file tables'. */
  lemma {:induction false} ConcatLength(ts: seq<Tables>)
    ensures |ConcatLaps(ts)| == LapCount(ts)
    ensures |ConcatPoints(ts)| == PointCount(ts)
  {
    if ts != [] {
      ConcatLength(ts[..|ts| - 1]);
    }
  }

  /** The number of lap rows over all tables. */
  function LapCount(ts: seq<Tables>): nat {
    if ts == [] then 0 else LapCount(ts[..|ts| - 1]) + |ts[|ts| - 1].laps|
  }

  /** The number of trackpoint rows over all tables. */
  function PointCount(ts: seq<Tables>): nat {
    if ts == [] then 0 else PointCount(ts[..|ts| - 1]) + |ts[|ts| - 1].points|
  }

  /** The concatenations are empty exactly when every per-file table is. */
  lemma {:induction false} ConcatEmpty(ts: seq<Tables>)
    ensures ConcatLaps(ts) == [] <==> forall k :: 0 <= k < |ts| ==> ts[k].laps == []
    ensures ConcatPoints(ts) == [] <==> forall k :: 0 <= k < |ts| ==> ts[k].points == []
  {
    if ts != [] {
      var front := ts[..|ts| - 1];
      ConcatEmpty(front);
      assert forall k :: 0 <= k < |front| ==> front[k] == ts[k];
    }
  }

  /** Adding `d` seconds to every lap start; nothing else of a row changes. */
  function ShiftLaps(s: seq<LapEntry>, d: int): (r: seq<LapEntry>)
    ensures |r| == |s|
    ensures forall k :: 0 <= k < |s| ==>
      && LapStart(r[k]) - LapStart(s[k]) == d
      && r[k].number == s[k].number
      && r[k].lap.(startTime := 0) == s[k].lap.(startTime := 0)
  {
    seq(|s|, k requires 0 <= k < |s| => s[k].(lap := s[k].lap.(startTime := s[k].lap.startTime + d)))
  }

  /** Adding `d` seconds to every trackpoint time; nothing else of a row changes. */
  function ShiftPoints(s: seq<Point>, d: int): (r: seq<Point>)
    ensures |r| == |s|
    ensures forall k :: 0 <= k < |s| ==> PointTime(r[k]) - PointTime(s[k]) == d && r[k].(time := 0) == s[k].(time := 0)
  {
    seq(|s|, k requires 0 <= k < |s| => s[k].(time := s[k].time + d))
  }

  /** Shifting back undoes a shift. */
  lemma ShiftRoundTrip(laps: seq<LapEntry>, points: seq<Point>, d: int)
    ensures ShiftLaps(ShiftLaps(laps, d), -d) == laps
    ensures ShiftPoints(ShiftPoints(points, d), -d) == points
  {
    assert forall k :: 0 <= k < |laps| ==> ShiftLaps(ShiftLaps(laps, d), -d)[k] == laps[k];
    assert forall k :: 0 <= k < |points| ==> ShiftPoints(ShiftPoints(points, d), -d)[k] == points[k];
  }

  /** A uniform shift keeps the time order, in both directions. */
  lemma ShiftKeepsOrder(laps: seq<LapEntry>, points: seq<Point>, d: int)
    ensures SortedBy(ShiftLaps(laps, d), LapStart) <==> SortedBy(laps, LapStart)
    ensures SortedBy(ShiftPoints(points, d), PointTime) <==> SortedBy(points, PointTime)
  {
  }

  /** A uniform shift moves the earliest lap start by the same amount. */
  lemma ShiftMin(laps: seq<LapEntry>, d: int)
    requires |laps| > 0
    ensures MinKey(ShiftLaps(laps, d), LapStart) == MinKey(laps, LapStart) + d
  {
    var s := ShiftLaps(laps, d);
    var i :| 0 <= i < |laps| && LapStart(laps[i]) == MinKey(laps, LapStart);
    var j :| 0 <= j < |s| && LapStart(s[j]) == MinKey(s, LapStart);
    assert MinKey(s, LapStart) <= LapStart(s[i]);
    assert MinKey(laps, LapStart) <= LapStart(laps[j]);
  }

  // ------------------------------------------------------- the as-of join

  /** A merged row before its duration is known: the rowing-machine columns
      `time`, `distance`, `watt`, `cadence` and the joined `heart_rate`. */
  datatype Joined = Joined(time: int, distance: Option<real>, watt: Option<real>, cadence: Option<real>, heartRate: Option<int>)

  /** The last sample of `right` (in order) whose time is at or before `t`. */
  function LastAtOrBefore(right: seq<Point>, t: int): Option<Point> {
    if right == [] then None
    else if right[|right| - 1].time <= t then Some(right[|right| - 1])
    else LastAtOrBefore(right[..|right| - 1], t)
  }

  /** What `LastAtOrBefore` picks: a sample at or before `t` with none after
      it in order, or nothing when every sample is later than `t`. */
  lemma {:induction false} LastAtOrBeforeIsLatest(right: seq<Point>, t: int)
    ensures LastAtOrBefore(right, t).None? <==> forall k :: 0 <= k < |right| ==> right[k].time > t
    ensures LastAtOrBefore(right, t).Some? ==>
      exists k :: 0 <= k < |right| && right[k] == LastAtOrBefore(right, t).value && right[k].time <= t
        && forall k' :: k < k' < |right| ==> right[k'].time > t
  {
    if right != [] && right[|right| - 1].time > t {
      var front := right[..|right| - 1];
      LastAtOrBeforeIsLatest(front, t);
      assert forall k :: 0 <= k < |front| ==> front[k] == right[k];
    }
  }

  /** The heart rate a rowing-machine row at time `t` receives. */
  function HeartRateAt(right: seq<Point>, t: int): Option<int> {
    match LastAtOrBefore(right, t)
    case None => None
    case Some(r) => r.heartRate
  }

  /** The backward as-of join `merge_asof(left, right, on="time")`: one row per
      left row, in order, carrying the heart rate of the latest right sample
      at or before it. */
  function AsOf(left: seq<Point>, right: seq<Point>): (rows: seq<Joined>)
    ensures |rows| == |left|
    ensures forall k :: 0 <= k < |left| ==> rows[k].time == left[k].time && rows[k].heartRate == HeartRateAt(right, left[k].time)
    ensures forall k :: 0 <= k < |left| ==> rows[k] == JoinRow(left[k], HeartRateAt(right, left[k].time))
  {
    seq(|left|, k requires 0 <= k < |left| => JoinRow(left[k], HeartRateAt(right, left[k].time)))
  }

  /** The selected left columns of one row (`time`, `distance`, `watt`,
      `cadence`), with the joined heart rate. */
  function JoinRow(l: Point, hr: Option<int>): (j: Joined)
    ensures j.time == l.time && j.distance == l.distance && j.watt == l.watt && j.cadence == l.cadence
    ensures j.heartRate == hr
  {
    Joined(l.time, l.distance, l.watt, l.cadence, hr)
  }

  /** In a time-sorted `right`, when the first `j` samples are at or before
      `t` and the rest after it, the latest one at or before `t` is sample
      `j - 1`. This is what lets the sweep read its answer off its pointer. */
  lemma {:induction false} SplitPoint(right: seq<Point>, j: nat, t: int)
    requires SortedBy(right, PointTime)
    requires j <= |right|
    requires forall k :: 0 <= k < j ==> right[k].time <= t
    requires j < |right| ==> right[j].time > t
    ensures LastAtOrBefore(right, t) == if j == 0 then None else Some(right[j - 1])
  {
    if j < |right| {
      var front := right[..|right| - 1];
      assert PointTime(right[j]) <= PointTime(right[|right| - 1]);
      assert SortedBy(front, PointTime);
      SplitPoint(front, j, t);
    }
  }

  /** The as-of join as a merge of two time-sorted streams: one forward
      pointer into `right`, advanced past every sample at or before the
      current left row, never moved back. */
  method MergeAsOf(left: seq<Point>, right: seq<Point>) returns (rows: seq<Joined>)
    requires SortedBy(left, PointTime) && SortedBy(right, PointTime)
    ensures rows == AsOf(left, right)
  {
    rows := [];
    var i, j := 0, 0;
    while i < |left|
      invariant 0 <= i <= |left| && 0 <= j <= |right|
      invariant |rows| == i
      invariant forall k :: 0 <= k < i ==> rows[k] == AsOf(left, right)[k]
      invariant i == 0 ==> j == 0
      invariant i > 0 ==> forall k :: 0 <= k < j ==> right[k].time <= left[i - 1].time
    {
      assert i > 0 ==> PointTime(left[i - 1]) <= PointTime(left[i]);
      while j < |right| && right[j].time <= left[i].time
        invariant 0 <= j <= |right|
        invariant forall k :: 0 <= k < j ==> right[k].time <= left[i].time
      {
        j := j + 1;
      }
      SplitPoint(right, j, left[i].time);
      var hr := if j == 0 then None else right[j - 1].heartRate;
      rows := rows + [JoinRow(left[i], hr)];
      i := i + 1;
    }
  }

  /** The join the script actually requests at parse_tcx.py line 200: with
      `by="time"` as well as `on="time"`, a left row can only be matched by
      right samples with exactly its time. */
  function LastAtTime(right: seq<Point>, t: int): Option<Point> {
    if right == [] then None
    else if right[|right| - 1].time == t then Some(right[|right| - 1])
    else LastAtTime(right[..|right| - 1], t)
  }

  /** What `LastAtTime` picks: a sample with exactly time `t` and no later
      one with that time, or nothing when no sample has time `t`. */
  lemma {:induction false} LastAtTimeIsExact(right: seq<Point>, t: int)
    ensures LastAtTime(right, t).None? <==> forall k :: 0 <= k < |right| ==> right[k].time != t
    ensures LastAtTime(right, t).Some? ==>
      exists k :: 0 <= k < |right| && right[k] == LastAtTime(right, t).value && right[k].time == t
        && forall k' :: k < k' < |right| ==> right[k'].time != t
  {
    if right != [] && right[|right| - 1].time != t {
      var front := right[..|right| - 1];
      LastAtTimeIsExact(front, t);
      assert forall k :: 0 <= k < |front| ==> front[k] == right[k];
    }
  }

  /** The heart rate a rowing-machine row at time `t` receives from the join as written. */
  function HeartRateAtTime(right: seq<Point>, t: int): Option<int> {
    match LastAtTime(right, t)
    case None => None
    case Some(r) => r.heartRate
  }

  /** The join as written: one row per left row, in order, with its rowing
      columns and the heart rate of a right sample with exactly its time. */
  function AsOfByTime(left: seq<Point>, right: seq<Point>): (rows: seq<Joined>)
    ensures |rows| == |left|
    ensures forall k :: 0 <= k < |left| ==>
      && rows[k].time == left[k].time
      && rows[k].heartRate == HeartRateAtTime(right, left[k].time)
      && rows[k] == JoinRow(left[k], rows[k].heartRate)
  {
    seq(|left|, k requires 0 <= k < |left| => JoinRow(left[k], HeartRateAtTime(right, left[k].time)))
  }

  /** The two-device example: wrist samples at 0 s (100 bpm) and 10 s (110 bpm),
      rowing samples at 3 s and 12 s. The as-of join gives 100 and 110; the
      join as written, with `by="time"`, gives no heart rate at all. */
  lemma ByTimeLosesHeartRate()
    ensures var right := [Point(0, None, Some(100), None, None), Point(10, None, Some(110), None, None)];
      var left := [Point(3, None, None, None, None), Point(12, None, None, None, None)];
      && AsOf(left, right)[0].heartRate == Some(100)
      && AsOf(left, right)[1].heartRate == Some(110)
      && AsOfByTime(left, right)[0].heartRate == None
      && AsOfByTime(left, right)[1].heartRate == None
  {
    var right := [Point(0, None, Some(100), None, None), Point(10, None, Some(110), None, None)];
    assert right[..1] == [right[0]] && right[..1][..0] == [];
    assert LastAtOrBefore(right, 3) == Some(right[0]);
    assert LastAtOrBefore(right, 12) == Some(right[1]);
    assert LastAtTime(right[..1], 3) == LastAtTime([], 3) == None;
    assert LastAtTime(right, 3) == None;
    assert LastAtTime(right[..1], 12) == LastAtTime([], 12) == None;
    assert LastAtTime(right, 12) == None;
  }

  /** A rowing sample earlier than every wrist sample gets no heart rate. */
  lemma NoEarlierSample(right: seq<Point>, l: Point)
    requires forall k :: 0 <= k < |right| ==> right[k].time > l.time
    ensures AsOf([l], right)[0].heartRate == None
  {
    LastAtOrBeforeIsLatest(right, l.time);
  }

  // ------------------------------------------------------------ duration

  const SECONDS_PER_DAY: int := 86400

  /** `(t - t0).seconds`: the seconds part of a `timedelta`, which is the
      difference reduced into one day (negative differences wrap around). */
  function Duration(t: int, t0: int): (d: int)
    ensures 0 <= d < SECONDS_PER_DAY
    ensures (t - t0 - d) % SECONDS_PER_DAY == 0
    ensures 0 <= t - t0 < SECONDS_PER_DAY ==> d == t - t0
  {
    (t - t0) % SECONDS_PER_DAY
  }

  /** A time of day. */
  datatype Clock = Clock(hour: int, minute: int, second: int)

  /** `pd.to_datetime(d, unit='s').dt.time`: `d` seconds after midnight on a clock. */
  function TimeOfDay(d: int): (c: Clock)
    requires 0 <= d < SECONDS_PER_DAY
    ensures 0 <= c.hour < 24 && 0 <= c.minute < 60 && 0 <= c.second < 60
    ensures c.hour * 3600 + c.minute * 60 + c.second == d
  {
    Clock(d / 3600, (d % 3600) / 60, d % 60)
  }

  /** A row of the merged table. */
  datatype MergedRow = MergedRow(row: Joined, duration: int, clock: Clock)

  /** The `duration` and `hhmmss_1` columns, measured from the first row; an
      empty rowing-machine stream stops the run, at the join of line 200 or
      at `iloc[0]` on line 201. */
  function WithDurations(rows: seq<Joined>): (r: Result<seq<MergedRow>, Error>)
    ensures rows == [] <==> r == Failure(NoMergedRows)
    ensures r.Success? ==> |r.value| == |rows| && forall k :: 0 <= k < |rows| ==>
      && r.value[k].row == rows[k]
      && r.value[k].duration == Duration(rows[k].time, rows[0].time)
      && r.value[k].clock == TimeOfDay(r.value[k].duration)
  {
    if rows == [] then Failure(NoMergedRows)
    else
      Success(seq(|rows|, k requires 0 <= k < |rows| =>
        MergedRow(rows[k], Duration(rows[k].time, rows[0].time), TimeOfDay(Duration(rows[k].time, rows[0].time)))))
  }

  // --------------------------------------------------------- the whole run

  /** What the run writes out: the wrist-device tables, the rowing-machine
      tables on the wrist-device clock, and the merged table. */
  datatype Report = Report(
    garminLaps: seq<LapEntry>,
    garminPoints: seq<Point>,
    concept2Laps: seq<LapEntry>,
    concept2Points: seq<Point>,
    offset: int,
    merged: seq<MergedRow>)

  /** Lines 184-185: the offset between the clocks, the earliest wrist-device
      lap start minus the earliest rowing-machine lap start. Without a lap on
      either side the minimum is not a time, and the script stops with an
      exception somewhere in lines 184-194. */
  function ClockOffset(garminLaps: seq<LapEntry>, laps: seq<LapEntry>): (r: Result<int, Error>)
    ensures r.Failure? <==> garminLaps == [] || laps == []
    ensures r.Failure? ==> r.error == NoLapStart
    ensures r.Success? ==> r.value + MinKey(laps, LapStart) == MinKey(garminLaps, LapStart)
  {
    if garminLaps == [] || laps == [] then Failure(NoLapStart)
    else Success(MinKey(garminLaps, LapStart) - MinKey(laps, LapStart))
  }

  /** Lines 200-202: `merge_asof` refuses an empty table, whose `time` column
      is not a datetime column, the wrist-device side first; then keys out of
      order, left first; then the join and the two derived columns. */
  function Merge(left: seq<Point>, right: seq<Point>): Result<seq<MergedRow>, Error> {
    if right == [] then Failure(NoGarminPoints)
    else if left == [] then Failure(NoMergedRows)
    else if !SortedBy(left, PointTime) then Failure(UnsortedKeys("left"))
    else if !SortedBy(right, PointTime) then Failure(UnsortedKeys("right"))
    else WithDurations(AsOf(left, right))
  }

  /** Lines 176-202 on the wrist-device tables and the sorted rowing-machine tables. */
  function AlignTables(garmin: Tables, laps: seq<LapEntry>, points: seq<Point>): Result<Report, Error> {
    var offset :- ClockOffset(garmin.laps, laps);
    var merged :- Merge(ShiftPoints(points, offset), garmin.points);
    Success(Report(garmin.laps, garmin.points, ShiftLaps(laps, offset), ShiftPoints(points, offset), offset, merged))
  }

  /** Lines 163-202 of the script on the collected tables: concatenating no
      table fails, and so does a run without a wrist-device file. */
  function Align(col: Collected): Result<Report, Error> {
    if col.concept2 == [] then Failure(NoConcept2Files)
    else if col.garmin.None? then Failure(NoGarminFile)
    else AlignTables(col.garmin.value, SortBy(ConcatLaps(col.concept2), LapStart), SortBy(ConcatPoints(col.concept2), PointTime))
  }

  /** The whole main block: the file loop, then the alignment. */
  function RunSpec(files: seq<SourceFile>, ex: Extractors): Result<Report, Error> {
    var col :- CollectSpec(files, ex);
    Align(col)
  }

  /** The main block as the script runs it, with the as-of join done by the sweep. */
  method Run(files: seq<SourceFile>, c: Coercions, localOffset: int) returns (r: Result<Report, Error>)
    ensures r == RunSpec(files, Reader(c, localOffset))
  {
    var collected := CollectFiles(files, c, localOffset);
    if collected.Failure? {
      return Failure(collected.error);
    }
    var col := collected.value;
    if col.concept2 == [] {
      return Failure(NoConcept2Files);
    }
    var laps := SortBy(ConcatLaps(col.concept2), LapStart);
    var points := SortBy(ConcatPoints(col.concept2), PointTime);
    if col.garmin.None? {
      return Failure(NoGarminFile);
    }
    var garmin := col.garmin.value;
    r := RunAlignment(garmin, laps, points);
  }

  /** Lines 176-202 as the script runs them. */
  method RunAlignment(garmin: Tables, laps: seq<LapEntry>, points: seq<Point>) returns (r: Result<Report, Error>)
    ensures r == AlignTables(garmin, laps, points)
  {
    if garmin.laps == [] || laps == [] {
      return Failure(NoLapStart);
    }
    var offset := MinKey(garmin.laps, LapStart) - MinKey(laps, LapStart);
    var shiftedLaps := ShiftLaps(laps, offset);
    var shiftedPoints := ShiftPoints(points, offset);
    var merged := RunMerge(shiftedPoints, garmin.points);
    if merged.Failure? {
      return Failure(merged.error);
    }
    return Success(Report(garmin.laps, garmin.points, shiftedLaps, shiftedPoints, offset, merged.value));
  }

  /** Lines 200-202 as the script runs them: the checks of `merge_asof`, the
      sweep, and the two derived columns. */
  method RunMerge(left: seq<Point>, right: seq<Point>) returns (r: Result<seq<MergedRow>, Error>)
    ensures r == Merge(left, right)
  {
    if right == [] {
      return Failure(NoGarminPoints);
    }
    if left == [] {
      return Failure(NoMergedRows);
    }
    if !SortedBy(left, PointTime) {
      return Failure(UnsortedKeys("left"));
    }
    if !SortedBy(right, PointTime) {
      return Failure(UnsortedKeys("right"));
    }
    var joined := MergeAsOf(left, right);
    r := WithDurations(joined);
  }

  // ---------------------------------------------------------- what it means

  /** The merge fails exactly on an empty side (right checked first) or keys
      out of order (left checked first); otherwise it has one row per left row, in order, with
      the heart rate of the latest right sample at or before it and the
      duration since the first row. */
  lemma MergeRows(left: seq<Point>, right: seq<Point>)
    ensures right == [] ==> Merge(left, right) == Failure(NoGarminPoints)
    ensures right != [] && left == [] ==> Merge(left, right) == Failure(NoMergedRows)
    ensures right != [] && left != [] && !SortedBy(left, PointTime) ==> Merge(left, right) == Failure(UnsortedKeys("left"))
    ensures right != [] && left != [] && SortedBy(left, PointTime) && !SortedBy(right, PointTime) ==> Merge(left, right) == Failure(UnsortedKeys("right"))
    ensures Merge(left, right).Success? ==>
      var rows := Merge(left, right).value;
      && right != []
      && |rows| == |left| > 0
      && rows[0].duration == 0
      && forall k :: 0 <= k < |left| ==>
        && rows[k].row == JoinRow(left[k], HeartRateAt(right, left[k].time))
        && rows[k].row.time == left[k].time
        && rows[k].row.heartRate == HeartRateAt(right, left[k].time)
        && rows[k].duration == Duration(left[k].time, left[0].time)
        && rows[k].clock == TimeOfDay(rows[k].duration)
  {
  }

  /** When the alignment of sorted tables succeeds, the rowing-machine tables
      are moved by one offset that puts their earliest lap start on the
      wrist-device one, and they stay in time order. */
  lemma AlignTablesClocks(garmin: Tables, laps: seq<LapEntry>, points: seq<Point>)
    requires SortedBy(laps, LapStart) && SortedBy(points, PointTime)
    requires AlignTables(garmin, laps, points).Success?
    ensures var rep := AlignTables(garmin, laps, points).value;
      && |laps| > 0 && |garmin.laps| > 0
      && rep.offset == MinKey(garmin.laps, LapStart) - MinKey(laps, LapStart)
      && rep.concept2Laps == ShiftLaps(laps, rep.offset)
      && rep.concept2Points == ShiftPoints(points, rep.offset)
      && SortedBy(rep.concept2Laps, LapStart)
      && SortedBy(rep.concept2Points, PointTime)
      && MinKey(rep.concept2Laps, LapStart) == MinKey(garmin.laps, LapStart)
  {
    AlignTablesValue(garmin, laps, points);
    var rep := AlignTables(garmin, laps, points).value;
    ShiftedClocks(garmin.laps, laps, points, rep.offset);
  }

  /** A successful alignment of two tables: both laps tables are non-empty, and
      the report holds the wrist tables and the rowing tables moved by the offset. */
  lemma AlignTablesValue(garmin: Tables, laps: seq<LapEntry>, points: seq<Point>)
    requires AlignTables(garmin, laps, points).Success?
    ensures var rep := AlignTables(garmin, laps, points).value;
      && |laps| > 0 && |garmin.laps| > 0
      && rep.offset == MinKey(garmin.laps, LapStart) - MinKey(laps, LapStart)
      && rep.garminLaps == garmin.laps && rep.garminPoints == garmin.points
      && rep.concept2Laps == ShiftLaps(laps, rep.offset)
      && rep.concept2Points == ShiftPoints(points, rep.offset)
  {
  }

  /** Shifting sorted rowing tables by the offset between the earliest lap
      starts keeps them sorted and puts their earliest lap on the wrist one. */
  lemma ShiftedClocks(garminLaps: seq<LapEntry>, laps: seq<LapEntry>, points: seq<Point>, offset: int)
    requires SortedBy(laps, LapStart) && SortedBy(points, PointTime)
    requires |laps| > 0 && |garminLaps| > 0
    requires offset == MinKey(garminLaps, LapStart) - MinKey(laps, LapStart)
    ensures SortedBy(ShiftLaps(laps, offset), LapStart)
    ensures SortedBy(ShiftPoints(points, offset), PointTime)
    ensures MinKey(ShiftLaps(laps, offset), LapStart) == MinKey(garminLaps, LapStart)
  {
    ShiftKeepsOrder(laps, points, offset);
    ShiftMin(laps, offset);
  }

  /** When and how the alignment fails: no rowing-machine file, then no
      wrist-device file, then a side without laps, then no wrist-device
      trackpoint, then no rowing-machine trackpoint, then wrist samples out of
      time order. The shifted rowing-machine stream is never out of order. */
  lemma AlignErrors(col: Collected)
    ensures col.concept2 == [] ==> Align(col) == Failure(NoConcept2Files)
    ensures col.concept2 != [] && col.garmin.None? ==> Align(col) == Failure(NoGarminFile)
    ensures col.concept2 != [] && col.garmin.Some? ==>
      (Align(col) == Failure(NoLapStart) <==> col.garmin.value.laps == [] || ConcatLaps(col.concept2) == [])
    ensures Align(col) != Failure(UnsortedKeys("left"))
    ensures Align(col).Success? <==>
      && col.concept2 != [] && col.garmin.Some?
      && col.garmin.value.laps != [] && ConcatLaps(col.concept2) != []
      && col.garmin.value.points != []
      && SortedBy(col.garmin.value.points, PointTime)
      && ConcatPoints(col.concept2) != []
  {
    if col.concept2 != [] && col.garmin.Some? {
      var garmin := col.garmin.value;
      var laps := SortBy(ConcatLaps(col.concept2), LapStart);
      var points := SortBy(ConcatPoints(col.concept2), PointTime);
      SameLength(laps, ConcatLaps(col.concept2));
      SameLength(points, ConcatPoints(col.concept2));
      AlignTablesSucceeds(garmin, laps, points);
    }
  }

  /** On a time-sorted rowing stream, the alignment of the tables succeeds
      exactly when both sides have laps and trackpoints and the wrist samples
      are in time order. */
  lemma AlignTablesSucceeds(garmin: Tables, laps: seq<LapEntry>, points: seq<Point>)
    requires SortedBy(points, PointTime)
    ensures AlignTables(garmin, laps, points) != Failure(UnsortedKeys("left"))
    ensures AlignTables(garmin, laps, points).Success? <==>
      && garmin.laps != [] && laps != []
      && garmin.points != [] && points != []
      && SortedBy(garmin.points, PointTime)
  {
    if laps != [] && garmin.laps != [] {
      var offset := ClockOffset(garmin.laps, laps).value;
      ShiftKeepsOrder(laps, points, offset);
      MergeRows(ShiftPoints(points, offset), garmin.points);
    }
  }

  /** The last three failures, once both sides have laps: no wrist-device
      trackpoint, then no rowing-machine trackpoint, then wrist samples out of
      time order. */
  lemma AlignLaterErrors(col: Collected)
    requires col.concept2 != [] && col.garmin.Some?
    requires col.garmin.value.laps != [] && ConcatLaps(col.concept2) != []
    ensures col.garmin.value.points == [] ==> Align(col) == Failure(NoGarminPoints)
    ensures col.garmin.value.points != [] && ConcatPoints(col.concept2) == [] ==> Align(col) == Failure(NoMergedRows)
    ensures ConcatPoints(col.concept2) != [] && !SortedBy(col.garmin.value.points, PointTime) ==>
      Align(col) == Failure(UnsortedKeys("right"))
  {
    var laps := SortBy(ConcatLaps(col.concept2), LapStart);
    var points := SortBy(ConcatPoints(col.concept2), PointTime);
    SameLength(laps, ConcatLaps(col.concept2));
    SameLength(points, ConcatPoints(col.concept2));
    var offset := ClockOffset(col.garmin.value.laps, laps).value;
    ShiftKeepsOrder(laps, points, offset);
  }

  /** Rearranging rows keeps their number. */
  lemma SameLength<T>(a: seq<T>, b: seq<T>)
    requires multiset(a) == multiset(b)
    ensures |a| == |b| && (a == [] <==> b == [])
  {
    assert |a| == |multiset(a)| == |multiset(b)| == |b|;
  }

  /** Alignment of the sorted arrangements of two tables: the offset is taken
      against the earliest lap start of the rows as they came, and each table
      is its sorted arrangement moved by that offset. */
  lemma AlignSortedClocks(garmin: Tables, laps: seq<LapEntry>, points: seq<Point>)
    requires AlignTables(garmin, SortBy(laps, LapStart), SortBy(points, PointTime)).Success?
    ensures var rep := AlignTables(garmin, SortBy(laps, LapStart), SortBy(points, PointTime)).value;
      && |laps| > 0 && |rep.garminLaps| > 0
      && rep.offset == MinKey(rep.garminLaps, LapStart) - MinKey(laps, LapStart)
      && rep.concept2Laps == ShiftLaps(SortBy(laps, LapStart), rep.offset)
      && rep.concept2Points == ShiftPoints(SortBy(points, PointTime), rep.offset)
      && SortedBy(rep.concept2Laps, LapStart)
      && SortedBy(rep.concept2Points, PointTime)
      && MinKey(rep.concept2Laps, LapStart) == MinKey(rep.garminLaps, LapStart)
  {
    AlignTablesClocks(garmin, SortBy(laps, LapStart), SortBy(points, PointTime));
    SortKeepsMin(laps, LapStart);
  }

  /** After a successful alignment the rowing-machine tables are the sorted
      arrangements of all their rows (`SortBy` keeps every row), moved by the
      offset between the earliest wrist-device lap start and the earliest
      rowing-machine lap start; they stay in time order, and the earliest
      rowing-machine lap now starts with the earliest wrist-device lap. */
  lemma AlignedClocks(col: Collected)
    requires Align(col).Success?
    ensures var rep := Align(col).value;
      var laps := ConcatLaps(col.concept2);
      var points := ConcatPoints(col.concept2);
      && |laps| > 0 && |rep.garminLaps| > 0
      && rep.offset == MinKey(rep.garminLaps, LapStart) - MinKey(laps, LapStart)
      && rep.concept2Laps == ShiftLaps(SortBy(laps, LapStart), rep.offset)
      && rep.concept2Points == ShiftPoints(SortBy(points, PointTime), rep.offset)
      && SortedBy(rep.concept2Laps, LapStart)
      && SortedBy(rep.concept2Points, PointTime)
      && MinKey(rep.concept2Laps, LapStart) == MinKey(rep.garminLaps, LapStart)
  {
    AlignSortedClocks(col.garmin.value, ConcatLaps(col.concept2), ConcatPoints(col.concept2));
  }

  /** After a successful alignment the merged table has one row per shifted
      rowing-machine trackpoint, in order, with its time and the heart rate of
      the latest wrist-device sample at or before it; durations count from
      the first row. */
  lemma MergedRows(col: Collected)
    requires Align(col).Success?
    ensures var rep := Align(col).value;
      && |rep.merged| == |rep.concept2Points| > 0
      && rep.merged[0].duration == 0
      && forall k :: 0 <= k < |rep.merged| ==>
        && rep.merged[k].row == JoinRow(rep.concept2Points[k], HeartRateAt(rep.garminPoints, rep.concept2Points[k].time))
        && 0 <= rep.merged[k].duration < SECONDS_PER_DAY
        && rep.merged[k].clock == TimeOfDay(rep.merged[k].duration)
        && rep.merged[k].row.time == rep.concept2Points[k].time
        && rep.merged[k].row.heartRate == HeartRateAt(rep.garminPoints, rep.concept2Points[k].time)
        && rep.merged[k].duration == Duration(rep.concept2Points[k].time, rep.concept2Points[0].time)
  {
    var rep := Align(col).value;
    AlignMerged(col);
    MergeRows(rep.concept2Points, rep.garminPoints);
  }

  /** A successful run's merged table is the merge of its two trackpoints tables. */
  lemma AlignMerged(col: Collected)
    requires Align(col).Success?
    ensures var rep := Align(col).value;
      Merge(rep.concept2Points, rep.garminPoints) == Success(rep.merged)
  {
  }
}
