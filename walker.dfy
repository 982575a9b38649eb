/** The document walker (`get_dataframes`): the first activity's laps in
    document order, numbered from 1, each with its trackpoints stamped with the
    lap's number, and the two tables built from them. */
module Walker {
  import opened Wrappers
  import opened Xml
  import opened Tcx

  /** The two per-element readers the walk calls: one for a `Lap` element and
      one for a `Trackpoint` element. */
  datatype Extractors = Extractors(
    lap: Element -> Result<Lap, Error>,
    track: Element -> Option<seq<Element>>,
    point: Element -> Result<Point, Error>)

  /** `lap.find('ns:Track')` followed by `findall('ns:Trackpoint')`: the
      trackpoints of a lap's track, or None when the lap has no `Track` child. */
  function TrackPoints(lap: Element): Option<seq<Element>> {
    match Find(lap, Ns("Track"))
    case None => None
    case Some(track) => Some(FindAll(track, Ns("Trackpoint")))
  }

  /** The readers of this program: `get_tcx_lap_data` and
      `get_tcx_trackpoint_data`, with the given value parsers and local offset. */
  function Reader(c: Coercions, localOffset: int): (ex: Extractors)
    ensures forall e :: ex.lap(e) == ExtractLap(e, c, localOffset)
    ensures forall e :: ex.track(e) == TrackPoints(e)
    ensures forall e :: ex.point(e) == ExtractPoint(e, c, localOffset)
  {
    Extractors(e => ExtractLap(e, c, localOffset), TrackPoints, e => ExtractPoint(e, c, localOffset))
  }

  /** A lap's dictionary once the walker has added its `number`: one row of the laps table. */
  datatype LapEntry = LapEntry(number: int, lap: Lap)

  /** A trackpoint's dictionary once the walker has added its `lap`. */
  datatype PointEntry = PointEntry(point: Point, lap: int)

  /** The two tables of one file: laps (indexed by number) and trackpoints. */
  datatype Tables = Tables(laps: seq<LapEntry>, points: seq<Point>)

  /** The keys of a lap entry's dictionary. */
  function LapEntryKeys(e: LapEntry): set<Key> {
    LapKeys(e.lap) + {Number}
  }

  /** The keys of a trackpoint entry's dictionary. */
  function PointEntryKeys(e: PointEntry): set<Key> {
    PointKeys(e.point) + {LapNo}
  }

  /** Every key of a lap entry is a column of the laps table, so building
      that table loses nothing. */
  lemma LapsColumnsKeepAll(e: LapEntry)
    ensures forall k :: k in LapEntryKeys(e) ==> k in LAPS_COLUMNS
  {
  }

  /** One trackpoints-table row: the entry's dictionary restricted to the
      trackpoint columns, which keeps every key except `lap`. */
  function PointRow(e: PointEntry): (p: Point)
    ensures forall k :: k in PointKeys(p) <==> k in PointEntryKeys(e) && k in TRACKPOINT_COLUMNS
    ensures LapNo in PointEntryKeys(e) && LapNo !in PointKeys(p)
    ensures PointEntryKeys(e) - PointKeys(p) == {LapNo}
  {
    e.point
  }

  /** The trackpoints table built from the walker's entries. */
  function PointRows(es: seq<PointEntry>): (rows: seq<Point>)
    ensures |rows| == |es|
    ensures forall k :: 0 <= k < |es| ==> rows[k] == PointRow(es[k])
  {
    seq(|es|, k requires 0 <= k < |es| => PointRow(es[k]))
  }

  /** The `Trackpoint` children of a lap's `Track` (none when there is no `Track`). */
  function TrackOf(lap: Element, ex: Extractors): seq<Element> {
    match ex.track(lap)
    case None => []
    case Some(tps) => tps
  }

  /** The number of trackpoints in all of `laps`. */
  function TotalPoints(laps: seq<Element>, ex: Extractors): nat {
    if laps == [] then 0 else TotalPoints(laps[..|laps| - 1], ex) + |TrackOf(laps[|laps| - 1], ex)|
  }

  /** The inner loop, over the trackpoints of lap number `n`: each extracted
      trackpoint whose dictionary is non-empty is stamped with `n`. The first
      trackpoint that fails to extract fails the whole walk. */
  function LoadPoints(tps: seq<Element>, n: int, ex: Extractors): Result<seq<PointEntry>, Error>
  {
    if tps == [] then Success([])
    else
      var prev :- LoadPoints(tps[..|tps| - 1], n, ex);
      var p :- ex.point(tps[|tps| - 1]);
      Success(if PointKeys(p) != {} then prev + [PointEntry(p, n)] else prev)
  }

  /** One pass of the outer loop: lap number `n`'s own entry and the entries of
      its trackpoints. A lap without a `Track` child fails the walk. */
  function LoadLap(lap: Element, n: int, ex: Extractors): Result<(LapEntry, seq<PointEntry>), Error> {
    var data :- ex.lap(lap);
    var track := ex.track(lap);
    if track.None? then Failure(MissingChild("Lap", "Track"))
    else
      var pts :- LoadPoints(track.value, n, ex);
      Success((LapEntry(n, data), pts))
  }

  /** The outer loop, over the activity's laps: lap `i` (from 0) gets number
      `i + 1`, and its trackpoints follow those of the laps before it. */
  function LoadLaps(laps: seq<Element>, ex: Extractors): Result<(seq<LapEntry>, seq<PointEntry>), Error>
  {
    if laps == [] then Success(([], []))
    else
      var prev :- LoadLaps(laps[..|laps| - 1], ex);
      var cur :- LoadLap(laps[|laps| - 1], |laps|, ex);
      Success((prev.0 + [cur.0], prev.1 + cur.1))
  }

  /** The laps of the first child of `Activities`, when there is one. */
  function ActivityLaps(root: Element): seq<Element> {
    match Find(root, Ns("Activities"))
    case None => []
    case Some(acts) => if acts.children == [] then [] else FindAll(acts.children[0], Ns("Lap"))
  }

  /** `get_dataframes` on an already parsed document. */
  function LoadDocument(root: Element, ex: Extractors): (r: Result<Tables, Error>)
    ensures Find(root, Ns("Activities")).None? ==> r == Failure(NoActivities)
    ensures Find(root, Ns("Activities")).Some? && Find(root, Ns("Activities")).value.children == [] ==>
      r == Failure(EmptyActivities)
  {
    match Find(root, Ns("Activities"))
    case None => Failure(NoActivities)
    case Some(acts) =>
      if acts.children == [] then Failure(EmptyActivities)
      else
        var walked :- LoadLaps(FindAll(acts.children[0], Ns("Lap")), ex);
        Success(Tables(walked.0, PointRows(walked.1)))
  }

  // ------------------------------------------------------ the walk itself

  /** `get_dataframes` as the source runs it, with this program's readers:
      look up the first activity, then walk its laps. */
  method GetDataframes(root: Element, c: Coercions, localOffset: int) returns (r: Result<Tables, Error>)
    ensures r == LoadDocument(root, Reader(c, localOffset))
  {
    var activities := Find(root, Ns("Activities"));
    if activities.None? {
      return Failure(NoActivities);
    }
    if activities.value.children == [] {
      return Failure(EmptyActivities);
    }
    var activity := activities.value.children[0];
    var laps := FindAll(activity, Ns("Lap"));
    var walked := WalkLaps(laps, Reader(c, localOffset));
    if walked.Failure? {
      return Failure(walked.error);
    }
    var (lapsData, pointsData) := walked.value;
    return Success(Tables(lapsData, PointRows(pointsData)));
  }

  /** The outer loop of `get_dataframes`: a lap counter from 1, and the two
      lists the laps and their trackpoints are appended to. */
  method WalkLaps(laps: seq<Element>, ex: Extractors) returns (r: Result<(seq<LapEntry>, seq<PointEntry>), Error>)
    ensures r == LoadLaps(laps, ex)
  {
    var pointsData: seq<PointEntry> := [];
    var lapsData: seq<LapEntry> := [];
    var lapNo := 1;
    var i := 0;
    while i < |laps|
      invariant 0 <= i <= |laps| && lapNo == i + 1
      invariant LoadLaps(laps[..i], ex) == Success((lapsData, pointsData))
    {
      var lap := laps[i];
      assert laps[..i + 1][..i] == laps[..i] && laps[..i + 1][i] == lap;
      var singleLap := ex.lap(lap);
      if singleLap.Failure? {
        LoadLapsPrefixFailure(laps, i + 1, ex);
        return Failure(singleLap.error);
      }
      lapsData := lapsData + [LapEntry(lapNo, singleLap.value)];
      var track := ex.track(lap);
      if track.None? {
        LoadLapsPrefixFailure(laps, i + 1, ex);
        return Failure(MissingChild("Lap", "Track"));
      }
      var tps := track.value;
      var walked := WalkTrack(tps, lapNo, ex);
      if walked.Failure? {
        LoadLapsPrefixFailure(laps, i + 1, ex);
        return Failure(walked.error);
      }
      pointsData := pointsData + walked.value;
      lapNo := lapNo + 1;
      i := i + 1;
    }
    assert laps[..i] == laps;
    return Success((lapsData, pointsData));
  }

  /** The inner loop of `get_dataframes`, over one lap's trackpoints: each
      non-empty trackpoint dictionary is stamped with the lap number and kept. */
  method WalkTrack(tps: seq<Element>, lapNo: int, ex: Extractors) returns (r: Result<seq<PointEntry>, Error>)
    ensures r == LoadPoints(tps, lapNo, ex)
  {
    var pointsData: seq<PointEntry> := [];
    var j := 0;
    while j < |tps|
      invariant 0 <= j <= |tps|
      invariant LoadPoints(tps[..j], lapNo, ex) == Success(pointsData)
    {
      assert tps[..j + 1][..j] == tps[..j] && tps[..j + 1][j] == tps[j];
      var singlePoint := ex.point(tps[j]);
      if singlePoint.Failure? {
        LoadPointsPrefixFailure(tps, j + 1, lapNo, ex);
        return Failure(singlePoint.error);
      }
      if PointKeys(singlePoint.value) != {} {
        pointsData := pointsData + [PointEntry(singlePoint.value, lapNo)];
      }
      j := j + 1;
    }
    assert tps[..j] == tps;
    return Success(pointsData);
  }

  /** A failure among the first `k` trackpoints is the failure of all of them. */
  lemma {:induction false} LoadPointsPrefixFailure(tps: seq<Element>, k: nat, n: int, ex: Extractors)
    requires k <= |tps|
    requires LoadPoints(tps[..k], n, ex).Failure?
    ensures LoadPoints(tps, n, ex) == LoadPoints(tps[..k], n, ex)
    decreases |tps| - k
  {
    if k < |tps| {
      var front := tps[..|tps| - 1];
      assert front[..k] == tps[..k];
      LoadPointsPrefixFailure(front, k, n, ex);
    } else {
      assert tps[..k] == tps;
    }
  }

  /** A failure among the first `k` laps is the failure of the whole walk. */
  lemma {:induction false} LoadLapsPrefixFailure(laps: seq<Element>, k: nat, ex: Extractors)
    requires k <= |laps|
    requires LoadLaps(laps[..k], ex).Failure?
    ensures LoadLaps(laps, ex) == LoadLaps(laps[..k], ex)
    decreases |laps| - k
  {
    if k < |laps| {
      var front := laps[..|laps| - 1];
      assert front[..k] == laps[..k];
      LoadLapsPrefixFailure(front, k, ex);
    } else {
      assert laps[..k] == laps;
    }
  }

  // ------------------------------------------------- what the walk yields

  /** The inner loop succeeds exactly when every trackpoint extracts, and then
      yields one entry per trackpoint, in order, each stamped with `n`: the
      empty-dictionary skip never fires. */
  lemma {:induction false} LoadPointsShape(tps: seq<Element>, n: int, ex: Extractors)
    ensures LoadPoints(tps, n, ex).Success? <==>
      forall m :: 0 <= m < |tps| ==> ex.point(tps[m]).Success?
    ensures LoadPoints(tps, n, ex).Success? ==>
      var es := LoadPoints(tps, n, ex).value;
      && |es| == |tps|
      && forall m :: 0 <= m < |tps| ==> es[m] == PointEntry(ex.point(tps[m]).value, n)
  {
    if tps != [] {
      var front := tps[..|tps| - 1];
      LoadPointsShape(front, n, ex);
      assert forall m :: 0 <= m < |front| ==> front[m] == tps[m];
      PointKeysNonEmpty(Point(0, None, None, None, None));
      if LoadPoints(tps, n, ex).Success? {
        PointKeysNonEmpty(ex.point(tps[|tps| - 1]).value);
      }
    }
  }

  /** What a lap needs for the walk to get past it: its own extraction, a
      `Track` child, and every trackpoint of that track. */
  ghost predicate LapLoads(lap: Element, ex: Extractors) {
    && ex.lap(lap).Success?
    && ex.track(lap).Some?
    && forall m :: 0 <= m < |TrackOf(lap, ex)| ==> ex.point(TrackOf(lap, ex)[m]).Success?
  }

  /** One lap gets past the walk exactly when it loads; it then yields its own
      entry, numbered `n`, and one entry per trackpoint of its track, in order,
      each stamped with `n`. */
  lemma LoadLapShape(lap: Element, n: int, ex: Extractors)
    ensures LoadLap(lap, n, ex).Success? <==> LapLoads(lap, ex)
    ensures LoadLap(lap, n, ex).Success? ==>
      var (entry, es) := LoadLap(lap, n, ex).value;
      && entry == LapEntry(n, ex.lap(lap).value)
      && |es| == |TrackOf(lap, ex)|
      && forall m :: 0 <= m < |es| ==> es[m] == PointEntry(ex.point(TrackOf(lap, ex)[m]).value, n)
  {
    LoadPointsShape(TrackOf(lap, ex), n, ex);
  }

  /** One lap gets past the walk exactly when it loads. */
  lemma LoadLapLoads(lap: Element, n: int, ex: Extractors)
    ensures LoadLap(lap, n, ex).Success? <==> LapLoads(lap, ex)
  {
    LoadPointsShape(TrackOf(lap, ex), n, ex);
  }

  /** The walk succeeds exactly when every lap loads. */
  lemma {:induction false} LoadLapsSucceeds(laps: seq<Element>, ex: Extractors)
    ensures LoadLaps(laps, ex).Success? <==> forall i :: 0 <= i < |laps| ==> LapLoads(laps[i], ex)
  {
    if laps != [] {
      var front := laps[..|laps| - 1];
      LoadLapsSucceeds(front, ex);
      LoadLapLoads(laps[|laps| - 1], |laps|, ex);
      assert forall i :: 0 <= i < |front| ==> front[i] == laps[i];
    }
  }

  /** After a successful walk, lap `i` (from 0) is laps-table entry `i`, with
      number `i + 1` and the lap's extracted fields. */
  lemma {:induction false} LoadLapsNumbering(laps: seq<Element>, ex: Extractors)
    requires LoadLaps(laps, ex).Success?
    ensures |LoadLaps(laps, ex).value.0| == |laps|
    ensures forall i :: 0 <= i < |laps| ==>
      ex.lap(laps[i]).Success? && LoadLaps(laps, ex).value.0[i] == LapEntry(i + 1, ex.lap(laps[i]).value)
  {
    if laps != [] {
      var front := laps[..|laps| - 1];
      var last := laps[|laps| - 1];
      LoadLapsNumbering(front, ex);
      LoadLapShape(last, |laps|, ex);
      var prev := LoadLaps(front, ex).value.0;
      var ls := LoadLaps(laps, ex).value.0;
      assert ls == prev + [LoadLap(last, |laps|, ex).value.0];
      forall i | 0 <= i < |laps|
        ensures ex.lap(laps[i]).Success? && ls[i] == LapEntry(i + 1, ex.lap(laps[i]).value)
      {
        if i < |front| {
          assert front[i] == laps[i] && ls[i] == prev[i];
        }
      }
    }
  }

  /** After a successful walk there is one trackpoint entry per trackpoint of
      every lap: none is skipped. */
  lemma {:induction false} LoadLapsCount(laps: seq<Element>, ex: Extractors)
    requires LoadLaps(laps, ex).Success?
    ensures |LoadLaps(laps, ex).value.1| == TotalPoints(laps, ex)
  {
    if laps != [] {
      LoadLapsCount(laps[..|laps| - 1], ex);
      LoadLapShape(laps[|laps| - 1], |laps|, ex);
    }
  }

  /** Lap-major order: trackpoint `m` of lap `i` sits right after the
      trackpoints of laps `0..i-1`, stamped with `i + 1`. */
  lemma {:induction false} LoadLapsPlacement(laps: seq<Element>, ex: Extractors, i: nat, m: nat)
    requires LoadLaps(laps, ex).Success?
    requires i < |laps| && m < |TrackOf(laps[i], ex)|
    ensures ex.point(TrackOf(laps[i], ex)[m]).Success?
    ensures var ps := LoadLaps(laps, ex).value.1;
      && TotalPoints(laps[..i], ex) + m < |ps|
      && ps[TotalPoints(laps[..i], ex) + m] == PointEntry(ex.point(TrackOf(laps[i], ex)[m]).value, i + 1)
    decreases |laps|, 1
  {
    if i < |laps| - 1 {
      PlacementInFront(laps, ex, i, m);
    } else {
      PlacementInLast(laps, ex, m);
    }
  }

  /** The placement of a trackpoint of an earlier lap: it is where the walk
      of the laps before the last one put it. */
  lemma {:induction false} PlacementInFront(laps: seq<Element>, ex: Extractors, i: nat, m: nat)
    requires LoadLaps(laps, ex).Success?
    requires i < |laps| - 1 && m < |TrackOf(laps[i], ex)|
    ensures ex.point(TrackOf(laps[i], ex)[m]).Success?
    ensures var ps := LoadLaps(laps, ex).value.1;
      && TotalPoints(laps[..i], ex) + m < |ps|
      && ps[TotalPoints(laps[..i], ex) + m] == PointEntry(ex.point(TrackOf(laps[i], ex)[m]).value, i + 1)
    decreases |laps|, 0
  {
    var front := laps[..|laps| - 1];
    var prev := LoadLaps(front, ex).value.1;
    assert LoadLaps(laps, ex).value.1 == prev + LoadLap(laps[|laps| - 1], |laps|, ex).value.1;
    assert front[..i] == laps[..i] && front[i] == laps[i];
    LoadLapsPlacement(front, ex, i, m);
  }

  /** The placement of a trackpoint of the last lap: right after all the
      trackpoints of the laps before it. */
  lemma {:induction false} PlacementInLast(laps: seq<Element>, ex: Extractors, m: nat)
    requires LoadLaps(laps, ex).Success?
    requires |laps| > 0 && m < |TrackOf(laps[|laps| - 1], ex)|
    ensures ex.point(TrackOf(laps[|laps| - 1], ex)[m]).Success?
    ensures var ps := LoadLaps(laps, ex).value.1;
      && TotalPoints(laps[..|laps| - 1], ex) + m < |ps|
      && ps[TotalPoints(laps[..|laps| - 1], ex) + m] == PointEntry(ex.point(TrackOf(laps[|laps| - 1], ex)[m]).value, |laps|)
  {
    var front := laps[..|laps| - 1];
    var last := laps[|laps| - 1];
    var prev := LoadLaps(front, ex).value.1;
    var cur := LoadLap(last, |laps|, ex).value.1;
    assert LoadLaps(laps, ex).value.1 == prev + cur;
    LoadLapsCount(front, ex);
    LoadLapShape(last, |laps|, ex);
  }

  /** Every trackpoint entry refers to a lap of the same walk, and the lap
      numbers never go down along the trackpoints. */
  lemma {:induction false} LoadLapsStamps(laps: seq<Element>, ex: Extractors)
    requires LoadLaps(laps, ex).Success?
    ensures var (ls, ps) := LoadLaps(laps, ex).value;
      && (forall k :: 0 <= k < |ps| ==> 1 <= ps[k].lap <= |ls|)
      && (forall k, k' :: 0 <= k < k' < |ps| ==> ps[k].lap <= ps[k'].lap)
  {
    if laps != [] {
      var front := laps[..|laps| - 1];
      var last := laps[|laps| - 1];
      LoadLapsStamps(front, ex);
      LoadLapsNumbering(front, ex);
      LoadLapShape(last, |laps|, ex);
      var prev := LoadLaps(front, ex).value;
      var cur := LoadLap(last, |laps|, ex).value;
      assert LoadLaps(laps, ex).value == (prev.0 + [cur.0], prev.1 + cur.1);
    }
  }

  /** The document-level walk: no `Activities`, or an empty one, fails; otherwise
      the tables hold one lap row per lap of the first activity and one
      trackpoint row per trackpoint, each row the extracted fields. */
  lemma DocumentShape(root: Element, ex: Extractors)
    ensures LoadDocument(root, ex).Success? <==>
      && Find(root, Ns("Activities")).Some?
      && Find(root, Ns("Activities")).value.children != []
      && forall i :: 0 <= i < |ActivityLaps(root)| ==> LapLoads(ActivityLaps(root)[i], ex)
    ensures LoadDocument(root, ex).Success? ==>
      var t := LoadDocument(root, ex).value;
      && |t.laps| == |ActivityLaps(root)|
      && (forall i :: 0 <= i < |t.laps| ==> t.laps[i].number == i + 1)
      && |t.points| == TotalPoints(ActivityLaps(root), ex)
  {
    LoadLapsSucceeds(ActivityLaps(root), ex);
    if LoadDocument(root, ex).Success? {
      LoadLapsNumbering(ActivityLaps(root), ex);
      LoadLapsCount(ActivityLaps(root), ex);
    }
  }

  /** With this program's readers, a lap loads exactly when it is well formed,
      has a `Track`, and every trackpoint of that track is well formed. */
  lemma ReaderLapLoads(lap: Element, c: Coercions, localOffset: int)
    ensures LapLoads(lap, Reader(c, localOffset)) <==>
      && LapWellFormed(lap, c)
      && Find(lap, Ns("Track")).Some?
      && var tps := FindAll(Find(lap, Ns("Track")).value, Ns("Trackpoint"));
         forall m :: 0 <= m < |tps| ==> PointWellFormed(tps[m], c)
  {
    var ex := Reader(c, localOffset);
    assert ex.lap(lap).Success? <==> LapWellFormed(lap, c);
    assert ex.track(lap) == TrackPoints(lap);
    if Find(lap, Ns("Track")).Some? {
      var tps := FindAll(Find(lap, Ns("Track")).value, Ns("Trackpoint"));
      assert TrackOf(lap, ex) == tps;
      assert forall m :: 0 <= m < |tps| ==> (ex.point(tps[m]).Success? <==> PointWellFormed(tps[m], c));
    }
  }
}
