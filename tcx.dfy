/** The field extractors of the TCX reader: one lap element or one trackpoint
    element of a Garmin Training Center Database (v2) document becomes a record
    whose optional fields are present exactly when their elements are. */
module Tcx {
  import opened Wrappers
  import opened Xml

  /** The Training Center Database namespace, prefix `ns`. */
  const NS_TCD: string := "http://www.garmin.com/xmlschemas/TrainingCenterDatabase/v2"

  /** The Activity Extension namespace, prefix `ns3`. */
  const NS_EXT: string := "http://www.garmin.com/xmlschemas/ActivityExtension/v2"

  /** The namespace map the reader resolves its `prefix:Local` paths with. */
  const NAMESPACES: map<string, string> := map[
    "ns" := NS_TCD,
    "ns2" := "http://www.garmin.com/xmlschemas/UserProfile/v2",
    "ns3" := NS_EXT,
    "ns4" := "http://www.garmin.com/xmlschemas/ProfileExtension/v1",
    "ns5" := "http://www.garmin.com/xmlschemas/ActivityGoals/v1"
  ]

  /** `ns:local`, a tag of the Training Center Database namespace. */
  function Ns(local: string): QName {
    QName(NS_TCD, local)
  }

  /** `ns3:local`, a tag of the Activity Extension namespace. */
  function Ns3(local: string): QName {
    QName(NS_EXT, local)
  }

  /** `ns:` and `ns3:` resolve through the namespace map to the namespaces
      `Ns` and `Ns3` tag with. */
  lemma PrefixesResolve(local: string)
    ensures "ns" in NAMESPACES && Ns(local) == QName(NAMESPACES["ns"], local)
    ensures "ns3" in NAMESPACES && Ns3(local) == QName(NAMESPACES["ns3"], local)
  {
  }

  /** The dictionary keys (and table columns) the reader uses. */
  datatype Key =
    | Number | StartTime | Distance | Calories | TotalTime | MaxSpeed | MaxHr | AvgHr
    | Time | HeartRate | Watt | Cadence | LapNo

  /** The text of each key, as the dictionaries and tables spell it. */
  function KeyName(k: Key): string {
    match k
    case Number => "number"
    case StartTime => "start_time"
    case Distance => "distance"
    case Calories => "calories"
    case TotalTime => "total_time"
    case MaxSpeed => "max_speed"
    case MaxHr => "max_hr"
    case AvgHr => "avg_hr"
    case Time => "time"
    case HeartRate => "heart_rate"
    case Watt => "watt"
    case Cadence => "cadence"
    case LapNo => "lap"
  }

  /** Column order of the laps table (`number` becomes its index). */
  const LAPS_COLUMNS: seq<Key> := [Number, StartTime, Distance, Calories, TotalTime, MaxSpeed, MaxHr, AvgHr]

  /** Column order of the trackpoints table. */
  const TRACKPOINT_COLUMNS: seq<Key> := [Time, Distance, HeartRate, Watt, Cadence]

  /** The column names of a list of keys. */
  function Names(keys: seq<Key>): (names: seq<string>)
    ensures |names| == |keys|
    ensures forall i :: 0 <= i < |keys| ==> names[i] == KeyName(keys[i])
  {
    if keys == [] then [] else [KeyName(keys[0])] + Names(keys[1..])
  }

  /** The tables' columns are spelled as the script's column lists spell them. */
  lemma ColumnNames()
    ensures Names(LAPS_COLUMNS) == ["number", "start_time", "distance", "calories", "total_time", "max_speed", "max_hr", "avg_hr"]
    ensures Names(TRACKPOINT_COLUMNS) == ["time", "distance", "heart_rate", "watt", "cadence"]
  {
  }

  /** Distinct keys have distinct names, so a dictionary over keys is one over names. */
  lemma KeyNamesDistinct(k: Key, k': Key)
    ensures KeyName(k) == KeyName(k') <==> k == k'
  {
  }

  /** Everything that can stop a run, from the extractors up to the merge. */
  datatype Error =
    | MissingAttribute(element: string, name: string)  // a required attribute is absent
    | MissingChild(element: string, child: string)     // a required child element is absent
    | MissingText(field: string)                       // the element holding a value has no text
    | BadValue(field: string)                          // the text does not convert to the field's type
    | NaiveTimestamp(field: string)                    // the timestamp carries no UTC offset to convert from
    | NoActivities                                     // the document has no Activities container
    | EmptyActivities                                  // the Activities container has no child
    | NoConcept2Files                                  // nothing to concatenate for the rowing machine
    | NoGarminFile                                     // no wrist-device file was read
    | NoLapStart                                       // a laps table is empty, so its earliest start is undefined
    | UnsortedKeys(side: string)                       // a side of the as-of join is not sorted by time
    | NoGarminPoints                                   // the wrist-device trackpoints table is empty, so its time column is no datetime key
    | NoMergedRows                                     // the rowing-machine trackpoints table is empty, so the join has no key and no first row

  /** A parsed timestamp: seconds on its own wall clock, and, when the text
      carried one, the UTC offset of that clock in seconds. */
  datatype ParsedTime = Aware(wall: int, offset: int) | Naive(wall: int)

  /** The text conversions the reader relies on (`float`, `int`, `pd.to_datetime`),
      as total functions that answer None where the conversion raises. */
  datatype Coercions = Coercions(
    toFloat: string -> Option<real>,
    toInt: string -> Option<int>,
    toTime: string -> Option<ParsedTime>)

  /** The UTC instant, in seconds, of an offset-bearing timestamp. */
  function Instant(t: ParsedTime): int
    requires t.Aware?
  {
    t.wall - t.offset
  }

  /** Conversion to naive local time for a fixed local UTC offset `localOffset`:
      the same instant read on the local clock, with no offset kept. */
  function ToLocal(t: ParsedTime, localOffset: int): (naive: int)
    requires t.Aware?
    ensures naive - localOffset == Instant(t)
    ensures naive - t.wall == localOffset - t.offset
  {
    t.wall - t.offset + localOffset
  }

  /** Reading a naive local time back on a clock with UTC offset `offset`. */
  function Reattach(naive: int, localOffset: int, offset: int): (t: ParsedTime)
    ensures t.Aware? && t.offset == offset
    ensures Instant(t) == naive - localOffset
  {
    Aware(naive - localOffset + offset, offset)
  }

  /** Re-attaching the source offset after the local conversion gives back the
      original timestamp, to the second. */
  lemma LocalRoundTrip(t: ParsedTime, localOffset: int)
    requires t.Aware?
    ensures Reattach(ToLocal(t, localOffset), localOffset, t.offset) == t
  {
  }

  /** Two timestamps that name the same instant convert to the same local time. */
  lemma LocalDependsOnInstantOnly(t: ParsedTime, u: ParsedTime, localOffset: int)
    requires t.Aware? && u.Aware?
    ensures ToLocal(t, localOffset) == ToLocal(u, localOffset) <==> Instant(t) == Instant(u)
  {
  }

  /** `convert_local`: parse the text, then move it to local time. A missing text
      node, unparsable text and a timestamp without an offset all fail. */
  function ConvertLocal(text: Option<string>, field: string, c: Coercions, localOffset: int): (r: Result<int, Error>)
    ensures text.None? ==> r == Failure(MissingText(field))
    ensures r.Success? <==> text.Some? && c.toTime(text.value).Some? && c.toTime(text.value).value.Aware?
    ensures r.Success? ==> r.value == ToLocal(c.toTime(text.value).value, localOffset)
    ensures text.Some? && c.toTime(text.value).None? ==> r == Failure(BadValue(field))
  {
    match text
    case None => Failure(MissingText(field))
    case Some(s) =>
      match c.toTime(s)
      case None => Failure(BadValue(field))
      case Some(t) =>
        if t.Naive? then Failure(NaiveTimestamp(field)) else Success(ToLocal(t, localOffset))
  }

  /** The value element `found` (if any) converts with `parse`. */
  ghost predicate Decodable<T>(found: Option<Element>, parse: string -> Option<T>) {
    found.Some? ==> found.value.text.Some? && parse(found.value.text.value).Some?
  }

  /** `v` is what the value element `found` holds: absent with it, its converted text otherwise. */
  ghost predicate Decoded<T>(found: Option<Element>, parse: string -> Option<T>, v: Option<T>) {
    match found
    case None => v.None?
    case Some(x) => x.text.Some? && v.Some? && parse(x.text.value) == v
  }

  /** A decoded field is present exactly when its element was found. */
  lemma DecodedPresence<T>(found: Option<Element>, parse: string -> Option<T>, v: Option<T>)
    requires Decoded(found, parse, v)
    ensures v.Some? <==> found.Some?
  {
  }

  /** The `Value` child of a heart-rate wrapper, if the wrapper is there. */
  function ValueOf(wrapper: Option<Element>): Option<Option<Element>> {
    match wrapper
    case None => None
    case Some(w) => Some(Find(w, Ns("Value")))
  }

  /** A decoded heart-rate field is present exactly when its wrapper was found. */
  lemma NestedPresence<T>(wrapper: Option<Element>, parse: string -> Option<T>, v: Option<T>)
    requires NestedDecodable(wrapper, parse) && NestedDecoded(wrapper, parse, v)
    ensures v.Some? <==> wrapper.Some?
  {
  }

  /** A heart-rate wrapper, when present, has a `Value` child that converts with `parse`. */
  ghost predicate NestedDecodable<T>(wrapper: Option<Element>, parse: string -> Option<T>) {
    wrapper.Some? ==> ValueOf(wrapper).value.Some? && Decodable(ValueOf(wrapper).value, parse)
  }

  /** `v` is the converted text of the wrapper's `Value` child, and absent with the wrapper. */
  ghost predicate NestedDecoded<T>(wrapper: Option<Element>, parse: string -> Option<T>, v: Option<T>) {
    match wrapper
    case None => v.None?
    case Some(_) => Decoded(ValueOf(wrapper).value, parse, v)
  }

  /** An optional scalar field: `float(elem.text)` or `int(elem.text)` when the element was found. */
  function Scalar<T(==)>(found: Option<Element>, field: string, parse: string -> Option<T>): (r: Result<Option<T>, Error>)
    ensures r.Success? <==> Decodable(found, parse)
    ensures r.Success? ==> Decoded(found, parse, r.value)
    ensures r.Failure? ==> r.error == if found.value.text.None? then MissingText(field) else BadValue(field)
  {
    match found
    case None => Success(None)
    case Some(x) =>
      match x.text
      case None => Failure(MissingText(field))
      case Some(s) =>
        match parse(s)
        case None => Failure(BadValue(field))
        case Some(v) => Success(Some(v))
  }

  /** An optional heart-rate field, read from the `Value` child of its wrapper. */
  function Nested<T(==)>(wrapper: Option<Element>, wrapperName: string, field: string, parse: string -> Option<T>): (r: Result<Option<T>, Error>)
    ensures r.Success? <==> NestedDecodable(wrapper, parse)
    ensures r.Success? ==> NestedDecoded(wrapper, parse, r.value)
    ensures wrapper.Some? && ValueOf(wrapper).value.None? ==> r == Failure(MissingChild(wrapperName, "Value"))
  {
    match wrapper
    case None => Success(None)
    case Some(w) =>
      match Find(w, Ns("Value"))
      case None => Failure(MissingChild(wrapperName, "Value"))
      case Some(v) => Scalar(Some(v), field, parse)
  }

  /** The watt field: `float(elem.text or 0)`, so a missing or empty text gives 0. */
  function WattField(found: Option<Element>, toFloat: string -> Option<real>): (r: Result<Option<real>, Error>)
    ensures found.None? ==> r == Success(None)
    ensures found.Some? && (found.value.text.None? || found.value.text == Some("")) ==> r == Success(Some(0.0))
    ensures found.Some? && found.value.text.Some? && found.value.text.value != "" ==>
      r == (match toFloat(found.value.text.value) case None => Failure(BadValue("watt")) case Some(v) => Success(Some(v)))
  {
    match found
    case None => Success(None)
    case Some(x) =>
      if x.text.None? || x.text == Some("") then Success(Some(0.0))
      else Scalar(found, "watt", toFloat)
  }

  // ---------------------------------------------------------------- laps

  /** The data of one lap, in the column order of the laps table. */
  datatype Lap = Lap(
    startTime: int,
    distance: Option<real>,
    calories: Option<int>,
    totalTime: Option<real>,
    maxSpeed: Option<real>,
    maxHr: Option<real>,
    avgHr: Option<real>)

  /** The keys of the dictionary the source builds for a lap. */
  function LapKeys(l: Lap): set<Key> {
    {StartTime}
    + (if l.distance.Some? then {Distance} else {})
    + (if l.calories.Some? then {Calories} else {})
    + (if l.totalTime.Some? then {TotalTime} else {})
    + (if l.maxSpeed.Some? then {MaxSpeed} else {})
    + (if l.maxHr.Some? then {MaxHr} else {})
    + (if l.avgHr.Some? then {AvgHr} else {})
  }

  /** Which keys a lap dictionary holds: `start_time` always, each optional
      field exactly when it has a value, and nothing else. */
  lemma LapKeysOf(l: Lap)
    ensures StartTime in LapKeys(l)
    ensures Distance in LapKeys(l) <==> l.distance.Some?
    ensures Calories in LapKeys(l) <==> l.calories.Some?
    ensures TotalTime in LapKeys(l) <==> l.totalTime.Some?
    ensures MaxSpeed in LapKeys(l) <==> l.maxSpeed.Some?
    ensures MaxHr in LapKeys(l) <==> l.maxHr.Some?
    ensures AvgHr in LapKeys(l) <==> l.avgHr.Some?
    ensures LapKeys(l) <= {StartTime, Distance, Calories, TotalTime, MaxSpeed, MaxHr, AvgHr}
  {
  }

  /** Everything the lap extractor needs: a `StartTime` attribute holding an
      offset-bearing timestamp, and every optional element it finds convertible. */
  ghost predicate LapWellFormed(lap: Element, c: Coercions) {
    && "StartTime" in lap.attrib
    && c.toTime(lap.attrib["StartTime"]).Some?
    && c.toTime(lap.attrib["StartTime"]).value.Aware?
    && Decodable(Find(lap, Ns("DistanceMeters")), c.toFloat)
    && Decodable(Find(lap, Ns("Calories")), c.toInt)
    && Decodable(Find(lap, Ns("TotalTimeSeconds")), c.toFloat)
    && Decodable(Find(lap, Ns("MaximumSpeed")), c.toFloat)
    && NestedDecodable(Find(lap, Ns("MaximumHeartRateBpm")), c.toFloat)
    && NestedDecodable(Find(lap, Ns("AverageHeartRateBpm")), c.toFloat)
  }

  /** `get_tcx_lap_data`. */
  function ExtractLap(lap: Element, c: Coercions, localOffset: int): (r: Result<Lap, Error>)
    ensures "StartTime" !in lap.attrib ==> r == Failure(MissingAttribute("Lap", "StartTime"))
    ensures r.Success? <==> LapWellFormed(lap, c)
    ensures r.Success? ==> r.value.startTime == ToLocal(c.toTime(lap.attrib["StartTime"]).value, localOffset)
    ensures r.Success? ==>
      && Decoded(Find(lap, Ns("DistanceMeters")), c.toFloat, r.value.distance)
      && Decoded(Find(lap, Ns("Calories")), c.toInt, r.value.calories)
      && Decoded(Find(lap, Ns("TotalTimeSeconds")), c.toFloat, r.value.totalTime)
      && Decoded(Find(lap, Ns("MaximumSpeed")), c.toFloat, r.value.maxSpeed)
      && NestedDecoded(Find(lap, Ns("MaximumHeartRateBpm")), c.toFloat, r.value.maxHr)
      && NestedDecoded(Find(lap, Ns("AverageHeartRateBpm")), c.toFloat, r.value.avgHr)
  {
    if "StartTime" !in lap.attrib then Failure(MissingAttribute("Lap", "StartTime"))
    else
      var start :- ConvertLocal(Some(lap.attrib["StartTime"]), "start_time", c, localOffset);
      var distance :- Scalar(Find(lap, Ns("DistanceMeters")), "distance", c.toFloat);
      var calories :- Scalar(Find(lap, Ns("Calories")), "calories", c.toInt);
      var totalTime :- Scalar(Find(lap, Ns("TotalTimeSeconds")), "total_time", c.toFloat);
      var maxSpeed :- Scalar(Find(lap, Ns("MaximumSpeed")), "max_speed", c.toFloat);
      var maxHr :- Nested(Find(lap, Ns("MaximumHeartRateBpm")), "MaximumHeartRateBpm", "max_hr", c.toFloat);
      var avgHr :- Nested(Find(lap, Ns("AverageHeartRateBpm")), "AverageHeartRateBpm", "avg_hr", c.toFloat);
      Success(Lap(start, distance, calories, totalTime, maxSpeed, maxHr, avgHr))
  }


  /** The lap dictionary has `start_time` and, for each optional field, a key
      exactly when its direct child element exists. */
  lemma LapKeysExact(lap: Element, c: Coercions, localOffset: int)
    requires ExtractLap(lap, c, localOffset).Success?
    ensures var keys := LapKeys(ExtractLap(lap, c, localOffset).value);
      && StartTime in keys
      && (Distance in keys <==> Find(lap, Ns("DistanceMeters")).Some?)
      && (Calories in keys <==> Find(lap, Ns("Calories")).Some?)
      && (TotalTime in keys <==> Find(lap, Ns("TotalTimeSeconds")).Some?)
      && (MaxSpeed in keys <==> Find(lap, Ns("MaximumSpeed")).Some?)
      && (MaxHr in keys <==> Find(lap, Ns("MaximumHeartRateBpm")).Some?)
      && (AvgHr in keys <==> Find(lap, Ns("AverageHeartRateBpm")).Some?)
      && keys <= {StartTime, Distance, Calories, TotalTime, MaxSpeed, MaxHr, AvgHr}
  {
    var l := ExtractLap(lap, c, localOffset).value;
    LapKeysOf(l);
    DecodedPresence(Find(lap, Ns("DistanceMeters")), c.toFloat, l.distance);
    DecodedPresence(Find(lap, Ns("Calories")), c.toInt, l.calories);
    DecodedPresence(Find(lap, Ns("TotalTimeSeconds")), c.toFloat, l.totalTime);
    DecodedPresence(Find(lap, Ns("MaximumSpeed")), c.toFloat, l.maxSpeed);
    NestedPresence(Find(lap, Ns("MaximumHeartRateBpm")), c.toFloat, l.maxHr);
    NestedPresence(Find(lap, Ns("AverageHeartRateBpm")), c.toFloat, l.avgHr);
  }

  // ---------------------------------------------------------- trackpoints

  /** The data of one trackpoint, in the column order of the trackpoints table. */
  datatype Point = Point(
    time: int,
    distance: Option<real>,
    heartRate: Option<int>,
    watt: Option<real>,
    cadence: Option<real>)

  /** The keys of the dictionary the source builds for a trackpoint. */
  function PointKeys(p: Point): set<Key> {
    {Time}
    + (if p.distance.Some? then {Distance} else {})
    + (if p.heartRate.Some? then {HeartRate} else {})
    + (if p.watt.Some? then {Watt} else {})
    + (if p.cadence.Some? then {Cadence} else {})
  }

  /** Which keys a trackpoint dictionary holds: `time` always, each optional
      field exactly when it has a value, and nothing else. */
  lemma PointKeysOf(p: Point)
    ensures Time in PointKeys(p)
    ensures Distance in PointKeys(p) <==> p.distance.Some?
    ensures HeartRate in PointKeys(p) <==> p.heartRate.Some?
    ensures Watt in PointKeys(p) <==> p.watt.Some?
    ensures Cadence in PointKeys(p) <==> p.cadence.Some?
    ensures PointKeys(p) <= {Time, Cadence, Distance, HeartRate, Watt}
  {
  }

  /** A trackpoint's `Watts` element: the first one at any depth below it. */
  function WattsElement(tp: Element): (r: Option<Element>)
    ensures r.Some? ==> r.value.tag == Ns3("Watts") && r.value in Descendants(tp)
    ensures r.None? <==> Untagged(Descendants(tp), Ns3("Watts"))
  {
    SearchBelow(tp, Ns3("Watts"))
  }

  /** The optional trackpoint elements that are present all convert. */
  ghost predicate PointFieldsWellFormed(tp: Element, c: Coercions) {
    && Decodable(Find(tp, Ns("Cadence")), c.toFloat)
    && Decodable(Find(tp, Ns("DistanceMeters")), c.toFloat)
    && NestedDecodable(Find(tp, Ns("HeartRateBpm")), c.toInt)
    && (WattsElement(tp).Some? && WattsElement(tp).value.text.Some? && WattsElement(tp).value.text.value != "" ==>
          c.toFloat(WattsElement(tp).value.text.value).Some?)
  }

  /** Everything the trackpoint extractor needs: a `Time` child holding an
      offset-bearing timestamp, and every optional element it finds convertible. */
  ghost predicate PointWellFormed(tp: Element, c: Coercions) {
    && Find(tp, Ns("Time")).Some?
    && Find(tp, Ns("Time")).value.text.Some?
    && c.toTime(Find(tp, Ns("Time")).value.text.value).Some?
    && c.toTime(Find(tp, Ns("Time")).value.text.value).value.Aware?
    && PointFieldsWellFormed(tp, c)
  }

  /** The optional half of `get_tcx_trackpoint_data`: cadence, distance, heart
      rate and watt, in that order, around an already converted `time`. */
  function PointFields(tp: Element, c: Coercions, time: int): (r: Result<Point, Error>)
    ensures r.Success? <==> PointFieldsWellFormed(tp, c)
    ensures r.Success? ==> r.value.time == time
    ensures r.Success? ==>
      && Decoded(Find(tp, Ns("Cadence")), c.toFloat, r.value.cadence)
      && Decoded(Find(tp, Ns("DistanceMeters")), c.toFloat, r.value.distance)
      && NestedDecoded(Find(tp, Ns("HeartRateBpm")), c.toInt, r.value.heartRate)
    ensures r.Success? && WattsElement(tp).Some? ==>
      r.value.watt == Some(if WattsElement(tp).value.text.None? || WattsElement(tp).value.text == Some("") then 0.0
                           else c.toFloat(WattsElement(tp).value.text.value).value)
  {
    var cadence :- Scalar(Find(tp, Ns("Cadence")), "cadence", c.toFloat);
    var distance :- Scalar(Find(tp, Ns("DistanceMeters")), "distance", c.toFloat);
    var heartRate :- Nested(Find(tp, Ns("HeartRateBpm")), "HeartRateBpm", "heart_rate", c.toInt);
    var watt :- WattField(WattsElement(tp), c.toFloat);
    Success(Point(time, distance, heartRate, watt, cadence))
  }


  /** `get_tcx_trackpoint_data`. */
  function ExtractPoint(tp: Element, c: Coercions, localOffset: int): (r: Result<Point, Error>)
    ensures Find(tp, Ns("Time")).None? ==> r == Failure(MissingChild("Trackpoint", "Time"))
    ensures r.Success? <==> PointWellFormed(tp, c)
    ensures r.Success? ==> r.value.time == ToLocal(c.toTime(Find(tp, Ns("Time")).value.text.value).value, localOffset)
    ensures r.Success? ==> r == PointFields(tp, c, r.value.time)
  {
    match Find(tp, Ns("Time"))
    case None => Failure(MissingChild("Trackpoint", "Time"))
    case Some(timeElem) =>
      var time :- ConvertLocal(timeElem.text, "time", c, localOffset);
      PointFields(tp, c, time)
  }


  /** The trackpoint dictionary has `time` and, for each optional field, a key
      exactly when its element exists: cadence, distance and heart rate as
      direct children, watt at any depth. */
  lemma PointKeysExact(tp: Element, c: Coercions, localOffset: int)
    requires ExtractPoint(tp, c, localOffset).Success?
    ensures var keys := PointKeys(ExtractPoint(tp, c, localOffset).value);
      && Time in keys
      && (Cadence in keys <==> Find(tp, Ns("Cadence")).Some?)
      && (Distance in keys <==> Find(tp, Ns("DistanceMeters")).Some?)
      && (HeartRate in keys <==> Find(tp, Ns("HeartRateBpm")).Some?)
      && (Watt in keys <==> WattsElement(tp).Some?)
      && keys <= {Time, Cadence, Distance, HeartRate, Watt}
  {
    var p := ExtractPoint(tp, c, localOffset).value;
    PointKeysOf(p);
    DecodedPresence(Find(tp, Ns("Cadence")), c.toFloat, p.cadence);
    DecodedPresence(Find(tp, Ns("DistanceMeters")), c.toFloat, p.distance);
    NestedPresence(Find(tp, Ns("HeartRateBpm")), c.toInt, p.heartRate);
  }

  /** A successfully extracted trackpoint always has its `time` key, so its
      dictionary is never empty. */
  lemma PointKeysNonEmpty(p: Point)
    ensures Time in PointKeys(p) && PointKeys(p) != {}
  {
  }
}
