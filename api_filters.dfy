/**
 * The location list's query-parameter filters: name substring, rating value
 * list, radius around a point, and bounding box. Number parsing and the
 * spatial predicates of the database are parameters of the model.
 */
module ApiFilters {
  import opened Wrappers
  import opened Text
  import opened Sorting
  import opened Locations
  import opened EmotionModels

  /** The request's query parameters (for a repeated key, the value the request reports). */
  type Params = map<string, string>

  /** Meters per degree of latitude, the constant used to turn a radius into degrees. */
  const MetersPerDegree: real := 111320.0

  function Get(params: Params, key: string): Option<string>
  {
    if key in params then Some(params[key]) else None
  }

  /** Present and non-empty, as a string's truth value in Python. */
  predicate Truthy(s: Option<string>)
  {
    s.Some? && s.value != ""
  }

  predicate LatitudeInRange(lat: real) { -90.0 <= lat <= 90.0 }

  predicate LongitudeInRange(lon: real) { -180.0 <= lon <= 180.0 }

  datatype RadiusDecision = KeepAll | KeepNone | KeepWithin(center: Point, degrees: real)

  /** What `filter_radius` does with the current `lat`, `lon` and `radius` parameters. */
  function DecideRadius(params: Params, parse: string -> Option<real>): (d: RadiusDecision)
    ensures d == KeepAll <==>
      !(Truthy(Get(params, "lat")) && Truthy(Get(params, "lon")) && Truthy(Get(params, "radius")))
    ensures d == KeepNone <==>
      && Truthy(Get(params, "lat")) && Truthy(Get(params, "lon")) && Truthy(Get(params, "radius"))
      && var lat, lon, radius := parse(params["lat"]), parse(params["lon"]), parse(params["radius"]);
         || lat.None? || lon.None? || radius.None?
         || !LatitudeInRange(lat.value) || !LongitudeInRange(lon.value) || radius.value <= 0.0
    ensures d.KeepWithin? ==>
      && parse(params["lat"]) == Some(d.center.y)
      && parse(params["lon"]) == Some(d.center.x)
      && parse(params["radius"]).Some?
      && d.degrees == parse(params["radius"]).value / MetersPerDegree
      && LatitudeInRange(d.center.y) && LongitudeInRange(d.center.x) && d.degrees > 0.0
  {
    var lat, lon, radius := Get(params, "lat"), Get(params, "lon"), Get(params, "radius");
    if !(Truthy(lat) && Truthy(lon) && Truthy(radius)) then KeepAll
    else
      var la, lo, rm := parse(lat.value), parse(lon.value), parse(radius.value);
      if la.None? || lo.None? || rm.None? then KeepNone
      else if !LatitudeInRange(la.value) || !LongitudeInRange(lo.value) then KeepNone
      else if rm.value <= 0.0 then KeepNone
      else KeepWithin(Point(lo.value, la.value), rm.value / MetersPerDegree)
  }

  /**
   * `filter_radius`: the locations whose point lies within the radius, in degrees,
   * of (x = lon, y = lat); `dwithin(geometry, center, distance)` is the database's test.
   */
  function FilterRadius(
    qs: seq<Location>, params: Params, parse: string -> Option<real>,
    dwithin: (Point, Point, real) -> bool): (r: seq<Location>)
    ensures forall k :: 0 <= k < |r| ==> r[k] in qs
    ensures DecideRadius(params, parse) == KeepAll ==> r == qs
    ensures DecideRadius(params, parse) == KeepNone ==> r == []
    ensures IsSubsequence(r, qs)
  {
    match DecideRadius(params, parse)
    case KeepAll =>
      FilterAllKept(qs, (l: Location) => true);
      FilterIsSubsequence(qs, (l: Location) => true);
      qs
    case KeepNone => []
    case KeepWithin(center, degrees) =>
      FilterIsSubsequence(qs, (l: Location) => dwithin(l.coordinates, center, degrees));
      Filter(qs, (l: Location) => dwithin(l.coordinates, center, degrees))
  }

  /** The kept locations are exactly those within the radius when all three parameters are usable. */
  lemma FilterRadiusKeepsExactlyWithin(
    qs: seq<Location>, params: Params, parse: string -> Option<real>,
    dwithin: (Point, Point, real) -> bool, l: Location)
    requires DecideRadius(params, parse).KeepWithin?
    ensures var d := DecideRadius(params, parse);
            l in FilterRadius(qs, params, parse, dwithin) <==> l in qs && dwithin(l.coordinates, d.center, d.degrees)
  {
    var d := DecideRadius(params, parse);
    var p := (l: Location) => dwithin(l.coordinates, d.center, d.degrees);
    if l in qs && p(l) {
      var k :| 0 <= k < |qs| && qs[k] == l;
    }
  }

  /** The method reads all three parameters each time, so applying it again changes nothing. */
  lemma FilterRadiusIdempotent(
    qs: seq<Location>, params: Params, parse: string -> Option<real>,
    dwithin: (Point, Point, real) -> bool)
    ensures FilterRadius(FilterRadius(qs, params, parse, dwithin), params, parse, dwithin)
         == FilterRadius(qs, params, parse, dwithin)
  {
    match DecideRadius(params, parse)
    case KeepAll =>
    case KeepNone =>
    case KeepWithin(center, degrees) =>
      FilterIdempotent(qs, (l: Location) => dwithin(l.coordinates, center, degrees));
  }

  /** `filter_radius` applied `n` times in a row, once per non-empty parameter bound to it. */
  function FilterRadiusTimes(
    n: nat, qs: seq<Location>, params: Params, parse: string -> Option<real>,
    dwithin: (Point, Point, real) -> bool): seq<Location>
  {
    if n == 0 then qs
    else FilterRadius(FilterRadiusTimes(n - 1, qs, params, parse, dwithin), params, parse, dwithin)
  }

  /** Whether it runs for one, two or all three of lat, lon and radius, the result is the same. */
  lemma {:induction false} FilterRadiusTimesIsOnce(
    n: nat, qs: seq<Location>, params: Params, parse: string -> Option<real>,
    dwithin: (Point, Point, real) -> bool)
    requires 1 <= n
    ensures FilterRadiusTimes(n, qs, params, parse, dwithin) == FilterRadius(qs, params, parse, dwithin)
  {
    if n > 1 {
      FilterRadiusTimesIsOnce(n - 1, qs, params, parse, dwithin);
      FilterRadiusIdempotent(qs, params, parse, dwithin);
    }
  }

  /** A box given as lon_min, lat_min, lon_max, lat_max; min <= max is not required. */
  datatype Box = Box(lonMin: real, latMin: real, lonMax: real, latMax: real)

  /** Every piece parses, or None when one of them does not. */
  function ParseAll<T>(pieces: seq<string>, parse: string -> Option<T>): (r: Option<seq<T>>)
    ensures r.Some? <==> forall k :: 0 <= k < |pieces| ==> parse(pieces[k]).Some?
    ensures r.Some? ==> |r.value| == |pieces|
    ensures r.Some? ==> forall k :: 0 <= k < |pieces| ==> parse(pieces[k]) == Some(r.value[k])
  {
    if pieces == [] then Some([])
    else
      var head := parse(pieces[0]);
      var tail := ParseAll(pieces[1..], parse);
      if head.None? then None
      else if tail.None? then
        assert exists k :: 0 <= k < |pieces[1..]| && parse(pieces[1..][k]).None?;
        None
      else Some([head.value] + tail.value)
  }

  /** The box `filter_bbox` builds from its value, or None when the result is empty. */
  function DecideBbox(value: string, parse: string -> Option<real>): (b: Option<Box>)
    ensures b.Some? ==>
      var pieces := Split(value, ',');
      && |pieces| == 4
      && parse(pieces[0]) == Some(b.value.lonMin) && parse(pieces[1]) == Some(b.value.latMin)
      && parse(pieces[2]) == Some(b.value.lonMax) && parse(pieces[3]) == Some(b.value.latMax)
      && LongitudeInRange(b.value.lonMin) && LongitudeInRange(b.value.lonMax)
      && LatitudeInRange(b.value.latMin) && LatitudeInRange(b.value.latMax)
    ensures b.None? <==>
      var pieces := Split(value, ',');
      || |pieces| != 4
      || (exists k :: 0 <= k < |pieces| && parse(pieces[k]).None?)
      || !LongitudeInRange(parse(pieces[0]).value) || !LatitudeInRange(parse(pieces[1]).value)
      || !LongitudeInRange(parse(pieces[2]).value) || !LatitudeInRange(parse(pieces[3]).value)
  {
    var coords := ParseAll(Split(value, ','), parse);
    if coords.None? || |coords.value| != 4 then None
    else
      var c := coords.value;
      if !LongitudeInRange(c[0]) || !LongitudeInRange(c[2]) then None
      else if !LatitudeInRange(c[1]) || !LatitudeInRange(c[3]) then None
      else Some(Box(c[0], c[1], c[2], c[3]))
  }

  /**
   * `filter_bbox` behind its character filter: the value is stripped of surrounding
   * whitespace first, and a blank value skips the method and keeps the query set;
   * otherwise the locations contained in the box, by the database's `contained` test.
   */
  function FilterBbox(
    qs: seq<Location>, value: string, parse: string -> Option<real>,
    contained: (Point, Box) -> bool): (r: seq<Location>)
    ensures AllSpace(value) ==> r == qs
    ensures !AllSpace(value) && DecideBbox(Strip(value), parse).None? ==> r == []
    ensures !AllSpace(value) && DecideBbox(Strip(value), parse).Some? ==>
      forall l :: l in r <==> l in qs && contained(l.coordinates, DecideBbox(Strip(value), parse).value)
    ensures IsSubsequence(r, qs)
  {
    var v := Strip(value);
    if v == "" then
      FilterAllKept(qs, (l: Location) => true);
      FilterIsSubsequence(qs, (l: Location) => true);
      qs
    else
      match DecideBbox(v, parse)
      case None => []
      case Some(box) =>
        var r := Filter(qs, (l: Location) => contained(l.coordinates, box));
        FilterIsSubsequence(qs, (l: Location) => contained(l.coordinates, box));
        assert forall l :: l in qs && contained(l.coordinates, box) ==> l in r by {
          forall l | l in qs && contained(l.coordinates, box) ensures l in r {
            var k :| 0 <= k < |qs| && qs[k] == l;
          }
        }
        r
  }

  /**
   * The `name` filter: the value is stripped of surrounding whitespace, a blank value
   * keeps the query set, and otherwise the name must contain it, ignoring case.
   */
  function FilterName(qs: seq<Location>, value: string): (r: seq<Location>)
    ensures AllSpace(value) ==> r == qs
    ensures forall l :: l in r <==> l in qs && IContains(l.name, Strip(value))
    ensures IsSubsequence(r, qs)
  {
    var v := Strip(value);
    if v == "" then
      FilterAllKept(qs, (l: Location) => true);
      FilterIsSubsequence(qs, (l: Location) => true);
      assert forall l: Location :: IContains(l.name, v) by {
        forall l: Location ensures IContains(l.name, v) {
          assert OccursAt(Lower(l.name), Lower(v), 0);
        }
      }
      qs
    else
      var r := Filter(qs, (l: Location) => IContains(l.name, v));
      FilterIsSubsequence(qs, (l: Location) => IContains(l.name, v));
      assert forall l :: l in qs && IContains(l.name, v) ==> l in r by {
        forall l | l in qs && IContains(l.name, v) ensures l in r {
          var k :| 0 <= k < |qs| && qs[k] == l;
        }
      }
      r
  }

  /** Some rating of the location, public or private, has one of the listed values. */
  predicate HasRatingValueIn(l: Location, points: seq<EmotionPoint>, values: seq<int>)
  {
    exists p :: p in points && p.location == l.id && p.emotionalValue in values
  }

  /** The `ValueError` the integer rating column raises for an `__in` value that is not an integer. */
  datatype LookupError = IntegerExpected

  /**
   * The `emotional_value` filter over the related ratings. The comma-separated value
   * is split into strings; the empty value is the empty list and keeps the query set.
   * Each piece is then read as an integer (`parseInt` stands for Python's `int()`):
   * one that does not read makes the lookup raise, and otherwise the locations with a
   * rating whose value is in the list are kept.
   */
  function FilterEmotionalValue(
    qs: seq<Location>, points: seq<EmotionPoint>, value: string,
    parseInt: string -> Option<int>): (r: Result<seq<Location>, LookupError>)
    ensures value == "" ==> r == Success(qs)
    ensures r.Failure? <==>
      value != "" && exists k :: 0 <= k < |Split(value, ',')| && parseInt(Split(value, ',')[k]).None?
    ensures r.Success? && value != "" ==>
      && ParseAll(Split(value, ','), parseInt).Some?
      && forall l :: l in r.value <==>
           l in qs && HasRatingValueIn(l, points, ParseAll(Split(value, ','), parseInt).value)
    ensures r.Success? ==> IsSubsequence(r.value, qs)
  {
    if value == "" then
      FilterAllKept(qs, (l: Location) => true);
      FilterIsSubsequence(qs, (l: Location) => true);
      Success(qs)
    else
      var pieces := Split(value, ',');
      var parsed := ParseAll(pieces, parseInt);
      if parsed.None? then
        assert exists k :: 0 <= k < |Split(value, ',')| && parseInt(Split(value, ',')[k]).None?;
        Failure(IntegerExpected)
      else
        var values := parsed.value;
        var r := Filter(qs, (l: Location) => HasRatingValueIn(l, points, values));
        FilterIsSubsequence(qs, (l: Location) => HasRatingValueIn(l, points, values));
        assert forall l :: l in qs && HasRatingValueIn(l, points, values) ==> l in r by {
          forall l | l in qs && HasRatingValueIn(l, points, values) ensures l in r {
            var k :| 0 <= k < |qs| && qs[k] == l;
          }
        }
        Success(r)
  }
}
