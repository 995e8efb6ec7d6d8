/**
 * The map page's decision helpers: marker and cluster colours, the rating
 * filter buttons, the heat-map layers, the "nearest location" pick for a
 * click, the star string, the Polish count wording and the CSRF cookie lookup.
 * A JavaScript value that may be null or undefined is an `Option`; a number is
 * falsy when it is missing or zero.
 */
module MapScript {
  import opened Wrappers
  import opened Text
  import opened Sorting
  import opened Numbers

  predicate Falsy(v: Option<real>)
  {
    v.None? || v.value == 0.0
  }

  // ---------------------------------------------------------------------------
  // Colours

  const EmptyColor: string := "#7f8c8d"
  const CommentColor: string := "#9b59b6"

  /** `EMOTION_COLORS`: the colour of each whole rating 1..5. */
  function EmotionColor(level: int): (c: string)
    requires 1 <= level <= 5
  {
    if level == 1 then "#e74c3c"
    else if level == 2 then "#e67e22"
    else if level == 3 then "#f39c12"
    else if level == 4 then "#2ecc71"
    else "#27ae60"
  }

  /** `getColorByValue`. */
  function ColorByValue(value: Option<real>): (c: string)
    ensures Falsy(value) ==> c == EmotionColor(3)
    ensures exists level :: 1 <= level <= 5 && c == EmotionColor(level)
  {
    if Falsy(value) then EmotionColor(3)
    else
      var v := value.value;
      if v < 1.5 then EmotionColor(1)
      else if v < 2.5 then EmotionColor(2)
      else if v < 3.5 then EmotionColor(3)
      else if v < 4.5 then EmotionColor(4)
      else EmotionColor(5)
  }

  function Clamp(n: int, lo: int, hi: int): (r: int)
    requires lo <= hi
    ensures lo <= r <= hi
  {
    if n < lo then lo else if n > hi then hi else n
  }

  /** A non-zero value gets the colour of the rating it rounds to (halves up), clamped to 1..5. */
  lemma ColorByValueRounds(v: real)
    requires v != 0.0
    ensures ColorByValue(Some(v)) == EmotionColor(Clamp((v + 0.5).Floor, 1, 5))
  {
    var f := (v + 0.5).Floor;
    assert f as real <= v + 0.5 < f as real + 1.0;
  }

  /** The marker colour of `createMarker`: by the average when rated, else by whether it has comments. */
  function MarkerColor(pointsCount: nat, commentsCount: nat, avg: Option<real>): (c: string)
    ensures pointsCount > 0 ==> c == ColorByValue(avg)
    ensures c == CommentColor <==> pointsCount == 0 && commentsCount > 0
    ensures c == EmptyColor <==> pointsCount == 0 && commentsCount == 0
  {
    if pointsCount > 0 then ColorByValue(avg)
    else if commentsCount > 0 then CommentColor
    else EmptyColor
  }

  /** A marker's value: its average, with 3.0 for a missing or zero one. */
  function MarkerValue(v: Option<real>): real
  {
    if Falsy(v) then 3.0 else v.value
  }

  function SumMarkerValues(markers: seq<Option<real>>): real
  {
    if markers == [] then 0.0 else SumMarkerValues(markers[..|markers| - 1]) + MarkerValue(markers[|markers| - 1])
  }

  /** `calculateAverageEmotionValue` of a cluster's markers; 3.0 for no markers. */
  function AverageMarkerValue(markers: seq<Option<real>>): (r: real)
    ensures markers == [] ==> r == 3.0
    ensures markers != [] ==> r * |markers| as real == SumMarkerValues(markers)
  {
    if markers == [] then 3.0 else SumMarkerValues(markers) / |markers| as real
  }

  lemma {:induction false} SumMarkerValuesBounds(markers: seq<Option<real>>)
    requires forall k :: 0 <= k < |markers| ==> 1.0 <= MarkerValue(markers[k]) <= 5.0
    ensures |markers| as real <= SumMarkerValues(markers) <= 5.0 * |markers| as real
  {
    if markers != [] {
      SumMarkerValuesBounds(markers[..|markers| - 1]);
    }
  }

  /** With every rated marker's value in 1..5, the cluster average lies in 1..5. */
  lemma AverageMarkerValueInRange(markers: seq<Option<real>>)
    requires forall k :: 0 <= k < |markers| ==> Falsy(markers[k]) || 1.0 <= markers[k].value <= 5.0
    ensures 1.0 <= AverageMarkerValue(markers) <= 5.0
  {
    if markers != [] {
      SumMarkerValuesBounds(markers);
      QuotientBounds(SumMarkerValues(markers), |markers| as real);
    }
  }

  // ---------------------------------------------------------------------------
  // Rating filter buttons

  /** The values other than `value`, in order. */
  function Removed(s: seq<int>, value: int): (r: seq<int>)
    ensures forall x :: x in r <==> x in s && x != value
    ensures Distinct(s) ==> Distinct(r)
  {
    var keep := (v: int) => v != value;
    if Distinct(s) then FilterDistinct(s, keep); Filter(s, keep) else Filter(s, keep)
  }

  /** The active values after a click on the button for `value`. */
  function Toggled(s: seq<int>, value: int): seq<int>
  {
    if value in s then Removed(s, value) else s + [value]
  }

  /** A click switches exactly the clicked value in or out. */
  lemma ToggledMembership(s: seq<int>, value: int)
    ensures value in Toggled(s, value) <==> value !in s
    ensures forall x :: x != value ==> (x in Toggled(s, value) <==> x in s)
  {
  }

  lemma ToggledDistinct(s: seq<int>, value: int)
    requires Distinct(s)
    ensures Distinct(Toggled(s, value))
  {
    if value !in s {
      assert forall i :: 0 <= i < |s| ==> (s + [value])[i] == s[i];
    }
  }

  /** Two clicks on the same button leave the same values active. */
  lemma ToggleTwice(s: seq<int>, value: int)
    ensures forall x :: x in Toggled(Toggled(s, value), value) <==> x in s
  {
    ToggledMembership(s, value);
    ToggledMembership(Toggled(s, value), value);
  }

  /** `activeFilters` in `initFilters`. */
  class FilterState {
    var active: seq<int>

    ghost predicate Valid()
      reads this
    {
      Distinct(active)
    }

    constructor ()
      ensures Valid() && active == []
    {
      active := [];
    }

    /** The button's click handler: remove a present value, append an absent one. */
    method Toggle(value: int)
      requires Valid()
      modifies this
      ensures Valid()
      ensures active == Toggled(old(active), value)
    {
      ToggledDistinct(active, value);
      if value in active {
        active := Removed(active, value);
      } else {
        active := active + [value];
      }
    }
  }

  // ---------------------------------------------------------------------------
  // Heat map

  datatype HeatLocation = HeatLocation(latitude: real, longitude: real, avg: Option<real>)

  datatype HeatPoint = HeatPoint(latitude: real, longitude: real, intensity: real)

  datatype Band = Bad | Neutral | Good

  /** The layer of a location: a missing average counts as 0. */
  function BandOf(avg: Option<real>): (b: Band)
    ensures var v := if Falsy(avg) then 0.0 else avg.value;
      && (b == Bad <==> v < 2.5)
      && (b == Neutral <==> 2.5 <= v < 3.8)
      && (b == Good <==> v >= 3.8)
  {
    var v := if Falsy(avg) then 0.0 else avg.value;
    if v < 2.5 then Bad
    else if v >= 2.5 && v < 3.8 then Neutral
    else Good
  }

  function HeatPointOf(l: HeatLocation): HeatPoint
  {
    HeatPoint(l.latitude, l.longitude, 0.8)
  }

  /** The points of the locations in one layer, in input order. */
  function PointsIn(locations: seq<HeatLocation>, band: Band): (r: seq<HeatPoint>)
    ensures |r| <= |locations|
  {
    if locations == [] then []
    else
      var last := locations[|locations| - 1];
      PointsIn(locations[..|locations| - 1], band) + (if BandOf(last.avg) == band then [HeatPointOf(last)] else [])
  }

  /** Every location lands in exactly one of the three layers. */
  lemma {:induction false} LayersPartition(locations: seq<HeatLocation>)
    ensures |PointsIn(locations, Bad)| + |PointsIn(locations, Neutral)| + |PointsIn(locations, Good)| == |locations|
  {
    if locations != [] {
      LayersPartition(locations[..|locations| - 1]);
    }
  }

  /** `updateHeatmapData`: the three layers' points. */
  method UpdateHeatmapData(locations: seq<HeatLocation>)
    returns (bad: seq<HeatPoint>, neutral: seq<HeatPoint>, good: seq<HeatPoint>)
    ensures bad == PointsIn(locations, Bad)
    ensures neutral == PointsIn(locations, Neutral)
    ensures good == PointsIn(locations, Good)
  {
    bad, neutral, good := [], [], [];
    var i := 0;
    while i < |locations|
      invariant 0 <= i <= |locations|
      invariant bad == PointsIn(locations[..i], Bad)
      invariant neutral == PointsIn(locations[..i], Neutral)
      invariant good == PointsIn(locations[..i], Good)
    {
      var loc := locations[i];
      var v := if Falsy(loc.avg) then 0.0 else loc.avg.value;
      var point := HeatPointOf(loc);
      if v < 2.5 {
        bad := bad + [point];
      } else if v >= 2.5 && v < 3.8 {
        neutral := neutral + [point];
      } else {
        good := good + [point];
      }
      assert locations[..i + 1][..i] == locations[..i];
      i := i + 1;
    }
    assert locations[..i] == locations;
  }

  // ---------------------------------------------------------------------------
  // Nearest location to a click

  datatype MapLocation = MapLocation(id: nat, name: string, latitude: real, longitude: real)

  /**
   * `checkProximityAndShowInfo`: among the locations closer than `radius`, the
   * first one at the smallest distance. `distance` stands for the map's
   * distance from the clicked point.
   */
  method ClosestWithin(locations: seq<MapLocation>, distance: MapLocation -> real, radius: real)
    returns (closest: Option<nat>, minDistance: Option<real>)
    ensures closest.None? <==> forall i :: 0 <= i < |locations| ==> distance(locations[i]) >= radius
    ensures closest.None? ==> minDistance.None?
    ensures closest.Some? ==>
      && closest.value < |locations|
      && distance(locations[closest.value]) < radius
      && minDistance == Some(distance(locations[closest.value]))
      && (forall i :: 0 <= i < |locations| && distance(locations[i]) < radius ==>
            distance(locations[closest.value]) <= distance(locations[i]))
      && (forall i :: 0 <= i < closest.value && distance(locations[i]) < radius ==>
            distance(locations[closest.value]) < distance(locations[i]))
  {
    closest, minDistance := None, None;
    var n := 0;
    while n < |locations|
      invariant 0 <= n <= |locations|
      invariant closest.None? <==> forall i :: 0 <= i < n ==> distance(locations[i]) >= radius
      invariant closest.None? ==> minDistance.None?
      invariant closest.Some? ==>
        && closest.value < n
        && distance(locations[closest.value]) < radius
        && minDistance == Some(distance(locations[closest.value]))
        && (forall i :: 0 <= i < n && distance(locations[i]) < radius ==>
              distance(locations[closest.value]) <= distance(locations[i]))
        && (forall i :: 0 <= i < closest.value && distance(locations[i]) < radius ==>
              distance(locations[closest.value]) < distance(locations[i]))
    {
      var dist := distance(locations[n]);
      if dist < radius && (minDistance.None? || dist < minDistance.value) {
        minDistance := Some(dist);
        closest := Some(n);
      }
      n := n + 1;
    }
  }

  // ---------------------------------------------------------------------------
  // Popup text

  const FullStar: char := '\U{2605}'
  const EmptyStar: char := '\U{2606}'
  const StarsOpen: string := "<span class=\"stars\" style=\"color: #f39c12; font-size: 1.2rem;\">"
  const StarsClose: string := "</span>"

  /** JavaScript's `%` truncates toward zero. */
  function JsFraction(v: real): real
  {
    if v >= 0.0 then v - v.Floor as real else v + (-v).Floor as real
  }

  /**
   * `getStarsHTML`: nothing for a missing or zero value, else five glyphs of
   * which the first `floor(value)` are full. The half-star branch writes the
   * same empty glyph as the last branch.
   */
  method StarsHtml(value: Option<real>) returns (html: string)
    ensures Falsy(value) ==> html == ""
    ensures !Falsy(value) ==>
      && |html| == |StarsOpen| + 5 + |StarsClose|
      && html[..|StarsOpen|] == StarsOpen
      && html[|StarsOpen| + 5..] == StarsClose
      && forall i :: |StarsOpen| <= i < |StarsOpen| + 5 ==>
           html[i] == if i - |StarsOpen| < value.value.Floor then FullStar else EmptyStar
  {
    if Falsy(value) {
      return "";
    }
    var fullStars := value.value.Floor;
    var hasHalfStar := JsFraction(value.value) >= 0.5;
    var glyphs := "";
    var i := 0;
    while i < 5
      invariant 0 <= i <= 5
      invariant |glyphs| == i
      invariant forall k :: 0 <= k < i ==> glyphs[k] == if k < fullStars then FullStar else EmptyStar
    {
      if i < fullStars {
        glyphs := glyphs + [FullStar];
      } else if i == fullStars && hasHalfStar {
        glyphs := glyphs + [EmptyStar];
      } else {
        glyphs := glyphs + [EmptyStar];
      }
      i := i + 1;
    }
    html := StarsOpen + glyphs + StarsClose;
    assert html[|StarsOpen| + 5..] == StarsClose;
    assert forall i :: |StarsOpen| <= i < |StarsOpen| + 5 ==> html[i] == glyphs[i - |StarsOpen|];
  }

  /** `pluralize`: 'ocenie' for exactly one rating; every other count, the 2-4 case included, gets 'ocenach'. */
  function Pluralize(count: int): (w: string)
    ensures w == "ocenie" <==> count == 1
    ensures w != "ocenie" ==> w == "ocenach"
  {
    if count == 1 then "ocenie"
    else if count % 10 >= 2 && count % 10 <= 4 && (count % 100 < 10 || count % 100 >= 20) then "ocenach"
    else "ocenach"
  }

  /** The popup's "based on N ratings" line; a missing count shows as 0 and takes the plural. */
  function RatingText(count: Option<nat>): (s: string)
    ensures var n := if count.None? then 0 else count.value;
      s == "Oparte na " + NatToString(n) + " " + (if count == Some(1) then "ocenie" else "ocenach")
  {
    "Oparte na " + NatToString(if count.None? then 0 else count.value) + " "
      + Pluralize(if count.None? then 0 else count.value)
  }

  /** The noun for a comment count in the popup. */
  function CommentsNoun(count: nat): (w: string)
    ensures w == "komentarz" <==> count == 1
    ensures w == "komentarze" <==> 2 <= count <= 4
    ensures w == "komentarzy" <==> count == 0 || count >= 5
  {
    if count == 1 then "komentarz"
    else if count > 1 && count < 5 then "komentarze"
    else "komentarzy"
  }

  /** The popup's comment count text; a missing count shows as 0. */
  function CommentsText(count: Option<nat>): (s: string)
    ensures count.None? ==> s == "0 komentarzy"
    ensures count.Some? ==> s == NatToString(count.value) + " " + CommentsNoun(count.value)
  {
    var c := if count.None? then 0 else count.value;
    NatToString(c) + " " + CommentsNoun(c)
  }

  // ---------------------------------------------------------------------------
  // CSRF cookie

  const CsrfName: string := "csrftoken"

  /** Whether `t` begins with `name` followed by '=' (the `substring` comparison of `getCsrfToken`). */
  predicate HasKey(t: string, name: string)
  {
    |t| > |name| && t[..|name|] == name && t[|name|] == '='
  }

  /** Whether a `;`-separated piece of the cookie string, trimmed, starts with `name=`. */
  predicate Names(piece: string, name: string)
  {
    HasKey(Trim(piece), name)
  }

  /** The position of the first piece at or after `from` that names the cookie. */
  function FirstNaming(pieces: seq<string>, name: string, from: nat): (r: Option<nat>)
    requires from <= |pieces|
    ensures r.Some? ==> from <= r.value < |pieces| && Names(pieces[r.value], name)
    ensures r.Some? ==> forall k :: from <= k < r.value ==> !Names(pieces[k], name)
    ensures r.None? ==> forall k :: from <= k < |pieces| ==> !Names(pieces[k], name)
    decreases |pieces| - from
  {
    if from == |pieces| then None
    else if Names(pieces[from], name) then Some(from)
    else FirstNaming(pieces, name, from + 1)
  }

  /** The value of the cookie: what follows `name=` in the first piece that names it. */
  function CookieLookup(pieces: seq<string>, name: string): Option<string>
  {
    match FirstNaming(pieces, name, 0)
    case None => None
    case Some(k) => Some(Trim(pieces[k])[|name| + 1..])
  }

  /** The token `getCsrfToken` returns for a `document.cookie` string; `decode` stands for `decodeURIComponent`. */
  function CsrfTokenOf(cookie: string, decode: string -> string): (r: Option<string>)
    ensures cookie == "" ==> r.None?
  {
    if cookie == "" then None
    else
      match CookieLookup(Split(cookie, ';'), CsrfName)
      case None => None
      case Some(v) => Some(decode(v))
  }

  /** The loop of `getCsrfToken`: scans the pieces in order and stops at the first that names the cookie. */
  method FindCookie(cookies: seq<string>, name: string) returns (r: Option<string>)
    ensures r == CookieLookup(cookies, name)
  {
    var i := 0;
    while i < |cookies|
      invariant 0 <= i <= |cookies|
      invariant FirstNaming(cookies, name, i) == FirstNaming(cookies, name, 0)
    {
      if Names(cookies[i], name) {
        return Some(Trim(cookies[i])[|name| + 1..]);
      }
      i := i + 1;
    }
    return None;
  }

  /** `getCsrfToken`: the decoded value of the csrftoken cookie, if any. */
  method GetCsrfToken(cookie: string, decode: string -> string) returns (r: Option<string>)
    ensures r == CsrfTokenOf(cookie, decode)
  {
    if cookie == "" {
      return None;
    }
    var value := FindCookie(Split(cookie, ';'), CsrfName);
    r := if value.Some? then Some(decode(value.value)) else None;
  }

  // The cookie-string of section 4.2.1 of RFC 6265: cookie-pair *( ";" SP cookie-pair ).

  /** A cookie-pair whose name and value hold no white space, ';' or '=' in the name. */
  predicate WellFormedPair(p: (string, string))
  {
    && p.0 != []
    && (forall k :: 0 <= k < |p.0| ==> !IsJsWhiteSpace(p.0[k]) && p.0[k] != ';' && p.0[k] != '=')
    && (forall k :: 0 <= k < |p.1| ==> !IsJsWhiteSpace(p.1[k]) && p.1[k] != ';')
  }

  function PairText(p: (string, string)): string
  {
    p.0 + "=" + p.1
  }

  /** The pieces between the ';' separators: the first pair bare, every later one after its SP. */
  function PairPieces(pairs: seq<(string, string)>): (r: seq<string>)
    ensures |r| == |pairs|
  {
    seq(|pairs|, k requires 0 <= k < |pairs| => (if k == 0 then "" else " ") + PairText(pairs[k]))
  }

  function CookieString(pairs: seq<(string, string)>): string
    requires pairs != []
  {
    Join(PairPieces(pairs), ';')
  }

  /** The value of the first pair with the given name. */
  function FirstNamed(pairs: seq<(string, string)>, name: string): Option<string>
  {
    if pairs == [] then None
    else if pairs[0].0 == name then Some(pairs[0].1)
    else FirstNamed(pairs[1..], name)
  }

  /** A pair's text starts with "csrftoken=" exactly when the pair is named csrftoken. */
  lemma PairStartsWithName(p: (string, string))
    requires WellFormedPair(p)
    ensures HasKey(PairText(p), CsrfName) <==> p.0 == CsrfName
  {
    var t := PairText(p);
    if HasKey(t, CsrfName) {
      var k := if |p.0| <= |CsrfName| then |p.0| else |CsrfName|;
      assert t[k] == '=' <==> k == |p.0|;
      assert t[k] == '=' <==> k == |CsrfName|;
      assert p.0 == t[..|p.0|];
    }
    if p.0 == CsrfName {
      assert t[..|CsrfName|] == CsrfName;
    }
  }

  /** A well-formed pair's text holds no ';' and neither begins nor ends with white space. */
  lemma PairTextShape(p: (string, string))
    requires WellFormedPair(p)
    ensures var t := PairText(p); t != [] && !IsJsWhiteSpace(t[0]) && !IsJsWhiteSpace(t[|t| - 1])
    ensures ';' !in PairText(p)
  {
    var t := PairText(p);
    assert t[0] == p.0[0];
    assert t[|t| - 1] == if p.1 == [] then '=' else p.1[|p.1| - 1];
    forall i | 0 <= i < |t| ensures t[i] != ';' {
      if i < |p.0| {
        assert t[i] == p.0[i];
      } else if i > |p.0| {
        assert t[i] == p.1[i - |p.0| - 1];
      }
    }
  }

  lemma TrimPiece(pairs: seq<(string, string)>, k: nat)
    requires k < |pairs| && WellFormedPair(pairs[k])
    ensures Trim(PairPieces(pairs)[k]) == PairText(pairs[k])
    ensures ';' !in PairPieces(pairs)[k]
  {
    var t := PairText(pairs[k]);
    PairTextShape(pairs[k]);
    if k == 0 {
      assert PairPieces(pairs)[k] == [] + t;
      TrimUnpadded(t, []);
    } else {
      assert PairPieces(pairs)[k] == " " + t;
      TrimUnpadded(t, " ");
    }
  }

  lemma {:induction false} LookupPieces(pieces: seq<string>, pairs: seq<(string, string)>, from: nat)
    requires |pieces| == |pairs| && from <= |pairs|
    requires forall k :: 0 <= k < |pairs| ==> WellFormedPair(pairs[k]) && Trim(pieces[k]) == PairText(pairs[k])
    ensures FirstNaming(pieces, CsrfName, from).None? <==> FirstNamed(pairs[from..], CsrfName).None?
    ensures FirstNaming(pieces, CsrfName, from).Some? ==>
      Trim(pieces[FirstNaming(pieces, CsrfName, from).value])[|CsrfName| + 1..] == FirstNamed(pairs[from..], CsrfName).value
    decreases |pairs| - from
  {
    if from < |pairs| {
      var p := pairs[from];
      assert pairs[from..][0] == p;
      assert pairs[from..][1..] == pairs[from + 1..];
      PairStartsWithName(p);
      if p.0 == CsrfName {
        var t := PairText(p);
        assert t[|CsrfName| + 1..] == p.1;
      } else {
        LookupPieces(pieces, pairs, from + 1);
      }
    }
  }

  /** On a cookie-string, the token is the decoded value of the first pair named csrftoken. */
  lemma CsrfTokenOfCookieString(pairs: seq<(string, string)>, decode: string -> string)
    requires pairs != []
    requires forall k :: 0 <= k < |pairs| ==> WellFormedPair(pairs[k])
    ensures CsrfTokenOf(CookieString(pairs), decode) ==
      match FirstNamed(pairs, CsrfName) case None => None case Some(v) => Some(decode(v))
  {
    var pieces := PairPieces(pairs);
    forall k | 0 <= k < |pieces| ensures ';' !in pieces[k] && Trim(pieces[k]) == PairText(pairs[k]) {
      TrimPiece(pairs, k);
    }
    var cookie := Join(pieces, ';');
    SplitJoin(pieces, ';');
    assert Split(cookie, ';') == pieces;
    LookupPieces(pieces, pairs, 0);
    assert pairs[0..] == pairs;
    assert CookieLookup(pieces, CsrfName) ==
      match FirstNamed(pairs, CsrfName) case None => None case Some(v) => Some(v);
  }
}
