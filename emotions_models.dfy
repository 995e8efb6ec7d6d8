/**
 * Ratings ("emotion points"), comments and photos, with their field
 * constraints, defaults, validators and display strings.
 */
module EmotionModels {
  import opened Wrappers
  import opened Text
  import opened Locations
  import opened Sorting

  const MinEmotionalValue: int := 1
  const MaxEmotionalValue: int := 5

  /** Uploaded images may be at most 5 MiB. */
  const ImageSizeLimit: nat := 5 * 1024 * 1024

  const CaptionMaxLength: nat := 255

  datatype Privacy = Public | Private

  /** The stored text of a privacy choice. */
  function PrivacyLiteral(p: Privacy): string
  {
    match p
    case Public => "public"
    case Private => "private"
  }

  /**
   * The privacy field of a rating, comment or photo: an omitted value takes the
   * default 'public'; a given value must be one of the two choices.
   */
  function ParsePrivacy(s: Option<string>): (r: Result<Privacy, string>)
    ensures s.None? ==> r == Success(Public)
    ensures r.Success? <==> s.None? || s.value == "public" || s.value == "private"
    ensures r.Success? && s.Some? ==> PrivacyLiteral(r.value) == s.value
  {
    match s
    case None => Success(Public)
    case Some(v) =>
      if v == "public" then Success(Public)
      else if v == "private" then Success(Private)
      else Failure("not a valid choice")
  }

  datatype EmotionPoint = EmotionPoint(
    id: nat, user: nat, location: nat, emotionalValue: int, privacy: Privacy, createdAt: int)

  datatype Comment = Comment(
    id: nat, user: nat, location: nat, emotionPoint: Option<nat>, content: string,
    privacy: Privacy, createdAt: int)

  datatype Photo = Photo(
    id: nat, user: Option<nat>, location: nat, imageSize: nat, caption: string, privacy: Privacy)

  datatype FieldError = BelowMinimum | AboveMaximum | FileTooLarge | CaptionTooLong

  /** The minimum and maximum value validators of the rating's value field. */
  function ValidateEmotionalValue(v: int): (r: Outcome<FieldError>)
    ensures r.Pass? <==> MinEmotionalValue <= v <= MaxEmotionalValue
    ensures r == Fail(BelowMinimum) <==> v < MinEmotionalValue
  {
    if v < MinEmotionalValue then Fail(BelowMinimum)
    else if v > MaxEmotionalValue then Fail(AboveMaximum)
    else Pass
  }

  /** The photo size validator: sizes up to and including 5 MiB pass. */
  function ValidateImageSize(size: nat): (r: Outcome<FieldError>)
    ensures r.Pass? <==> size <= 5242880
    ensures r.Fail? ==> r.error == FileTooLarge
  {
    if size > 5 * 1024 * 1024 then Fail(FileTooLarge) else Pass
  }

  /** The caption is a blank-allowed text of at most 255 characters. */
  function ValidateCaption(caption: string): (r: Outcome<FieldError>)
    ensures r.Pass? <==> |caption| <= 255
    ensures caption == "" ==> r.Pass?
  {
    if |caption| > CaptionMaxLength then Fail(CaptionTooLong) else Pass
  }

  /** The table-level rules for ratings: the value range and one rating per (user, location). */
  ghost predicate RatingsValid(points: seq<EmotionPoint>)
  {
    && (forall i :: 0 <= i < |points| ==>
          MinEmotionalValue <= points[i].emotionalValue <= MaxEmotionalValue)
    && (forall i, j :: 0 <= i < j < |points| ==> points[i].id != points[j].id)
    && (forall i, j :: 0 <= i < j < |points| ==>
          (points[i].user, points[i].location) != (points[j].user, points[j].location))
  }

  /** "{username} - {location name} ({value})" */
  function EmotionPointStr(username: string, locationName: string, value: nat): (s: string)
    ensures (username + " - ") <= s
    ensures |s| > |username| + 3 + |locationName| + 2
    ensures s[|username| + 3..|username| + 3 + |locationName|] == locationName
    ensures s[|username| + 3 + |locationName|..|username| + 5 + |locationName|] == " ("
    ensures s[|s| - 1] == ')'
  {
    username + " - " + locationName + " (" + NatToString(value) + ")"
  }

  /** The value is readable back from the end of the display string. */
  lemma EmotionPointStrValue(username: string, locationName: string, value: nat)
    ensures var s := EmotionPointStr(username, locationName, value);
            var d := NatToString(value);
            |s| >= |d| + 2 && s[|s| - 1 - |d|..|s| - 1] == d && ParseDigits(d) == value
  {
    ParseNatToString(value);
    var s := EmotionPointStr(username, locationName, value);
    var d := NatToString(value);
    assert s == (username + " - " + locationName + " (") + d + ")";
  }

  /** "Komentarz {user} do {location name}", where a user displays as its username. */
  function CommentStr(username: string, locationName: string): (s: string)
    ensures ("Komentarz " + username + " do ") <= s
    ensures |s| == 14 + |username| + |locationName|
    ensures s[|s| - |locationName|..] == locationName
  {
    "Komentarz " + username + " do " + locationName
  }

  /**
   * The field validators of a photo: the image size limit and the caption length;
   * both failing fields are reported together.
   */
  function PhotoErrors(p: Photo): (r: set<FieldError>)
    ensures FileTooLarge in r <==> p.imageSize > 5242880
    ensures CaptionTooLong in r <==> |p.caption| > 255
    ensures r <= {FileTooLarge, CaptionTooLong}
  {
    (if ValidateImageSize(p.imageSize).Fail? then {FileTooLarge} else {})
    + (if ValidateCaption(p.caption).Fail? then {CaptionTooLong} else {})
  }

  /** "Zdjęcie do lokalizacji {location name}" */
  function PhotoStr(locationName: string): (s: string)
    ensures |s| == 23 + |locationName|
    ensures s[..23] == "Zdjęcie do lokalizacji "
    ensures s[23..] == locationName
  {
    "Zdjęcie do lokalizacji " + locationName
  }

  predicate HasPoint(points: seq<EmotionPoint>, id: nat)
  {
    exists i :: 0 <= i < |points| && points[i].id == id
  }

  /** The position of the rating with primary key `id`, if there is one. */
  function FindPoint(points: seq<EmotionPoint>, id: nat): (r: Option<nat>)
    ensures r.Some? ==> r.value < |points| && points[r.value].id == id
    ensures r.None? <==> !HasPoint(points, id)
  {
    if points == [] then None
    else if points[|points| - 1].id == id then Some(|points| - 1)
    else FindPoint(points[..|points| - 1], id)
  }

  /** One rating per (user, location) already stored? */
  predicate HasRatingBy(points: seq<EmotionPoint>, user: nat, location: nat)
  {
    exists i :: 0 <= i < |points| && points[i].user == user && points[i].location == location
  }

  /** The constraints every state of the location, rating and comment tables satisfies. */
  ghost predicate StoreValid(
    locations: seq<Location>, points: seq<EmotionPoint>, comments: seq<Comment>,
    nextLocationId: nat, nextPointId: nat)
  {
    && DistinctIds(locations)
    && (forall i :: 0 <= i < |locations| ==> locations[i].id < nextLocationId)
    && RatingsValid(points)
    && (forall i :: 0 <= i < |points| ==> points[i].id < nextPointId)
    && (forall i :: 0 <= i < |points| ==> HasId(locations, points[i].location))
    && (forall i :: 0 <= i < |comments| ==> HasId(locations, comments[i].location))
    && (forall i :: 0 <= i < |comments| && comments[i].emotionPoint.Some? ==>
          HasPoint(points, comments[i].emotionPoint.value))
  }

  /** The location, rating and comment tables, changed in place by the API and the views. */
  class EmotionStore {
    var locations: seq<Location>
    var points: seq<EmotionPoint>
    var comments: seq<Comment>
    var nextLocationId: nat
    var nextPointId: nat

    ghost predicate Valid()
      reads this
    {
      StoreValid(locations, points, comments, nextLocationId, nextPointId)
    }

    constructor ()
      ensures Valid() && locations == [] && points == [] && comments == []
    {
      locations, points, comments := [], [], [];
      nextLocationId, nextPointId := 1, 1;
    }

    /** `Location.objects.create`: a new row under the next primary key. */
    method AddLocation(name: string, address: string, coordinates: Point) returns (l: Location)
      requires Valid()
      modifies this
      ensures Valid()
      ensures l == Location(old(nextLocationId), name, address, coordinates)
      ensures locations == old(locations) + [l] && nextLocationId == old(nextLocationId) + 1
      ensures points == old(points) && comments == old(comments) && nextPointId == old(nextPointId)
    {
      l := Location(nextLocationId, name, address, coordinates);
      forall i | 0 <= i < |points| ensures HasId(locations + [l], points[i].location) {
        assert HasId(locations, points[i].location);
        var j :| 0 <= j < |locations| && locations[j].id == points[i].location;
        assert (locations + [l])[j] == locations[j];
      }
      forall i | 0 <= i < |comments| ensures HasId(locations + [l], comments[i].location) {
        var j :| 0 <= j < |locations| && locations[j].id == comments[i].location;
        assert (locations + [l])[j] == locations[j];
      }
      locations := locations + [l];
      nextLocationId := nextLocationId + 1;
    }

    /**
     * `EmotionPoint.objects.create` once the database constraints hold: the value
     * lies in 1..5, the location exists and the user has not rated it yet.
     */
    method AddPoint(user: nat, location: nat, value: int, privacy: Privacy, now: int) returns (p: EmotionPoint)
      requires Valid()
      requires MinEmotionalValue <= value <= MaxEmotionalValue
      requires HasId(locations, location) && !HasRatingBy(points, user, location)
      modifies this
      ensures Valid()
      ensures p == EmotionPoint(old(nextPointId), user, location, value, privacy, now)
      ensures points == old(points) + [p] && nextPointId == old(nextPointId) + 1
      ensures locations == old(locations) && comments == old(comments) && nextLocationId == old(nextLocationId)
    {
      p := EmotionPoint(nextPointId, user, location, value, privacy, now);
      ghost var before := points;
      points := points + [p];
      nextPointId := nextPointId + 1;
      forall i | 0 <= i < |comments| && comments[i].emotionPoint.Some?
        ensures HasPoint(points, comments[i].emotionPoint.value)
      {
        var j :| 0 <= j < |before| && before[j].id == comments[i].emotionPoint.value;
        assert points[j] == before[j];
      }
    }
  }
}
