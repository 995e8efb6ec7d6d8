/**
 * The rating serializer of the REST API. Creating a rating takes either a
 * location id or a latitude/longitude pair; in the second case the location
 * with exactly those coordinates is fetched, or created when there is none
 * (`get_or_create`). The coordinates, the location name and the address are
 * taken out of the data before the rating is stored, so a rating holds only
 * its user, location, value, privacy and creation time.
 *
 * The friendship serializers of the same file repeat the rules of the social
 * application's serializers word for word; module SocialSerializers models both.
 */
module ApiSerializers {
  import opened Wrappers
  import opened Text
  import opened Sorting
  import opened Locations
  import opened EmotionModels

  /**
   * What the integer field parser makes of the `emotional_value` entry: missing
   * from the request, present but not an integer, or an integer.
   */
  datatype IntegerInput = Absent | NotAnInteger | Integer(value: int)

  /** The writable fields of a rating request, after the field parsers ran. */
  datatype EmotionInput = EmotionInput(
    locationId: Option<nat>,
    latitude: Option<real>,
    longitude: Option<real>,
    locationName: Option<string>,
    locationAddress: Option<string>,
    emotionalValue: IntegerInput,
    privacyStatus: Option<string>)

  /** Field-level validation errors; all failing fields are reported together. */
  datatype InputError =
    | UnknownLocation
    | ValueRequired      // "This field is required."
    | ValueNotInteger    // "A valid integer is required."
    | InvalidValue
    | InvalidPrivacy
    | BlankLocationName     // "This field may not be blank."
    | BlankLocationAddress

  datatype CreateError =
    | Invalid(fields: set<InputError>)
    | MultipleLocations  // `get_or_create` found more than one location at the point
    | LocationRequired   // no location: the rating's NOT NULL foreign key refuses the insert
    | DuplicateRating    // the unique (user, location) constraint refuses the insert

  /**
   * A text field declared as a plain `CharField` keeps the field defaults
   * `allow_blank=False` and `trim_whitespace=True`: text that strips to ""
   * is refused.
   */
  predicate Blank(text: Option<string>)
  {
    text.Some? && Strip(text.value) == ""
  }

  /** The value such a field passes on: the given text, stripped. */
  function Cleaned(text: Option<string>): Option<string>
  {
    match text
    case None => None
    case Some(t) => Some(Strip(t))
  }

  /**
   * The errors of `is_valid()`: an unknown location id, a rating value that is
   * missing, not an integer or outside 1..5,
   * an unknown privacy literal, a location name or address of white space only.
   */
  function FieldErrors(locations: seq<Location>, input: EmotionInput): (r: set<InputError>)
    ensures UnknownLocation in r <==> input.locationId.Some? && !HasId(locations, input.locationId.value)
    ensures ValueRequired in r <==> input.emotionalValue.Absent?
    ensures ValueNotInteger in r <==> input.emotionalValue.NotAnInteger?
    ensures InvalidValue in r <==>
      input.emotionalValue.Integer? && !(MinEmotionalValue <= input.emotionalValue.value <= MaxEmotionalValue)
    ensures r == {} ==> input.emotionalValue.Integer?
    ensures InvalidPrivacy in r <==>
      input.privacyStatus.Some? && input.privacyStatus.value != "public" && input.privacyStatus.value != "private"
    ensures BlankLocationName in r <==> input.locationName.Some? && AllSpace(input.locationName.value)
    ensures BlankLocationAddress in r <==>
      input.locationAddress.Some? && AllSpace(input.locationAddress.value)
  {
    (if input.locationId.Some? && !HasId(locations, input.locationId.value) then {UnknownLocation} else {})
    + (match input.emotionalValue
       case Absent => {ValueRequired}
       case NotAnInteger => {ValueNotInteger}
       case Integer(v) => if ValidateEmotionalValue(v).Fail? then {InvalidValue} else {})
    + (if ParsePrivacy(input.privacyStatus).Failure? then {InvalidPrivacy} else {})
    + (if Blank(input.locationName) then {BlankLocationName} else {})
    + (if Blank(input.locationAddress) then {BlankLocationAddress} else {})
  }

  /** The lookup of `get_or_create`: equality of both coordinates, longitude as x. */
  predicate At(l: Location, lat: real, lng: real)
  {
    l.coordinates == Point(lng, lat)
  }

  /** The stored locations at exactly the point (lat, lng), in table order. */
  function Matches(locations: seq<Location>, lat: real, lng: real): seq<Location>
  {
    Filter(locations, (l: Location) => At(l, lat, lng))
  }

  /** A new location is named by the given name, or 'Unknown' when that is missing or empty. */
  function NewLocationName(name: Option<string>): (r: string)
    ensures r != ""
    ensures name.Some? && name.value != "" ==> r == name.value
    ensures name.None? || name.value == "" ==> r == "Unknown"
  {
    if name.Some? && name.value != "" then name.value else "Unknown"
  }

  /** A new location's address is the given one, '' when none is given. */
  function NewLocationAddress(address: Option<string>): (r: string)
    ensures address.None? ==> r == ""
    ensures address.Some? ==> r == address.value
  {
    match address
    case None => ""
    case Some(a) => a
  }

  /** How the rating's location was chosen. */
  datatype Resolution =
    | Given(id: nat)
    | Found(id: nat)
    | Created(location: Location)
    | Unresolved

  function ResolvedId(r: Resolution): Option<nat>
  {
    match r
    case Given(id) => Some(id)
    case Found(id) => Some(id)
    case Created(l) => Some(l.id)
    case Unresolved => None
  }

  /** The location table once the resolution is done: a created location is appended. */
  function LocationsAfter(locations: seq<Location>, r: Resolution): seq<Location>
  {
    if r.Created? then locations + [r.location] else locations
  }

  /**
   * The location of the rating: the given id when there is one, whatever the
   * coordinates; otherwise, with both coordinates, the only location at that
   * point or a new one at it; otherwise none.
   */
  function Resolve(locations: seq<Location>, input: EmotionInput, newId: nat): (r: Result<Resolution, CreateError>)
    ensures input.locationId.Some? ==> r == Success(Given(input.locationId.value))
    ensures input.locationId.None? && (input.latitude.None? || input.longitude.None?) ==>
      r == Success(Unresolved)
    ensures r == Failure(MultipleLocations) <==>
      && input.locationId.None? && input.latitude.Some? && input.longitude.Some?
      && |Matches(locations, input.latitude.value, input.longitude.value)| > 1
    ensures r.Failure? ==> r.error == MultipleLocations
    ensures r.Success? && r.value.Found? ==>
      && input.latitude.Some? && input.longitude.Some?
      && |Matches(locations, input.latitude.value, input.longitude.value)| == 1
      && Matches(locations, input.latitude.value, input.longitude.value)[0].id == r.value.id
    ensures r.Success? && r.value.Found? ==>
      exists i :: 0 <= i < |locations| && locations[i].id == r.value.id
        && At(locations[i], input.latitude.value, input.longitude.value)
    ensures r.Success? && r.value.Created? ==>
      && input.locationId.None? && input.latitude.Some? && input.longitude.Some?
      && r.value.location == Location(newId, NewLocationName(Cleaned(input.locationName)),
           NewLocationAddress(Cleaned(input.locationAddress)), Point(input.longitude.value, input.latitude.value))
      && forall i :: 0 <= i < |locations| ==> !At(locations[i], input.latitude.value, input.longitude.value)
    ensures input.locationId.None? && input.latitude.Some? && input.longitude.Some? ==>
      var m := Matches(locations, input.latitude.value, input.longitude.value);
      && (|m| == 1 ==> r == Success(Found(m[0].id)))
      && (|m| == 0 ==> r.Success? && r.value.Created?)
  {
    if input.locationId.Some? then Success(Given(input.locationId.value))
    else if input.latitude.None? || input.longitude.None? then Success(Unresolved)
    else
      var lat, lng := input.latitude.value, input.longitude.value;
      var found := Matches(locations, lat, lng);
      if |found| > 1 then Failure(MultipleLocations)
      else if |found| == 1 then
        assert found[0] in locations;
        Success(Found(found[0].id))
      else
        Success(Created(Location(newId, NewLocationName(Cleaned(input.locationName)),
          NewLocationAddress(Cleaned(input.locationAddress)), Point(lng, lat))))
  }

  /**
   * After validation, a location created from coordinates carries the stripped
   * name, never an empty one, and the stripped address.
   */
  lemma CreatedLocationText(locations: seq<Location>, input: EmotionInput, newId: nat)
    requires FieldErrors(locations, input) == {}
    requires Resolve(locations, input, newId).Success? && Resolve(locations, input, newId).value.Created?
    ensures var l := Resolve(locations, input, newId).value.location;
      && (input.locationName.None? ==> l.name == "Unknown")
      && (input.locationName.Some? ==> l.name == Strip(input.locationName.value) && l.name != "")
      && l.name != "" && !IsPyWhiteSpace(l.name[0]) && !IsPyWhiteSpace(l.name[|l.name| - 1])
      && (input.locationAddress.None? ==> l.address == "")
      && (input.locationAddress.Some? ==> l.address == Strip(input.locationAddress.value) && l.address != "")
  {
  }

  /**
   * Resolving the same coordinates a second time, with any name and address,
   * yields the location the first call chose, and only the first call can
   * have created it.
   */
  lemma ResolveTwice(locations: seq<Location>, first: EmotionInput, second: EmotionInput, newId: nat, laterId: nat)
    requires first.locationId.None? && first.latitude.Some? && first.longitude.Some?
    requires second.locationId.None? && second.latitude == first.latitude && second.longitude == first.longitude
    requires Resolve(locations, first, newId).Success?
    ensures var r := Resolve(locations, first, newId).value;
            Resolve(LocationsAfter(locations, r), second, laterId) == Success(Found(ResolvedId(r).value))
  {
    var r := Resolve(locations, first, newId).value;
    var lat, lng := first.latitude.value, first.longitude.value;
    var p := (l: Location) => At(l, lat, lng);
    if r.Created? {
      assert Matches(locations, lat, lng) == [];
      FilterConcat(locations, [r.location], p);
      assert Filter([r.location], p) == [r.location];
    }
  }

  /**
   * `EmotionPointSerializer.create` after a successful `is_valid()`, or the
   * validation errors. A location created by `get_or_create` stays in the
   * table even when the rating insert that follows is refused.
   */
  method CreateEmotionPoint(store: EmotionStore, user: nat, input: EmotionInput, now: int)
    returns (r: Result<EmotionPoint, CreateError>)
    requires store.Valid()
    modifies store
    ensures store.Valid()
    ensures store.comments == old(store.comments)
    ensures FieldErrors(old(store.locations), input) != {} ==>
      && r == Failure(Invalid(FieldErrors(old(store.locations), input)))
      && store.locations == old(store.locations) && store.nextLocationId == old(store.nextLocationId)
    ensures FieldErrors(old(store.locations), input) == {} ==>
      var res := Resolve(old(store.locations), input, old(store.nextLocationId));
      && (res.Failure? ==>
            r == Failure(res.error)
            && store.locations == old(store.locations) && store.nextLocationId == old(store.nextLocationId))
      && (res.Success? ==>
            && store.locations == LocationsAfter(old(store.locations), res.value)
            && store.nextLocationId == old(store.nextLocationId) + (if res.value.Created? then 1 else 0)
            && (ResolvedId(res.value).None? ==> r == Failure(LocationRequired))
            && (ResolvedId(res.value).Some? ==>
                  r == if HasRatingBy(old(store.points), user, ResolvedId(res.value).value)
                       then Failure(DuplicateRating)
                       else Success(EmotionPoint(old(store.nextPointId), user, ResolvedId(res.value).value,
                              input.emotionalValue.value, ParsePrivacy(input.privacyStatus).value, now))))
    ensures r.Success? ==> store.points == old(store.points) + [r.value] && store.nextPointId == old(store.nextPointId) + 1
    ensures r.Failure? ==> store.points == old(store.points) && store.nextPointId == old(store.nextPointId)
  {
    var errors := FieldErrors(store.locations, input);
    if errors != {} {
      return Failure(Invalid(errors));
    }
    var res :- Resolve(store.locations, input, store.nextLocationId);
    if res.Created? {
      var l := store.AddLocation(res.location.name, res.location.address, res.location.coordinates);
      assert l == res.location;
    }
    var id := ResolvedId(res);
    if id.None? {
      return Failure(LocationRequired);
    }
    assert HasId(store.locations, id.value) by {
      if res.Created? {
        assert store.locations[|store.locations| - 1].id == id.value;
      }
    }
    if HasRatingBy(store.points, user, id.value) {
      return Failure(DuplicateRating);
    }
    var point := store.AddPoint(user, id.value, input.emotionalValue.value, ParsePrivacy(input.privacyStatus).value, now);
    r := Success(point);
  }
}
