/**
 * The location list endpoint: every location annotated with the average and
 * the number of its PUBLIC ratings, ordered by that average, highest first,
 * then by name.
 */
module ApiViews {
  import opened Wrappers
  import opened Text
  import opened Sorting
  import opened Locations
  import opened EmotionModels
  import opened Numbers

  datatype Listed = Listed(location: Location, avgEmotionalValue: Option<real>, emotionPointsCount: nat)

  /** The values of the public ratings of location `id`, in table order. */
  function PublicValues(points: seq<EmotionPoint>, id: nat): seq<int>
  {
    if points == [] then []
    else
      var rest := PublicValues(points[1..], id);
      if points[0].location == id && points[0].privacy == Public then [points[0].emotionalValue] + rest
      else rest
  }

  /** The ratings of location `id`, public or private. */
  function RatingsOf(points: seq<EmotionPoint>, id: nat): seq<EmotionPoint>
  {
    Filter(points, (p: EmotionPoint) => p.location == id)
  }

  function Sum(s: seq<int>): int
  {
    if s == [] then 0 else s[0] + Sum(s[1..])
  }

  /** The SQL average: none over no rows, otherwise the sum over the count. */
  function Average(values: seq<int>): (r: Option<real>)
    ensures r.None? <==> values == []
  {
    if values == [] then None else Some(Sum(values) as real / |values| as real)
  }

  function Annotate(l: Location, points: seq<EmotionPoint>): (r: Listed)
    ensures r.location == l
    ensures r.emotionPointsCount == 0 <==> r.avgEmotionalValue.None?
  {
    var values := PublicValues(points, l.id);
    Listed(l, Average(values), |values|)
  }

  lemma {:induction false} PublicValuesAppend(points: seq<EmotionPoint>, p: EmotionPoint, id: nat)
    ensures PublicValues(points + [p], id)
         == PublicValues(points, id) + (if p.location == id && p.privacy == Public then [p.emotionalValue] else [])
  {
    if points != [] {
      assert (points + [p])[1..] == points[1..] + [p];
      PublicValuesAppend(points[1..], p, id);
    }
  }

  /** A private rating changes neither the average nor the count. */
  lemma PrivateRatingsIgnored(l: Location, points: seq<EmotionPoint>, p: EmotionPoint)
    requires p.privacy == Private
    ensures Annotate(l, points + [p]) == Annotate(l, points)
  {
    PublicValuesAppend(points, p, l.id);
    var before, after := PublicValues(points, l.id), PublicValues(points + [p], l.id);
    assert after == before + [];
    assert after == before;
    assert Annotate(l, points + [p]) == Listed(l, Average(after), |after|);
  }

  /** The rating that the `k`-th aggregated value comes from, found along the recursion. */
  lemma {:induction false} PublicValueSource(points: seq<EmotionPoint>, id: nat, k: nat) returns (i: nat)
    requires k < |PublicValues(points, id)|
    ensures i < |points| && points[i].location == id && points[i].privacy == Public
    ensures points[i].emotionalValue == PublicValues(points, id)[k]
  {
    var rest := PublicValues(points[1..], id);
    if points[0].location == id && points[0].privacy == Public {
      if k == 0 {
        i := 0;
      } else {
        var j := PublicValueSource(points[1..], id, k - 1);
        assert points[j + 1] == points[1..][j];
        i := j + 1;
      }
    } else {
      var j := PublicValueSource(points[1..], id, k);
      assert points[j + 1] == points[1..][j];
      i := j + 1;
    }
  }

  lemma {:induction false} PublicValuesBounded(points: seq<EmotionPoint>, id: nat)
    ensures |PublicValues(points, id)| <= |RatingsOf(points, id)|
    ensures forall k :: 0 <= k < |PublicValues(points, id)| ==>
      exists i :: 0 <= i < |points| && points[i].location == id && points[i].privacy == Public
        && points[i].emotionalValue == PublicValues(points, id)[k]
  {
    if points != [] {
      PublicValuesBounded(points[1..], id);
    }
    forall k | 0 <= k < |PublicValues(points, id)|
      ensures exists i :: (0 <= i < |points| && points[i].location == id && points[i].privacy == Public
        && points[i].emotionalValue == PublicValues(points, id)[k])
    {
      var i := PublicValueSource(points, id, k);
    }
  }

  /** The count never exceeds the location's number of ratings. */
  lemma CountAtMostRatings(l: Location, points: seq<EmotionPoint>)
    ensures Annotate(l, points).emotionPointsCount <= |RatingsOf(points, l.id)|
  {
    PublicValuesBounded(points, l.id);
  }

  lemma {:induction false} SumBounds(s: seq<int>)
    requires forall k :: 0 <= k < |s| ==> MinEmotionalValue <= s[k] <= MaxEmotionalValue
    ensures |s| <= Sum(s) <= 5 * |s|
  {
    if s != [] {
      SumBounds(s[1..]);
    }
  }

  /** With stored values in 1..5, a location with public ratings has an average in [1, 5]. */
  lemma AverageInRange(l: Location, points: seq<EmotionPoint>)
    requires RatingsValid(points)
    requires Annotate(l, points).emotionPointsCount > 0
    ensures 1.0 <= Annotate(l, points).avgEmotionalValue.value <= 5.0
  {
    var values := PublicValues(points, l.id);
    PublicValuesBounded(points, l.id);
    forall k | 0 <= k < |values| ensures MinEmotionalValue <= values[k] <= MaxEmotionalValue {
      var i :| 0 <= i < |points| && points[i].location == l.id && points[i].privacy == Public
        && points[i].emotionalValue == values[k];
    }
    SumBounds(values);
    QuotientBounds(Sum(values) as real, |values| as real);
  }

  /** Where the rows without an average go under the descending sort is the engine's choice. */
  function ListingLe(nullsFirst: bool): (Listed, Listed) -> bool
  {
    (a: Listed, b: Listed) =>
      match (a.avgEmotionalValue, b.avgEmotionalValue)
      case (Some(x), Some(y)) => x > y || (x == y && LexLe(a.location.name, b.location.name))
      case (None, None) => LexLe(a.location.name, b.location.name)
      case (None, Some(_)) => nullsFirst
      case (Some(_), None) => !nullsFirst
  }

  lemma ListingLeIsTotalPreorder(nullsFirst: bool)
    ensures TotalPreorder(ListingLe(nullsFirst))
  {
    var le := ListingLe(nullsFirst);
    forall a: Listed, b: Listed ensures le(a, b) || le(b, a) {
      LexLeTotal(a.location.name, b.location.name);
    }
    forall a: Listed, b: Listed, c: Listed | le(a, b) && le(b, c) ensures le(a, c) {
      if le(a, b) && le(b, c) && LexLe(a.location.name, b.location.name) && LexLe(b.location.name, c.location.name) {
        LexLeTransitive(a.location.name, b.location.name, c.location.name);
      }
    }
  }

  function AnnotateAll(locations: seq<Location>, points: seq<EmotionPoint>): (r: seq<Listed>)
    ensures |r| == |locations|
    ensures forall k :: 0 <= k < |r| ==> r[k] == Annotate(locations[k], points)
  {
    if locations == [] then [] else [Annotate(locations[0], points)] + AnnotateAll(locations[1..], points)
  }

  /** `get_queryset`: every location once, annotated, ordered by average descending and then by name. */
  function ListLocations(locations: seq<Location>, points: seq<EmotionPoint>, nullsFirst: bool): (r: seq<Listed>)
    ensures |r| == |locations|
    ensures multiset(r) == multiset(AnnotateAll(locations, points))
    ensures SortedBy(r, ListingLe(nullsFirst))
  {
    ListingLeIsTotalPreorder(nullsFirst);
    InsertionSortSorted(AnnotateAll(locations, points), ListingLe(nullsFirst));
    var r := InsertionSort(AnnotateAll(locations, points), ListingLe(nullsFirst));
    assert |multiset(r)| == |multiset(AnnotateAll(locations, points))|;
    r
  }

  /** Listed rows with averages come in non-increasing order of the average. */
  lemma ListingAveragesDescend(locations: seq<Location>, points: seq<EmotionPoint>, nullsFirst: bool)
    ensures var r := ListLocations(locations, points, nullsFirst);
            forall i, j :: 0 <= i < j < |r| && r[i].avgEmotionalValue.Some? && r[j].avgEmotionalValue.Some? ==>
              r[i].avgEmotionalValue.value >= r[j].avgEmotionalValue.value
  {
    var r := ListLocations(locations, points, nullsFirst);
    forall i, j | 0 <= i < j < |r| && r[i].avgEmotionalValue.Some? && r[j].avgEmotionalValue.Some?
      ensures r[i].avgEmotionalValue.value >= r[j].avgEmotionalValue.value
    {
      assert ListingLe(nullsFirst)(r[i], r[j]);
    }
  }

  /** The public ratings 5 and 3 and a private 1 give an average of 4.0 over 2 ratings. */
  lemma PublicOnlyExample(l: Location, u1: nat, u2: nat, u3: nat)
    ensures var points := [
              EmotionPoint(1, u1, l.id, 5, Public, 0),
              EmotionPoint(2, u2, l.id, 3, Public, 0),
              EmotionPoint(3, u3, l.id, 1, Private, 0)];
            Annotate(l, points) == Listed(l, Some(4.0), 2)
  {
    var points := [
      EmotionPoint(1, u1, l.id, 5, Public, 0),
      EmotionPoint(2, u2, l.id, 3, Public, 0),
      EmotionPoint(3, u3, l.id, 1, Private, 0)];
    assert PublicValues(points[2..], l.id) == [] by {
      assert points[2..][1..] == [];
    }
    assert points[1..][1..] == points[2..];
    assert PublicValues(points[1..], l.id) == [3];
    assert PublicValues(points, l.id) == [5, 3];
    assert Sum([5, 3]) == 8;
  }
}
