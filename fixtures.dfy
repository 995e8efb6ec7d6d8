/**
 * The fixture generator: 50 locations written as EWKT points, ratings drawn
 * per location without repeating a user, comments on locations and on
 * ratings, and the two checks run over the result. Every random outcome is a
 * parameter, constrained only as the random function's own contract
 * constrains it (a shuffle is a permutation, a sample has distinct members
 * of the pool); the facts proved hold for every such outcome.
 */
module Fixtures {
  import opened Wrappers
  import opened Text
  import opened EmotionModels

  const Users: seq<nat> := [1, 8, 9, 10]
  const LocationCount: nat := 50

  // ---------------------------------------------------------------------------
  // Locations

  /** One entry of the static location list; `cluster` may be absent. */
  datatype LocationData = LocationData(name: string, lon: real, lat: real, cluster: Option<string>)

  datatype LocationFixture = LocationFixture(pk: nat, name: string, coordinates: string)

  const EwktPrefix: string := "SRID=4326;POINT("

  /**
   * A point as PostGIS extended well-known text: the SRID, then the
   * well-known-text point tagged text of clause 7 of OGC 06-103r4, x (the
   * longitude) first, the two numbers separated by one space.
   */
  function Ewkt(lonText: string, latText: string): (s: string)
    ensures EwktPrefix <= s && s[|s| - 1] == ')'
    ensures s[|EwktPrefix|..|s| - 1] == lonText + " " + latText
  {
    EwktPrefix + lonText + " " + latText + ")"
  }

  /** `generate_location`; `render` stands for Python's rendering of a float. */
  function GenerateLocation(pk: nat, data: LocationData, render: real -> string): (r: LocationFixture)
    ensures r.pk == pk && r.name == data.name
    ensures r.coordinates == Ewkt(render(data.lon), render(data.lat))
  {
    LocationFixture(pk, data.name, Ewkt(render(data.lon), render(data.lat)))
  }

  /** The location fixtures, numbered from 1 in list order. */
  function GenerateLocations(locations: seq<LocationData>, render: real -> string): (r: seq<LocationFixture>)
    ensures |r| == |locations|
    ensures forall k :: 0 <= k < |r| ==> r[k] == GenerateLocation(k + 1, locations[k], render)
  {
    seq(|locations|, k requires 0 <= k < |locations| => GenerateLocation(k + 1, locations[k], render))
  }

  /** Reading an EWKT point back to (longitude, latitude); `parse` stands for reading one number. */
  function ParseEwkt(s: string, parse: string -> Option<real>): (r: Option<(real, real)>)
    ensures r.Some? ==> EwktPrefix <= s && s[|s| - 1] == ')'
  {
    if |s| < |EwktPrefix| + 1 || s[..|EwktPrefix|] != EwktPrefix || s[|s| - 1] != ')' then None
    else
      var parts := Split(s[|EwktPrefix|..|s| - 1], ' ');
      if |parts| != 2 then None
      else
        match (parse(parts[0]), parse(parts[1]))
        case (Some(x), Some(y)) => Some((x, y))
        case _ => None
  }

  /**
   * The coordinates of a generated location read back as (longitude,
   * latitude), in that order, whenever the rendered numbers contain no space
   * and read back as themselves.
   */
  lemma GenerateLocationRoundTrip(pk: nat, data: LocationData, render: real -> string, parse: string -> Option<real>)
    requires ' ' !in render(data.lon) && ' ' !in render(data.lat)
    requires parse(render(data.lon)) == Some(data.lon) && parse(render(data.lat)) == Some(data.lat)
    ensures ParseEwkt(GenerateLocation(pk, data, render).coordinates, parse) == Some((data.lon, data.lat))
  {
    var a, b := render(data.lon), render(data.lat);
    var s := Ewkt(a, b);
    assert s[..|EwktPrefix|] == EwktPrefix;
    SplitNoSep(b, ' ');
    SplitAfterPart(a, ' ', b);
    assert a + " " + b == a + [' '] + b;
  }

  // ---------------------------------------------------------------------------
  // Counting helpers

  function Sum(s: seq<nat>): nat
  {
    if s == [] then 0 else Sum(s[..|s| - 1]) + s[|s| - 1]
  }

  function Repeat(v: nat, n: nat): (r: seq<nat>)
    ensures |r| == n && forall k :: 0 <= k < n ==> r[k] == v
  {
    seq(n, _ => v)
  }

  lemma {:induction false} SumConcat(a: seq<nat>, b: seq<nat>)
    ensures Sum(a + b) == Sum(a) + Sum(b)
  {
    if b == [] {
      assert a + b == a;
    } else {
      assert (a + b)[..|a + b| - 1] == a + b[..|b| - 1];
      SumConcat(a, b[..|b| - 1]);
    }
  }

  lemma {:induction false} SumRepeat(v: nat, n: nat)
    ensures Sum(Repeat(v, n)) == v * n
  {
    if n > 0 {
      assert Repeat(v, n)[..n - 1] == Repeat(v, n - 1);
      SumRepeat(v, n - 1);
    }
  }

  /** Taking out the element at `k` takes its value out of the sum. */
  lemma {:induction false} SumRemove(s: seq<nat>, k: nat)
    requires k < |s|
    ensures Sum(s) == s[k] + Sum(s[..k] + s[k + 1..])
  {
    assert s == s[..k] + [s[k]] + s[k + 1..];
    SumConcat(s[..k] + [s[k]], s[k + 1..]);
    SumConcat(s[..k], [s[k]]);
    SumConcat(s[..k], s[k + 1..]);
    assert Sum([s[k]]) == Sum([]) + s[k];
  }

  /** The sum does not depend on the order: a shuffle keeps it. */
  lemma {:induction false} SumPermutation(a: seq<nat>, b: seq<nat>)
    requires multiset(a) == multiset(b)
    ensures Sum(a) == Sum(b)
  {
    if a != [] {
      var x := a[|a| - 1];
      assert x in multiset(b);
      var k :| 0 <= k < |b| && b[k] == x;
      var b' := b[..k] + b[k + 1..];
      assert b == b[..k] + [b[k]] + b[k + 1..];
      assert a == a[..|a| - 1] + [x];
      assert multiset(b) == multiset(b[..k]) + multiset{x} + multiset(b[k + 1..]);
      assert multiset(a) == multiset(a[..|a| - 1]) + multiset{x};
      assert multiset(b') == multiset(b[..k]) + multiset(b[k + 1..]);
      assert multiset(a[..|a| - 1]) == multiset(b) - multiset{x};
      SumPermutation(a[..|a| - 1], b');
      SumRemove(b, k);
    }
  }

  // ---------------------------------------------------------------------------
  // Ratings

  /** `emotion_counts` before the shuffle: 10 zeros, 15 ones, 15 twos, 7 threes, 3 fours. */
  function EmotionCounts(): (r: seq<nat>)
    ensures |r| == LocationCount
  {
    Repeat(0, 10) + Repeat(1, 15) + Repeat(2, 15) + Repeat(3, 7) + Repeat(4, 3)
  }

  /** 78 ratings in all, whatever the shuffle did. */
  lemma ShuffledCountsSum(counts: seq<nat>)
    requires multiset(counts) == multiset(EmotionCounts())
    ensures |counts| == LocationCount
    ensures Sum(counts) == 78
  {
    assert |counts| == |multiset(counts)|;
    SumConcat(Repeat(0, 10) + Repeat(1, 15) + Repeat(2, 15) + Repeat(3, 7), Repeat(4, 3));
    SumConcat(Repeat(0, 10) + Repeat(1, 15) + Repeat(2, 15), Repeat(3, 7));
    SumConcat(Repeat(0, 10) + Repeat(1, 15), Repeat(2, 15));
    SumConcat(Repeat(0, 10), Repeat(1, 15));
    SumRepeat(0, 10);
    SumRepeat(1, 15);
    SumRepeat(2, 15);
    SumRepeat(3, 7);
    SumRepeat(4, 3);
    SumPermutation(counts, EmotionCounts());
  }

  /** No location asks for more users than there are, so the draws without replacement are possible. */
  lemma ShuffledCountsAtMostUsers(counts: seq<nat>)
    requires multiset(counts) == multiset(EmotionCounts())
    ensures forall i :: 0 <= i < |counts| ==> counts[i] <= |Users|
  {
    forall i | 0 <= i < |counts| ensures counts[i] <= |Users| {
      assert counts[i] in multiset(EmotionCounts());
    }
  }

  /** `random.sample(pool, n)`: n distinct members of the pool. */
  predicate IsSample(s: seq<nat>, pool: seq<nat>, n: nat)
  {
    && |s| == n
    && (forall k :: 0 <= k < |s| ==> s[k] in pool)
    && (forall a, b :: 0 <= a < b < |s| ==> s[a] != s[b])
  }

  /** The values a rating may take for a cluster (`CLUSTER_EMOTIONS`, with [2, 3, 4] by default). */
  function ClusterValues(cluster: Option<string>): (r: seq<nat>)
    ensures forall k :: 0 <= k < |r| ==> MinEmotionalValue <= r[k] <= MaxEmotionalValue
  {
    var c := if cluster.None? then "neutral" else cluster.value;
    if c == "sopot_positive" || c == "gdansk_oldtown_positive" || c == "gdynia_bulwary_positive" then [4, 5]
    else if c == "gdansk_peripheral_negative" || c == "gdynia_residential_negative" then [1, 2]
    else [2, 3, 4]
  }

  /** The random choices made for one rating. */
  datatype Draw = Draw(value: nat, privacy: Privacy, createdAt: int)

  datatype PointFixture = PointFixture(
    pk: nat, user: nat, location: nat, emotionalValue: nat, privacy: Privacy, createdAt: int)

  function Key(p: PointFixture): (nat, nat)
  {
    (p.user, p.location)
  }

  /** The unique (user, location) constraint. */
  predicate PairsDistinct(points: seq<PointFixture>)
  {
    forall i, j :: 0 <= i < j < |points| ==> Key(points[i]) != Key(points[j])
  }

  /** Where the entries for position i start: after those of every earlier position. */
  function Start(counts: seq<nat>, i: nat): nat
    requires i <= |counts|
  {
    Sum(counts[..i])
  }

  /** The rating made from the j-th user sampled and the j-th draw for the location at position i. */
  function DrawnPoint(counts: seq<nat>, samples: seq<seq<nat>>, draws: seq<seq<Draw>>, i: nat, j: nat): PointFixture
    requires i < |counts| && i < |samples| && i < |draws| && j < |samples[i]| && j < |draws[i]|
  {
    var d := draws[i][j];
    PointFixture(Start(counts, i) + j + 1, samples[i][j], i + 1, d.value, d.privacy, d.createdAt)
  }

  /** The blocks of the first n positions, laid out in `points` from the start. */
  ghost predicate BlocksLaidOut(points: seq<PointFixture>, counts: seq<nat>, samples: seq<seq<nat>>, draws: seq<seq<Draw>>, n: nat)
    requires n <= |counts| && n <= |samples| && n <= |draws|
    requires forall i :: 0 <= i < n ==> |samples[i]| == counts[i] && |draws[i]| == counts[i]
  {
    forall i :: 0 <= i < n ==>
      && Start(counts, i) + counts[i] <= |points|
      && (forall j :: 0 <= j < counts[i] ==> points[Start(counts, i) + j] == DrawnPoint(counts, samples, draws, i, j))
  }

  /** Appending to the ratings keeps the blocks already laid out. */
  lemma BlocksKept(prefix: seq<PointFixture>, points: seq<PointFixture>, counts: seq<nat>, samples: seq<seq<nat>>, draws: seq<seq<Draw>>, n: nat)
    requires n <= |counts| && n <= |samples| && n <= |draws|
    requires forall i :: 0 <= i < n ==> |samples[i]| == counts[i] && |draws[i]| == counts[i]
    requires |prefix| <= |points| && points[..|prefix|] == prefix
    requires BlocksLaidOut(prefix, counts, samples, draws, n)
    ensures BlocksLaidOut(points, counts, samples, draws, n)
  {
    forall i, j | 0 <= i < n && 0 <= j < counts[i]
      ensures points[Start(counts, i) + j] == DrawnPoint(counts, samples, draws, i, j)
    {
      assert points[Start(counts, i) + j] == prefix[Start(counts, i) + j];
    }
  }

  /** A block laid out right after the first n extends the layout to n + 1 positions. */
  lemma BlocksExtend(points: seq<PointFixture>, counts: seq<nat>, samples: seq<seq<nat>>, draws: seq<seq<Draw>>, n: nat)
    requires n < |counts| && n < |samples| && n < |draws|
    requires forall i :: 0 <= i <= n ==> |samples[i]| == counts[i] && |draws[i]| == counts[i]
    requires BlocksLaidOut(points, counts, samples, draws, n)
    requires Start(counts, n) + counts[n] <= |points|
    requires forall j :: 0 <= j < counts[n] ==> points[Start(counts, n) + j] == DrawnPoint(counts, samples, draws, n, j)
    ensures BlocksLaidOut(points, counts, samples, draws, n + 1)
  {
  }

  /** Ratings numbered from 1, by known users, at locations 1..bound, with values in 1..5. */
  predicate PointsSound(points: seq<PointFixture>, bound: nat)
  {
    forall k :: 0 <= k < |points| ==>
      && points[k].pk == k + 1
      && points[k].user in Users
      && 1 <= points[k].location <= bound
      && MinEmotionalValue <= points[k].emotionalValue <= MaxEmotionalValue
  }

  /**
   * The inner loop of `generate_emotion_points`: the ratings of the location at
   * position i, one per sampled user, appended after those of earlier positions.
   */
  method GenerateLocationRatings(
    points: seq<PointFixture>, counts: seq<nat>, samples: seq<seq<nat>>, draws: seq<seq<Draw>>, i: nat)
    returns (extended: seq<PointFixture>)
    requires i < |counts| && i < |samples| && i < |draws|
    requires IsSample(samples[i], Users, counts[i]) && |draws[i]| == counts[i]
    requires forall j :: 0 <= j < |draws[i]| ==> MinEmotionalValue <= draws[i][j].value <= MaxEmotionalValue
    requires |points| == Start(counts, i)
    requires PointsSound(points, i) && PairsDistinct(points)
    ensures |extended| == Start(counts, i) + counts[i] && extended[..|points|] == points
    ensures PointsSound(extended, i + 1) && PairsDistinct(extended)
    ensures forall j :: 0 <= j < counts[i] ==> extended[Start(counts, i) + j] == DrawnPoint(counts, samples, draws, i, j)
  {
    var users := samples[i];
    extended := points;
    var pk := |points| + 1;
    var j := 0;
    while j < |users|
      invariant 0 <= j <= |users|
      invariant |extended| == Start(counts, i) + j && pk == |extended| + 1
      invariant extended[..|points|] == points
      invariant PointsSound(extended, i + 1)
      invariant forall k :: 0 <= k < |extended| && extended[k].location == i + 1 ==> extended[k].user in users[..j]
      invariant PairsDistinct(extended)
      invariant forall j' :: 0 <= j' < j ==> extended[Start(counts, i) + j'] == DrawnPoint(counts, samples, draws, i, j')
    {
      var d := draws[i][j];
      assert users[j] !in users[..j];
      var p := PointFixture(pk, users[j], i + 1, d.value, d.privacy, d.createdAt);
      assert p == DrawnPoint(counts, samples, draws, i, j);
      extended := extended + [p];
      pk := pk + 1;
      j := j + 1;
    }
  }

  /**
   * `generate_emotion_points`: for the location at position i, `counts[i]`
   * ratings by the users `samples[i]`, numbered consecutively from 1.
   */
  method GenerateEmotionPoints(
    locations: seq<LocationData>, counts: seq<nat>, samples: seq<seq<nat>>, draws: seq<seq<Draw>>)
    returns (points: seq<PointFixture>)
    requires |counts| == |locations| == LocationCount
    requires multiset(counts) == multiset(EmotionCounts())
    requires |samples| == |counts| && |draws| == |counts|
    requires forall i :: 0 <= i < |counts| ==> IsSample(samples[i], Users, counts[i])
    requires forall i :: 0 <= i < |counts| ==> |samples[i]| == counts[i] && |draws[i]| == counts[i]
    requires forall i, j :: 0 <= i < |counts| && 0 <= j < |draws[i]| ==>
      draws[i][j].value in ClusterValues(locations[i].cluster)
    ensures |points| == 78
    ensures forall k :: 0 <= k < |points| ==> points[k].pk == k + 1
    ensures forall k :: 0 <= k < |points| ==>
      && points[k].user in Users
      && 1 <= points[k].location <= LocationCount
      && MinEmotionalValue <= points[k].emotionalValue <= MaxEmotionalValue
    ensures PairsDistinct(points)
    ensures forall i :: 0 <= i < |counts| ==>
      && Start(counts, i) + counts[i] <= |points|
      && (forall j :: 0 <= j < counts[i] ==> points[Start(counts, i) + j] == DrawnPoint(counts, samples, draws, i, j))
  {
    ShuffledCountsSum(counts);
    points := [];
    var i := 0;
    while i < |counts|
      invariant 0 <= i <= |counts|
      invariant |points| == Start(counts, i)
      invariant PointsSound(points, i) && PairsDistinct(points)
      invariant BlocksLaidOut(points, counts, samples, draws, i)
    {
      ghost var prefix := points;
      points := GenerateLocationRatings(points, counts, samples, draws, i);
      BlocksKept(prefix, points, counts, samples, draws, i);
      BlocksExtend(points, counts, samples, draws, i);
      assert counts[..i + 1][..i] == counts[..i];
      i := i + 1;
    }
    assert counts[..|counts|] == counts;
  }

  // ---------------------------------------------------------------------------
  // Comments

  /** `comment_counts`: ten locations get one comment, seven get two, three get three. */
  function CommentCounts(): (r: seq<nat>)
    ensures |r| == 20
  {
    Repeat(1, 10) + Repeat(2, 7) + Repeat(3, 3)
  }

  lemma CommentCountsSum()
    ensures Sum(CommentCounts()) == 33
  {
    SumConcat(Repeat(1, 10) + Repeat(2, 7), Repeat(3, 3));
    SumConcat(Repeat(1, 10), Repeat(2, 7));
    SumRepeat(1, 10);
    SumRepeat(2, 7);
    SumRepeat(3, 3);
  }

  /** The random choices made for one comment on a location, the template text included. */
  datatype CommentDraw = CommentDraw(user: nat, content: string, privacy: Privacy, createdAt: int)

  /**
   * The random choices made for one comment on a rating: its time is the rating's
   * time plus `randint(1, 10)` days and `randint(0, 23)` hours.
   */
  datatype ReplyDraw = ReplyDraw(user: nat, content: string, privacy: Privacy, daysAfter: nat, hoursAfter: nat)

  const SecondsPerHour: nat := 3600
  const SecondsPerDay: nat := 24 * SecondsPerHour

  predicate ReplyDelayInRange(d: ReplyDraw)
  {
    1 <= d.daysAfter <= 10 && d.hoursAfter <= 23
  }

  datatype CommentFixture = CommentFixture(
    pk: nat, user: nat, location: nat, emotionPoint: Option<nat>, content: string, privacy: Privacy, createdAt: int)

  function Min(a: nat, b: nat): nat
  {
    if a <= b then a else b
  }

  function Range(n: nat): (r: seq<nat>)
    ensures |r| == n && forall k :: 0 <= k < n ==> r[k] == k
  {
    seq(n, k => k)
  }

  /** The j-th comment drawn for the i-th sampled location (the location at position `chosenLocations[i]`). */
  function LocationComment(
    counts: seq<nat>, chosenLocations: seq<nat>, locationDraws: seq<seq<CommentDraw>>, i: nat, j: nat): CommentFixture
    requires i < |counts| && i < |chosenLocations| && i < |locationDraws| && j < |locationDraws[i]|
  {
    var d := locationDraws[i][j];
    CommentFixture(Start(counts, i) + j + 1, d.user, chosenLocations[i] + 1, None, d.content, d.privacy, d.createdAt)
  }

  /** The comment on the m-th sampled rating: that rating's location, later than the rating by the drawn delay. */
  function ReplyComment(points: seq<PointFixture>, chosenPoints: seq<nat>, pointDraws: seq<ReplyDraw>, m: nat): CommentFixture
    requires m < |chosenPoints| && m < |pointDraws| && chosenPoints[m] < |points|
  {
    var ep := points[chosenPoints[m]];
    var d := pointDraws[m];
    CommentFixture(
      34 + m, d.user, ep.location, Some(ep.pk), d.content, d.privacy,
      ep.createdAt + d.daysAfter * SecondsPerDay + d.hoursAfter * SecondsPerHour)
  }

  /** The comment blocks of the first n sampled locations, laid out in `comments` from the start. */
  ghost predicate CommentBlocksLaidOut(
    comments: seq<CommentFixture>, counts: seq<nat>, chosenLocations: seq<nat>, locationDraws: seq<seq<CommentDraw>>, n: nat)
    requires n <= |counts| && n <= |chosenLocations| && n <= |locationDraws|
    requires forall i :: 0 <= i < n ==> |locationDraws[i]| == counts[i]
  {
    forall i :: 0 <= i < n ==>
      && Start(counts, i) + counts[i] <= |comments|
      && (forall j :: 0 <= j < counts[i] ==>
            comments[Start(counts, i) + j] == LocationComment(counts, chosenLocations, locationDraws, i, j))
  }

  /** Appending to the comments keeps the blocks already laid out. */
  lemma CommentBlocksKept(
    prefix: seq<CommentFixture>, comments: seq<CommentFixture>,
    counts: seq<nat>, chosenLocations: seq<nat>, locationDraws: seq<seq<CommentDraw>>, n: nat)
    requires n <= |counts| && n <= |chosenLocations| && n <= |locationDraws|
    requires forall i :: 0 <= i < n ==> |locationDraws[i]| == counts[i]
    requires |prefix| <= |comments| && comments[..|prefix|] == prefix
    requires CommentBlocksLaidOut(prefix, counts, chosenLocations, locationDraws, n)
    ensures CommentBlocksLaidOut(comments, counts, chosenLocations, locationDraws, n)
  {
    forall i, j | 0 <= i < n && 0 <= j < counts[i]
      ensures comments[Start(counts, i) + j] == LocationComment(counts, chosenLocations, locationDraws, i, j)
    {
      assert comments[Start(counts, i) + j] == prefix[Start(counts, i) + j];
    }
  }

  /** A comment block laid out right after the first n extends the layout to n + 1 sampled locations. */
  lemma CommentBlocksExtend(
    comments: seq<CommentFixture>, counts: seq<nat>, chosenLocations: seq<nat>, locationDraws: seq<seq<CommentDraw>>, n: nat)
    requires n < |counts| && n < |chosenLocations| && n < |locationDraws|
    requires forall i :: 0 <= i <= n ==> |locationDraws[i]| == counts[i]
    requires CommentBlocksLaidOut(comments, counts, chosenLocations, locationDraws, n)
    requires Start(counts, n) + counts[n] <= |comments|
    requires forall j :: 0 <= j < counts[n] ==>
      comments[Start(counts, n) + j] == LocationComment(counts, chosenLocations, locationDraws, n, j)
    ensures CommentBlocksLaidOut(comments, counts, chosenLocations, locationDraws, n + 1)
  {
  }

  /** Location comments numbered from 1, by known users, with no rating, at locations 1..50. */
  predicate LocationCommentsSound(comments: seq<CommentFixture>)
  {
    forall k :: 0 <= k < |comments| ==>
      && comments[k].pk == k + 1 && comments[k].user in Users
      && comments[k].emotionPoint.None? && 1 <= comments[k].location <= LocationCount
  }

  /** The inner loop of the first half of `generate_comments`: the comments on the i-th sampled location. */
  method GenerateCommentsAt(
    comments: seq<CommentFixture>, counts: seq<nat>, chosenLocations: seq<nat>,
    locationDraws: seq<seq<CommentDraw>>, i: nat)
    returns (extended: seq<CommentFixture>)
    requires i < |counts| && i < |chosenLocations| && i < |locationDraws|
    requires chosenLocations[i] < LocationCount && |locationDraws[i]| == counts[i]
    requires forall j :: 0 <= j < |locationDraws[i]| ==> locationDraws[i][j].user in Users
    requires |comments| == Start(counts, i) && LocationCommentsSound(comments)
    ensures |extended| == Start(counts, i) + counts[i] && extended[..|comments|] == comments
    ensures LocationCommentsSound(extended)
    ensures forall j :: 0 <= j < counts[i] ==>
      extended[Start(counts, i) + j] == LocationComment(counts, chosenLocations, locationDraws, i, j)
  {
    var locationPk := chosenLocations[i] + 1;
    extended := comments;
    var pk := |comments| + 1;
    var j := 0;
    while j < counts[i]
      invariant 0 <= j <= counts[i]
      invariant |extended| == Start(counts, i) + j && pk == |extended| + 1
      invariant extended[..|comments|] == comments
      invariant LocationCommentsSound(extended)
      invariant forall j' :: 0 <= j' < j ==>
        extended[Start(counts, i) + j'] == LocationComment(counts, chosenLocations, locationDraws, i, j')
    {
      var d := locationDraws[i][j];
      extended := extended + [CommentFixture(pk, d.user, locationPk, None, d.content, d.privacy, d.createdAt)];
      pk := pk + 1;
      j := j + 1;
    }
  }

  /**
   * The first half of `generate_comments`: on each sampled location, as many
   * comments as `comment_counts` says, with pks from 1.
   */
  method GenerateLocationComments(chosenLocations: seq<nat>, locationDraws: seq<seq<CommentDraw>>)
    returns (comments: seq<CommentFixture>)
    requires IsSample(chosenLocations, Range(LocationCount), 20)
    requires |locationDraws| == 20
    requires forall i :: 0 <= i < 20 ==> |locationDraws[i]| == CommentCounts()[i]
    requires forall i, j :: 0 <= i < 20 && 0 <= j < |locationDraws[i]| ==> locationDraws[i][j].user in Users
    ensures |comments| == 33
    ensures forall k :: 0 <= k < 33 ==> comments[k].pk == k + 1 && comments[k].user in Users
    ensures forall k :: 0 <= k < 33 ==>
      comments[k].emotionPoint.None? && 1 <= comments[k].location <= LocationCount
    ensures CommentBlocksLaidOut(comments, CommentCounts(), chosenLocations, locationDraws, 20)
  {
    CommentCountsSum();
    var counts := CommentCounts();
    comments := [];
    var i := 0;
    while i < 20
      invariant 0 <= i <= 20
      invariant |comments| == Start(counts, i) && LocationCommentsSound(comments)
      invariant CommentBlocksLaidOut(comments, counts, chosenLocations, locationDraws, i)
    {
      assert chosenLocations[i] in Range(LocationCount);
      ghost var prefix := comments;
      comments := GenerateCommentsAt(comments, counts, chosenLocations, locationDraws, i);
      CommentBlocksKept(prefix, comments, counts, chosenLocations, locationDraws, i);
      CommentBlocksExtend(comments, counts, chosenLocations, locationDraws, i);
      assert counts[..i + 1][..i] == counts[..i];
      i := i + 1;
    }
    assert counts[..20] == counts;
  }

  /**
   * `generate_comments`: first the comments on the sampled locations, then one
   * comment on each sampled rating, at that rating's location and later than it.
   * Comment pks run from 1.
   */
  method GenerateComments(
    chosenLocations: seq<nat>, locationDraws: seq<seq<CommentDraw>>,
    points: seq<PointFixture>, chosenPoints: seq<nat>, pointDraws: seq<ReplyDraw>)
    returns (comments: seq<CommentFixture>)
    requires IsSample(chosenLocations, Range(LocationCount), 20)
    requires |locationDraws| == 20
    requires forall i :: 0 <= i < 20 ==> |locationDraws[i]| == CommentCounts()[i]
    requires forall i, j :: 0 <= i < 20 && 0 <= j < |locationDraws[i]| ==> locationDraws[i][j].user in Users
    requires IsSample(chosenPoints, Range(|points|), Min(10, |points|))
    requires |pointDraws| == |chosenPoints|
    requires forall k :: 0 <= k < |pointDraws| ==> pointDraws[k].user in Users && ReplyDelayInRange(pointDraws[k])
    ensures |comments| == 33 + Min(10, |points|)
    ensures forall k :: 0 <= k < |comments| ==> comments[k].pk == k + 1 && comments[k].user in Users
    ensures forall k :: 0 <= k < 33 ==>
      comments[k].emotionPoint.None? && 1 <= comments[k].location <= LocationCount
    ensures forall i :: 0 <= i < 20 ==>
      && Start(CommentCounts(), i) + CommentCounts()[i] <= 33
      && (forall j :: 0 <= j < CommentCounts()[i] ==>
            comments[Start(CommentCounts(), i) + j] == LocationComment(CommentCounts(), chosenLocations, locationDraws, i, j))
    ensures forall m :: 0 <= m < |chosenPoints| ==>
      && chosenPoints[m] < |points|
      && comments[33 + m] == ReplyComment(points, chosenPoints, pointDraws, m)
    ensures forall k :: 33 <= k < |comments| ==>
      var ep := points[chosenPoints[k - 33]];
      && comments[k].emotionPoint == Some(ep.pk) && comments[k].location == ep.location
      && ep.createdAt + SecondsPerDay <= comments[k].createdAt <= ep.createdAt + 10 * SecondsPerDay + 23 * SecondsPerHour
  {
    comments := GenerateLocationComments(chosenLocations, locationDraws);
    ghost var located := comments;
    var pk := 34;
    var m := 0;
    while m < |chosenPoints|
      invariant 0 <= m <= |chosenPoints|
      invariant |comments| == 33 + m && pk == |comments| + 1
      invariant comments[..33] == located
      invariant forall k :: 0 <= k < |comments| ==> comments[k].pk == k + 1 && comments[k].user in Users
      invariant forall m' :: 0 <= m' < m ==>
        && chosenPoints[m'] < |points|
        && comments[33 + m'] == ReplyComment(points, chosenPoints, pointDraws, m')
    {
      assert chosenPoints[m] in Range(|points|);
      var ep := points[chosenPoints[m]];
      var d := pointDraws[m];
      var createdAt := ep.createdAt + d.daysAfter * SecondsPerDay + d.hoursAfter * SecondsPerHour;
      comments := comments + [CommentFixture(pk, d.user, ep.location, Some(ep.pk), d.content, d.privacy, createdAt)];
      pk := pk + 1;
      m := m + 1;
    }
    CommentBlocksKept(located, comments, CommentCounts(), chosenLocations, locationDraws, 20);
    forall k | 0 <= k < 33
      ensures comments[k].emotionPoint.None? && 1 <= comments[k].location <= LocationCount
    {
      assert comments[k] == located[k];
    }
    forall k | 33 <= k < |comments|
      ensures var ep := points[chosenPoints[k - 33]];
        && comments[k].emotionPoint == Some(ep.pk) && comments[k].location == ep.location
        && ep.createdAt + SecondsPerDay <= comments[k].createdAt <= ep.createdAt + 10 * SecondsPerDay + 23 * SecondsPerHour
    {
      assert comments[33 + (k - 33)] == ReplyComment(points, chosenPoints, pointDraws, k - 33);
    }
  }

  // ---------------------------------------------------------------------------
  // Checks

  /**
   * `validate_unique_together`: passes iff no (user, location) pair repeats; a
   * failure names the first pair seen a second time.
   */
  method ValidateUniqueTogether(points: seq<PointFixture>) returns (r: Outcome<(nat, nat)>)
    ensures r.Pass? <==> PairsDistinct(points)
    ensures r.Fail? ==>
      exists j :: 0 <= j < |points| && Key(points[j]) == r.error && PairsDistinct(points[..j])
        && exists i :: 0 <= i < j && Key(points[i]) == r.error
  {
    var seen: set<(nat, nat)> := {};
    var n := 0;
    while n < |points|
      invariant 0 <= n <= |points|
      invariant seen == set k | 0 <= k < n :: Key(points[k])
      invariant PairsDistinct(points[..n])
    {
      var key := Key(points[n]);
      if key in seen {
        var i :| 0 <= i < n && Key(points[i]) == key;
        assert !PairsDistinct(points) by {
          assert Key(points[i]) == Key(points[n]);
        }
        return Fail(key);
      }
      seen := seen + {key};
      assert points[..n + 1] == points[..n] + [points[n]];
      n := n + 1;
    }
    assert points[..n] == points;
    r := Pass;
  }

  datatype FkError = InvalidUser(user: nat) | InvalidLocation(location: nat) | InvalidEmotionPoint(pk: nat)

  predicate HasPk(points: seq<PointFixture>, pk: nat)
  {
    exists m :: 0 <= m < |points| && points[m].pk == pk
  }

  predicate CommentKeysValid(c: CommentFixture, points: seq<PointFixture>, locationCount: nat)
  {
    && c.user in Users
    && 1 <= c.location <= locationCount
    && (c.emotionPoint.Some? ==> HasPk(points, c.emotionPoint.value))
  }

  /** Every user is a known one, every location in 1..locationCount, every comment's rating an existing one. */
  predicate ForeignKeysValid(points: seq<PointFixture>, comments: seq<CommentFixture>, locationCount: nat)
  {
    && (forall k :: 0 <= k < |points| ==> points[k].user in Users && 1 <= points[k].location <= locationCount)
    && (forall k :: 0 <= k < |comments| ==> CommentKeysValid(comments[k], points, locationCount))
  }

  /** The failed assertion for one rating, in the order they are checked: user, then location. */
  function PointKeyError(p: PointFixture, locationCount: nat): (r: Option<FkError>)
    ensures r.None? <==> p.user in Users && 1 <= p.location <= locationCount
    ensures r == Some(InvalidUser(p.user)) <==> p.user !in Users
  {
    if p.user !in Users then Some(InvalidUser(p.user))
    else if !(1 <= p.location <= locationCount) then Some(InvalidLocation(p.location))
    else None
  }

  /** The failed assertion for one comment: user, then location, then the rating it refers to. */
  function CommentKeyError(c: CommentFixture, points: seq<PointFixture>, locationCount: nat): (r: Option<FkError>)
    ensures r.None? <==> CommentKeysValid(c, points, locationCount)
    ensures r == Some(InvalidUser(c.user)) <==> c.user !in Users
  {
    if c.user !in Users then Some(InvalidUser(c.user))
    else if !(1 <= c.location <= locationCount) then Some(InvalidLocation(c.location))
    else if c.emotionPoint.Some? && !HasPk(points, c.emotionPoint.value) then Some(InvalidEmotionPoint(c.emotionPoint.value))
    else None
  }

  /** `e` is the error of the first rating with a bad key. */
  predicate FirstPointError(points: seq<PointFixture>, locationCount: nat, e: FkError)
  {
    exists n :: 0 <= n < |points| && PointKeyError(points[n], locationCount) == Some(e)
      && forall k :: 0 <= k < n ==> PointKeyError(points[k], locationCount).None?
  }

  /** Every rating is sound and `e` is the error of the first comment with a bad key. */
  predicate FirstCommentError(points: seq<PointFixture>, comments: seq<CommentFixture>, locationCount: nat, e: FkError)
  {
    && (forall k :: 0 <= k < |points| ==> PointKeyError(points[k], locationCount).None?)
    && exists n :: 0 <= n < |comments| && CommentKeyError(comments[n], points, locationCount) == Some(e)
         && forall k :: 0 <= k < n ==> CommentKeyError(comments[k], points, locationCount).None?
  }

  /** `validate_foreign_keys`: the ratings first, then the comments; the first bad key fails the check. */
  method ValidateForeignKeys(points: seq<PointFixture>, comments: seq<CommentFixture>, locationCount: nat)
    returns (r: Outcome<FkError>)
    ensures r.Pass? <==> ForeignKeysValid(points, comments, locationCount)
    ensures r.Fail? ==>
      FirstPointError(points, locationCount, r.error) || FirstCommentError(points, comments, locationCount, r.error)
    ensures r.Fail? && r.error.InvalidUser? ==> r.error.user !in Users
    ensures r.Fail? && r.error.InvalidLocation? ==> !(1 <= r.error.location <= locationCount)
    ensures r.Fail? && r.error.InvalidEmotionPoint? ==> !HasPk(points, r.error.pk)
  {
    var n := 0;
    while n < |points|
      invariant 0 <= n <= |points|
      invariant forall k :: 0 <= k < n ==> PointKeyError(points[k], locationCount).None?
    {
      var e := PointKeyError(points[n], locationCount);
      if e.Some? {
        assert FirstPointError(points, locationCount, e.value);
        return Fail(e.value);
      }
      n := n + 1;
    }
    var c := 0;
    while c < |comments|
      invariant 0 <= c <= |comments|
      invariant forall k :: 0 <= k < c ==> CommentKeyError(comments[k], points, locationCount).None?
    {
      var e := CommentKeyError(comments[c], points, locationCount);
      if e.Some? {
        assert FirstCommentError(points, comments, locationCount, e.value);
        return Fail(e.value);
      }
      c := c + 1;
    }
    r := Pass;
  }

  // ---------------------------------------------------------------------------
  // The generator's run

  /**
   * `main`'s generation and validation steps: the locations, the ratings and the
   * comments, then the two checks. For every random outcome both checks pass.
   */
  method GenerateFixtures(
    locations: seq<LocationData>, render: real -> string,
    counts: seq<nat>, samples: seq<seq<nat>>, draws: seq<seq<Draw>>,
    chosenLocations: seq<nat>, locationDraws: seq<seq<CommentDraw>>,
    chosenPoints: seq<nat>, pointDraws: seq<ReplyDraw>)
    returns (
      locationFixtures: seq<LocationFixture>, points: seq<PointFixture>, comments: seq<CommentFixture>,
      unique: Outcome<(nat, nat)>, keys: Outcome<FkError>)
    requires |locations| == LocationCount
    requires |counts| == LocationCount && multiset(counts) == multiset(EmotionCounts())
    requires |samples| == |counts| && |draws| == |counts|
    requires forall i :: 0 <= i < |counts| ==> IsSample(samples[i], Users, counts[i])
    requires forall i :: 0 <= i < |counts| ==> |samples[i]| == counts[i] && |draws[i]| == counts[i]
    requires forall i, j :: 0 <= i < |counts| && 0 <= j < |draws[i]| ==>
      draws[i][j].value in ClusterValues(locations[i].cluster)
    requires IsSample(chosenLocations, Range(LocationCount), 20)
    requires |locationDraws| == 20
    requires forall i :: 0 <= i < 20 ==> |locationDraws[i]| == CommentCounts()[i]
    requires forall i, j :: 0 <= i < 20 && 0 <= j < |locationDraws[i]| ==> locationDraws[i][j].user in Users
    requires IsSample(chosenPoints, Range(78), 10)
    requires |pointDraws| == 10
    requires forall k :: 0 <= k < |pointDraws| ==> pointDraws[k].user in Users && ReplyDelayInRange(pointDraws[k])
    ensures |locationFixtures| == LocationCount && |points| == 78 && |comments| == 43
    ensures unique == Pass && keys == Pass
  {
    locationFixtures := GenerateLocations(locations, render);
    points := GenerateEmotionPoints(locations, counts, samples, draws);
    comments := GenerateComments(chosenLocations, locationDraws, points, chosenPoints, pointDraws);
    unique := ValidateUniqueTogether(points);
    forall k | 33 <= k < |comments|
      ensures CommentKeysValid(comments[k], points, LocationCount)
    {
      var m := chosenPoints[k - 33];
      assert points[m].pk == m + 1;
      assert HasPk(points, points[m].pk);
    }
    keys := ValidateForeignKeys(points, comments, |locationFixtures|);
  }
}
