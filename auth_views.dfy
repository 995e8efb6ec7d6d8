/**
 * The account pages: the registration page's redirect, the profile page's
 * rating statistics and recent public ratings, and the community list with
 * its username search.
 */
module AuthViews {
  import opened Wrappers
  import opened Text
  import opened Sorting
  import opened EmotionModels
  import opened AuthModels

  datatype RegisterResponse = RedirectToMap | RegistrationForm

  /** `RegisterView.get`: a signed-in user is sent to the map instead of the form. */
  function RegisterGet(authenticated: bool): (r: RegisterResponse)
    ensures r == RedirectToMap <==> authenticated
  {
    if authenticated then RedirectToMap else RegistrationForm
  }

  /** The ratings of one user (`user.emotion_points`). */
  function OwnRatings(points: seq<EmotionPoint>, userId: nat): (r: seq<EmotionPoint>)
    ensures forall e :: e in r <==> e in points && e.user == userId
  {
    Filter(points, (e: EmotionPoint) => e.user == userId)
  }

  function WithPrivacy(points: seq<EmotionPoint>, privacy: Privacy): (r: seq<EmotionPoint>)
    ensures forall e :: e in r <==> e in points && e.privacy == privacy
  {
    Filter(points, (e: EmotionPoint) => e.privacy == privacy)
  }

  datatype ProfileStats = ProfileStats(total: nat, publicCount: nat, privateCount: nat)

  /** The three counts of the profile page. */
  function Stats(points: seq<EmotionPoint>, userId: nat): (r: ProfileStats)
    ensures r.total == |OwnRatings(points, userId)|
    ensures r.publicCount == |WithPrivacy(OwnRatings(points, userId), Public)|
    ensures r.privateCount == |WithPrivacy(OwnRatings(points, userId), Private)|
  {
    var own := OwnRatings(points, userId);
    ProfileStats(|own|, |WithPrivacy(own, Public)|, |WithPrivacy(own, Private)|)
  }

  /** Every rating is public or private, so the two counts add up to the total. */
  lemma StatsAddUp(points: seq<EmotionPoint>, userId: nat)
    ensures Stats(points, userId).total == Stats(points, userId).publicCount + Stats(points, userId).privateCount
  {
    var own := OwnRatings(points, userId);
    FilterComplement(own, (e: EmotionPoint) => e.privacy == Public, (e: EmotionPoint) => e.privacy == Private);
  }

  /** The default order of ratings: newest first. */
  function NewestFirst(): (EmotionPoint, EmotionPoint) -> bool
  {
    (a: EmotionPoint, b: EmotionPoint) => a.createdAt >= b.createdAt
  }

  lemma NewestFirstIsTotalPreorder()
    ensures TotalPreorder(NewestFirst())
  {
  }

  /** A user's public ratings, newest first. */
  function PublicNewestFirst(points: seq<EmotionPoint>, userId: nat): (r: seq<EmotionPoint>)
    ensures multiset(r) == multiset(WithPrivacy(OwnRatings(points, userId), Public))
    ensures forall e :: e in r <==> e in points && e.user == userId && e.privacy == Public
    ensures SortedBy(r, NewestFirst())
  {
    var selected := WithPrivacy(OwnRatings(points, userId), Public);
    NewestFirstIsTotalPreorder();
    InsertionSortSorted(selected, NewestFirst());
    assert forall e :: e in selected <==> e in multiset(selected);
    InsertionSort(selected, NewestFirst())
  }

  const RecentLimit: nat := 10

  /** The profile's `recent_emotions`: at most ten public ratings of the user, newest first. */
  function RecentEmotions(points: seq<EmotionPoint>, userId: nat): (r: seq<EmotionPoint>)
    ensures |r| == if Stats(points, userId).publicCount <= RecentLimit then Stats(points, userId).publicCount else RecentLimit
    ensures |r| <= |PublicNewestFirst(points, userId)| && r == PublicNewestFirst(points, userId)[..|r|]
    ensures multiset(r) <= multiset(WithPrivacy(OwnRatings(points, userId), Public))
    ensures forall k :: 0 <= k < |r| ==> r[k] in points && r[k].user == userId && r[k].privacy == Public
    ensures SortedBy(r, NewestFirst())
  {
    var all := PublicNewestFirst(points, userId);
    var n := if |all| <= RecentLimit then |all| else RecentLimit;
    RecentPrefix(points, userId, n);
    all[..n]
  }

  lemma RecentPrefix(points: seq<EmotionPoint>, userId: nat, n: nat)
    requires n <= |PublicNewestFirst(points, userId)|
    ensures |PublicNewestFirst(points, userId)| == Stats(points, userId).publicCount
    ensures var r := PublicNewestFirst(points, userId)[..n];
      && multiset(r) <= multiset(WithPrivacy(OwnRatings(points, userId), Public))
      && (forall k :: 0 <= k < |r| ==> r[k] in points && r[k].user == userId && r[k].privacy == Public)
      && SortedBy(r, NewestFirst())
  {
    var all := PublicNewestFirst(points, userId);
    assert |all| == |multiset(all)|;
    PrefixSubMultiset(all, n);
    PrefixSorted(all, n, NewestFirst());
    forall k | 0 <= k < n ensures all[..n][k] in points && all[..n][k].user == userId && all[..n][k].privacy == Public {
      assert all[..n][k] == all[k] && all[k] in all;
    }
  }

  /** A public rating of the user left out of the recent list is no newer than any rating in it, and the list is full. */
  lemma RecentEmotionsAreTheNewest(points: seq<EmotionPoint>, userId: nat, e: EmotionPoint)
    requires e in points && e.user == userId && e.privacy == Public
    requires e !in RecentEmotions(points, userId)
    ensures |RecentEmotions(points, userId)| == RecentLimit
    ensures forall k :: 0 <= k < RecentLimit ==> RecentEmotions(points, userId)[k].createdAt >= e.createdAt
  {
    var all := PublicNewestFirst(points, userId);
    var r := RecentEmotions(points, userId);
    assert e in all;
    var j :| 0 <= j < |all| && all[j] == e;
    assert |all| > RecentLimit && r == all[..RecentLimit];
    assert j >= RecentLimit;
    forall k | 0 <= k < RecentLimit ensures r[k].createdAt >= e.createdAt {
      assert r[k] == all[k];
    }
  }

  datatype ProfileContext = ProfileContext(stats: ProfileStats, recent: seq<EmotionPoint>, isOwnProfile: bool)

  /** `UserProfileView.get_context_data` for `viewer` looking at `profile`. */
  function Profile(points: seq<EmotionPoint>, profile: User, viewer: User): (c: ProfileContext)
    ensures c.stats.total == c.stats.publicCount + c.stats.privateCount
    ensures c.stats == Stats(points, profile.id)
    ensures c.recent == RecentEmotions(points, profile.id)
    ensures c.isOwnProfile <==> viewer.id == profile.id
  {
    StatsAddUp(points, profile.id);
    ProfileContext(Stats(points, profile.id), RecentEmotions(points, profile.id), viewer.id == profile.id)
  }

  /** The community list's order: the most recently joined first. */
  function JoinedLatest(): (User, User) -> bool
  {
    (a: User, b: User) => a.dateJoined >= b.dateJoined
  }

  lemma JoinedLatestIsTotalPreorder()
    ensures TotalPreorder(JoinedLatest())
  {
  }

  /** Whether a user passes the `q` search; an absent or empty query keeps everyone. */
  predicate Matches(q: Option<string>, u: User)
  {
    q.None? || q.value == [] || IContains(u.username, q.value)
  }

  /** The users of the community list, in order. */
  function CommunityUsers(users: seq<User>, q: Option<string>): (r: seq<User>)
    ensures forall u :: u in r <==> u in users && Matches(q, u)
    ensures SortedBy(r, JoinedLatest())
    ensures q.None? || q.value == [] ==> multiset(r) == multiset(users)
    ensures forall u :: multiset(r)[u] == if Matches(q, u) then multiset(users)[u] else 0
  {
    JoinedLatestIsTotalPreorder();
    InsertionSortSorted(users, JoinedLatest());
    var sorted := InsertionSort(users, JoinedLatest());
    assert forall u :: u in sorted <==> u in multiset(users);
    if q.None? || q.value == [] then sorted
    else
      FilterKeepsOrder(sorted, (u: User) => Matches(q, u), JoinedLatest());
      var kept := Filter(sorted, (u: User) => Matches(q, u));
      assert forall u :: multiset(kept)[u] == if Matches(q, u) then multiset(users)[u] else 0 by {
        forall u ensures multiset(kept)[u] == if Matches(q, u) then multiset(users)[u] else 0 {
          FilterCount(sorted, (u: User) => Matches(q, u), u);
        }
      }
      kept
  }

  /** One entry of the community list: the user, the count of all their ratings and their public ratings. */
  datatype CommunityRow = CommunityRow(user: User, emotionsCount: nat, recentPublic: seq<EmotionPoint>)

  function RowOf(points: seq<EmotionPoint>, u: User): CommunityRow
  {
    CommunityRow(u, |OwnRatings(points, u.id)|, PublicNewestFirst(points, u.id))
  }

  /** `CommunityView.get_queryset`: the matching users with their annotations. */
  function Community(users: seq<User>, points: seq<EmotionPoint>, q: Option<string>): (r: seq<CommunityRow>)
    ensures |r| == |CommunityUsers(users, q)|
    ensures forall k :: 0 <= k < |r| ==> r[k].user == CommunityUsers(users, q)[k]
    ensures forall k :: 0 <= k < |r| ==> r[k].emotionsCount == Stats(points, r[k].user.id).total
    ensures forall k :: 0 <= k < |r| ==>
      forall e :: e in r[k].recentPublic <==> e in points && e.user == r[k].user.id && e.privacy == Public
    ensures forall k :: 0 <= k < |r| ==> r[k].recentPublic == PublicNewestFirst(points, r[k].user.id)
  {
    var us := CommunityUsers(users, q);
    seq(|us|, k requires 0 <= k < |us| => RowOf(points, us[k]))
  }

  /** The public ratings shown never outnumber the count, which includes private ones. */
  lemma CommunityCountCoversPublic(users: seq<User>, points: seq<EmotionPoint>, q: Option<string>)
    ensures var r := Community(users, points, q);
            forall k :: 0 <= k < |r| ==> |r[k].recentPublic| <= r[k].emotionsCount
  {
    var r := Community(users, points, q);
    forall k | 0 <= k < |r| ensures |r[k].recentPublic| <= r[k].emotionsCount {
      var u := CommunityUsers(users, q)[k];
      var own := OwnRatings(points, u.id);
      var shown := PublicNewestFirst(points, u.id);
      assert r[k] == RowOf(points, u);
      assert |shown| == |multiset(shown)| == |multiset(WithPrivacy(own, Public))| == |WithPrivacy(own, Public)|;
    }
  }
}
