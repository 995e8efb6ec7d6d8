/**
 * `delete_emotion`: a logged-in user removes one of their own ratings by a
 * POST request and is sent back to the rating's location page. Removing a
 * rating also removes the comments attached to it (the comment's foreign key
 * cascades).
 */
module EmotionsViews {
  import opened Wrappers
  import opened Sorting
  import opened Locations
  import opened EmotionModels

  datatype Response =
    | RedirectToLogin
    | MethodNotAllowed
    | NotFound
    | Forbidden
    | RedirectToLocation(locationId: nat)

  /** The ratings table without the row `pk`. */
  function RemovePoint(points: seq<EmotionPoint>, pk: nat): seq<EmotionPoint>
  {
    Filter(points, (p: EmotionPoint) => p.id != pk)
  }

  /** The comments table without the comments attached to rating `pk`. */
  function RemoveCommentsOf(comments: seq<Comment>, pk: nat): seq<Comment>
  {
    Filter(comments, (c: Comment) => c.emotionPoint != Some(pk))
  }

  /** With distinct ids, removing `pk` takes out exactly its one row and keeps the rest in order. */
  lemma RemovePointExactlyOne(points: seq<EmotionPoint>, k: nat)
    requires k < |points|
    requires forall i, j :: 0 <= i < j < |points| ==> points[i].id != points[j].id
    ensures RemovePoint(points, points[k].id) == points[..k] + points[k + 1..]
    ensures |RemovePoint(points, points[k].id)| == |points| - 1
  {
    var pk := points[k].id;
    var p := (e: EmotionPoint) => e.id != pk;
    assert points == points[..k] + ([points[k]] + points[k + 1..]);
    FilterConcat(points[..k], [points[k]] + points[k + 1..], p);
    FilterConcat([points[k]], points[k + 1..], p);
    FilterAllKept(points[..k], p);
    FilterAllKept(points[k + 1..], p);
    assert Filter([points[k]], p) == [];
  }

  /** Taking one row out of the ratings keeps their constraints, and every other id stays present. */
  lemma RemoveAtKeepsRatings(points: seq<EmotionPoint>, k: nat)
    requires k < |points| && RatingsValid(points)
    ensures RatingsValid(points[..k] + points[k + 1..])
    ensures forall e :: HasPoint(points, e) && e != points[k].id ==> HasPoint(points[..k] + points[k + 1..], e)
  {
    var ps := points[..k] + points[k + 1..];
    assert forall i :: 0 <= i < |ps| ==> ps[i] == points[if i < k then i else i + 1];
    forall e | HasPoint(points, e) && e != points[k].id ensures HasPoint(ps, e) {
      var m :| 0 <= m < |points| && points[m].id == e;
      assert ps[if m < k then m else m - 1] == points[m];
    }
  }

  /** Removing a rating and its comments keeps every table constraint. */
  lemma RemoveKeepsStoreValid(
    locations: seq<Location>, points: seq<EmotionPoint>, comments: seq<Comment>,
    nextLocationId: nat, nextPointId: nat, pk: nat)
    requires StoreValid(locations, points, comments, nextLocationId, nextPointId)
    ensures StoreValid(locations, RemovePoint(points, pk), RemoveCommentsOf(comments, pk), nextLocationId, nextPointId)
  {
    var ps := RemovePoint(points, pk);
    var cs := RemoveCommentsOf(comments, pk);
    assert forall i :: 0 <= i < |cs| ==> cs[i] in comments && cs[i].emotionPoint != Some(pk);
    match FindPoint(points, pk)
    case None =>
      FilterAllKept(points, (e: EmotionPoint) => e.id != pk);
    case Some(k) =>
      RemovePointExactlyOne(points, k);
      RemoveAtKeepsRatings(points, k);
      assert forall i :: 0 <= i < |ps| ==> ps[i] in points;
  }

  /**
   * The view. The login check comes first, then the POST-only check, then the
   * 404 lookup and the ownership check; only the owner's POST deletes.
   */
  method DeleteEmotion(store: EmotionStore, httpMethod: string, requester: Option<nat>, pk: nat)
    returns (resp: Response)
    requires store.Valid()
    modifies store
    ensures store.Valid()
    ensures requester.None? ==> resp == RedirectToLogin
    ensures requester.Some? && httpMethod != "POST" ==> resp == MethodNotAllowed
    ensures requester.Some? && httpMethod == "POST" && FindPoint(old(store.points), pk).None? ==>
      resp == NotFound
    ensures requester.Some? && httpMethod == "POST" && FindPoint(old(store.points), pk).Some? ==>
      var owner := old(store.points)[FindPoint(old(store.points), pk).value];
      resp == if owner.user == requester.value then RedirectToLocation(owner.location) else Forbidden
    ensures store.locations == old(store.locations)
    ensures store.nextLocationId == old(store.nextLocationId) && store.nextPointId == old(store.nextPointId)
    ensures resp.RedirectToLocation? ==>
      && store.points == RemovePoint(old(store.points), pk)
      && store.comments == RemoveCommentsOf(old(store.comments), pk)
    ensures !resp.RedirectToLocation? ==>
      store.points == old(store.points) && store.comments == old(store.comments)
  {
    if requester.None? {
      return RedirectToLogin;
    }
    if httpMethod != "POST" {
      return MethodNotAllowed;
    }
    var found := FindPoint(store.points, pk);
    if found.None? {
      return NotFound;
    }
    var emotion := store.points[found.value];
    if emotion.user != requester.value {
      return Forbidden;
    }
    var locationId := emotion.location;
    RemoveKeepsStoreValid(store.locations, store.points, store.comments, store.nextLocationId, store.nextPointId, pk);
    store.points := RemovePoint(store.points, pk);
    store.comments := RemoveCommentsOf(store.comments, pk);
    resp := RedirectToLocation(locationId);
  }
}
