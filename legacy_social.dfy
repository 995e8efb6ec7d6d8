/**
 * The older friendship table of the top-level `social` app: rows from `user`
 * to `friend`, with the database constraints `unique_friendship` (one row per
 * ordered pair) and `users_cannot_friend_themselves`. It has no methods of
 * its own; inserting a row is checked only by those two constraints.
 */
module LegacySocial {
  import opened Wrappers
  import opened SocialModels

  datatype Row = Row(user: nat, friend: nat, status: Status)

  /** The constraint that refuses an insert, by its name in the schema. */
  datatype ConstraintViolation = UniqueFriendship | UsersCannotFriendThemselves

  predicate HasPair(rows: seq<Row>, user: nat, friend: nat)
  {
    exists i :: 0 <= i < |rows| && rows[i].user == user && rows[i].friend == friend
  }

  ghost predicate ConstraintsHold(rows: seq<Row>)
  {
    && (forall i :: 0 <= i < |rows| ==> rows[i].user != rows[i].friend)
    && (forall i, j :: 0 <= i < j < |rows| ==>
          (rows[i].user, rows[i].friend) != (rows[j].user, rows[j].friend))
  }

  /** `objects.create(user=..., friend=...)`: the status defaults to 'pending'. */
  function Create(rows: seq<Row>, user: nat, friend: nat, status: Status := Pending)
    : (r: Result<seq<Row>, ConstraintViolation>)
    ensures user == friend ==> r == Failure(UsersCannotFriendThemselves)
    ensures r == Failure(UniqueFriendship) <==> user != friend && HasPair(rows, user, friend)
    ensures r.Success? <==> user != friend && !HasPair(rows, user, friend)
    ensures r.Success? ==> r.value == rows + [Row(user, friend, status)]
  {
    if user == friend then Failure(UsersCannotFriendThemselves)
    else if HasPair(rows, user, friend) then Failure(UniqueFriendship)
    else Success(rows + [Row(user, friend, status)])
  }

  lemma CreatePreservesConstraints(rows: seq<Row>, user: nat, friend: nat, status: Status)
    requires ConstraintsHold(rows)
    ensures Create(rows, user, friend, status).Success? ==>
      ConstraintsHold(Create(rows, user, friend, status).value)
  {
    var r := Create(rows, user, friend, status);
    if r.Success? {
      forall i, j | 0 <= i < j < |r.value|
        ensures (r.value[i].user, r.value[i].friend) != (r.value[j].user, r.value[j].friend)
      {
        if j == |rows| {
          assert r.value[i] == rows[i];
        }
      }
    }
  }

  /** (a, b) and (b, a) are different keys: both directions may be stored at once. */
  lemma BothDirectionsCoexist(a: nat, b: nat)
    requires a != b
    ensures Create([], a, b).Success?
    ensures Create(Create([], a, b).value, b, a).Success?
    ensures |Create(Create([], a, b).value, b, a).value| == 2
  {
    var first := Create([], a, b).value;
    assert first == [Row(a, b, Pending)];
    assert !HasPair(first, b, a);
  }
}
