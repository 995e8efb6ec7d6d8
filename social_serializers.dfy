/**
 * The friendship serializers: the status-change check, the invitation checks
 * (not oneself, an existing user, no active relation in either direction)
 * and the invitation upsert, which re-uses a rejected row for the same
 * ordered pair and resets it to 'pending'. The API's serializer module
 * carries a line-for-line copy of these rules; both are modelled here.
 */
module SocialSerializers {
  import opened Wrappers
  import opened SocialModels

  datatype ValidationError = SelfInvite | UnknownUser | RelationExists | InvalidStatus | NotFound

  /** A status may be changed only to 'accepted' or 'rejected'. */
  function ValidateStatus(value: string): (r: Result<Status, ValidationError>)
    ensures r.Success? <==> value == "accepted" || value == "rejected"
    ensures r.Success? ==> StatusLiteral(r.value) == value && r.value != Pending
    ensures r.Failure? ==> r.error == InvalidStatus
  {
    if value == "accepted" then Success(Accepted)
    else if value == "rejected" then Success(Rejected)
    else Failure(InvalidStatus)
  }

  /** The target must be another user, and one that exists. */
  function ValidateTargetId(requester: nat, value: int, users: set<nat>): (r: Result<nat, ValidationError>)
    ensures r == Failure(SelfInvite) <==> value == requester
    ensures r == Failure(UnknownUser) <==> value != requester && (value < 0 || value !in users)
    ensures r.Success? ==> r.value == value && r.value in users && r.value != requester
  {
    if value == requester then Failure(SelfInvite)
    else if value < 0 || value !in users then Failure(UnknownUser)
    else Success(value)
  }

  /** The object-level check: no pending or accepted relation may join the two users already. */
  function Validate(rows: seq<Friendship>, requester: nat, target: nat): (r: Outcome<ValidationError>)
    ensures r.Fail? <==> exists i :: 0 <= i < |rows| && ActiveLink(rows[i], requester, target)
    ensures r.Fail? ==> r.error == RelationExists
  {
    if RequestExists(rows, requester, target) then Fail(RelationExists) else Pass
  }

  /**
   * The table after `update_or_create(creator, target, defaults={'status': 'pending'})`:
   * the row for the ordered pair gets status 'pending', or a new pending row is added.
   */
  function Upsert(rows: seq<Friendship>, creator: nat, target: nat, newId: nat, now: int): seq<Friendship>
  {
    match FindPair(rows, creator, target)
    case Some(k) => rows[k := rows[k].(status := Pending)]
    case None => rows + [Friendship(newId, creator, target, Pending, now)]
  }

  /** After the upsert there is exactly one row for the pair, and it is pending. */
  lemma UpsertLeavesOnePendingRow(rows: seq<Friendship>, creator: nat, target: nat, newId: nat, now: int)
    requires TableValid(rows, newId)
    requires creator != target
    ensures TableValid(Upsert(rows, creator, target, newId, now), newId + 1)
    ensures var r := Upsert(rows, creator, target, newId, now);
            exists k :: 0 <= k < |r| && IsPair(r[k], creator, target) && r[k].status == Pending
              && forall i :: 0 <= i < |r| && i != k ==> !IsPair(r[i], creator, target)
  {
    var r := Upsert(rows, creator, target, newId, now);
    match FindPair(rows, creator, target)
    case Some(k) =>
      assert IsPair(r[k], creator, target) && r[k].status == Pending;
      forall i | 0 <= i < |r| && i != k ensures !IsPair(r[i], creator, target) {
        if i < k {
          assert !IsPair(rows[k], rows[i].creator, rows[i].target);
        } else {
          assert !IsPair(rows[i], rows[k].creator, rows[k].target);
        }
      }
    case None =>
      assert IsPair(r[|rows|], creator, target);
  }

  /** The upsert changes no row of another pair, and re-uses the pair's row when one exists. */
  lemma UpsertFrame(rows: seq<Friendship>, creator: nat, target: nat, newId: nat, now: int)
    requires TableValid(rows, newId)
    ensures var r := Upsert(rows, creator, target, newId, now);
            && |rows| <= |r| <= |rows| + 1
            && (forall i :: 0 <= i < |rows| && !IsPair(rows[i], creator, target) ==> r[i] == rows[i])
            && (forall i :: 0 <= i < |rows| && IsPair(rows[i], creator, target) ==>
                  r[i] == rows[i].(status := Pending))
            && (|r| == |rows| <==> exists i :: 0 <= i < |rows| && IsPair(rows[i], creator, target))
  {
    var r := Upsert(rows, creator, target, newId, now);
    match FindPair(rows, creator, target)
    case Some(k) =>
      forall i | 0 <= i < |rows| && IsPair(rows[i], creator, target)
        ensures r[i] == rows[i].(status := Pending)
      {
        FindPairUnique(rows, newId, creator, target, i);
      }
    case None =>
  }

  /** When an invitation passes `validate`, any row already stored for the ordered pair is a rejected one. */
  lemma ReusedRowWasRejected(rows: seq<Friendship>, creator: nat, target: nat)
    requires Validate(rows, creator, target).Pass?
    requires FindPair(rows, creator, target).Some?
    ensures rows[FindPair(rows, creator, target).value].status == Rejected
  {
  }

  /** Once the invitation is stored, a relation exists between the two users. */
  lemma UpsertMakesRequestExist(rows: seq<Friendship>, creator: nat, target: nat, newId: nat, now: int)
    ensures RequestExists(Upsert(rows, creator, target, newId, now), creator, target)
    ensures RequestExists(Upsert(rows, creator, target, newId, now), target, creator)
  {
    var r := Upsert(rows, creator, target, newId, now);
    match FindPair(rows, creator, target)
    case Some(k) =>
      assert ActiveLink(r[k], creator, target);
      assert ActiveLink(r[k], target, creator);
    case None =>
      assert ActiveLink(r[|rows|], creator, target);
      assert ActiveLink(r[|rows|], target, creator);
  }

  /**
   * Sending an invitation: `validate_target_id`, then `validate`, then `create`.
   * A refused invitation leaves the table unchanged; an accepted one is the upsert.
   * The client supplies only the target id: the status is never the client's.
   */
  method CreateFriendship(table: FriendshipTable, users: set<nat>, requester: nat, targetId: int, now: int)
    returns (r: Result<Friendship, ValidationError>)
    requires table.Valid()
    modifies table
    ensures table.Valid()
    ensures r.Failure? <==>
      targetId == requester || targetId < 0 || targetId !in users
      || RequestExists(old(table.rows), requester, targetId as nat)
    ensures r == Failure(SelfInvite) <==> targetId == requester
    ensures r == Failure(UnknownUser) <==> targetId != requester && (targetId < 0 || targetId !in users)
    ensures r == Failure(RelationExists) <==>
      && targetId != requester && targetId >= 0 && targetId in users
      && RequestExists(old(table.rows), requester, targetId as nat)
    ensures r.Failure? ==> table.rows == old(table.rows) && table.nextId == old(table.nextId)
    ensures r.Success? ==>
      && table.rows == Upsert(old(table.rows), requester, targetId as nat, old(table.nextId), now)
      && r.value.creator == requester && r.value.target == targetId && r.value.status == Pending
      && r.value in table.rows
      && table.nextId == old(table.nextId)
           + (if FindPair(old(table.rows), requester, targetId as nat).None? then 1 else 0)
  {
    var target :- ValidateTargetId(requester, targetId, users);
    var checked := Validate(table.rows, requester, target);
    if checked.Fail? {
      return Failure(checked.error);
    }
    var found := FindPair(table.rows, requester, target);
    if found.Some? {
      var f := table.SaveStatus(found.value, Pending);
      assert table.rows[found.value] == f;
      r := Success(f);
    } else {
      var inserted := table.Insert(requester, target, now);
      assert inserted.Success?;
      assert table.rows[|table.rows| - 1] == inserted.value;
      r := Success(inserted.value);
    }
  }

  /** The position of the row with primary key `id`, if there is one. */
  function FindById(rows: seq<Friendship>, id: nat): (r: Option<nat>)
    ensures r.Some? ==> r.value < |rows| && rows[r.value].id == id
    ensures r.None? <==> forall i :: 0 <= i < |rows| ==> rows[i].id != id
  {
    if rows == [] then None
    else if rows[|rows| - 1].id == id then Some(|rows| - 1)
    else FindById(rows[..|rows| - 1], id)
  }

  /** Changing a relation's status: an unknown row or a literal other than 'accepted'/'rejected' changes nothing. */
  method ChangeStatus(table: FriendshipTable, id: nat, value: string) returns (r: Result<Friendship, ValidationError>)
    requires table.Valid()
    modifies table
    ensures table.Valid()
    ensures r == Failure(NotFound) <==> FindById(old(table.rows), id).None?
    ensures r == Failure(InvalidStatus) <==>
      FindById(old(table.rows), id).Some? && value != "accepted" && value != "rejected"
    ensures r.Success? <==> FindById(old(table.rows), id).Some? && (value == "accepted" || value == "rejected")
    ensures r.Failure? ==> table.rows == old(table.rows)
    ensures table.nextId == old(table.nextId)
    ensures r.Success? ==>
      var k := FindById(old(table.rows), id).value;
      && StatusLiteral(r.value.status) == value
      && r.value == old(table.rows)[k].(status := r.value.status)
      && table.rows == old(table.rows)[k := r.value]
  {
    var found := FindById(table.rows, id);
    if found.None? {
      return Failure(NotFound);
    }
    var status :- ValidateStatus(value);
    var f := table.SaveStatus(found.value, status);
    r := Success(f);
  }
}
