/**
 * The friendship table: directed rows from a creator (who sends the
 * invitation) to a target, each with a status. `save` always runs the
 * model's `clean` check first; the database enforces one row per ordered
 * (creator, target) pair.
 */
module SocialModels {
  import opened Wrappers

  datatype Status = Pending | Accepted | Rejected

  /** The stored text of a status choice. */
  function StatusLiteral(s: Status): string
  {
    match s
    case Pending => "pending"
    case Accepted => "accepted"
    case Rejected => "rejected"
  }

  datatype Friendship = Friendship(id: nat, creator: nat, target: nat, status: Status, createdAt: int)

  /** Why a write of the model is refused: the `clean` check, or the database's unique pair. */
  datatype ModelError = SelfInvitation | DuplicatePair

  /** The model-level check: nobody may invite themselves. */
  function Clean(creator: nat, target: nat): (r: Outcome<ModelError>)
    ensures r.Pass? <==> creator != target
    ensures r.Fail? ==> r.error == SelfInvitation
  {
    if creator == target then Fail(SelfInvitation) else Pass
  }

  predicate IsPair(f: Friendship, creator: nat, target: nat)
  {
    f.creator == creator && f.target == target
  }

  /** A pending or accepted row joining `a` and `b`, in either direction. */
  predicate ActiveLink(f: Friendship, a: nat, b: nat)
  {
    && (IsPair(f, a, b) || IsPair(f, b, a))
    && (f.status == Pending || f.status == Accepted)
  }

  /** Whether any active relation already joins the two users. */
  function RequestExists(rows: seq<Friendship>, a: nat, b: nat): (r: bool)
    ensures r <==> exists i :: 0 <= i < |rows| && ActiveLink(rows[i], a, b)
  {
    if rows == [] then false
    else ActiveLink(rows[0], a, b) || RequestExists(rows[1..], a, b)
  }

  /** The check does not depend on the order of the two users. */
  lemma RequestExistsSymmetric(rows: seq<Friendship>, a: nat, b: nat)
    ensures RequestExists(rows, a, b) == RequestExists(rows, b, a)
  {
    if RequestExists(rows, a, b) {
      var i :| 0 <= i < |rows| && ActiveLink(rows[i], a, b);
      assert ActiveLink(rows[i], b, a);
    }
    if RequestExists(rows, b, a) {
      var i :| 0 <= i < |rows| && ActiveLink(rows[i], b, a);
      assert ActiveLink(rows[i], a, b);
    }
  }

  /** A rejected row never makes a relation exist, whatever its direction. */
  lemma {:induction false} RejectedRowsNeverCount(rows: seq<Friendship>, f: Friendship, a: nat, b: nat)
    requires f.status == Rejected
    ensures RequestExists(rows + [f], a, b) == RequestExists(rows, a, b)
    ensures RequestExists([f] + rows, a, b) == RequestExists(rows, a, b)
  {
    assert ([f] + rows)[1..] == rows;
    if RequestExists(rows + [f], a, b) {
      var i :| 0 <= i < |rows + [f]| && ActiveLink((rows + [f])[i], a, b);
      assert i < |rows| && (rows + [f])[i] == rows[i];
    }
    if RequestExists(rows, a, b) {
      var i :| 0 <= i < |rows| && ActiveLink(rows[i], a, b);
      assert (rows + [f])[i] == rows[i];
    }
  }

  /** The position of the row for the ordered pair (creator, target), if there is one. */
  function FindPair(rows: seq<Friendship>, creator: nat, target: nat): (r: Option<nat>)
    ensures r.Some? ==> r.value < |rows| && IsPair(rows[r.value], creator, target)
    ensures r.None? <==> forall i :: 0 <= i < |rows| ==> !IsPair(rows[i], creator, target)
  {
    if rows == [] then None
    else if IsPair(rows[|rows| - 1], creator, target) then Some(|rows| - 1)
    else FindPair(rows[..|rows| - 1], creator, target)
  }

  /** The constraints every state of the table satisfies. */
  ghost predicate TableValid(rows: seq<Friendship>, nextId: nat)
  {
    && (forall i :: 0 <= i < |rows| ==> rows[i].id < nextId)
    && (forall i, j :: 0 <= i < j < |rows| ==> rows[i].id != rows[j].id)
    && (forall i :: 0 <= i < |rows| ==> rows[i].creator != rows[i].target)
    && (forall i, j :: 0 <= i < j < |rows| ==>
          !IsPair(rows[j], rows[i].creator, rows[i].target))
  }

  lemma FindPairUnique(rows: seq<Friendship>, nextId: nat, creator: nat, target: nat, k: nat)
    requires TableValid(rows, nextId)
    requires k < |rows| && IsPair(rows[k], creator, target)
    ensures FindPair(rows, creator, target) == Some(k)
  {
  }

  class FriendshipTable {
    var rows: seq<Friendship>
    var nextId: nat

    ghost predicate Valid()
      reads this
    {
      TableValid(rows, nextId)
    }

    constructor ()
      ensures Valid() && rows == []
    {
      rows := [];
      nextId := 1;
    }

    /**
     * `save()` of a new row: `clean` runs first and a failure leaves the table as it
     * was; a second row for the same ordered pair is refused by the unique constraint.
     * The status is the caller's, 'pending' when none is given.
     */
    method Insert(creator: nat, target: nat, now: int, status: Status := Pending)
      returns (r: Result<Friendship, ModelError>)
      requires Valid()
      modifies this
      ensures Valid()
      ensures creator == target ==> r == Failure(SelfInvitation)
      ensures creator != target && FindPair(old(rows), creator, target).Some? ==>
        r == Failure(DuplicatePair)
      ensures r.Failure? ==> rows == old(rows) && nextId == old(nextId)
      ensures r.Success? <==> creator != target && FindPair(old(rows), creator, target).None?
      ensures r.Success? ==>
        && r.value == Friendship(old(nextId), creator, target, status, now)
        && rows == old(rows) + [r.value]
        && nextId == old(nextId) + 1
    {
      var checked := Clean(creator, target);
      if checked.Fail? {
        return Failure(checked.error);
      }
      if FindPair(rows, creator, target).Some? {
        return Failure(DuplicatePair);
      }
      var f := Friendship(nextId, creator, target, status, now);
      rows := rows + [f];
      nextId := nextId + 1;
      r := Success(f);
    }

    /** `save()` of the stored row at position `k` with a new status; nothing else changes. */
    method SaveStatus(k: nat, status: Status) returns (f: Friendship)
      requires Valid()
      requires k < |rows|
      modifies this
      ensures Valid()
      ensures f == old(rows[k]).(status := status)
      ensures rows == old(rows)[k := f] && nextId == old(nextId)
    {
      var checked := Clean(rows[k].creator, rows[k].target);
      assert checked.Pass?;
      f := rows[k].(status := status);
      rows := rows[k := f];
    }
  }
}
