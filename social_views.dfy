/**
 * The friends page: the invitations waiting for the user's answer and the
 * user's accepted friendships. Both lists follow the table's default order,
 * newest first.
 */
module SocialViews {
  import opened Sorting
  import opened SocialModels

  /** The table's default ordering: by creation time, newest first. */
  function NewestFirst(): (Friendship, Friendship) -> bool
  {
    (a: Friendship, b: Friendship) => a.createdAt >= b.createdAt
  }

  lemma NewestFirstIsTotalPreorder()
    ensures TotalPreorder(NewestFirst())
  {
  }

  predicate IsIncomingPending(f: Friendship, user: nat)
  {
    f.target == user && f.status == Pending
  }

  predicate IsAcceptedWith(f: Friendship, user: nat)
  {
    (f.creator == user || f.target == user) && f.status == Accepted
  }

  /** Invitations sent to `user` that are still pending. */
  function PendingRequests(rows: seq<Friendship>, user: nat): (r: seq<Friendship>)
    ensures forall f :: f in r <==> f in rows && IsIncomingPending(f, user)
    ensures forall f :: multiset(r)[f] == if IsIncomingPending(f, user) then multiset(rows)[f] else 0
    ensures SortedBy(r, NewestFirst())
  {
    var selected := Filter(rows, (f: Friendship) => IsIncomingPending(f, user));
    forall f ensures multiset(selected)[f] == if IsIncomingPending(f, user) then multiset(rows)[f] else 0 {
      FilterCount(rows, (f: Friendship) => IsIncomingPending(f, user), f);
    }
    NewestFirstIsTotalPreorder();
    InsertionSortSorted(selected, NewestFirst());
    assert forall f :: f in selected <==> f in multiset(selected);
    InsertionSort(selected, NewestFirst())
  }

  /** Accepted relations in which `user` is either side. */
  function Friendships(rows: seq<Friendship>, user: nat): (r: seq<Friendship>)
    ensures forall f :: f in r <==> f in rows && IsAcceptedWith(f, user)
    ensures forall f :: multiset(r)[f] == if IsAcceptedWith(f, user) then multiset(rows)[f] else 0
    ensures SortedBy(r, NewestFirst())
  {
    var selected := Filter(rows, (f: Friendship) => IsAcceptedWith(f, user));
    forall f ensures multiset(selected)[f] == if IsAcceptedWith(f, user) then multiset(rows)[f] else 0 {
      FilterCount(rows, (f: Friendship) => IsAcceptedWith(f, user), f);
    }
    NewestFirstIsTotalPreorder();
    InsertionSortSorted(selected, NewestFirst());
    assert forall f :: f in selected <==> f in multiset(selected);
    InsertionSort(selected, NewestFirst())
  }

  /** A row is never both an open invitation and a friendship. */
  lemma ListsDisjoint(rows: seq<Friendship>, user: nat)
    ensures forall f :: f in PendingRequests(rows, user) ==> f !in Friendships(rows, user)
  {
  }

  /**
   * Invitations the user sent, rejected rows, and rows the user is not part of
   * appear in neither list.
   */
  lemma ExcludedRows(rows: seq<Friendship>, user: nat, f: Friendship)
    requires f.status == Rejected || (f.creator != user && f.target != user)
      || (f.creator == user && f.status == Pending && f.target != user)
    ensures f !in PendingRequests(rows, user) && f !in Friendships(rows, user)
  {
  }
}
