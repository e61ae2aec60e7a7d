/** The profile list (components/ProfileView.tsx): the users are shown with
    the current user first and everybody else by wins, most first (lines
    12-16), and the card of the current user is marked (line 25). */
module ProfileView {
  import opened Common
  import Sorting

  /** The comparator as written. */
  function UserCompare(cur: Id, a: User, b: User): (r: int)
    ensures a.id == cur ==> r < 0
    ensures a.id != cur && b.id == cur ==> r > 0
    ensures a.id != cur && b.id != cur ==> (r < 0 <==> a.wins > b.wins) && (r == 0 <==> a.wins == b.wins)
  {
    if a.id == cur then -1
    else if b.id == cur then 1
    else b.wins - a.wins
  }

  /** The comparator's "no later than" relation. */
  function ProfileOrder(cur: Id): (le: (User, User) -> bool)
    ensures Sorting.TotalPreorder(le)
    ensures forall a, b :: le(a, b) <==> a.id == cur || (b.id != cur && a.wins >= b.wins)
  {
    (a: User, b: User) => UserCompare(cur, a, b) <= 0
  }

  /** `sortedUsers`: a permutation of the users in which the current user's
      entry comes before every other, and the others come most wins first. */
  function SortedUsers(users: seq<User>, cur: Id): (r: seq<User>)
    ensures multiset(r) == multiset(users)
    ensures forall i, j :: 0 <= i < j < |r| && r[j].id == cur ==> r[i].id == cur
    ensures forall i, j :: 0 <= i < j < |r| && r[i].id != cur && r[j].id != cur ==> r[i].wins >= r[j].wins
  {
    var r := Sorting.Sort(users, ProfileOrder(cur));
    ProfileOrderFacts(r, cur);
    r
  }

  lemma ProfileOrderFacts(r: seq<User>, cur: Id)
    requires Sorting.Sorted(r, ProfileOrder(cur))
    ensures forall i, j :: 0 <= i < j < |r| && r[j].id == cur ==> r[i].id == cur
    ensures forall i, j :: 0 <= i < j < |r| && r[i].id != cur && r[j].id != cur ==> r[i].wins >= r[j].wins
  {
    forall i, j | 0 <= i < j < |r| ensures ProfileOrder(cur)(r[i], r[j]) {
    }
  }

  /** When the current user is in the list, their entry is the first card. */
  lemma CurrentUserFirst(users: seq<User>, cur: Id)
    requires exists u :: u in users && u.id == cur
    ensures |SortedUsers(users, cur)| > 0 && SortedUsers(users, cur)[0].id == cur
  {
    var r := SortedUsers(users, cur);
    var u :| u in users && u.id == cur;
    assert u in multiset(users);
    assert u in r;
    var k :| 0 <= k < |r| && r[k] == u;
    assert r[0].id == cur;
  }

  /** A card and whether it is marked as the current user's. */
  datatype Card = Card(user: User, isCurrent: bool)

  /** The cards in display order. */
  function Cards(users: seq<User>, cur: Id): (cs: seq<Card>)
    ensures |cs| == |users|
    ensures forall i :: 0 <= i < |users| ==> cs[i].user == SortedUsers(users, cur)[i]
    ensures forall i :: 0 <= i < |users| ==> (cs[i].isCurrent <==> cs[i].user.id == cur)
  {
    var r := SortedUsers(users, cur);
    seq(|r|, i requires 0 <= i < |r| => Card(r[i], r[i].id == cur))
  }

  function UserId(u: User): Id
  {
    u.id
  }

  /** With one entry per id and the current user listed, exactly one card is
      marked, and it is the first. */
  lemma ExactlyOneCardMarked(users: seq<User>, cur: Id)
    requires UniqueKeys(users, UserId)
    requires exists u :: u in users && u.id == cur
    ensures var cs := Cards(users, cur);
      |cs| > 0 && cs[0].isCurrent && forall i :: 0 < i < |cs| ==> !cs[i].isCurrent
  {
    CurrentUserFirst(users, cur);
    Sorting.SortKeepsKeysUnique(users, ProfileOrder(cur), UserId);
    var r := SortedUsers(users, cur);
    assert UniqueKeys(r, UserId);
  }
}
