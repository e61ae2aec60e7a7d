/** Vocabulary shared by every part of the model: record identifiers, optional
    values, fallible results, the `users` row, and the list operations that the
    client performs on lists of records keyed by id. */
module Common {

  /** A record identifier of the remote store (an opaque string). */
  type Id = string

  /** A value that may be missing (`null`, `undefined` or an absent key). */
  datatype Option<+T> = None | Some(value: T)

  /** The result of an operation that either produces a value or reports why not. */
  datatype Result<+T, +E> = Ok(value: T) | Err(error: E)

  /** Achievement identifiers (types.ts `AchievementId`). */
  datatype Achievement = Ideologue | Foodmaker | Lucky | Troll

  /** A row of the `users` collection, restricted to the fields the modelled code reads or writes. */
  datatype User = User(
    id: Id,
    points: int,
    energy: int,
    wins: int,
    winStreak: int,
    ideasProposed: int,
    achievements: seq<Achievement>)

  /** No two entries of `s` share a key. */
  predicate UniqueKeys<T>(s: seq<T>, key: T -> Id)
  {
    forall i, j :: 0 <= i < j < |s| ==> key(s[i]) != key(s[j])
  }

  /** `s.some(x => key(x) === k)`. */
  predicate HasKey<T>(s: seq<T>, key: T -> Id, k: Id)
  {
    exists i :: 0 <= i < |s| && key(s[i]) == k
  }

  /** `s.filter(p)`: the entries satisfying `p`, in their original order. */
  function Filter<T(!new)>(s: seq<T>, p: T -> bool): (r: seq<T>)
    ensures forall x :: x in r <==> x in s && p(x)
    ensures |r| <= |s|
  {
    if |s| == 0 then []
    else
      assert s == [s[0]] + s[1..];
      if p(s[0]) then [s[0]] + Filter(s[1..], p) else Filter(s[1..], p)
  }

  /** Filtering keeps keys unique and, when every entry passes, changes nothing. */
  lemma {:induction false} FilterFacts<T(!new)>(s: seq<T>, p: T -> bool, key: T -> Id)
    ensures UniqueKeys(s, key) ==> UniqueKeys(Filter(s, p), key)
    ensures (forall i :: 0 <= i < |s| ==> p(s[i])) ==> Filter(s, p) == s
  {
    if |s| > 0 {
      FilterFacts(s[1..], p, key);
      assert s == [s[0]] + s[1..];
      var rest := Filter(s[1..], p);
      if UniqueKeys(s, key) {
        assert UniqueKeys(s[1..], key) by {
          forall i, j | 0 <= i < j < |s[1..]| ensures key(s[1..][i]) != key(s[1..][j]) {
            assert key(s[i + 1]) != key(s[j + 1]);
          }
        }
        forall j | 0 <= j < |rest| ensures key(rest[j]) != key(s[0]) {
          assert rest[j] in rest;
          var i :| 0 <= i < |s[1..]| && s[1..][i] == rest[j];
          assert s[i + 1] == rest[j];
        }
      }
      if forall i :: 0 <= i < |s| ==> p(s[i]) {
        assert forall i :: 0 <= i < |s[1..]| ==> p(s[1..][i]) by {
          forall i | 0 <= i < |s[1..]| ensures p(s[1..][i]) {
            assert s[1..][i] == s[i + 1];
          }
        }
      }
    }
  }

  /** `s.filter(x => key(x) !== k)`: every entry with key `k` goes, the others stay. */
  function Without<T(!new)>(s: seq<T>, key: T -> Id, k: Id): (r: seq<T>)
    ensures forall x :: x in r <==> x in s && key(x) != k
    ensures |r| <= |s|
  {
    Filter(s, x => key(x) != k)
  }

  /** Removing a key leaves no entry with that key, keeps keys unique and,
      when nothing carries key `k`, changes nothing. */
  lemma WithoutFacts<T(!new)>(s: seq<T>, key: T -> Id, k: Id)
    ensures UniqueKeys(s, key) ==> UniqueKeys(Without(s, key, k), key)
    ensures !HasKey(s, key, k) ==> Without(s, key, k) == s
    ensures !HasKey(Without(s, key, k), key, k)
  {
    FilterFacts(s, x => key(x) != k, key);
    var r := Without(s, key, k);
    forall i | 0 <= i < |r| ensures key(r[i]) != k {
      assert r[i] in r;
    }
  }

  /** `s.map(x => key(x) === key(y) ? y : x)`: every entry sharing `y`'s key becomes `y`. */
  function ReplaceByKey<T>(s: seq<T>, key: T -> Id, y: T): (r: seq<T>)
    ensures |r| == |s|
    ensures forall i :: 0 <= i < |s| ==> r[i] == (if key(s[i]) == key(y) then y else s[i])
  {
    seq(|s|, i requires 0 <= i < |s| => if key(s[i]) == key(y) then y else s[i])
  }

  /** The ongoing-list merge of the realtime handlers:
      `exists ? prev.map(replace) : [...prev, y]`. The result holds `y`, keeps its
      keys unique, and loses or reorders nothing else. */
  function Upsert<T(!new)>(s: seq<T>, key: T -> Id, y: T): (r: seq<T>)
    ensures y in r
    ensures UniqueKeys(s, key) ==> UniqueKeys(r, key)
    ensures forall x :: x in s && key(x) != key(y) ==> x in r
    ensures forall x :: x in r ==> x == y || (x in s && key(x) != key(y))
    ensures HasKey(s, key, key(y)) ==> |r| == |s|
    ensures !HasKey(s, key, key(y)) ==> r == s + [y]
  {
    if HasKey(s, key, key(y)) then
      var r := ReplaceByKey(s, key, y);
      var i :| 0 <= i < |s| && key(s[i]) == key(y);
      assert r[i] == y;
      assert forall x :: x in s && key(x) != key(y) ==> x in r by {
        forall x | x in s && key(x) != key(y) ensures x in r {
          var j :| 0 <= j < |s| && s[j] == x;
          assert r[j] == x;
        }
      }
      r
    else
      s + [y]
  }
}
