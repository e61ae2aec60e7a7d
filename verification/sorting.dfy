/** The client's `Array.prototype.sort` calls, modelled as a functional insertion
    sort over the "comes no later than" relation `le(a, b) := cmp(a, b) <= 0`
    of each comparator. Every comparator used by the client induces a total
    preorder, which is what sorting needs. */
module Sorting {
  import opened Common

  /** `le` is total and transitive (a comparator that is consistent). */
  ghost predicate TotalPreorder<T(!new)>(le: (T, T) -> bool)
  {
    && (forall a, b :: le(a, b) || le(b, a))
    && (forall a, b, c :: le(a, b) && le(b, c) ==> le(a, c))
  }

  /** Every entry comes no later than every entry after it. */
  predicate Sorted<T>(s: seq<T>, le: (T, T) -> bool)
  {
    forall i, j :: 0 <= i < j < |s| ==> le(s[i], s[j])
  }

  /** Inserts `x` before the first entry it comes no later than. */
  function Insert<T(!new)>(x: T, s: seq<T>, le: (T, T) -> bool): (r: seq<T>)
    requires TotalPreorder(le)
    requires Sorted(s, le)
    ensures multiset(r) == multiset(s) + multiset{x}
    ensures |r| == |s| + 1
    ensures Sorted(r, le)
  {
    if |s| == 0 then [x]
    else if le(x, s[0]) then
      assert forall j :: 0 <= j < |s| ==> le(x, s[j]) by {
        forall j | 0 <= j < |s| ensures le(x, s[j]) {
          if j > 0 { assert le(s[0], s[j]); }
        }
      }
      [x] + s
    else
      var rest := Insert(x, s[1..], le);
      assert le(s[0], x);
      assert s == [s[0]] + s[1..];
      assert forall k :: 0 <= k < |rest| ==> le(s[0], rest[k]) by {
        forall k | 0 <= k < |rest| ensures le(s[0], rest[k]) {
          assert rest[k] in multiset(rest);
          if rest[k] != x {
            assert rest[k] in multiset(s[1..]);
            var j :| 0 <= j < |s[1..]| && s[1..][j] == rest[k];
            assert le(s[0], s[j + 1]);
          }
        }
      }
      [s[0]] + rest
  }

  /** `[...s].sort(cmp)`: a sorted permutation of `s`; `s` itself is a value and is left as it was. */
  function Sort<T(!new)>(s: seq<T>, le: (T, T) -> bool): (r: seq<T>)
    requires TotalPreorder(le)
    ensures multiset(r) == multiset(s)
    ensures |r| == |s|
    ensures Sorted(r, le)
  {
    if |s| == 0 then []
    else
      assert s == [s[0]] + s[1..];
      Insert(s[0], Sort(s[1..], le), le)
  }

  /** Sorting moves entries but neither adds nor drops any. */
  lemma SortKeepsMembers<T(!new)>(s: seq<T>, le: (T, T) -> bool, x: T)
    requires TotalPreorder(le)
    ensures x in Sort(s, le) <==> x in s
  {
    var r := Sort(s, le);
    assert x in r <==> x in multiset(r);
    assert x in s <==> x in multiset(s);
  }

  /** Sorting keeps exactly the members of the input. */
  lemma SortSameMembers<T(!new)>(s: seq<T>, le: (T, T) -> bool)
    requires TotalPreorder(le)
    ensures forall x :: x in Sort(s, le) <==> x in s
  {
    forall x ensures x in Sort(s, le) <==> x in s {
      SortKeepsMembers(s, le, x);
    }
  }

  /** Inserting an entry whose key is new into a list with unique keys keeps them unique. */
  lemma {:induction false} InsertKeepsKeysUnique<T(!new)>(x: T, s: seq<T>, le: (T, T) -> bool, key: T -> Id)
    requires TotalPreorder(le) && Sorted(s, le)
    requires UniqueKeys(s, key) && !HasKey(s, key, key(x))
    ensures UniqueKeys(Insert(x, s, le), key)
  {
    if |s| > 0 && !le(x, s[0]) {
      var rest := Insert(x, s[1..], le);
      assert Sorted(s[1..], le);
      assert UniqueKeys(s[1..], key) by {
        forall i, j | 0 <= i < j < |s[1..]| ensures key(s[1..][i]) != key(s[1..][j]) {
          assert key(s[i + 1]) != key(s[j + 1]);
        }
      }
      assert !HasKey(s[1..], key, key(x)) by {
        forall i | 0 <= i < |s[1..]| ensures key(s[1..][i]) != key(x) {
          assert s[1..][i] == s[i + 1];
        }
      }
      InsertKeepsKeysUnique(x, s[1..], le, key);
      forall k | 0 <= k < |rest| ensures key(rest[k]) != key(s[0]) {
        assert rest[k] in multiset(rest);
        if rest[k] != x {
          assert rest[k] in multiset(s[1..]);
          var j :| 0 <= j < |s[1..]| && s[1..][j] == rest[k];
          assert key(s[0]) != key(s[j + 1]);
        } else {
          assert key(s[0]) != key(x);
        }
      }
      assert Insert(x, s, le) == [s[0]] + rest;
    } else if |s| > 0 {
      assert Insert(x, s, le) == [x] + s;
      forall j | 0 <= j < |s| ensures key(s[j]) != key(x) {
      }
    }
  }

  /** Sorting keeps unique keys unique. */
  lemma {:induction false} SortKeepsKeysUnique<T(!new)>(s: seq<T>, le: (T, T) -> bool, key: T -> Id)
    requires TotalPreorder(le)
    requires UniqueKeys(s, key)
    ensures UniqueKeys(Sort(s, le), key)
  {
    if |s| > 0 {
      var sorted := Sort(s[1..], le);
      assert UniqueKeys(s[1..], key) by {
        forall i, j | 0 <= i < j < |s[1..]| ensures key(s[1..][i]) != key(s[1..][j]) {
          assert key(s[i + 1]) != key(s[j + 1]);
        }
      }
      SortKeepsKeysUnique(s[1..], le, key);
      assert !HasKey(sorted, key, key(s[0])) by {
        forall k | 0 <= k < |sorted| ensures key(sorted[k]) != key(s[0]) {
          assert sorted[k] in multiset(sorted);
          assert sorted[k] in multiset(s[1..]);
          var j :| 0 <= j < |s[1..]| && s[1..][j] == sorted[k];
          assert key(s[0]) != key(s[j + 1]);
        }
      }
      InsertKeepsKeysUnique(s[0], sorted, le, key);
    }
  }
}
