/** The roulette bookkeeping of the older client (App.tsx): the win handler
    that updates every user's statistics (App.tsx:230-259), adding an option
    (App.tsx:211-224), and the reducers that merge realtime events into the
    users, options and history lists (App.tsx:184-202). */
module Roulette {
  import opened Common
  import Sorting

  /** A row of `options` (types.ts `Option`). */
  datatype RouletteOption = RouletteOption(id: Id, text: string, category: string, author: Id)

  /** A row of `history` (types.ts `WinRecord`). */
  datatype WinRecord = WinRecord(id: Id, optionText: string, optionCategory: string, author: Id, timestamp: int)

  /** The streak length that earns LUCKY. */
  const LUCKY_STREAK: int := 3

  /** The author's row after a win: one more win, the streak extended, and
      LUCKY added once the streak reaches three unless already held. */
  function Rewarded(u: User): (r: User)
    ensures r.wins == u.wins + 1 && r.winStreak == u.winStreak + 1
    ensures r.id == u.id && r.points == u.points && r.energy == u.energy && r.ideasProposed == u.ideasProposed
    ensures Lucky in r.achievements <==> Lucky in u.achievements || u.winStreak + 1 >= LUCKY_STREAK
    ensures forall a :: a != Lucky ==> (a in r.achievements <==> a in u.achievements)
    ensures r.achievements == u.achievements || r.achievements == u.achievements + [Lucky]
  {
    var streak := u.winStreak + 1;
    var achievements :=
      if streak >= LUCKY_STREAK && Lucky !in u.achievements then u.achievements + [Lucky]
      else u.achievements;
    u.(wins := u.wins + 1, winStreak := streak, achievements := achievements)
  }

  /** Whether the handler writes to this user's row at all. */
  predicate Written(u: User, author: Id)
  {
    u.id == author || u.winStreak > 0
  }

  /** A user's row once the handler has dealt with it: the author is rewarded,
      anyone else on a streak drops to 0, and the rest are left alone. */
  function AfterWin(u: User, author: Id): (r: User)
    ensures u.id == author ==> r == Rewarded(u)
    ensures u.id != author && u.winStreak > 0 ==> r == u.(winStreak := 0)
    ensures !Written(u, author) ==> r == u
  {
    if u.id == author then Rewarded(u)
    else if u.winStreak > 0 then u.(winStreak := 0)
    else u
  }

  /** The position of the first write that fails (updates of the ids in
      `failing` are rejected), or `|users|` when none does. */
  function FirstFailure(users: seq<User>, author: Id, failing: set<Id>): (k: nat)
    ensures k <= |users|
    ensures forall i :: 0 <= i < k ==> !(Written(users[i], author) && users[i].id in failing)
    ensures k < |users| ==> Written(users[k], author) && users[k].id in failing
  {
    if |users| == 0 then 0
    else if Written(users[0], author) && users[0].id in failing then 0
    else 1 + FirstFailure(users[1..], author, failing)
  }

  /** `handleWin`: the history row for the winning option is created first
      (its id and `Date.now()` are inputs), then all users are read and
      updated one at a time in the order fetched. A rejected create or read
      throws before any user is touched; a rejected update throws and ends the
      loop, so the users after it keep their old rows. */
  method HandleWin(option: RouletteOption, users: seq<User>, historyId: Id, now: int,
                   historyOk: bool, readOk: bool, failing: set<Id>)
    returns (created: Option<WinRecord>, rows: seq<User>, finished: bool)
    ensures created.Some? <==> historyOk
    ensures created.Some? ==>
      created.value == WinRecord(historyId, option.text, option.category, option.author, now)
    ensures |rows| == |users|
    ensures !(historyOk && readOk) ==> rows == users && !finished
    ensures historyOk && readOk ==>
      var k := FirstFailure(users, option.author, failing);
      && (forall i :: 0 <= i < k ==> rows[i] == AfterWin(users[i], option.author))
      && (forall i :: k <= i < |users| ==> rows[i] == users[i])
      && (finished <==> k == |users|)
  {
    rows := users;
    finished := false;
    created := None;
    if !historyOk {
      return;
    }
    created := Some(WinRecord(historyId, option.text, option.category, option.author, now));
    if !readOk {
      return;
    }
    var author := option.author;
    var i := 0;
    while i < |users|
      invariant 0 <= i <= |users| && |rows| == |users|
      invariant i <= FirstFailure(users, author, failing)
      invariant forall j :: 0 <= j < i ==> rows[j] == AfterWin(users[j], author)
      invariant forall j :: i <= j < |users| ==> rows[j] == users[j]
    {
      var u := users[i];
      if Written(u, author) && u.id in failing {
        return;
      }
      rows := rows[i := AfterWin(u, author)];
      i := i + 1;
    }
    finished := true;
  }

  /** Achievements are never listed twice. */
  predicate NoDuplicates(s: seq<Achievement>)
  {
    forall i, j :: 0 <= i < j < |s| ==> s[i] != s[j]
  }

  /** A win keeps the achievement list free of duplicates. */
  lemma RewardKeepsAchievementsUnique(u: User)
    requires NoDuplicates(u.achievements)
    ensures NoDuplicates(Rewarded(u).achievements)
  {
    var a := Rewarded(u).achievements;
    if a != u.achievements {
      forall i, j | 0 <= i < j < |a| ensures a[i] != a[j] {
        if j == |a| - 1 {
          assert a[i] in u.achievements;
        }
      }
    }
  }

  /** Three wins in a row from a broken streak earn LUCKY, and not before the third. */
  lemma ThreeWinsEarnLucky(u: User)
    requires u.winStreak == 0 && Lucky !in u.achievements
    ensures Lucky !in Rewarded(u).achievements
    ensures Lucky !in Rewarded(Rewarded(u)).achievements
    ensures Lucky in Rewarded(Rewarded(Rewarded(u))).achievements
  {
  }

  /** `handleAddOption`: the option is created and then the author's
      `stats_ideasProposed` goes up by one; if the create fails the counter is
      not touched. `id` is the id the store gives the new row. Returns the
      options of the store and the author's row. */
  function AddOption(options: seq<RouletteOption>, me: User, id: Id, text: string, category: string,
                     createOk: bool, updateOk: bool): (r: (seq<RouletteOption>, User))
    ensures createOk ==> r.0 == options + [RouletteOption(id, text, category, me.id)]
    ensures !createOk ==> r.0 == options
    ensures r.1.ideasProposed == me.ideasProposed + (if createOk && updateOk then 1 else 0)
    ensures r.1.(ideasProposed := me.ideasProposed) == me
  {
    if !createOk then (options, me)
    else
      var added := RouletteOption(id, text, category, me.id);
      (options + [added], if updateOk then me.(ideasProposed := me.ideasProposed + 1) else me)
  }

  // ----- realtime reducers -----

  datatype Action = Create | Update | Delete

  function OptionKey(o: RouletteOption): Id
  {
    o.id
  }

  /** The options reducer: delete filters the id out, create appends, update
      replaces the entries with the record's id where they stand. */
  function OnOptionEvent(prev: seq<RouletteOption>, action: Action, record: RouletteOption): (r: seq<RouletteOption>)
    ensures action == Delete ==> forall o :: o in r <==> o in prev && o.id != record.id
    ensures action == Create ==> r == prev + [record]
    ensures action == Update ==>
      && |r| == |prev|
      && forall i :: 0 <= i < |prev| ==> r[i] == (if prev[i].id == record.id then record else prev[i])
  {
    match action
    case Delete => Without(prev, OptionKey, record.id)
    case Create => prev + [record]
    case Update => ReplaceByKey(prev, OptionKey, record)
  }

  /** Deletes and updates keep option ids unique. */
  lemma OptionEventKeepsIdsUnique(prev: seq<RouletteOption>, action: Action, record: RouletteOption)
    requires UniqueKeys(prev, OptionKey)
    requires action == Create ==> !HasKey(prev, OptionKey, record.id)
    ensures UniqueKeys(OnOptionEvent(prev, action, record), OptionKey)
  {
    WithoutFacts(prev, OptionKey, record.id);
    var r := OnOptionEvent(prev, action, record);
    if action == Create {
      forall i, j | 0 <= i < j < |r| ensures OptionKey(r[i]) != OptionKey(r[j]) {
        if j == |prev| {
          assert r[i] == prev[i];
        }
      }
    }
  }

  function UserKey(u: User): Id
  {
    u.id
  }

  /** Most wins first: `(a, b) => b.stats_wins - a.stats_wins`. */
  function MostWinsFirst(): (le: (User, User) -> bool)
    ensures Sorting.TotalPreorder(le)
    ensures forall a, b :: le(a, b) <==> a.wins >= b.wins
  {
    (a: User, b: User) => b.wins - a.wins <= 0
  }

  /** The users reducer: the record's id is filtered out; unless it was a
      delete, the record goes back in and the list is sorted by wins. */
  function OnUserEvent(prev: seq<User>, action: Action, record: User): (r: seq<User>)
    ensures action == Delete ==> r == Without(prev, UserKey, record.id)
    ensures action != Delete ==> multiset(r) == multiset(Without(prev, UserKey, record.id) + [record])
    ensures action != Delete ==> Sorting.Sorted(r, MostWinsFirst())
  {
    var filtered := Without(prev, UserKey, record.id);
    if action == Delete then filtered else Sorting.Sort(filtered + [record], MostWinsFirst())
  }

  /** Whatever the event, the result has at most one row per id (given the
      list had), the record's row exactly when it was not a delete, every other
      row unchanged, and — unless it was a delete — most wins first. */
  lemma UserEventFacts(prev: seq<User>, action: Action, record: User)
    requires UniqueKeys(prev, UserKey)
    ensures var r := OnUserEvent(prev, action, record);
      && UniqueKeys(r, UserKey)
      && (action == Delete ==> !HasKey(r, UserKey, record.id))
      && (action != Delete ==> record in r)
      && (forall u :: u in prev && u.id != record.id ==> u in r)
      && (forall u :: u in r ==> u == record || (u in prev && u.id != record.id))
      && (action != Delete ==> forall i, j :: 0 <= i < j < |r| ==> r[i].wins >= r[j].wins)
  {
    var filtered := Without(prev, UserKey, record.id);
    WithoutFacts(prev, UserKey, record.id);
    var r := OnUserEvent(prev, action, record);
    if action != Delete {
      var merged := filtered + [record];
      Sorting.SortSameMembers(merged, MostWinsFirst());
      assert UniqueKeys(merged, UserKey) by {
        forall i, j | 0 <= i < j < |merged| ensures UserKey(merged[i]) != UserKey(merged[j]) {
          if j == |filtered| {
            assert merged[i] in filtered;
          } else {
            assert merged[i] == filtered[i] && merged[j] == filtered[j];
          }
        }
      }
      Sorting.SortKeepsKeysUnique(merged, MostWinsFirst(), UserKey);
      forall i, j | 0 <= i < j < |r| ensures r[i].wins >= r[j].wins {
        assert MostWinsFirst()(r[i], r[j]);
      }
    }
  }

  /** Newest first: `(a, b) => b.timestamp - a.timestamp`. */
  function NewestWinFirst(): (le: (WinRecord, WinRecord) -> bool)
    ensures Sorting.TotalPreorder(le)
    ensures forall a, b :: le(a, b) <==> a.timestamp >= b.timestamp
  {
    (a: WinRecord, b: WinRecord) => b.timestamp - a.timestamp <= 0
  }

  /** The history reducer: the record is prepended (whatever the action) and
      the list re-sorted newest first. */
  function OnHistoryEvent(prev: seq<WinRecord>, record: WinRecord): (r: seq<WinRecord>)
    ensures multiset(r) == multiset(prev) + multiset{record}
    ensures forall i, j :: 0 <= i < j < |r| ==> r[i].timestamp >= r[j].timestamp
  {
    var r := Sorting.Sort([record] + prev, NewestWinFirst());
    HistoryOrderFacts(r);
    r
  }

  lemma HistoryOrderFacts(r: seq<WinRecord>)
    requires Sorting.Sorted(r, NewestWinFirst())
    ensures forall i, j :: 0 <= i < j < |r| ==> r[i].timestamp >= r[j].timestamp
  {
    forall i, j | 0 <= i < j < |r| ensures r[i].timestamp >= r[j].timestamp {
      assert NewestWinFirst()(r[i], r[j]);
    }
  }
}
