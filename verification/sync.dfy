/** The client-side lists of games and duels and how realtime events move
    records between them: the baseline fetch (src/App.tsx:320-347) and the
    `duels`, `chess_games` and `tictactoe_games` subscription handlers
    (src/App.tsx:389-525). Every re-fetch (`getOne`) the handler issues is an
    input that is either the fetched row or None when the request failed. The
    setters a handler schedules each touch a different list, so the state once
    all of them have run does not depend on the order in which they resolve. */
module Sync {
  import opened Common
  import opened Game
  import Sorting
  import Duel

  /** The three kinds of realtime event. */
  datatype Action = Create | Update | Delete

  function GameKey<B>(g: Game<B>): Id
  {
    g.id
  }

  /** The history order: newest `created` first. */
  function NewestFirst<B>(a: Game<B>, b: Game<B>): bool
  {
    a.created >= b.created
  }

  /** A game whose status the handlers file into history. */
  predicate Finished(s: GameStatus)
  {
    s == Completed || s == Declined || s == Cancelled
  }

  /** A history list merge: `[item, ...prev.filter(x => key(x) !== id)].sort(cmp)`. */
  function MergeHistory<T(!new)>(prev: seq<T>, key: T -> Id, le: (T, T) -> bool, id: Id, item: T): (r: seq<T>)
    requires Sorting.TotalPreorder(le)
    ensures item in r
    ensures forall x :: x in r ==> x == item || (x in prev && key(x) != id)
    ensures forall x :: x in prev && key(x) != id ==> x in r
    ensures Sorting.Sorted(r, le)
    ensures key(item) == id && UniqueKeys(prev, key) ==> UniqueKeys(r, key)
  {
    MergeHistoryFacts(prev, key, le, id, item);
    Sorting.Sort([item] + Without(prev, key, id), le)
  }

  lemma MergeHistoryFacts<T(!new)>(prev: seq<T>, key: T -> Id, le: (T, T) -> bool, id: Id, item: T)
    requires Sorting.TotalPreorder(le)
    ensures var merged := [item] + Without(prev, key, id);
      && (forall x :: x in Sorting.Sort(merged, le) <==> x in merged)
      && (key(item) == id && UniqueKeys(prev, key) ==> UniqueKeys(Sorting.Sort(merged, le), key))
  {
    var rest := Without(prev, key, id);
    var merged := [item] + rest;
    Sorting.SortSameMembers(merged, le);
    if key(item) == id && UniqueKeys(prev, key) {
      WithoutFacts(prev, key, id);
      assert UniqueKeys(merged, key) by {
        forall i, j | 0 <= i < j < |merged| ensures key(merged[i]) != key(merged[j]) {
          if i == 0 {
            assert merged[j] in rest;
          } else {
            assert merged[i] == rest[i - 1] && merged[j] == rest[j - 1];
          }
        }
      }
      Sorting.SortKeepsKeysUnique(merged, le, key);
    }
  }

  /** The history order of games, as a relation. */
  function GameOrder<B(!new)>(): (le: (Game<B>, Game<B>) -> bool)
    ensures Sorting.TotalPreorder(le)
  {
    (a: Game<B>, b: Game<B>) => NewestFirst(a, b)
  }

  /** The client's lists for one game kind: incoming challenges, running games,
      finished games, and the game open on screen. */
  datatype GameLists<B> = GameLists(
    pending: seq<Game<B>>,
    ongoing: seq<Game<B>>,
    history: seq<Game<B>>,
    active: Option<Game<B>>)

  /** The rows re-fetched by one event: for the pending list, for the ongoing
      list, for the open game and for history; None where the request failed
      (or was not issued). */
  datatype GameFetches<B> = GameFetches(
    forPending: Option<Game<B>>,
    forOngoing: Option<Game<B>>,
    forActive: Option<Game<B>>,
    forHistory: Option<Game<B>>)

  /** The `chess_games` / `tictactoe_games` handler (the two are the same
      code with the field names of each game). */
  function OnGameEvent<B(!new)>(l: GameLists<B>, me: Id, action: Action, record: Game<B>,
                                f: GameFetches<B>): (r: GameLists<B>)
    ensures !IsParticipant(record, me) ==> r == l
    ensures action == Create ==> r.ongoing == l.ongoing && r.history == l.history && r.active == l.active
    ensures action == Delete ==> r.history == l.history
    ensures l.active.Some? && l.active.value.id != record.id ==> r.active == l.active
  {
    if !IsParticipant(record, me) then l
    else
      match action
      case Create =>
        if record.status == Pending && record.second == me && f.forPending.Some? then
          l.(pending := [f.forPending.value] + l.pending)
        else l
      case Update =>
        var ongoing :=
          if record.status == Ongoing then
            (if f.forOngoing.Some? then Upsert(l.ongoing, GameKey, f.forOngoing.value) else l.ongoing)
          else Without(l.ongoing, GameKey, record.id);
        var pending := if record.status != Pending then Without(l.pending, GameKey, record.id) else l.pending;
        var active :=
          if l.active.Some? && l.active.value.id == record.id then
            Some(if f.forActive.Some? then f.forActive.value else record)
          else l.active;
        var history :=
          if Finished(record.status) && f.forHistory.Some? then
            MergeHistory(l.history, GameKey, GameOrder(), record.id, f.forHistory.value)
          else l.history;
        GameLists(pending, ongoing, history, active)
      case Delete =>
        GameLists(
          Without(l.pending, GameKey, record.id),
          Without(l.ongoing, GameKey, record.id),
          l.history,
          if l.active.Some? && l.active.value.id == record.id then None else l.active)
  }

  /** Every list holds each id at most once. */
  predicate WellKeyed<B>(l: GameLists<B>)
  {
    UniqueKeys(l.pending, GameKey) && UniqueKeys(l.ongoing, GameKey) && UniqueKeys(l.history, GameKey)
  }

  /** The re-fetched rows carry the id of the event's record (a `getOne` by id). */
  predicate FetchesMatch<B>(f: GameFetches<B>, id: Id)
  {
    && (f.forPending.Some? ==> f.forPending.value.id == id)
    && (f.forOngoing.Some? ==> f.forOngoing.value.id == id)
    && (f.forActive.Some? ==> f.forActive.value.id == id)
    && (f.forHistory.Some? ==> f.forHistory.value.id == id)
  }

  /** Update and delete events keep every list free of duplicate ids; a create
      does too when the new challenge is not listed yet (the prepend does not
      check). */
  lemma EventKeepsIdsUnique<B(!new)>(l: GameLists<B>, me: Id, action: Action, record: Game<B>, f: GameFetches<B>)
    requires WellKeyed(l) && FetchesMatch(f, record.id)
    requires action == Create ==> !HasKey(l.pending, GameKey, record.id)
    ensures WellKeyed(OnGameEvent(l, me, action, record, f))
  {
    WithoutFacts(l.pending, GameKey, record.id);
    WithoutFacts(l.ongoing, GameKey, record.id);
    if !IsParticipant(record, me) {
    } else if action != Create {
    } else if record.status == Pending && record.second == me && f.forPending.Some? {
      var p := [f.forPending.value] + l.pending;
      forall i, j | 0 <= i < j < |p| ensures GameKey(p[i]) != GameKey(p[j]) {
        if i > 0 {
          assert p[i] == l.pending[i - 1] && p[j] == l.pending[j - 1];
        }
      }
    }
  }

  /** After an update, the ongoing list holds the game exactly when its new
      status is `ongoing` (given the re-fetch succeeded), and the pending list
      keeps it only while it is still `pending`. */
  lemma UpdateFilesByStatus<B(!new)>(l: GameLists<B>, me: Id, record: Game<B>, f: GameFetches<B>)
    requires IsParticipant(record, me) && FetchesMatch(f, record.id)
    ensures var r := OnGameEvent(l, me, Update, record, f);
      && (record.status == Ongoing && f.forOngoing.Some? ==> f.forOngoing.value in r.ongoing)
      && (record.status != Ongoing ==> !HasKey(r.ongoing, GameKey, record.id))
      && (record.status != Pending ==> !HasKey(r.pending, GameKey, record.id))
      && (forall g :: g in l.ongoing && g.id != record.id ==> g in r.ongoing)
      && (Finished(record.status) && f.forHistory.Some? ==> f.forHistory.value in r.history)
  {
    WithoutFacts(l.ongoing, GameKey, record.id);
    WithoutFacts(l.pending, GameKey, record.id);
  }

  /** A delete event removes the game from both live lists and closes it if it
      is the one on screen; history is left alone. */
  lemma DeleteClearsEverywhere<B(!new)>(l: GameLists<B>, me: Id, record: Game<B>, f: GameFetches<B>)
    requires IsParticipant(record, me)
    ensures var r := OnGameEvent(l, me, Delete, record, f);
      && !HasKey(r.pending, GameKey, record.id) && !HasKey(r.ongoing, GameKey, record.id)
      && (r.active.Some? ==> r.active.value.id != record.id)
      && r.history == l.history
  {
    WithoutFacts(l.ongoing, GameKey, record.id);
    WithoutFacts(l.pending, GameKey, record.id);
  }

  /** Events about other people's games change nothing. */
  lemma OthersEventsIgnored<B(!new)>(l: GameLists<B>, me: Id, action: Action, record: Game<B>, f: GameFetches<B>)
    requires !IsParticipant(record, me)
    ensures OnGameEvent(l, me, action, record, f) == l
  {
  }

  /** The baseline fetch: incoming challenges (pending, addressed to me),
      running games, and completed games newest first, each among my games. */
  function BaselineGames<B(!new)>(all: seq<Game<B>>, me: Id): (r: GameLists<B>)
    ensures forall g :: g in r.pending <==> g in all && IsParticipant(g, me) && g.status == Pending && g.second == me
    ensures forall g :: g in r.ongoing <==> g in all && IsParticipant(g, me) && g.status == Ongoing
    ensures forall g :: g in r.history <==> g in all && IsParticipant(g, me) && g.status == Completed
    ensures Sorting.Sorted(r.history, GameOrder())
    ensures r.active.None?
  {
    var done := Filter(all, (g: Game<B>) => IsParticipant(g, me) && g.status == Completed);
    Sorting.SortSameMembers(done, GameOrder());
    var history := Sorting.Sort(done, GameOrder());
    GameLists(
      Filter(all, (g: Game<B>) => IsParticipant(g, me) && g.status == Pending && g.second == me),
      Filter(all, (g: Game<B>) => IsParticipant(g, me) && g.status == Ongoing),
      history,
      None)
  }

  /** The two ways into history disagree: the baseline keeps only completed
      games, while an update event also files declined and cancelled ones, so
      a declined game shows in history until the next full refresh drops it. */
  lemma HistoryDependsOnPath<B(!new)>(all: seq<Game<B>>, me: Id, record: Game<B>, f: GameFetches<B>)
    requires record in all && IsParticipant(record, me) && record.status == Declined
    requires f.forHistory == Some(record)
    ensures record in OnGameEvent(BaselineGames(all, me), me, Update, record, f).history
    ensures record !in BaselineGames(all, me).history
  {
  }

  // ----- duels -----

  function DuelKey(d: Duel.Duel): Id
  {
    d.id
  }

  function DuelNewestFirst(a: Duel.Duel, b: Duel.Duel): bool
  {
    a.created >= b.created
  }

  /** The statuses the duel handler files into history. */
  predicate DuelFinished(s: Duel.DuelStatus)
  {
    s == Duel.Completed || s == Duel.Declined || s == Duel.Cancelled || s == Duel.Expired
  }

  /** A duel is a participant's when they are challenger or opponent. */
  predicate InDuel(d: Duel.Duel, me: Id)
  {
    d.challenger == me || d.opponent == me
  }

  /** The client's duel lists: incoming challenges, finished duels, and the duel on screen. */
  datatype DuelLists = DuelLists(pending: seq<Duel.Duel>, history: seq<Duel.Duel>, active: Option<Duel.Duel>)

  /** The `duels` handler. `forPending`, `forActive` and `forHistory` are the
      re-fetches it issues. */
  function OnDuelEvent(l: DuelLists, me: Id, action: Action, record: Duel.Duel,
                       forPending: Option<Duel.Duel>, forActive: Option<Duel.Duel>,
                       forHistory: Option<Duel.Duel>): (r: DuelLists)
    ensures !InDuel(record, me) ==> r == l
    ensures action == Create ==> r.history == l.history && r.active == l.active
    ensures action == Delete ==> r.history == l.history
    ensures l.active.Some? && l.active.value.id != record.id ==> r.active == l.active
  {
    if !InDuel(record, me) then l
    else
      match action
      case Create =>
        if record.status == Duel.Pending && record.opponent == me && forPending.Some? then
          l.(pending := [forPending.value] + l.pending)
        else l
      case Update =>
        DuelLists(
          if record.status != Duel.Pending then Without(l.pending, DuelKey, record.id) else l.pending,
          if DuelFinished(record.status) && forHistory.Some? then
            MergeHistory(l.history, DuelKey, DuelNewestFirst, record.id, forHistory.value)
          else l.history,
          if l.active.Some? && l.active.value.id == record.id then
            Some(if forActive.Some? then forActive.value else record)
          else l.active)
      case Delete =>
        DuelLists(
          Without(l.pending, DuelKey, record.id),
          l.history,
          if l.active.Some? && l.active.value.id == record.id then None else l.active)
  }

  /** What each duel event does to the lists: a challenge to me is prepended
      when fetched; an update drops a no-longer-pending duel from the pending
      list and files a finished one into history; a delete drops it from the
      pending list and closes it on screen. */
  lemma DuelEventEffects(l: DuelLists, me: Id, action: Action, record: Duel.Duel,
                         forPending: Option<Duel.Duel>, forActive: Option<Duel.Duel>, forHistory: Option<Duel.Duel>)
    requires InDuel(record, me)
    ensures var r := OnDuelEvent(l, me, action, record, forPending, forActive, forHistory);
      && (action == Create && record.status == Duel.Pending && record.opponent == me && forPending.Some? ==>
            r.pending == [forPending.value] + l.pending)
      && (action != Create && record.status != Duel.Pending ==> forall d :: d in r.pending ==> d.id != record.id)
      && (action == Update && DuelFinished(record.status) && forHistory.Some? ==> forHistory.value in r.history)
      && (action == Delete ==> r.history == l.history && (r.active.Some? ==> r.active.value.id != record.id))
      && (action == Update && l.active.Some? && l.active.value.id == record.id ==>
            r.active == Some(if forActive.Some? then forActive.value else record))
  {
  }

  /** The baseline duel lists: my finished-or-choosing duels (anything but
      pending and accepted) and the challenges addressed to me, both newest
      first; the open duel is looked up separately. */
  function BaselineDuels(all: seq<Duel.Duel>, me: Id): (r: DuelLists)
    ensures forall d :: d in r.history <==>
      d in all && InDuel(d, me) && d.status != Duel.Pending && d.status != Duel.Accepted
    ensures forall d :: d in r.pending <==> d in all && d.opponent == me && d.status == Duel.Pending
    ensures Sorting.Sorted(r.history, DuelNewestFirst)
    ensures Sorting.Sorted(r.pending, DuelNewestFirst)
  {
    var mine := Filter(all, (d: Duel.Duel) => InDuel(d, me) && d.status != Duel.Pending && d.status != Duel.Accepted);
    Sorting.SortSameMembers(mine, DuelNewestFirst);
    var addressed := Filter(all, (d: Duel.Duel) => d.opponent == me && d.status == Duel.Pending);
    Sorting.SortSameMembers(addressed, DuelNewestFirst);
    DuelLists(Sorting.Sort(addressed, DuelNewestFirst), Sorting.Sort(mine, DuelNewestFirst), None)
  }

  /** The duel a returning player is put back into: one I challenged that is
      still pending, or one of mine that is accepted or half-chosen. */
  predicate Rejoinable(d: Duel.Duel, me: Id)
  {
    || (d.challenger == me && d.status == Duel.Pending)
    || (InDuel(d, me) && d.status in {Duel.Accepted, Duel.ChallengerChose, Duel.OpponentChose})
  }

  /** `getFirstListItem(activeDuelFilter)`: the first matching duel in store order. */
  function RejoinDuel(all: seq<Duel.Duel>, me: Id): (r: Option<Duel.Duel>)
    ensures r.Some? <==> exists i :: 0 <= i < |all| && Rejoinable(all[i], me)
    ensures r.Some? ==> r.value in all && Rejoinable(r.value, me)
  {
    if |all| == 0 then None
    else if Rejoinable(all[0], me) then Some(all[0])
    else
      var rest := RejoinDuel(all[1..], me);
      assert forall i :: 0 < i < |all| ==> all[i] == all[1..][i - 1];
      rest
  }

  /** The pending challenges I sent are not in the baseline pending list, which
      holds only challenges addressed to me; they are reached through the rejoin
      lookup instead. */
  lemma SentChallengeIsRejoined(all: seq<Duel.Duel>, me: Id, d: Duel.Duel)
    requires d in all && d.challenger == me && d.opponent != me && d.status == Duel.Pending
    ensures d !in BaselineDuels(all, me).pending
    ensures RejoinDuel(all, me).Some?
  {
    var i :| 0 <= i < |all| && all[i] == d;
    assert Rejoinable(all[i], me);
  }
}
