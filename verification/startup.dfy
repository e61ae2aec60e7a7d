/** The baseline load of the game and duel lists (src/App.tsx:316-376): twelve
    requests issued together, whose results fill the lists on success, while a
    single failure sends the whole load to one handler that reports the error
    and empties the lists. */
module Startup {
  import opened Common
  import opened Game
  import Sync
  import Duel
  import Chess
  import Tictactoe
  import Errors

  /** The report added when the load fails ("Could not load the main data."). */
  const LOAD_FAILED: string := "Не удалось загрузить основные данные."

  /** The rows the load asks for, one sequence per collection. */
  datatype Store = Store(
    duels: seq<Duel.Duel>,
    chess: seq<Chess.ChessGame>,
    ttt: seq<Tictactoe.TttGame>)

  /** The client's game and duel lists and its list of data errors. */
  datatype Screen = Screen(
    duels: Sync.DuelLists,
    chess: Sync.GameLists<Chess.ChessPlay>,
    ttt: Sync.GameLists<Tictactoe.TttPlay>,
    errors: seq<string>)

  /** An emptied game list that keeps the game open on screen. */
  function Emptied<B>(l: Sync.GameLists<B>): (r: Sync.GameLists<B>)
    ensures r.pending == [] && r.ongoing == [] && r.history == []
    ensures r.active == l.active
  {
    Sync.GameLists([], [], [], l.active)
  }

  /** The lists after a load that succeeded: each is the baseline list of its
      collection; the game and duel open on screen stay, except that the
      rejoin lookup puts the player back into a duel it finds. */
  function Loaded(s: Screen, me: Id, st: Store): (r: Screen)
    ensures r.errors == s.errors
    ensures r.duels.active == (if Sync.RejoinDuel(st.duels, me).Some? then Sync.RejoinDuel(st.duels, me) else s.duels.active)
    ensures forall d :: d in r.duels.pending <==> d in st.duels && d.opponent == me && d.status == Duel.Pending
    ensures forall g :: g in r.chess.ongoing <==> g in st.chess && IsParticipant(g, me) && g.status == Ongoing
    ensures forall g :: g in r.ttt.ongoing <==> g in st.ttt && IsParticipant(g, me) && g.status == Ongoing
    ensures r.chess.active == s.chess.active && r.ttt.active == s.ttt.active
  {
    var duels := Sync.BaselineDuels(st.duels, me);
    var rejoined := Sync.RejoinDuel(st.duels, me);
    Screen(
      duels.(active := if rejoined.Some? then rejoined else s.duels.active),
      Sync.BaselineGames(st.chess, me).(active := s.chess.active),
      Sync.BaselineGames(st.ttt, me).(active := s.ttt.active),
      s.errors)
  }

  /** The failure handler as written: the report is added and the duel and
      chess lists are emptied, but the three tic-tac-toe lists are left as they
      were. */
  function LoadAsWritten(s: Screen, me: Id, fetched: Result<Store, Errors.Thrown>): (r: Screen)
    ensures fetched.Err? ==> r.ttt == s.ttt
    ensures fetched.Err? ==> r.duels == Sync.DuelLists([], [], s.duels.active)
    ensures fetched.Err? ==> r.chess == Emptied(s.chess)
    ensures fetched.Err? ==> r.errors == s.errors + [Errors.PocketbaseError(fetched.error, LOAD_FAILED)]
    ensures fetched.Ok? ==> r == Loaded(s, me, fetched.value)
  {
    match fetched
    case Ok(st) => Loaded(s, me, st)
    case Err(e) =>
      Screen(
        Sync.DuelLists([], [], s.duels.active),
        Emptied(s.chess),
        s.ttt,
        s.errors + [Errors.PocketbaseError(e, LOAD_FAILED)])
  }

  /** The evident intent: a failed load empties every list it would have
      filled, tic-tac-toe included, and adds exactly one non-empty report. */
  function Load(s: Screen, me: Id, fetched: Result<Store, Errors.Thrown>): (r: Screen)
    ensures fetched.Err? ==>
      && r.duels.pending == [] && r.duels.history == []
      && r.chess.pending == [] && r.chess.ongoing == [] && r.chess.history == []
      && r.ttt.pending == [] && r.ttt.ongoing == [] && r.ttt.history == []
    ensures fetched.Err? ==>
      && r.duels.active == s.duels.active && r.chess.active == s.chess.active && r.ttt.active == s.ttt.active
    ensures fetched.Err? ==>
      && |r.errors| == |s.errors| + 1
      && r.errors[..|s.errors|] == s.errors
      && r.errors[|s.errors|] != ""
    ensures fetched.Ok? ==> r == Loaded(s, me, fetched.value)
  {
    var w := LoadAsWritten(s, me, fetched);
    if fetched.Err? then
      Errors.NeverEmpty(fetched.error, LOAD_FAILED);
      assert w.errors[..|s.errors|] == s.errors;
      w.(ttt := Emptied(s.ttt))
    else w
  }

  /** The two handlers differ only in the tic-tac-toe lists of a failed load. */
  lemma AsWrittenDiffersOnlyInTictactoe(s: Screen, me: Id, fetched: Result<Store, Errors.Thrown>)
    ensures LoadAsWritten(s, me, fetched).(ttt := Load(s, me, fetched).ttt) == Load(s, me, fetched)
    ensures fetched.Ok? ==> LoadAsWritten(s, me, fetched) == Load(s, me, fetched)
    ensures LoadAsWritten(s, me, fetched) == Load(s, me, fetched) <==>
      fetched.Ok? || (s.ttt.pending == [] && s.ttt.ongoing == [] && s.ttt.history == [])
  {
  }

  /** A tic-tac-toe challenge shown before a failed load is still shown after
      it, next to chess and duel lists that were emptied; the corrected
      handler drops it. */
  lemma StaleChallengeAfterFailedLoad()
    ensures var g := Game("t1", "ann", "bob", Tictactoe.TICTACTOE_COST, Pending, None, 0,
                          Tictactoe.InitialPlay());
      var s := Screen(Sync.DuelLists([], [], None), Sync.GameLists([], [], [], None),
                      Sync.GameLists([g], [], [], None), []);
      && g in LoadAsWritten(s, "bob", Err(Errors.Other)).ttt.pending
      && LoadAsWritten(s, "bob", Err(Errors.Other)).chess.pending == []
      && g !in Load(s, "bob", Err(Errors.Other)).ttt.pending
  {
  }

  /** A successful reload after a failed one leaves the lists exactly as a
      successful load from the start would, whichever handler ran. */
  lemma ReloadRecovers(s: Screen, me: Id, e: Errors.Thrown, st: Store)
    ensures Load(Load(s, me, Err(e)), me, Ok(st)).(errors := s.errors) == Load(s, me, Ok(st))
    ensures LoadAsWritten(LoadAsWritten(s, me, Err(e)), me, Ok(st)).(errors := s.errors) == LoadAsWritten(s, me, Ok(st))
  {
  }
}
