/** Chess: `handleMakeChessMove` (src/App.tsx:766-839) and the initial record
    written by `handleInitiateChess` (src/App.tsx:725-733). Move legality,
    check, mate and draw are decided by an external engine; the model receives
    the engine's answers as values and covers only what the handler decides
    from them. */
module Chess {
  import opened Common
  import opened Game
  import Ledger

  /** `CHESS_COST`: the stake of every chess game. */
  const CHESS_COST: int := 25

  /** The position every new game starts from (opaque to the model). */
  const INITIAL_FEN: string := "rnbqkbnr/pppppppp/8/8/8/8/PPPPPPPP/RNBQKBNR w KQkq - 0 1"

  /** The engine's side to move: `'w'` or `'b'`. */
  datatype Color = White | Black

  function Opposite(c: Color): Color
  {
    if c == White then Black else White
  }

  /** The variant part of a chess row: position, side to move and move record. */
  datatype ChessPlay = ChessPlay(fen: string, turn: Color, pgn: string)

  type ChessGame = Game<ChessPlay>

  /** `player_white === currentUser.id ? 'w' : 'b'`. */
  function PlayerColor(g: ChessGame, me: Id): (c: Color)
    ensures c == White <==> g.first == me
  {
    if g.first == me then White else Black
  }

  /** What the engine reports for the attempted move: refused, or played with
      the position, side to move and record afterwards, and whether the game
      is over and whether it is over by checkmate. */
  datatype EngineAnswer =
    | Illegal
    | Played(fen: string, turn: Color, pgn: string, gameOver: bool, checkmate: bool)

  /** Why the handler stops without writing anything. */
  datatype MoveError = EngineMissing | NotYourTurn | IllegalMove

  /** The partial update written to the game row: position, side to move and
      record always; status when the game is over; winner only for a mate. */
  datatype ChessPayload = ChessPayload(fen: string, turn: Color, pgn: string,
                                       status: Option<GameStatus>, winner: Option<Id>)

  datatype ChessPlan = ChessPlan(payload: ChessPayload, settlement: Option<Ledger.Transfer>)

  /** The pure decision of `handleMakeChessMove`. `engineLoaded` says whether the
      engine library is present, `turnBefore` is the engine's side to move in
      the stored position, and `answer` is what the engine made of the move.
      A mate is won by the side that is not to move afterwards; the winner's id
      is tested for truthiness before the stake is settled. */
  function PlanChessMove(g: ChessGame, me: Id, engineLoaded: bool, turnBefore: Color,
                         answer: EngineAnswer): (r: Result<ChessPlan, MoveError>)
    ensures !engineLoaded ==> r == Err(EngineMissing)
    ensures engineLoaded && turnBefore != PlayerColor(g, me) ==> r == Err(NotYourTurn)
    ensures engineLoaded && turnBefore == PlayerColor(g, me) && answer.Illegal? ==> r == Err(IllegalMove)
    ensures r.Ok? <==> engineLoaded && turnBefore == PlayerColor(g, me) && answer.Played?
    ensures r.Ok? ==>
      var p := r.value.payload;
      && p.fen == answer.fen && p.turn == answer.turn && p.pgn == answer.pgn
      && (p.status == Some(Completed) <==> answer.gameOver)
      && (p.status.None? <==> !answer.gameOver)
      && (p.winner.Some? <==> answer.gameOver && answer.checkmate)
      && (p.winner.Some? ==>
            p.winner.value in {g.first, g.second}
            && (p.winner.value == g.first <==> answer.turn == Black || g.first == g.second))
      && (r.value.settlement.Some? <==> p.winner.Some? && p.winner.value != "")
      && (r.value.settlement.Some? ==>
            var t := r.value.settlement.value;
            && Some(t.winner) == p.winner && t.amount == CHESS_COST
            && {t.winner, t.loser} == {g.first, g.second}
            && (g.first != g.second ==> t.winner != t.loser))
  {
    if !engineLoaded then Err(EngineMissing)
    else if turnBefore != PlayerColor(g, me) then Err(NotYourTurn)
    else if answer.Illegal? then Err(IllegalMove)
    else
      var winnerId: Option<Id> :=
        if answer.gameOver && answer.checkmate then
          Some(if answer.turn == Black then g.first else g.second)
        else None;
      var settlement: Option<Ledger.Transfer> :=
        match winnerId
        case Some(w) =>
          if w != "" then Some(Ledger.Transfer(w, if w == g.first then g.second else g.first, CHESS_COST))
          else None
        case None => None;
      var payload := ChessPayload(answer.fen, answer.turn, answer.pgn,
                                  if answer.gameOver then Some(Completed) else None, winnerId);
      Ok(ChessPlan(payload, settlement))
  }

  /** The row after the store merges the payload into it. */
  function ApplyChess(g: ChessGame, p: ChessPayload): (r: ChessGame)
    ensures r.id == g.id && r.first == g.first && r.second == g.second && r.stake == g.stake && r.created == g.created
    ensures r.play.fen == p.fen && r.play.turn == p.turn && r.play.pgn == p.pgn
    ensures r.status == (if p.status.Some? then p.status.value else g.status)
    ensures r.winner == (if p.winner.Some? then p.winner else g.winner)
  {
    g.(play := ChessPlay(p.fen, p.turn, p.pgn),
       status := if p.status.Some? then p.status.value else g.status,
       winner := if p.winner.Some? then p.winner else g.winner)
  }

  /** The observable effect of one call of the handler. */
  datatype ChessStep = ChessStep(game: ChessGame, balances: Ledger.Balances, questWin: bool)

  /** `handleMakeChessMove` against the store: a refused move writes nothing;
      otherwise the settlement of a mate goes first, the WIN_CHESS quest
      progresses when both balance writes landed and the mover is the winner,
      and the game write follows whatever became of the settlement. */
  function HandleChessMove(g: ChessGame, me: Id, engineLoaded: bool, turnBefore: Color, answer: EngineAnswer,
                           b: Ledger.Balances, okWinner: bool, okLoser: bool, okGame: bool): (r: ChessStep)
    ensures PlanChessMove(g, me, engineLoaded, turnBefore, answer).Err? ==> r == ChessStep(g, b, false)
    ensures !okGame ==> r.game == g
    ensures PlanChessMove(g, me, engineLoaded, turnBefore, answer).Ok? ==>
      var plan := PlanChessMove(g, me, engineLoaded, turnBefore, answer).value;
      && (okGame ==> r.game == ApplyChess(g, plan.payload))
      && r.balances == Ledger.SettleIfAny(b, plan.settlement, okWinner, okLoser).balances
      && (r.questWin <==>
            && plan.settlement.Some? && plan.settlement.value.winner == me
            && Ledger.Lands(b, me, okWinner) && Ledger.Lands(b, plan.settlement.value.loser, okLoser))
  {
    match PlanChessMove(g, me, engineLoaded, turnBefore, answer)
    case Err(_) => ChessStep(g, b, false)
    case Ok(plan) =>
      var settled := Ledger.SettleIfAny(b, plan.settlement, okWinner, okLoser);
      var quest := plan.settlement.Some? && settled.bothLanded && plan.payload.winner == Some(me);
      ChessStep(if okGame then ApplyChess(g, plan.payload) else g, settled.balances, quest)
  }

  /** When the engine hands the move to the other side (as it does after every
      legal move), a mate is credited to the player who just moved, and the
      stake flows from the other participant to them. */
  lemma CheckmateWinnerIsTheMover(g: ChessGame, me: Id, answer: EngineAnswer)
    requires IsParticipant(g, me) && g.first != g.second && me != ""
    requires answer.Played? && answer.gameOver && answer.checkmate
    requires answer.turn == Opposite(PlayerColor(g, me))
    ensures var r := PlanChessMove(g, me, true, PlayerColor(g, me), answer);
      && r.Ok? && r.value.payload.winner == Some(me)
      && r.value.settlement == Some(Ledger.Transfer(me, if me == g.first then g.second else g.first, CHESS_COST))
  {
  }

  /** A game over that is not a mate (stalemate, repetition, material) is a
      draw: the game completes with no winner and no balance moves. */
  lemma OtherGameOverIsDraw(g: ChessGame, me: Id, turnBefore: Color, answer: EngineAnswer,
                            b: Ledger.Balances, okWinner: bool, okLoser: bool)
    requires turnBefore == PlayerColor(g, me)
    requires answer.Played? && answer.gameOver && !answer.checkmate
    ensures var r := HandleChessMove(g, me, true, turnBefore, answer, b, okWinner, okLoser, true);
      && r.game.status == Completed && r.game.winner == g.winner
      && r.balances == b && !r.questWin
  {
  }

  /** The handler never looks at the stored status: the plan for a move is the
      same whatever the status is, so a pending (not yet accepted) or already
      completed game still takes a move the engine allows. */
  lemma StatusIsNotConsulted(g: ChessGame, s: GameStatus, me: Id, engineLoaded: bool, turnBefore: Color,
                             answer: EngineAnswer)
    ensures PlanChessMove(g.(status := s), me, engineLoaded, turnBefore, answer)
         == PlanChessMove(g, me, engineLoaded, turnBefore, answer)
  {
  }

  /** Worked example: in a game still pending, white's legal opening move is
      written and the game stays pending. */
  lemma PendingGameTakesAMove(g: ChessGame, answer: EngineAnswer)
    requires g.status == Pending
    requires answer == Played("after-e4", Black, "1. e4", false, false)
    ensures var r := HandleChessMove(g, g.first, true, White, answer, map[], true, true, true);
      && r.game.status == Pending && r.game.play == ChessPlay("after-e4", Black, "1. e4")
  {
  }

  /** `handleInitiateChess`: the shared challenge guard with `CHESS_COST` and the
      standard starting position, white to move, empty record. */
  function InitiateChess(me: Option<User>, opponent: User, confirmed: bool, createOk: bool,
                         id: Id, created: int): (r: Result<ChessGame, InitiateError>)
    ensures r.Ok? <==>
      me.Some? && me.value.points >= CHESS_COST && opponent.points >= CHESS_COST && confirmed && createOk
    ensures r.Ok? ==>
      && r.value.status == Pending && r.value.stake == CHESS_COST
      && r.value.first == me.value.id && r.value.second == opponent.id
      && r.value.play == ChessPlay(INITIAL_FEN, White, "")
      && PlayerColor(r.value, me.value.id) == r.value.play.turn
  {
    Initiate(me, opponent, CHESS_COST, confirmed, createOk, id, created, ChessPlay(INITIAL_FEN, White, ""))
  }
}
