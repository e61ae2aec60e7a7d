/** The tic-tac-toe board component (components/TictactoeView.tsx): the
    player's mark and turn (lines 24-25), the status line (lines 27-37), the
    highlighted player card (lines 56, 73), which cells can be clicked
    (line 63) and when the close button is shown (lines 77-81). */
module TictactoeView {
  import opened Common
  import opened Game
  import opened Tictactoe
  import Ledger

  /** `mySymbol`. */
  function ViewSymbol(g: TttGame, me: Id): (m: Mark)
    ensures m == X <==> g.first == me
    ensures m == MySymbol(g, me)
  {
    if g.first == me then X else O
  }

  /** `isMyTurn`: the turn is the player's mark and the game is ongoing. */
  predicate IsMyTurn(g: TttGame, me: Id)
  {
    g.play.turn == ViewSymbol(g, me) && g.status == Ongoing
  }

  /** `isTurn` of the player card showing `mark`. */
  predicate CardHighlighted(g: TttGame, mark: Mark)
  {
    g.play.turn == mark && g.status == Ongoing
  }

  /** While the game is ongoing exactly one card is highlighted, and it is the
      player's own card exactly on the player's turn; otherwise neither is. */
  lemma OneCardHighlighted(g: TttGame, me: Id)
    ensures g.status == Ongoing ==> (CardHighlighted(g, X) <==> !CardHighlighted(g, O))
    ensures g.status != Ongoing ==> !CardHighlighted(g, X) && !CardHighlighted(g, O)
    ensures CardHighlighted(g, ViewSymbol(g, me)) <==> IsMyTurn(g, me)
  {
  }

  /** `disabled={!isMyTurn || cell !== null}` for the cell at `index`. */
  function CellDisabled(g: TttGame, me: Id, index: int): (disabled: bool)
    requires 0 <= index < |g.play.board|
    ensures !disabled <==> IsMyTurn(g, me) && g.play.board[index].None?
  {
    !IsMyTurn(g, me) || g.play.board[index].Some?
  }

  /** The board lets the player click exactly the moves the handler accepts. */
  lemma EnabledCellIsAllowedMove(g: TttGame, me: Id, index: int)
    requires 0 <= index < |g.play.board|
    ensures !CellDisabled(g, me, index) <==> MoveAllowed(g, me, index)
    ensures !CellDisabled(g, me, index) <==> PlanMove(g, me, index).Some?
  {
  }

  /** After a move the handler writes, every cell is disabled for the mover:
      the turn has passed (or the game is over). */
  lemma NoSecondMoveInARow(g: TttGame, me: Id, index: int, b: Ledger.Balances, okWinner: bool, okLoser: bool)
    requires MoveAllowed(g, me, index)
    ensures var after := HandleMove(g, me, index, b, okWinner, okLoser, true).game;
      forall i :: 0 <= i < |after.play.board| ==> CellDisabled(after, me, i)
  {
  }

  /** `!!game.winner`. */
  predicate HasWinner(g: TttGame)
  {
    g.winner.Some? && g.winner.value != ""
  }

  /** `statusText`; `opponentName` is the expanded opponent's username (the
      view shows a loading line instead while the opponent is missing). */
  function StatusText(g: TttGame, me: Id, opponentName: string): (t: string)
    ensures g.status == Pending ==> t == "Ожидание соперника..."
    ensures g.status == Completed ==>
      t == (if !HasWinner(g) then "Ничья!" else if g.winner == Some(me) then "Вы победили!" else "Вы проиграли")
    ensures g.status == Declined ==> t == "Вызов отклонен"
    ensures g.status == Cancelled ==> t == "Игра отменена"
    ensures g.status == Ongoing ==> t == (if IsMyTurn(g, me) then "Ваш ход" else "Ход @" + opponentName)
  {
    match g.status
    case Pending => "Ожидание соперника..."
    case Completed =>
      if !HasWinner(g) then "Ничья!"
      else if g.winner == Some(me) then "Вы победили!"
      else "Вы проиграли"
    case Declined => "Вызов отклонен"
    case Cancelled => "Игра отменена"
    case Ongoing => if IsMyTurn(g, me) then "Ваш ход" else "Ход @" + opponentName
  }

  /** "Your move" is shown exactly when some cell of a board with an empty
      cell can be clicked. */
  lemma YourMoveIffClickable(g: TttGame, me: Id, opponentName: string, index: int)
    requires 0 <= index < |g.play.board| && g.play.board[index].None?
    ensures StatusText(g, me, opponentName) == "Ваш ход" <==> !CellDisabled(g, me, index)
  {
    var t := StatusText(g, me, opponentName);
    if g.status == Ongoing && !IsMyTurn(g, me) {
      assert t[0] == 'Х';
    }
  }

  /** The close button ("Завершить") is shown only once the game is completed. */
  predicate CloseShown(g: TttGame)
  {
    g.status == Completed
  }

  /** On a board nobody had won, a winning move shows the mover a win, and the
      close button, once its write lands. */
  lemma WinningMoveShowsWin(g: TttGame, me: Id, index: int, b: Ledger.Balances, okWinner: bool, okLoser: bool,
                            opponentName: string)
    requires MoveAllowed(g, me, index) && IsParticipant(g, me) && me != ""
    requires CheckWinner(g.play.board).None?
    requires CheckWinner(PlanMove(g, me, index).value.payload.board).Some?
    ensures var after := HandleMove(g, me, index, b, okWinner, okLoser, true).game;
      CloseShown(after) && StatusText(after, me, opponentName) == "Вы победили!"
  {
    WinnerIsTheMover(g, me, index);
  }
}
