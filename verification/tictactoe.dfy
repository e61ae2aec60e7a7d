/** Tic-tac-toe: `checkTttWinner` (src/App.tsx:899-908), `handleMakeTictactoeMove`
    (src/App.tsx:910-956) and the initial record written by
    `handleInitiateTictactoe` (src/App.tsx:860-867). */
module Tictactoe {
  import opened Common
  import opened Game
  import Ledger

  /** `TICTACTOE_COST`: the stake of every tic-tac-toe game. */
  const TICTACTOE_COST: int := 5

  datatype Mark = X | O

  /** The nine cells, row by row; `None` is an empty (null) cell. */
  type Board = seq<Option<Mark>>

  /** The variant part of a tic-tac-toe row: the board and whose mark goes next. */
  datatype TttPlay = TttPlay(board: Board, turn: Mark)

  type TttGame = Game<TttPlay>

  /** `board[i]` in JavaScript: outside the array it reads `undefined`, which the
      code treats like an empty cell. */
  function At(b: Board, i: int): Option<Mark>
  {
    if 0 <= i < |b| then b[i] else None
  }

  /** The eight lines scanned, in order: three rows, three columns, two diagonals. */
  const Lines: seq<(int, int, int)> :=
    [(0, 1, 2), (3, 4, 5), (6, 7, 8), (0, 3, 6), (1, 4, 7), (2, 5, 8), (0, 4, 8), (2, 4, 6)]

  /** Line `k` holds three marks `m`. */
  predicate LineHolds(b: Board, k: int, m: Mark)
    requires 0 <= k < |Lines|
  {
    At(b, Lines[k].0) == Some(m) && At(b, Lines[k].1) == Some(m) && At(b, Lines[k].2) == Some(m)
  }

  /** Line `k` is not made by either mark. */
  predicate Open(b: Board, k: int)
    requires 0 <= k < |Lines|
  {
    !LineHolds(b, k, X) && !LineHolds(b, k, O)
  }

  /** The loop of `checkTttWinner` from line `k` on. */
  function ScanLines(b: Board, k: nat): (r: Option<Mark>)
    requires k <= |Lines|
    ensures r.None? <==> forall j :: k <= j < |Lines| ==> Open(b, j)
    ensures r.Some? ==>
      exists j :: k <= j < |Lines| && LineHolds(b, j, r.value) && forall i :: k <= i < j ==> Open(b, i)
    decreases |Lines| - k
  {
    if k == |Lines| then None
    else
      var a := Lines[k].0;
      if At(b, a).Some? && At(b, a) == At(b, Lines[k].1) && At(b, a) == At(b, Lines[k].2) then
        var m := At(b, a).value;
        assert LineHolds(b, k, m);
        assert !Open(b, k) by {
          if m == X { assert LineHolds(b, k, X); } else { assert LineHolds(b, k, O); }
        }
        At(b, a)
      else
        assert Open(b, k) by {
          if LineHolds(b, k, X) { assert At(b, a) == Some(X); }
          if LineHolds(b, k, O) { assert At(b, a) == Some(O); }
        }
        ScanLines(b, k + 1)
  }

  /** `checkTttWinner`: the mark of the first line (in scanning order) holding
      three equal marks, or None when no line is made. Depends on the board alone. */
  function CheckWinner(b: Board): (r: Option<Mark>)
    ensures r.None? <==> forall j :: 0 <= j < |Lines| ==> Open(b, j)
    ensures r.Some? ==>
      exists j :: 0 <= j < |Lines| && LineHolds(b, j, r.value) && forall i :: 0 <= i < j ==> Open(b, i)
  {
    ScanLines(b, 0)
  }

  /** `newBoard.every(cell => cell !== null)`. */
  predicate Full(b: Board)
  {
    forall i :: 0 <= i < |b| ==> b[i].Some?
  }

  function Flip(m: Mark): Mark
  {
    if m == X then O else X
  }

  /** `player_x === currentUser.id ? 'x' : 'o'`. */
  function MySymbol(g: TttGame, me: Id): Mark
  {
    if g.first == me then X else O
  }

  /** The guard of the handler: the game is ongoing, it is the mover's mark's
      turn, and the cell is empty (an index off the board reads `undefined`,
      which is not null, so it is refused). */
  function MoveAllowed(g: TttGame, me: Id, index: int): (ok: bool)
    ensures ok ==> g.status == Ongoing && 0 <= index < |g.play.board| && g.play.board[index].None?
    ensures ok ==> (g.play.turn == X <==> g.first == me)
  {
    && g.status == Ongoing
    && g.play.turn == MySymbol(g, me)
    && 0 <= index < |g.play.board|
    && g.play.board[index].None?
  }

  /** The partial update written to the game row: board and turn always, status
      and winner only when the move ends the game. */
  datatype TttPayload = TttPayload(board: Board, turn: Mark, status: Option<GameStatus>, winner: Option<Id>)

  datatype TttPlan = TttPlan(payload: TttPayload, settlement: Option<Ledger.Transfer>)

  /** The pure decision of `handleMakeTictactoeMove`. */
  function PlanMove(g: TttGame, me: Id, index: int): (r: Option<TttPlan>)
    ensures r.Some? <==> MoveAllowed(g, me, index)
    ensures r.Some? ==>
      var p := r.value.payload;
      var mark := MySymbol(g, me);
      && |p.board| == |g.play.board|
      && p.board[index] == Some(mark)
      && (forall i :: 0 <= i < |p.board| && i != index ==> p.board[i] == g.play.board[i])
      && p.turn == Flip(g.play.turn) && p.turn != mark
      && (p.status == Some(Completed) <==> CheckWinner(p.board).Some? || Full(p.board))
      && (p.status.None? <==> !(CheckWinner(p.board).Some? || Full(p.board)))
      && (CheckWinner(p.board) == Some(X) ==>
            p.winner == Some(g.first)
            && r.value.settlement == Some(Ledger.Transfer(g.first, g.second, TICTACTOE_COST)))
      && (CheckWinner(p.board) == Some(O) ==>
            p.winner == Some(g.second)
            && r.value.settlement == Some(Ledger.Transfer(g.second, g.first, TICTACTOE_COST)))
      && (CheckWinner(p.board).None? ==> p.winner.None? && r.value.settlement.None?)
  {
    if !MoveAllowed(g, me, index) then None
    else
      var turn := g.play.turn;
      var newBoard := g.play.board[index := Some(turn)];
      var winnerSymbol := CheckWinner(newBoard);
      var isDraw := winnerSymbol.None? && Full(newBoard);
      var over := winnerSymbol.Some? || isDraw;
      var winnerId: Option<Id> :=
        match winnerSymbol
        case None => None
        case Some(m) => Some(if m == X then g.first else g.second);
      var settlement: Option<Ledger.Transfer> :=
        match winnerSymbol
        case None => None
        case Some(m) => Some(Ledger.Transfer(
          if m == X then g.first else g.second,
          if m == X then g.second else g.first,
          TICTACTOE_COST));
      var payload := TttPayload(newBoard, Flip(turn), if over then Some(Completed) else None, winnerId);
      Some(TttPlan(payload, settlement))
  }

  /** The row after the store merges the payload into it. */
  function ApplyTtt(g: TttGame, p: TttPayload): (r: TttGame)
    ensures r.id == g.id && r.first == g.first && r.second == g.second && r.stake == g.stake && r.created == g.created
    ensures r.play.board == p.board && r.play.turn == p.turn
    ensures r.status == (if p.status.Some? then p.status.value else g.status)
    ensures r.winner == (if p.winner.Some? then p.winner else g.winner)
  {
    g.(play := TttPlay(p.board, p.turn),
       status := if p.status.Some? then p.status.value else g.status,
       winner := if p.winner.Some? then p.winner else g.winner)
  }

  /** The observable effect of one call of the handler. */
  datatype TttStep = TttStep(game: TttGame, balances: Ledger.Balances, questWin: bool)

  /** `handleMakeTictactoeMove` against the store: a refused move changes
      nothing; otherwise the settlement writes (for a won game) go first, the
      WIN_TICTACTOE quest progresses when both landed and the mover won, and
      the game write follows whatever became of the settlement. */
  function HandleMove(g: TttGame, me: Id, index: int, b: Ledger.Balances,
                      okWinner: bool, okLoser: bool, okGame: bool): (r: TttStep)
    ensures !MoveAllowed(g, me, index) ==> r == TttStep(g, b, false)
    ensures MoveAllowed(g, me, index) && okGame ==> r.game == ApplyTtt(g, PlanMove(g, me, index).value.payload)
    ensures !okGame ==> r.game == g
    ensures MoveAllowed(g, me, index) ==>
      r.balances == Ledger.SettleIfAny(b, PlanMove(g, me, index).value.settlement, okWinner, okLoser).balances
    ensures r.questWin <==>
      && MoveAllowed(g, me, index)
      && var plan := PlanMove(g, me, index).value;
      && plan.settlement.Some?
      && plan.payload.winner == Some(me)
      && Ledger.Lands(b, plan.settlement.value.winner, okWinner)
      && Ledger.Lands(b, plan.settlement.value.loser, okLoser)
    ensures r.questWin ==> r.balances != b || (me == g.first && me == g.second)
  {
    match PlanMove(g, me, index)
    case None => TttStep(g, b, false)
    case Some(plan) =>
      var settled := Ledger.SettleIfAny(b, plan.settlement, okWinner, okLoser);
      var quest := plan.settlement.Some? && settled.bothLanded && plan.payload.winner == Some(me);
      assert quest ==> settled.balances != b || (me == g.first && me == g.second) by {
        if quest && !(me == g.first && me == g.second) {
          var t := plan.settlement.value;
          assert t.winner != t.loser;
          assert settled.balances[t.winner] == b[t.winner] + TICTACTOE_COST;
        }
      }
      TttStep(if okGame then ApplyTtt(g, plan.payload) else g, settled.balances, quest)
  }

  /** Placing `mark` in one cell cannot make a line of the other mark. */
  lemma LineOfOtherMarkWasThere(b: Board, index: int, mark: Mark, j: int, m: Mark)
    requires 0 <= index < |b| && 0 <= j < |Lines| && m != mark
    requires LineHolds(b[index := Some(mark)], j, m)
    ensures LineHolds(b, j, m)
  {
  }

  /** A board that makes no line of a mark other than `mark` that `b` did not
      already make has, when `b` has no winner, no winner but `mark`. */
  lemma OnlyNewLinesWin(b: Board, nb: Board, mark: Mark)
    requires CheckWinner(b).None?
    requires forall j, m :: 0 <= j < |Lines| && m != mark && LineHolds(nb, j, m) ==> LineHolds(b, j, m)
    ensures CheckWinner(nb).Some? ==> CheckWinner(nb).value == mark
  {
    if CheckWinner(nb).Some? {
      var w := CheckWinner(nb).value;
      var j :| 0 <= j < |Lines| && LineHolds(nb, j, w) && forall i :: 0 <= i < j ==> Open(nb, i);
      assert Open(b, j);
    }
  }

  /** An accepted move on a board nobody had won yet can only be won by the
      mover: the new winning line must run through the cell just filled. */
  lemma WinnerIsTheMover(g: TttGame, me: Id, index: int)
    requires MoveAllowed(g, me, index)
    requires CheckWinner(g.play.board).None?
    ensures var p := PlanMove(g, me, index).value.payload;
      CheckWinner(p.board).Some? ==> CheckWinner(p.board) == Some(MySymbol(g, me))
  {
    var mark := MySymbol(g, me);
    var nb := g.play.board[index := Some(mark)];
    assert PlanMove(g, me, index).value.payload.board == nb;
    forall j, m | 0 <= j < |Lines| && m != mark && LineHolds(nb, j, m)
      ensures LineHolds(g.play.board, j, m)
    {
      LineOfOtherMarkWasThere(g.play.board, index, mark, j, m);
    }
    OnlyNewLinesWin(g.play.board, nb, mark);
  }

  /** Once a move completes the game, every later move is refused, so the
      settlement of a game is issued at most once. */
  lemma SettlementAtMostOnce(g: TttGame, me: Id, index: int, me2: Id, index2: int)
    requires MoveAllowed(g, me, index)
    requires PlanMove(g, me, index).value.payload.status == Some(Completed)
    ensures PlanMove(ApplyTtt(g, PlanMove(g, me, index).value.payload), me2, index2).None?
  {
  }

  /** Worked example: on `[x,x,x,_,o,o,_,_,_]` the scan reports x, whoever moved last. */
  lemma TopRowExample()
    ensures CheckWinner([Some(X), Some(X), Some(X), None, Some(O), Some(O), None, None, None]) == Some(X)
  {
    var b := [Some(X), Some(X), Some(X), None, Some(O), Some(O), None, None, None];
    assert LineHolds(b, 0, X);
  }

  /** Number of cells holding `m`. */
  function Count(b: Board, m: Mark): nat
  {
    if |b| == 0 then 0 else (if b[0] == Some(m) then 1 else 0) + Count(b[1..], m)
  }

  /** Filling an empty cell with `m` adds one `m` and leaves the other mark's count. */
  lemma {:induction false} CountAfterPlacing(b: Board, i: int, m: Mark)
    requires 0 <= i < |b| && b[i].None?
    ensures Count(b[i := Some(m)], m) == Count(b, m) + 1
    ensures Count(b[i := Some(m)], Flip(m)) == Count(b, Flip(m))
  {
    if i == 0 {
      assert b[i := Some(m)][1..] == b[1..];
    } else {
      CountAfterPlacing(b[1..], i - 1, m);
      assert b[i := Some(m)][1..] == b[1..][i - 1 := Some(m)];
    }
  }

  /** An empty board holds no marks. */
  lemma {:induction false} CountEmpty(b: Board, m: Mark)
    requires forall i :: 0 <= i < |b| ==> b[i].None?
    ensures Count(b, m) == 0
  {
    if |b| > 0 {
      CountEmpty(b[1..], m);
    }
  }

  /** The turn invariant of a game that starts with x on an empty board: x has
      moved as often as o when it is x's turn, once more when it is o's. */
  predicate Alternating(p: TttPlay)
  {
    && |p.board| == 9
    && (p.turn == X ==> Count(p.board, X) == Count(p.board, O))
    && (p.turn == O ==> Count(p.board, X) == Count(p.board, O) + 1)
  }

  /** The board written by `handleInitiateTictactoe`: nine empty cells, x to move. */
  function InitialPlay(): (p: TttPlay)
    ensures Alternating(p)
    ensures |p.board| == 9 && forall i :: 0 <= i < 9 ==> p.board[i].None?
  {
    var p := TttPlay(seq(9, _ => None), X);
    CountEmpty(p.board, X);
    CountEmpty(p.board, O);
    p
  }

  /** Every accepted move keeps the turn invariant: turns strictly alternate. */
  lemma MovePreservesAlternation(g: TttGame, me: Id, index: int)
    requires Alternating(g.play)
    requires MoveAllowed(g, me, index)
    ensures Alternating(ApplyTtt(g, PlanMove(g, me, index).value.payload).play)
  {
    var mark := g.play.turn;
    CountAfterPlacing(g.play.board, index, mark);
    assert Flip(mark) != mark;
    assert mark == X ==> Flip(mark) == O;
    assert mark == O ==> Flip(mark) == X;
  }

  /** `handleInitiateTictactoe`: the shared challenge guard with `TICTACTOE_COST`
      and the empty board. */
  function InitiateTictactoe(me: Option<User>, opponent: User, confirmed: bool, createOk: bool,
                             id: Id, created: int): (r: Result<TttGame, InitiateError>)
    ensures r.Ok? <==>
      me.Some? && me.value.points >= TICTACTOE_COST && opponent.points >= TICTACTOE_COST && confirmed && createOk
    ensures r.Ok? ==>
      && r.value.status == Pending && r.value.stake == TICTACTOE_COST
      && r.value.first == me.value.id && r.value.second == opponent.id
      && r.value.play.turn == X && Alternating(r.value.play)
      && forall i :: 0 <= i < |r.value.play.board| ==> r.value.play.board[i].None?
  {
    Initiate(me, opponent, TICTACTOE_COST, confirmed, createOk, id, created, InitialPlay())
  }
}
