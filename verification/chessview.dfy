/** The chess board component (components/ChessView.tsx): which colour the
    player has and whether it is their turn (lines 150-151), the board's
    orientation (lines 21-26), the colour of a square (line 64) and the
    click handler that selects a piece and emits moves (lines 28-56). The
    engine instance is an oracle: the model receives the side it has to move,
    the colour of the piece on a square and the targets it lists for a square. */
module ChessView {
  import opened Common
  import opened Game
  import Chess

  /** The file letters and rank digits in the order the component lists them. */
  const FILES: string := "abcdefgh"
  const RANKS: string := "87654321"

  /** A square, by the position of its file letter in `FILES` (0 for `a`)
      and its rank's number (1 to 8): `e4` is `Square(4, 4)`. As the file
      letters are distinct, `files.indexOf(file)` is that position. */
  datatype Square = Square(file: int, rank: int)

  predicate ValidSquare(s: Square)
  {
    0 <= s.file < 8 && 1 <= s.rank <= 8
  }

  /** The square's name, as the engine and `onMove` see it: the file letter
      (`a` plus the file index) followed by the rank digit. */
  function Name(s: Square): (n: string)
    requires ValidSquare(s)
    ensures |n| == 2 && n[0] in FILES && n[1] in RANKS
    ensures n[0] as int - 'a' as int == s.file
    ensures n[1] as int - '0' as int == s.rank
  {
    [FILES[s.file], RANKS[8 - s.rank]]
  }

  /** Reading a name back: a file letter and a rank digit, or nothing. */
  function ParseName(n: string): (r: Option<Square>)
    ensures r.Some? <==> |n| == 2 && 'a' <= n[0] <= 'h' && '1' <= n[1] <= '8'
    ensures r.Some? ==> ValidSquare(r.value)
  {
    if |n| == 2 && 'a' <= n[0] <= 'h' && '1' <= n[1] <= '8' then
      Some(Square(n[0] as int - 'a' as int, n[1] as int - '0' as int))
    else None
  }

  /** Names and squares correspond one to one: every square's name reads
      back as that square, and every readable name is the name of what it
      reads as. */
  lemma NameRoundTrip(s: Square, n: string)
    requires ValidSquare(s)
    ensures ParseName(Name(s)) == Some(s)
    ensures ParseName(n) == Some(s) ==> Name(s) == n
  {
  }

  /** Two squares share a name only when they are the same square, so the
      component's `selectedSquare === squareId` picks out one square. */
  lemma NameIsInjective(s: Square, t: Square)
    requires ValidSquare(s) && ValidSquare(t)
    ensures Name(s) == Name(t) <==> s == t
  {
    NameRoundTrip(s, Name(t));
    NameRoundTrip(t, Name(t));
  }

  /** `boardRanks`: the ranks from top to bottom as the player sees them —
      `ranks` (8 down to 1) for white, the reverse of it for black. */
  function BoardRanks(c: Chess.Color): (r: seq<int>)
    ensures |r| == 8 && forall i :: 0 <= i < 8 ==> 1 <= r[i] <= 8
  {
    seq(8, i requires 0 <= i < 8 => if c == Chess.White then 8 - i else i + 1)
  }

  /** `boardFiles`: the files from left to right as the player sees them —
      `files` (a to h) for white, the reverse of it for black. */
  function BoardFiles(c: Chess.Color): (r: seq<int>)
    ensures |r| == 8 && forall i :: 0 <= i < 8 ==> 0 <= r[i] < 8
  {
    seq(8, i requires 0 <= i < 8 => if c == Chess.White then i else 7 - i)
  }

  /** White reads `ranks` and `files` as listed; black reads both reversed. */
  lemma BoardOrientation(c: Chess.Color, i: int)
    requires 0 <= i < 8
    ensures c == Chess.White ==> RANKS[i] == ('0' as int + BoardRanks(c)[i]) as char
    ensures c == Chess.White ==> FILES[BoardFiles(c)[i]] == FILES[i]
    ensures c == Chess.Black ==> BoardRanks(c)[i] == BoardRanks(Chess.White)[7 - i]
    ensures c == Chess.Black ==> BoardFiles(c)[i] == BoardFiles(Chess.White)[7 - i]
  {
  }

  /** The square drawn in grid row `row` and column `col`. */
  function SquareAt(c: Chess.Color, row: int, col: int): (s: Square)
    requires 0 <= row < 8 && 0 <= col < 8
    ensures ValidSquare(s)
  {
    Square(BoardFiles(c)[col], BoardRanks(c)[row])
  }

  /** White sees rank 8 at the top and file a on the left; black sees the
      same board turned half way round. */
  lemma BlackSeesTheBoardTurned(row: int, col: int)
    requires 0 <= row < 8 && 0 <= col < 8
    ensures SquareAt(Chess.White, row, col) == Square(col, 8 - row)
    ensures SquareAt(Chess.Black, row, col) == SquareAt(Chess.White, 7 - row, 7 - col)
  {
  }

  /** Every square of the board is drawn exactly once in either orientation. */
  lemma EverySquareDrawnOnce(c: Chess.Color, s: Square)
    requires ValidSquare(s)
    ensures exists row, col :: 0 <= row < 8 && 0 <= col < 8 && SquareAt(c, row, col) == s
    ensures forall row, col, row', col' ::
      (&& 0 <= row < 8 && 0 <= col < 8 && 0 <= row' < 8 && 0 <= col' < 8
       && SquareAt(c, row, col) == s && SquareAt(c, row', col') == s)
      ==> row == row' && col == col'
  {
    if c == Chess.White {
      BlackSeesTheBoardTurned(8 - s.rank, s.file);
    } else {
      BlackSeesTheBoardTurned(s.rank - 1, 7 - s.file);
    }
    forall row, col | 0 <= row < 8 && 0 <= col < 8 ensures ValidSquare(SquareAt(c, row, col)) {
      BlackSeesTheBoardTurned(row, col);
    }
  }

  // ----- square colour -----

  /** `isLight` as written: the sum of the file's index and the rank's number
      is odd. */
  predicate IsLightAsWritten(s: Square)
  {
    (s.file + s.rank) % 2 != 0
  }

  /** As written, a1 (white's lower-left corner) is drawn light and h1 (white's
      lower-right corner) dark: the reverse of a real chessboard. */
  lemma CornerColoursAsWritten()
    ensures IsLightAsWritten(SquareAt(Chess.White, 7, 0)) && SquareAt(Chess.White, 7, 0) == Square(0, 1)
    ensures !IsLightAsWritten(SquareAt(Chess.White, 7, 7)) && SquareAt(Chess.White, 7, 7) == Square(7, 1)
  {
  }

  /** The colour of a square on a real board: a1 is dark. */
  predicate IsLight(s: Square)
  {
    (s.file + s.rank) % 2 == 0
  }

  /** The intended colouring: each player has a light square in the corner
      on their right (h1 for white, a8 for black) and a dark one on their left,
      and the colour alternates between squares that share an edge. */
  lemma StandardColouring(c: Chess.Color, row: int, col: int)
    requires 0 <= row < 8 && 0 <= col < 8
    ensures IsLight(SquareAt(c, 7, 7)) && !IsLight(SquareAt(c, 7, 0))
    ensures col < 7 ==> (IsLight(SquareAt(c, row, col)) <==> !IsLight(SquareAt(c, row, col + 1)))
    ensures row < 7 ==> (IsLight(SquareAt(c, row, col)) <==> !IsLight(SquareAt(c, row + 1, col)))
  {
    BlackSeesTheBoardTurned(7, 7);
    BlackSeesTheBoardTurned(7, 0);
    BlackSeesTheBoardTurned(0, 0);
    BlackSeesTheBoardTurned(0, 7);
    var here := SquareAt(c, row, col);
    BlackSeesTheBoardTurned(row, col);
    if col < 7 {
      BlackSeesTheBoardTurned(row, col + 1);
      var right := SquareAt(c, row, col + 1);
      assert right.file + right.rank == here.file + here.rank + (if c == Chess.White then 1 else -1);
      NeighbourParity(here.file + here.rank, right.file + right.rank);
    }
    if row < 7 {
      BlackSeesTheBoardTurned(row + 1, col);
      var below := SquareAt(c, row + 1, col);
      assert below.file + below.rank == here.file + here.rank + (if c == Chess.White then -1 else 1);
      NeighbourParity(here.file + here.rank, below.file + below.rank);
    }
  }

  /** Numbers one apart have opposite parity. */
  lemma NeighbourParity(x: int, y: int)
    requires y == x + 1 || y == x - 1
    ensures x % 2 == 0 <==> y % 2 != 0
  {
  }

  /** Both tests compare the parities of the file index and the rank: the
      written one calls a square light when they differ, the intended one
      when they agree. */
  lemma ColourParity(s: Square)
    ensures IsLightAsWritten(s) <==> s.file % 2 != s.rank % 2
    ensures IsLight(s) <==> s.file % 2 == s.rank % 2
  {
  }

  /** The written test paints every square in the opposite colour. */
  lemma AsWrittenIsInverted(s: Square)
    ensures IsLightAsWritten(s) <==> !IsLight(s)
  {
  }

  // ----- turn -----

  /** `isMyTurn`: false while there is no engine instance (`engineTurn` None),
      otherwise whether the engine's side to move is the player's colour. */
  function IsMyTurn(engineTurn: Option<Chess.Color>, g: Chess.ChessGame, me: Id): (r: bool)
    ensures engineTurn.None? ==> !r
    ensures r <==> engineTurn.Some? && (engineTurn.value == Chess.White <==> g.first == me)
  {
    match engineTurn
    case None => false
    case Some(t) => t == Chess.PlayerColor(g, me)
  }

  // ----- selection -----

  /** The board's selection state: the selected square and its move targets. */
  datatype Selection = Selection(selected: Option<Square>, validMoves: seq<Square>)

  /** What `onMove` receives. */
  datatype Move = Move(from: Square, to: Square, promotion: char)

  const NoSelection: Selection := Selection(None, [])

  /** What the engine reports about the current position: the colour of the
      piece on a square (`chess.get`), and the targets of the piece on a
      square (`chess.moves({square})`). */
  datatype Position = Position(pieceAt: Square -> Option<Chess.Color>, targets: Square -> seq<Square>)

  /** `handleSquareClick`: the new selection and the move emitted, if any.
      `engine` says whether an engine instance exists. */
  function Click(s: Selection, square: Square, isMyTurn: bool, engine: bool, pos: Position,
                 playerColor: Chess.Color): (r: (Selection, Option<Move>))
    ensures !isMyTurn || !engine ==> r == (s, None)
    ensures isMyTurn && engine && s.selected.Some? && square in s.validMoves ==>
      r == (NoSelection, Some(Move(s.selected.value, square, 'q')))
    ensures r.1.Some? <==> isMyTurn && engine && s.selected.Some? && square in s.validMoves
    ensures isMyTurn && engine && r.1.None? ==>
      r.0 == (if pos.pieceAt(square) == Some(playerColor) then Selection(Some(square), pos.targets(square))
              else NoSelection)
  {
    if !isMyTurn || !engine then (s, None)
    else if s.selected.Some? && square in s.validMoves then
      (NoSelection, Some(Move(s.selected.value, square, 'q')))
    else if pos.pieceAt(square) == Some(playerColor) then
      (Selection(Some(square), pos.targets(square)), None)
    else (NoSelection, None)
  }

  /** The selection agrees with the engine: nothing selected and no targets, or
      one of the player's pieces selected together with the engine's targets
      for it. */
  predicate Agrees(s: Selection, pos: Position, playerColor: Chess.Color)
  {
    match s.selected
    case None => s.validMoves == []
    case Some(sq) => pos.pieceAt(sq) == Some(playerColor) && s.validMoves == pos.targets(sq)
  }

  /** Clicks keep the selection in agreement with the engine, and every move
      the board emits starts on one of the player's pieces and ends on a
      target the engine listed for it. */
  lemma ClickKeepsAgreement(s: Selection, square: Square, isMyTurn: bool, engine: bool, pos: Position,
                            playerColor: Chess.Color)
    requires Agrees(s, pos, playerColor)
    ensures var r := Click(s, square, isMyTurn, engine, pos, playerColor);
      && Agrees(r.0, pos, playerColor)
      && (r.1.Some? ==>
            && pos.pieceAt(r.1.value.from) == Some(playerColor)
            && r.1.value.to in pos.targets(r.1.value.from)
            && r.1.value.promotion == 'q')
  {
  }

  /** Clicking the selected piece again does not deselect it (unless the
      engine lists its own square as a target): it is selected afresh. */
  lemma ReclickKeepsSelection(sq: Square, pos: Position, playerColor: Chess.Color)
    requires pos.pieceAt(sq) == Some(playerColor) && sq !in pos.targets(sq)
    ensures var s := Selection(Some(sq), pos.targets(sq));
      Click(s, sq, true, true, pos, playerColor) == (s, None)
  {
  }

  /** A move the board emits reaches the move handler with the turn check
      passed: the board only emits on the player's turn as the engine sees it,
      which is the handler's own test. */
  lemma EmittedMovePassesTurnCheck(g: Chess.ChessGame, me: Id, engineTurn: Option<Chess.Color>, s: Selection,
                                   square: Square, pos: Position, answer: Chess.EngineAnswer)
    requires Click(s, square, IsMyTurn(engineTurn, g, me), engineTurn.Some?, pos, Chess.PlayerColor(g, me)).1.Some?
    ensures var r := Chess.PlanChessMove(g, me, true, engineTurn.value, answer);
      r.Ok? || r == Err(Chess.IllegalMove)
  {
  }
}
