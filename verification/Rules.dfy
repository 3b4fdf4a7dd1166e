/** `rules/`: which requests become motions. */
module Rules {
  import opened Pieces
  import opened Paths

  datatype Reason =
    | Ok | GameOver | JumpInProgress | Resting | EmptySource | FriendlyDestination | IllegalPieceMove

  /** `PAWN_DIRECTION`: white moves up the board, black down. */
  function PawnDirection(color: Color): int {
    if color.White? then -1 else 1
  }

  predicate Straight(dr: int, dc: int) {
    (dr == 0) != (dc == 0)
  }

  predicate Diagonal(dr: int, dc: int) {
    Abs(dr) == Abs(dc) && Abs(dr) != 0
  }

  predicate KingMoves(dr: int, dc: int) {
    Max(Abs(dr), Abs(dc)) == 1
  }

  predicate KnightMoves(dr: int, dc: int) {
    (Abs(dr) == 1 && Abs(dc) == 2) || (Abs(dr) == 2 && Abs(dc) == 1)
  }

  predicate PawnMoves(board: Cells, height: nat, color: Color, start: Position, end: Position) {
    var dr, dc := end.row - start.row, end.col - start.col;
    var direction := PawnDirection(color);
    var backRank := if direction < 0 then height - 1 else 0;
    var startRow := backRank + direction;
    var occupied := end in board;
    if dc == 0 then
      if dr == direction && !occupied then true
      else if start.row == startRow && dr == 2 * direction && !occupied then
        Position(start.row + direction, start.col) !in board
      else false
    else
      Abs(dc) == 1 && dr == direction && occupied
  }

  /** What each `MovementStrategy.is_legal` accepts. */
  ghost predicate IsLegal(board: Cells, height: nat, kind: Kind, color: Color, start: Position, end: Position) {
    var dr, dc := end.row - start.row, end.col - start.col;
    match kind
    case King => KingMoves(dr, dc)
    case Rook => Straight(dr, dc) && ClearBetween(board, start, end)
    case Bishop => Diagonal(dr, dc) && ClearBetween(board, start, end)
    case Queen => (Straight(dr, dc) || Diagonal(dr, dc)) && ClearBetween(board, start, end)
    case Knight => KnightMoves(dr, dc)
    case Pawn => PawnMoves(board, height, color, start, end)
  }

  ghost function Verdict(board: Cells, height: nat, source: Position, destination: Position): Reason {
    if source !in board then EmptySource
    else if destination in board && board[destination].color == board[source].color then FriendlyDestination
    else if !IsLegal(board, height, board[source].kind, board[source].color, source, destination) then IllegalPieceMove
    else Ok
  }

  /** `RuleEngine.validate_move` with the default registry. */
  method ValidateMove(board: Cells, height: nat, source: Position, destination: Position) returns (reason: Reason)
    ensures reason == Verdict(board, height, source, destination)
  {
    if source !in board {
      return EmptySource;
    }
    var piece := board[source];
    if destination in board && board[destination].color == piece.color {
      return FriendlyDestination;
    }
    var dr, dc := destination.row - source.row, destination.col - source.col;
    var legal: bool;
    match piece.kind {
      case King => legal := KingMoves(dr, dc);
      case Rook =>
        legal := Straight(dr, dc);
        if legal { legal := PathIsClear(board, source, destination); }
      case Bishop =>
        legal := Diagonal(dr, dc);
        if legal { legal := PathIsClear(board, source, destination); }
      case Queen =>
        legal := Straight(dr, dc) || Diagonal(dr, dc);
        if legal { legal := PathIsClear(board, source, destination); }
      case Knight => legal := KnightMoves(dr, dc);
      case Pawn => legal := PawnMoves(board, height, piece.color, source, destination);
    }
    return if legal then Ok else IllegalPieceMove;
  }

  /** Milliseconds for one cell of the path: a knight covers its distance of two in one cell. */
  function PerCell(moveDuration: int, source: Position, destination: Position): int {
    if Aligned(source, destination) then moveDuration else 2 * moveDuration
  }

  lemma EvenSpeed(moveDuration: int, source: Position, destination: Position)
    requires Aligned(source, destination) || Distance(source, destination) == 2
    ensures moveDuration * Distance(source, destination) ==
      PerCell(moveDuration, source, destination) * |PathCells(source, destination)|
  {
    var path := PathCells(source, destination);
    if Aligned(source, destination) {
      assert |path| == Distance(source, destination);
    } else {
      assert |path| == 1;
    }
  }

  /** An accepted move starts at a piece, goes somewhere else, ends on no friend, and nothing
      stands between: the motion has at least one cell, a positive whole number of
      milliseconds for each, and meets nothing that is on the board now. */
  lemma AcceptedMove(board: Cells, height: nat, source: Position, destination: Position, moveDuration: int)
    requires Verdict(board, height, source, destination) == Ok && moveDuration > 0
    ensures var path := PathCells(source, destination);
      && source in board && source != destination
      && (destination in board ==> board[destination].color != board[source].color)
      && |path| >= 1 && path[|path| - 1] == destination
      && (forall i :: 0 <= i < |path| - 1 ==> path[i] !in board)
      && moveDuration * Distance(source, destination) == PerCell(moveDuration, source, destination) * |path|
      && PerCell(moveDuration, source, destination) >= moveDuration
  {
    PathShape(source, destination);
    var dr, dc := destination.row - source.row, destination.col - source.col;
    match board[source].kind {
      case King =>
      case Rook =>
      case Bishop =>
      case Queen =>
      case Knight =>
      case Pawn =>
        assert Abs(dr) <= 2 && Aligned(source, destination);
    }
    EvenSpeed(moveDuration, source, destination);
  }
}
