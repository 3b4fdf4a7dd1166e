/** The values every layer of the game shares: positions, pieces and the board as a map. */
module Pieces {
  datatype Option<+T> = None | Some(value: T)

  datatype Position = Position(row: int, col: int)

  datatype Color = White | Black {
    function Other(): Color {
      if White? then Black else White
    }
  }

  datatype Kind = King | Queen | Rook | Bishop | Knight | Pawn

  /** A piece id. The source compares ids only for equality and order, so an id stands for
      its rank in the order of the id strings. */
  type Id = int

  datatype Piece = Piece(id: Id, color: Color, kind: Kind, cell: Position) {
    function AsToken(): Token {
      Token(id, color, kind)
    }
  }

  /** A piece wherever it is: on a cell or in flight. */
  datatype Token = Token(id: Id, color: Color, kind: Kind)

  type Cells = map<Position, Piece>

  function PieceAt(board: Cells, cell: Position): Option<Piece> {
    if cell in board then Some(board[cell]) else None
  }

  function Max(a: int, b: int): int {
    if a < b then b else a
  }
}
