/** Which moves are accepted, said in terms of squares, and the symmetry of the two colours. */
module RuleLaws {
  import opened Pieces
  import opened Paths
  import opened Rules

  // ----- what is in the way ------------------------------------------------------------------------

  predicate Between(a: int, x: int, b: int) {
    a <= x <= b || b <= x <= a
  }

  /** The cell lies on the straight line from `s` to `d`, strictly between them. */
  predicate InTheWay(s: Position, d: Position, p: Position) {
    && p != s && p != d
    && Between(s.row, p.row, d.row) && Between(s.col, p.col, d.col)
    && (p.row - s.row) * (d.col - s.col) == (p.col - s.col) * (d.row - s.row)
  }

  ghost predicate NothingInTheWay(board: Cells, s: Position, d: Position) {
    forall p :: p in board ==> !InTheWay(s, d, p)
  }

  lemma Cancel(a: int, b: int, n: int)
    requires n != 0 && a * n == b * n
    ensures a == b
  {
    assert (a - b) * n == 0;
  }

  /** Every cell of the path but the last is in the way. */
  lemma PathIsInTheWay(s: Position, d: Position, i: nat)
    requires Aligned(s, d) && i < |PathCells(s, d)| - 1
    ensures InTheWay(s, d, PathCells(s, d)[i])
  {
    var p, dr, dc := PathCells(s, d)[i], d.row - s.row, d.col - s.col;
    assert p == Toward(s, d, i + 1);
    var n := i + 1;
    assert n < Distance(s, d);
    if dr == 0 || dc == 0 {
    } else if dr == dc {
      assert p.row - s.row == p.col - s.col;
    } else {
      assert dr == -dc && p.row - s.row == -(p.col - s.col);
      Negate(p.col - s.col, dc);
    }
  }

  lemma Negate(a: int, b: int)
    ensures (-a) * b == a * (-b)
  {
  }

  /** Everything in the way is on the path, before its last cell. */
  lemma InTheWayIsOnPath(s: Position, d: Position, p: Position) returns (i: nat)
    requires Aligned(s, d) && InTheWay(s, d, p)
    ensures i < |PathCells(s, d)| - 1 && PathCells(s, d)[i] == p
  {
    var dr, dc := d.row - s.row, d.col - s.col;
    i := Distance(s, p) - 1;
    if dr == 0 || dc == 0 {
    } else if dr == dc {
      Cancel(p.row - s.row, p.col - s.col, dc);
    } else {
      assert dr == -dc;
      Negate(p.col - s.col, dc);
      Cancel(p.row - s.row, -(p.col - s.col), dc);
    }
    assert p == Toward(s, d, i + 1);
    assert i + 1 < Distance(s, d);
  }

  lemma ClearIsNothingInTheWay(board: Cells, s: Position, d: Position)
    requires Aligned(s, d)
    ensures ClearBetween(board, s, d) <==> NothingInTheWay(board, s, d)
  {
    var path := PathCells(s, d);
    if ClearBetween(board, s, d) {
      forall p | p in board ensures !InTheWay(s, d, p) {
        if InTheWay(s, d, p) {
          var i := InTheWayIsOnPath(s, d, p);
        }
      }
    }
    if NothingInTheWay(board, s, d) {
      forall i | 0 <= i < |path| - 1 ensures path[i] !in board {
        PathIsInTheWay(s, d, i);
      }
    }
  }

  // ----- what each piece may do --------------------------------------------------------------------

  /** No piece of the mover's colour stands on the destination; the mover itself is one. */
  predicate NoFriendOn(board: Cells, s: Position, d: Position)
    requires s in board
  {
    d in board ==> board[d].color != board[s].color
  }

  lemma KingRule(board: Cells, height: nat, s: Position, d: Position)
    requires s in board && board[s].kind == King
    ensures Verdict(board, height, s, d) == Ok <==>
      NoFriendOn(board, s, d) && -1 <= d.row - s.row <= 1 && -1 <= d.col - s.col <= 1
  {
  }

  lemma KnightSquares(dr: int, dc: int)
    ensures dr * dr + dc * dc == 5 <==> KnightMoves(dr, dc)
  {
    if dr > 2 { Square(dr, 3); } else if dr < -2 { Square(-dr, 3); }
    if dc > 2 { Square(dc, 3); } else if dc < -2 { Square(-dc, 3); }
    assert dr * dr >= 0 && dc * dc >= 0;
    if -2 <= dr <= 2 && -2 <= dc <= 2 {
      assert dr == -2 || dr == -1 || dr == 0 || dr == 1 || dr == 2;
      assert dc == -2 || dc == -1 || dc == 0 || dc == 1 || dc == 2;
    }
  }

  lemma Square(n: int, m: int)
    requires n >= m >= 0
    ensures n * n >= m * m && (-n) * (-n) == n * n
  {
    assert n * n - m * m == (n - m) * (n + m);
  }

  lemma KnightRule(board: Cells, height: nat, s: Position, d: Position)
    requires s in board && board[s].kind == Knight
    ensures var dr, dc := d.row - s.row, d.col - s.col;
      Verdict(board, height, s, d) == Ok <==> NoFriendOn(board, s, d) && dr * dr + dc * dc == 5
  {
    KnightSquares(d.row - s.row, d.col - s.col);
  }

  lemma RookRule(board: Cells, height: nat, s: Position, d: Position)
    requires s in board && board[s].kind == Rook
    ensures Verdict(board, height, s, d) == Ok <==>
      NoFriendOn(board, s, d) && NothingInTheWay(board, s, d) && (d.row == s.row || d.col == s.col)
  {
    hide ClearBetween, NothingInTheWay;
    if d.row == s.row || d.col == s.col { ClearIsNothingInTheWay(board, s, d); }
  }

  lemma BishopRule(board: Cells, height: nat, s: Position, d: Position)
    requires s in board && board[s].kind == Bishop
    ensures Verdict(board, height, s, d) == Ok <==>
      NoFriendOn(board, s, d) && NothingInTheWay(board, s, d) &&
      (d.row - s.row == d.col - s.col || d.row - s.row == s.col - d.col)
  {
    hide ClearBetween, NothingInTheWay;
    if Aligned(s, d) { ClearIsNothingInTheWay(board, s, d); }
  }

  /** A queen moves like a rook or like a bishop. */
  lemma QueenRule(board: Cells, height: nat, s: Position, d: Position)
    requires s in board && board[s].kind == Queen
    ensures var rook := board[s := board[s].(kind := Rook)];
      var bishop := board[s := board[s].(kind := Bishop)];
      Verdict(board, height, s, d) == Ok <==>
        Verdict(rook, height, s, d) == Ok || Verdict(bishop, height, s, d) == Ok
  {
    var rook, bishop := board[s := board[s].(kind := Rook)], board[s := board[s].(kind := Bishop)];
    assert rook.Keys == board.Keys && bishop.Keys == board.Keys;
    assert ClearBetween(board, s, d) <==> ClearBetween(rook, s, d);
    assert ClearBetween(board, s, d) <==> ClearBetween(bishop, s, d);
    hide ClearBetween;
  }

  /** A pawn moves towards the rank on which it is promoted, white up and black down the board:
      one empty cell, two from its second rank, or one cell diagonally onto an enemy. */
  lemma PawnRule(board: Cells, height: nat, s: Position, d: Position)
    requires s in board && board[s].kind == Pawn
    ensures var ahead := if board[s].color.White? then s.row - d.row else d.row - s.row;
      var second := if board[s].color.White? then height - 2 else 1;
      Verdict(board, height, s, d) == Ok <==>
        || (d.col == s.col && ahead == 1 && d !in board)
        || (d.col == s.col && ahead == 2 && s.row == second && d !in board && NothingInTheWay(board, s, d))
        || ((d.col == s.col - 1 || d.col == s.col + 1) && ahead == 1
            && d in board && board[d].color == board[s].color.Other())
  {
    if d.col == s.col && Abs(d.row - s.row) == 2 {
      PathBetweenTwo(s, d);
      ClearIsNothingInTheWay(board, s, d);
    }
  }

  lemma PathBetweenTwo(s: Position, d: Position)
    requires d.col == s.col && Abs(d.row - s.row) == 2
    ensures PathCells(s, d) == [Position(s.row + (if d.row > s.row then 1 else -1), s.col), d]
  {
    var path := PathCells(s, d);
    assert |path| == 2 && path[0] == Toward(s, d, 1) && path[1] == Toward(s, d, 2);
  }

  /** Why a move is refused: nothing stands there, a friend is in the place, or the piece does
      not move like that. */
  lemma Refusals(board: Cells, height: nat, s: Position, d: Position)
    ensures Verdict(board, height, s, d) == EmptySource <==> s !in board
    ensures Verdict(board, height, s, d) == FriendlyDestination <==> s in board && !NoFriendOn(board, s, d)
    ensures Verdict(board, height, s, d) in {Ok, EmptySource, FriendlyDestination, IllegalPieceMove}
  {
  }

  // ----- the two colours -------------------------------------------------------------------------------

  /** The cell seen from the other side of the board. */
  function Flip(height: nat, p: Position): Position {
    Position(height - 1 - p.row, p.col)
  }

  /** The board turned upside down, with the colours swapped. */
  function Flipped(height: nat, board: Cells): (flipped: Cells)
    ensures forall p :: p in flipped <==> Flip(height, p) in board
    ensures forall p :: p in flipped ==>
      flipped[p].color == board[Flip(height, p)].color.Other() && flipped[p].kind == board[Flip(height, p)].kind
  {
    var cells := set p | p in board :: Flip(height, p);
    assert forall p :: p in cells <==> Flip(height, p) in board by {
      forall p ensures p in cells <==> Flip(height, p) in board {
        assert Flip(height, Flip(height, p)) == p;
      }
    }
    map p | p in cells ::
      var piece := board[Flip(height, p)];
      Piece(piece.id, piece.color.Other(), piece.kind, p)
  }

  lemma FlippedPath(height: nat, s: Position, d: Position)
    ensures |PathCells(Flip(height, s), Flip(height, d))| == |PathCells(s, d)|
    ensures forall i :: 0 <= i < |PathCells(s, d)| ==>
      PathCells(Flip(height, s), Flip(height, d))[i] == Flip(height, PathCells(s, d)[i])
  {
    var a, b := PathCells(s, d), PathCells(Flip(height, s), Flip(height, d));
    if s != d && Aligned(s, d) {
      forall i | 0 <= i < |a| ensures b[i] == Flip(height, a[i]) {
        assert a[i] == Toward(s, d, i + 1);
      }
    }
  }

  lemma FlippedClear(height: nat, board: Cells, s: Position, d: Position)
    ensures ClearBetween(Flipped(height, board), Flip(height, s), Flip(height, d)) <==> ClearBetween(board, s, d)
  {
    FlippedPath(height, s, d);
    hide PathCells;
    forall p ensures Flip(height, p) in Flipped(height, board) <==> p in board {
      assert Flip(height, Flip(height, p)) == p;
    }
    hide Flip;
  }

  lemma FlippedAt(height: nat, board: Cells, p: Position)
    ensures var flipped := Flipped(height, board);
      && (Flip(height, p) in flipped <==> p in board)
      && (p in board ==>
        && flipped[Flip(height, p)].color == board[p].color.Other()
        && flipped[Flip(height, p)].kind == board[p].kind)
  {
    assert Flip(height, Flip(height, p)) == p;
  }

  lemma PawnsAlike(board: Cells, height: nat, color: Color, s: Position, d: Position)
    ensures PawnMoves(Flipped(height, board), height, color.Other(), Flip(height, s), Flip(height, d)) <==>
      PawnMoves(board, height, color, s, d)
  {
    var ahead := Position(s.row + PawnDirection(color), s.col);
    FlippedAt(height, board, d);
    FlippedAt(height, board, ahead);
    assert Flip(height, ahead) == Position(Flip(height, s).row + PawnDirection(color.Other()), s.col);
    hide Flipped;
  }

  lemma LegalAlike(board: Cells, height: nat, kind: Kind, color: Color, s: Position, d: Position)
    ensures IsLegal(Flipped(height, board), height, kind, color.Other(), Flip(height, s), Flip(height, d)) <==>
      IsLegal(board, height, kind, color, s, d)
  {
    hide ClearBetween, Flipped, PawnMoves;
    FlippedClear(height, board, s, d);
    PawnsAlike(board, height, color, s, d);
  }

  /** Turning the board upside down and swapping the colours changes no verdict. */
  lemma ColoursAlike(board: Cells, height: nat, s: Position, d: Position)
    ensures Verdict(Flipped(height, board), height, Flip(height, s), Flip(height, d)) == Verdict(board, height, s, d)
  {
    hide IsLegal, Flipped, Flip;
    FlippedAt(height, board, s);
    FlippedAt(height, board, d);
    if s in board {
      LegalAlike(board, height, board[s].kind, board[s].color, s, d);
    }
  }
}
