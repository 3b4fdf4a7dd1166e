/** The cells a motion travels over, and the rules' own, independent walk over them. */
module Paths {
  import opened Pieces

  function Abs(n: int): nat {
    if n < 0 then -n else n
  }

  /** `n` steps in the direction of the sign of `delta`. */
  function Steps(delta: int, n: int): int {
    if delta > 0 then n else if delta < 0 then -n else 0
  }

  function Distance(source: Position, destination: Position): nat {
    Max(Abs(destination.row - source.row), Abs(destination.col - source.col))
  }

  /** On one row, one column or one diagonal. */
  predicate Aligned(source: Position, destination: Position) {
    var dr, dc := destination.row - source.row, destination.col - source.col;
    dr == 0 || dc == 0 || Abs(dr) == Abs(dc)
  }

  /** The cell `n` steps from `source` towards `destination`. */
  function Toward(source: Position, destination: Position, n: int): Position {
    Position(source.row + Steps(destination.row - source.row, n), source.col + Steps(destination.col - source.col, n))
  }

  /** `Motion.path_cells`: every cell of an aligned path but its source; otherwise (a knight)
      only the destination. */
  function PathCells(source: Position, destination: Position): seq<Position> {
    if source == destination then []
    else if Aligned(source, destination) then
      seq(Distance(source, destination), n requires 0 <= n => Toward(source, destination, n + 1))
    else [destination]
  }

  /** The path ends at the destination, never revisits a cell and never its source. */
  lemma PathShape(source: Position, destination: Position)
    ensures var path := PathCells(source, destination);
      && (path == [] <==> source == destination)
      && (path != [] ==> path[|path| - 1] == destination)
      && (forall i :: 0 <= i < |path| ==> path[i] != source)
      && (forall i, j :: 0 <= i < j < |path| ==> path[i] != path[j])
  {
  }

  /** Re-aiming a motion at a cell of its own path keeps the path up to that cell. */
  lemma PathPrefix(source: Position, destination: Position, n: nat)
    requires n < |PathCells(source, destination)|
    ensures PathCells(source, PathCells(source, destination)[n]) == PathCells(source, destination)[..n + 1]
  {
    var path := PathCells(source, destination);
    if Aligned(source, destination) {
      var stop := path[n];
      assert stop == Toward(source, destination, n + 1);
      assert Aligned(source, stop) && Distance(source, stop) == n + 1;
      forall i | 0 <= i <= n ensures Toward(source, stop, i + 1) == path[i] {
      }
    }
  }

  ghost predicate ClearBetween(board: Cells, source: Position, destination: Position) {
    var path := PathCells(source, destination);
    forall i :: 0 <= i < |path| - 1 ==> path[i] !in board
  }

  /** `path_is_clear`, the rules' own walk. It ends for aligned cells, the only ones it is
      called on, and agrees with the path the motion will travel. */
  method PathIsClear(board: Cells, source: Position, destination: Position) returns (clear: bool)
    requires Aligned(source, destination)
    ensures clear <==> ClearBetween(board, source, destination)
  {
    var dr := Steps(destination.row - source.row, 1);
    var dc := Steps(destination.col - source.col, 1);
    var r, c := source.row + dr, source.col + dc;
    ghost var n := 1;
    ghost var path := PathCells(source, destination);
    PathShape(source, destination);
    while (r, c) != (destination.row, destination.col)
      invariant source == destination ==> n == 1
      invariant source != destination ==> 1 <= n <= |path|
      invariant Position(r, c) == Toward(source, destination, n)
      invariant forall i :: 0 <= i < n - 1 ==> path[i] !in board
      decreases |path| - n
    {
      assert Position(r, c) == path[n - 1] && n < |path|;
      if Position(r, c) in board {
        return false;
      }
      r := r + dr;
      c := c + dc;
      n := n + 1;
    }
    return true;
  }
}
