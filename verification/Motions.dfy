/** `realtime/motion.py`: a motion on its way, and why shortening it is taking a prefix. */
module Motions {
  import opened Pieces
  import opened Paths
  import opened Simulation

  /** When each cell of a path is reached at an even `perCell` milliseconds a cell. */
  ghost function Timetable(source: Position, destination: Position, start: int, perCell: int): seq<Stop> {
    var path := PathCells(source, destination);
    seq(|path|, k requires 0 <= k < |path| => Stop(path[k], start + perCell * (k + 1)))
  }

  lemma LaterCellsTakeLonger(perCell: int, j: int, k: int)
    requires perCell > 0 && j < k
    ensures perCell * j < perCell * k
  {
    assert perCell * (k - j) > 0;
  }

  /** An even timetable is a valid flight: times rise, cells are distinct, none is the source. */
  lemma TimetableValid(piece: Piece, source: Position, destination: Position, start: int, perCell: int)
    requires perCell > 0
    ensures var f := Flight(piece, source, start, Timetable(source, destination, start, perCell));
      && f.Valid()
      && f.Destination() == destination
      && f.Arrival() == start + perCell * |PathCells(source, destination)|
      && (f.stops != [] ==> f.stops[0].time == start + perCell)
  {
    var stops := Timetable(source, destination, start, perCell);
    PathShape(source, destination);
    forall k | 0 <= k < |stops| ensures start < stops[k].time {
      LaterCellsTakeLonger(perCell, 0, k + 1);
    }
    forall j, k | 0 <= j < k < |stops| ensures stops[j].time < stops[k].time {
      LaterCellsTakeLonger(perCell, j + 1, k + 1);
    }
  }

  /** Re-aiming at cell `k - 1` of the path (at the source for 0) keeps the first `k` cells of
      the path and the time at which each is reached. */
  lemma ShorteningKeepsHistory(source: Position, destination: Position, start: int, perCell: int, k: nat)
    requires k < |PathCells(source, destination)|
    ensures var path := PathCells(source, destination);
      var stop := if k > 0 then path[k - 1] else source;
      && PathCells(source, stop) == path[..k]
      && Timetable(source, stop, start, perCell) == Timetable(source, destination, start, perCell)[..k]
  {
    if k > 0 {
      PathPrefix(source, destination, k - 1);
    }
  }

  function IndexOf(path: seq<Position>, cell: Position): (k: nat)
    requires cell in path
    ensures k < |path| && path[k] == cell && cell !in path[..k]
  {
    if path[0] == cell then 0
    else
      var rest := IndexOf(path[1..], cell);
      assert path[..rest + 1] == [path[0]] + path[1..][..rest];
      rest + 1
  }

  lemma IndexOfStop(path: seq<Position>, k: nat)
    requires k < |path| && forall i, j :: 0 <= i < j < |path| ==> path[i] != path[j]
    ensures IndexOf(path, path[k]) == k
  {
  }

  lemma ProductAtLeast(d: int, n: int)
    requires d > 0 && n > 0
    ensures d * n >= n
  {
  }

  lemma Distribute(p: int, q: int, n: int)
    ensures (p - q) * n == p * n - q * n
  {
  }

  lemma ExactDivision(perCell: int, n: int)
    requires n > 0
    ensures (perCell * n) / n == perCell
  {
    var m := perCell * n;
    var q := m / n;
    assert m == q * n + m % n;
    Distribute(perCell, q, n);
    if perCell > q {
      ProductAtLeast(perCell - q, n);
    } else if perCell < q {
      Distribute(q, perCell, n);
      ProductAtLeast(q - perCell, n);
    }
  }

  ghost function CellsOf(f: Flight): seq<Position> {
    seq(|f.stops|, k requires 0 <= k < |f.stops| => f.stops[k].cell)
  }

  /** A motion in flight. The engine launches it with a duration that is a whole number of
      milliseconds for each cell; `perCell` records that number. */
  class Motion {
    const piece: Piece
    const source: Position
    var destination: Position
    const startTime: int
    var arrivalTime: int
    ghost const perCell: int

    ghost predicate Valid()
      reads this
    {
      perCell > 0 && arrivalTime == startTime + perCell * |PathCells(source, destination)|
    }

    ghost function AsFlight(): Flight
      reads this
    {
      Flight(piece, source, startTime, Timetable(source, destination, startTime, perCell))
    }

    constructor (piece: Piece, source: Position, destination: Position, startTime: int, arrivalTime: int,
                 ghost perCell: int)
      requires perCell > 0 && arrivalTime == startTime + perCell * |PathCells(source, destination)|
      ensures Valid()
      ensures this.piece == piece && this.source == source && this.startTime == startTime
      ensures AsFlight() == Flight(piece, source, startTime, Timetable(source, destination, startTime, perCell))
      ensures this.destination == destination && this.arrivalTime == arrivalTime
    {
      this.piece := piece;
      this.source := source;
      this.destination := destination;
      this.startTime := startTime;
      this.arrivalTime := arrivalTime;
      this.perCell := perCell;
    }

    function Path(): seq<Position>
      reads this
    {
      PathCells(source, destination)
    }

    /** Start, destination and arrival are those of the timetable. */
    lemma Reads()
      requires Valid()
      ensures AsFlight().Valid()
      ensures CellsOf(AsFlight()) == Path()
      ensures AsFlight().Destination() == destination
      ensures AsFlight().Arrival() == arrivalTime
    {
      TimetableValid(piece, source, destination, startTime, perCell);
    }

    method TimeAtCell(cell: Position) returns (time: int)
      requires Valid() && cell in Path()
      ensures cell in CellsOf(AsFlight()) && AsFlight().stops[IndexOf(CellsOf(AsFlight()), cell)] == Stop(cell, time)
    {
      Reads();
      var path := Path();
      var index := IndexOf(path, cell);
      ExactDivision(perCell, |path|);
      time := startTime + (arrivalTime - startTime) / |path| * (index + 1);
    }

    /** Shortening keeps the timetable up to the cell before `cell` and nothing else. */
    method TruncateBefore(cell: Position)
      requires Valid() && cell in Path()
      modifies this
      ensures Valid()
      ensures cell in CellsOf(old(AsFlight()))
      ensures AsFlight() == old(AsFlight()).Cut(IndexOf(CellsOf(old(AsFlight())), cell))
    {
      Reads();
      var path := Path();
      var index := IndexOf(path, cell);
      ExactDivision(perCell, |path|);
      ShorteningKeepsHistory(source, destination, startTime, perCell, index);
      var perCellMs := (arrivalTime - startTime) / |path|;
      destination := if index > 0 then path[index - 1] else source;
      arrivalTime := startTime + perCellMs * index;
    }
  }
}
