/** Accepted requests with their timetables written out, for games played move by move. */
module Departures {
  import opened Pieces
  import opened Paths
  import opened Simulation
  import opened Motions
  import opened Rules
  import opened Games

  /** The durations of `constants.py`, on a board of eight rows. */
  const CLASSIC := Config(1000, 1000, 1500, 500, 8)

  /** A game is played one operation after the other. */
  lemma PlayOn(cfg: Config, g: Game, ops: seq<Op>, n: nat)
    requires n < |ops|
    ensures Play(cfg, g, ops[..0]) == g
    ensures Play(cfg, g, ops[..n + 1]) == Do(cfg, Play(cfg, g, ops[..n]), ops[n])
  {
    hide Do;
    assert ops[..n + 1][..n] == ops[..n];
  }

  /** The `n` cells below `source`. */
  function Below(source: Position, n: nat): seq<Position> {
    seq(n, i requires 0 <= i < n => Position(source.row + i + 1, source.col))
  }

  lemma PathBelow(source: Position, n: nat)
    requires n > 0
    ensures PathCells(source, Position(source.row + n, source.col)) == Below(source, n)
    ensures Aligned(source, Position(source.row + n, source.col))
  {
    var destination := Position(source.row + n, source.col);
    assert Distance(source, destination) == n;
    forall i | 0 <= i < n ensures Toward(source, destination, i + 1) == Below(source, n)[i] {
    }
  }

  lemma PathNextDoor(source: Position, destination: Position)
    requires Distance(source, destination) == 1
    ensures PathCells(source, destination) == [destination] && Aligned(source, destination)
  {
    assert Aligned(source, destination);
    assert |PathCells(source, destination)| == 1;
    PathShape(source, destination);
    hide *;
  }

  /** A step to the next cell takes one move duration and crosses nothing. */
  lemma StepNextDoor(cfg: Config, board: Cells, source: Position, destination: Position, clock: int)
    requires Distance(source, destination) == 1
    ensures Timetable(source, destination, clock, PerCell(cfg.moveDuration, source, destination)) ==
      [Stop(destination, clock + cfg.moveDuration)]
    ensures ClearBetween(board, source, destination)
  {
    PathNextDoor(source, destination);
    hide PathCells, Aligned, Distance;
  }

  lemma StepsBelow(cfg: Config, board: Cells, source: Position, n: nat, clock: int)
    requires n > 0 && forall i :: 0 <= i < n - 1 ==> Below(source, n)[i] !in board
    ensures var destination := Position(source.row + n, source.col);
      && Timetable(source, destination, clock, PerCell(cfg.moveDuration, source, destination)) ==
        seq(n, k requires 0 <= k < n => Stop(Position(source.row + k + 1, source.col),
          clock + cfg.moveDuration * (k + 1)))
      && ClearBetween(board, source, destination)
  {
    PathBelow(source, n);
    hide PathCells, Aligned;
  }

  /** An accepted move: the piece is not guarding its cell and not resting. */
  lemma Departs(cfg: Config, g: Game, source: Position, destination: Position, stops: seq<Stop>)
    requires !g.over && !g.arb.IsJumpingOn(source) && source in g.arb.world.board && !g.RestsOn(source)
    requires Verdict(g.arb.world.board, cfg.height, source, destination) == Ok
    requires Timetable(source, destination, g.arb.clock, PerCell(cfg.moveDuration, source, destination)) == stops
    ensures var w, seen := g.arb.world, g.Look(source);
      var f := Flight(w.board[source], source, g.arb.clock, stops);
      RequestMove(cfg, g, source, destination) ==
        Reply(seen.(arb := seen.arb.(world := World(w.board - {source}, w.flights + [f], w.jumps))), Ok)
  {
    hide Verdict, Timetable, PerCell;
  }
}
