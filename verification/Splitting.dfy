/** When it makes no difference how the time of `advance_time` is cut into calls. */
module Splitting {
  import opened Pieces
  import opened Simulation
  import opened SimulationLaws
  import opened Arbitration

  /** Advancing by `x` and then by `y` leaves the same arbiter as advancing by `x + y`, and
      the arrivals of the two calls together are those of the one. */
  ghost predicate StateSplits(a: Arb, x: nat, y: nat) {
    var whole, first := Advance(a, x + y), Advance(a, x);
    var second := Advance(first.arb, y);
    && second.arb == whole.arb
    && first.arrivals + second.arrivals == whole.arrivals
    && first.dropped + second.dropped == whole.dropped
  }

  /** So do the ended jumps that the calls report. */
  ghost predicate EndedSplit(a: Arb, x: nat, y: nat) {
    Advance(a, x).ended + Advance(Advance(a, x).arb, y).ended == Advance(a, x + y).ended
  }

  /** Nothing tells the two calls from the one, neither the state nor any report. */
  ghost predicate SplitInvisible(a: Arb, x: nat, y: nat) {
    StateSplits(a, x, y) && EndedSplit(a, x, y)
  }

  ghost predicate NoneEndBy(jumps: seq<Jump>, time: int) {
    forall g :: 0 <= g < |jumps| ==> time < jumps[g].endTime
  }

  lemma SplitWhileJumpsLast(a: Arb, x: nat, y: nat)
    requires a.world.Valid() && NoneEndBy(a.world.jumps, a.clock + x)
    ensures StateSplits(a, x, y)
  {
    hide Run, World.Valid;
    RunSplit(a.world, a.clock + x, a.clock + x + y);
    RunValid(a.world, a.clock + x);
    AllRemain(a.world.jumps, a.clock + x);
    var w := Run(a.world, a.clock + x).world;
    assert w.(jumps := a.world.jumps) == w;
  }

  lemma SplitByNothing(a: Arb, x: nat)
    requires a.world.Valid()
    ensures SplitInvisible(a, x, 0)
  {
    AdvanceSettles(a, x);
    AdvanceByNothing(Advance(a, x).arb);
  }

  // ----- a jump that ends in the first piece makes the cut visible --------------------------------

  ghost predicate GuardsOnce(jumps: seq<Jump>) {
    forall g, h :: 0 <= g < h < |jumps| ==> jumps[g].cell != jumps[h].cell
  }

  /** A white piece on the guarded cell and a black one about to land there. */
  function Raid(cell: Position, jumps: seq<Jump>, clock: int, arrival: int): Arb {
    var from := Position(cell.row, cell.col + 1);
    var raider := Piece(1, Black, Rook, from);
    Arb(World(map[cell := Piece(0, White, Rook, cell)], [Flight(raider, from, clock, [Stop(cell, arrival)])], jumps),
        clock, map[])
  }

  lemma RaidBefore(cell: Position, jumps: seq<Jump>, clock: int, arrival: int, bound: int)
    requires clock < arrival && bound < arrival
    ensures var w := Raid(cell, jumps, clock, arrival).world; w.Valid() && Run(w, bound) == Effect(w, [], [])
  {
    var w := Raid(cell, jumps, clock, arrival).world;
    forall o | IsCandidate(w, o) ensures bound < TimeOf(w, o) {
      assert o == Arrive(0);
    }
    QuietRunsNothing(w, bound);
  }

  /** The raider is destroyed if a guard is up, and takes the defender otherwise. */
  lemma RaidAfter(cell: Position, jumps: seq<Jump>, clock: int, arrival: int, bound: int)
    requires clock < arrival <= bound
    ensures var run := Run(Raid(cell, jumps, clock, arrival).world, bound);
      && cell in run.world.board
      && (run.world.board[cell].id == 0 <==> exists g :: 0 <= g < |jumps| && jumps[g].cell == cell)
  {
    var w := Raid(cell, jumps, clock, arrival).world;
    RaidBefore(cell, jumps, clock, arrival, clock);
    RaidIsNext(cell, jumps, clock, arrival, bound);
    RaidResolves(cell, jumps, clock, arrival);
    var after := Resolve(w, Arrive(0)).world;
    assert Quiet(after, bound) by {
      hide Resolve;
      forall o ensures !IsCandidate(after, o) {
      }
    }
    hide Raid, Resolve, World.Valid, IsNext, Quiet, Run;
    RunUnfold(w, Arrive(0), bound);
    QuietRunsNothing(after, bound);
  }

  lemma RaidIsNext(cell: Position, jumps: seq<Jump>, clock: int, arrival: int, bound: int)
    requires clock < arrival <= bound
    ensures IsNext(Raid(cell, jumps, clock, arrival).world, Arrive(0), bound)
  {
    var w := Raid(cell, jumps, clock, arrival).world;
    forall o | IsCandidate(w, o) ensures o == Arrive(0) {
    }
  }

  lemma RaidResolves(cell: Position, jumps: seq<Jump>, clock: int, arrival: int)
    requires clock < arrival
    ensures var w := Raid(cell, jumps, clock, arrival).world;
      && |w.flights| == 1
      && var after := Resolve(w, Arrive(0)).world;
         && after.flights == [] && cell in after.board
         && (after.board[cell].id == 0 <==> exists g :: 0 <= g < |jumps| && jumps[g].cell == cell)
  {
    var w := Raid(cell, jumps, clock, arrival).world;
    assert RemoveAt(w.flights, 0) == [];
    assert (exists g :: 0 <= g < |jumps| && jumps[g].cell == cell) <==> Intercepted(w.(flights := []), w.flights[0]);
  }

  /** A jump that ends by then is gone, and no other guards its cell. */
  lemma GuardGone(jumps: seq<Jump>, clock: int, g: nat)
    requires GuardsOnce(jumps) && g < |jumps| && jumps[g].endTime <= clock
    ensures !exists h :: 0 <= h < |Remaining(jumps, clock)| && Remaining(jumps, clock)[h].cell == jumps[g].cell
  {
    RemainingShape(jumps, clock);
  }

  lemma RaidTells(jumps: seq<Jump>, clock: int, x: nat, y: nat, g: nat)
    requires GuardsOnce(jumps) && g < |jumps| && jumps[g].endTime <= clock + x && y > 0
    ensures var a := Raid(jumps[g].cell, jumps, clock, clock + x + 1);
      var cell := jumps[g].cell;
      var whole, second := Advance(a, x + y).arb.world.board, Advance(Advance(a, x).arb, y).arb.world.board;
      && !StateSplits(a, x, y)
      && cell in whole && whole[cell].id == 0 && cell in second && second[cell].id != 0
  {
    hide Run, World.Valid, GuardsOnce, Remaining;
    var cell, t := jumps[g].cell, clock + x + 1;
    var a, left := Raid(cell, jumps, clock, t), Remaining(jumps, clock + x);
    RaidBefore(cell, jumps, clock, t, clock + x);
    assert Advance(a, x).arb.world == Raid(cell, left, clock, t).world;
    GuardGone(jumps, clock + x, g);
    RaidAfter(cell, left, clock, t, clock + x + y);
    RaidAfter(cell, jumps, clock, t, clock + x + y);
    hide Raid;
    var whole, second := Advance(a, x + y).arb.world.board, Advance(Advance(a, x).arb, y).arb.world.board;
    assert whole[cell].id == 0 && second[cell].id != 0;
  }

  /** Cutting `advance_time(x + y)` after `x` leaves the same state and arrivals, on every
      settled board with the given jumps, exactly when nothing follows the cut or no jump ends
      by then. A jump that has ended still intercepts until the end of the call in which it
      ends. */
  lemma StateSplitsExactly(jumps: seq<Jump>, clock: int, x: nat, y: nat)
    requires GuardsOnce(jumps) && NoneEndBy(jumps, clock)
    ensures (forall a: Arb :: HasJumps(a, jumps, clock) ==> StateSplits(a, x, y))
      <==> (y == 0 || NoneEndBy(jumps, clock + x))
  {
    hide Run, World.Valid, StateSplits;
    if y == 0 || NoneEndBy(jumps, clock + x) {
      forall a: Arb | HasJumps(a, jumps, clock) ensures StateSplits(a, x, y) {
        if y == 0 { SplitByNothing(a, x); } else { SplitWhileJumpsLast(a, x, y); }
      }
    } else {
      RaidSeen(jumps, clock, x, y);
    }
  }

  /** A settled board with these jumps at this time. */
  ghost predicate HasJumps(a: Arb, jumps: seq<Jump>, clock: int) {
    a.clock == clock && a.world.jumps == jumps && a.world.Valid() && Settled(a)
  }

  lemma RaidSeen(jumps: seq<Jump>, clock: int, x: nat, y: nat)
    requires GuardsOnce(jumps) && NoneEndBy(jumps, clock) && y > 0 && !NoneEndBy(jumps, clock + x)
    ensures exists a: Arb :: HasJumps(a, jumps, clock) && !StateSplits(a, x, y)
  {
    hide Run, World.Valid, StateSplits;
    var g :| 0 <= g < |jumps| && jumps[g].endTime <= clock + x;
    var a := Raid(jumps[g].cell, jumps, clock, clock + x + 1);
    RaidTells(jumps, clock, x, y, g);
    RaidBefore(jumps[g].cell, jumps, clock, clock + x + 1, clock);
    NextNoneIffQuiet(a.world, clock);
    assert HasJumps(a, jumps, clock) && !StateSplits(a, x, y);
  }

  // ----- a jump that ends in the second piece makes the cut visible -------------------------------

  /** A white piece on the guarded cell, which a black one passes at the next millisecond on
      its way further: a guard does not stop what passes over it. */
  function Passage(cell: Position, jumps: seq<Jump>, clock: int, arrival: int): Arb {
    var from, to := Position(cell.row, cell.col + 1), Position(cell.row, cell.col - 1);
    var stops := [Stop(cell, clock + 1), Stop(to, arrival)];
    var raider := Flight(Piece(1, Black, Rook, from), from, clock, stops);
    Arb(World(map[cell := Piece(0, White, Rook, cell)], [raider], jumps), clock, map[])
  }

  lemma PassageSettled(cell: Position, jumps: seq<Jump>, clock: int, arrival: int)
    requires NoneEndBy(jumps, clock) && clock + 1 < arrival
    ensures HasJumps(Passage(cell, jumps, clock, arrival), jumps, clock)
  {
    var w := Passage(cell, jumps, clock, arrival).world;
    forall o | IsCandidate(w, o) ensures clock < TimeOf(w, o) {
      assert o == Arrive(0) || o == Meet(0, 0);
    }
  }

  lemma PassageIsNext(cell: Position, jumps: seq<Jump>, clock: int, arrival: int, bound: int)
    requires clock < bound && clock + 1 < arrival
    ensures var w := Passage(cell, jumps, clock, arrival).world; w.Valid() && IsNext(w, Meet(0, 0), bound)
  {
    var w := Passage(cell, jumps, clock, arrival).world;
    forall o | IsCandidate(w, o) ensures o == Arrive(0) || o == Meet(0, 0) {
    }
  }

  /** From the next millisecond on, until the arrival, the board is empty. */
  lemma PassageEmpties(cell: Position, jumps: seq<Jump>, clock: int, arrival: int, bound: int)
    requires clock < bound < arrival
    ensures Run(Passage(cell, jumps, clock, arrival).world, bound).world.board == map[]
  {
    var w := Passage(cell, jumps, clock, arrival).world;
    PassageIsNext(cell, jumps, clock, arrival, bound);
    var after := Resolve(w, Meet(0, 0)).world;
    assert after.board == map[] && after.flights == w.flights;
    forall o | IsCandidate(after, o) ensures bound < TimeOf(after, o) {
      assert o == Arrive(0);
    }
    hide Passage, Resolve, World.Valid, IsNext, Run;
    RunUnfold(w, Meet(0, 0), bound);
    QuietRunsNothing(after, bound);
  }

  lemma {:induction false} EmptyBoardEndsNone(jumps: seq<Jump>, clock: int)
    ensures JumpEnds(map[], jumps, clock) == []
    decreases |jumps|
  {
    if jumps != [] {
      EmptyBoardEndsNone(jumps[1..], clock);
    }
  }

  lemma {:induction false} EndedIsTold(board: Cells, jumps: seq<Jump>, clock: int, g: nat)
    requires g < |jumps| && jumps[g].endTime <= clock && jumps[g].cell in board
    ensures JumpEnds(board, jumps, clock) != []
    decreases |jumps|
  {
    if g > 0 {
      EndedIsTold(board, jumps[1..], clock, g - 1);
    }
  }

  lemma PassageTells(jumps: seq<Jump>, clock: int, x: nat, y: nat, g: nat)
    requires x > 0 && NoneEndBy(jumps, clock + x) && g < |jumps| && jumps[g].endTime <= clock + x + y
    ensures !EndedSplit(Passage(jumps[g].cell, jumps, clock, clock + x + 1), x, y)
  {
    hide Run, Passage, World.Valid;
    var cell, t := jumps[g].cell, clock + x + 1;
    var a := Passage(cell, jumps, clock, t);
    PassageShape(cell, jumps, clock, t);
    PassageEmpties(cell, jumps, clock, t, clock + x);
    EndedIsTold(a.world.board, jumps, clock + x + y, g);
    NoneEnd(a.world.board, jumps, clock + x);
    EmptyBoardEndsNone(Advance(a, x).arb.world.jumps, clock + x + y);
    hide JumpEnds;
  }

  lemma PassageShape(cell: Position, jumps: seq<Jump>, clock: int, arrival: int)
    ensures var a := Passage(cell, jumps, clock, arrival);
      cell in a.world.board && a.world.jumps == jumps && a.clock == clock
  {
  }

  lemma PassageSeen(jumps: seq<Jump>, clock: int, x: nat, y: nat)
    requires NoneEndBy(jumps, clock + x) && x > 0 && !NoneEndBy(jumps, clock + x + y)
    ensures exists a: Arb :: HasJumps(a, jumps, clock) && !EndedSplit(a, x, y)
  {
    hide EndedSplit, HasJumps, Passage, Advance;
    var g :| 0 <= g < |jumps| && jumps[g].endTime <= clock + x + y;
    var a := Passage(jumps[g].cell, jumps, clock, clock + x + 1);
    PassageTells(jumps, clock, x, y, g);
    PassageSettled(jumps[g].cell, jumps, clock, clock + x + 1);
    assert HasJumps(a, jumps, clock) && !EndedSplit(a, x, y);
  }

  // ----- exactly when a cut is invisible ------------------------------------------------------------

  lemma EndedWhileJumpsLast(a: Arb, x: nat, y: nat)
    requires a.world.Valid() && NoneEndBy(a.world.jumps, a.clock + x + y)
    ensures EndedSplit(a, x, y) && Advance(a, x + y).ended == []
  {
    hide Run, World.Valid;
    var first := Advance(a, x).arb;
    NoneEnd(a.world.board, a.world.jumps, a.clock + x);
    NoneEnd(a.world.board, a.world.jumps, a.clock + x + y);
    RunValid(a.world, a.clock + x);
    AllRemain(a.world.jumps, a.clock + x);
    NoneEnd(first.world.board, a.world.jumps, a.clock + x + y);
  }

  lemma CutAtTheEdge(a: Arb, x: nat, y: nat)
    requires a.world.Valid() && Settled(a) && (x == 0 || y == 0)
    ensures SplitInvisible(a, x, y)
  {
    hide Run, World.Valid, Settled, JumpEnds;
    AdvanceSettles(a, x);
    if x == 0 { AdvanceByNothing(a); } else { AdvanceByNothing(Advance(a, x).arb); }
  }

  /** Cutting `advance_time(x + y)` after `x` cannot be told from not cutting it, by the state
      or by anything reported, on every settled board with the given jumps, exactly when one of
      the two calls is for no time, or no jump ends by the end of the second. Otherwise either
      the jump ends before the cut, and no longer intercepts after it, or it ends after it, and
      a piece captured in between is not reported as having jumped. */
  lemma SplitInvisibleExactly(jumps: seq<Jump>, clock: int, x: nat, y: nat)
    requires GuardsOnce(jumps) && NoneEndBy(jumps, clock)
    ensures (forall a: Arb :: HasJumps(a, jumps, clock) ==> SplitInvisible(a, x, y))
      <==> (x == 0 || y == 0 || NoneEndBy(jumps, clock + x + y))
  {
    hide Run, World.Valid, StateSplits, EndedSplit, GuardsOnce;
    if x == 0 || y == 0 || NoneEndBy(jumps, clock + x + y) {
      forall a: Arb | HasJumps(a, jumps, clock) ensures SplitInvisible(a, x, y) {
        if x == 0 || y == 0 {
          CutAtTheEdge(a, x, y);
        } else {
          SplitWhileJumpsLast(a, x, y);
          EndedWhileJumpsLast(a, x, y);
        }
      }
    } else if NoneEndBy(jumps, clock + x) {
      PassageSeen(jumps, clock, x, y);
    } else {
      RaidSeen(jumps, clock, x, y);
    }
  }

  // ----- any number of pieces ---------------------------------------------------------------------

  function Total(slices: seq<nat>): nat {
    if slices == [] then 0 else slices[0] + Total(slices[1..])
  }

  /** One call after another, with everything they report. */
  ghost function AdvanceAll(a: Arb, slices: seq<nat>): Advanced
    decreases |slices|
  {
    if slices == [] then Advanced(a, [], [], [])
    else
      var first := Advance(a, slices[0]);
      var rest := AdvanceAll(first.arb, slices[1..]);
      Advanced(rest.arb, first.ended + rest.ended, first.arrivals + rest.arrivals, first.dropped + rest.dropped)
  }

  /** While no jump ends, advancing in any number of pieces of any size is advancing once, and
      no ended jump is reported. */
  lemma {:induction false} ManySlices(a: Arb, slices: seq<nat>)
    requires a.world.Valid() && Settled(a) && NoneEndBy(a.world.jumps, a.clock + Total(slices))
    ensures AdvanceAll(a, slices) == Advance(a, Total(slices)) && Advance(a, Total(slices)).ended == []
    decreases |slices|
  {
    hide Run, World.Valid, Quiet;
    if slices == [] {
      AdvanceByNothing(a);
    } else {
      var x, y := slices[0], Total(slices[1..]);
      var first := Advance(a, x);
      AdvanceSettles(a, x);
      RunValid(a.world, a.clock + x);
      AllRemain(a.world.jumps, a.clock + x);
      SplitWhileJumpsLast(a, x, y);
      EndedWhileJumpsLast(a, x, y);
      ManySlices(first.arb, slices[1..]);
      hide Advance;
    }
  }
}
