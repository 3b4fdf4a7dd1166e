/** The state of the arbiter between calls, and `advance_time` as a function on it. */
module Arbitration {
  import opened Pieces
  import opened Simulation
  import opened SimulationLaws

  datatype Rest = Rest(start: int, end: int)

  /** A jump window that ended while a piece stood on the guarded cell. */
  datatype JumpEnd = JumpEnd(piece: Token, cell: Position)

  datatype Arb = Arb(world: World, clock: int, rests: map<Id, Rest>) {
    predicate IsResting(id: Id) {
      id in rests && clock < rests[id].end
    }

    /** Looking at a rest that is over forgets it. */
    function Forget(id: Id): Arb {
      if id in rests && rests[id].end <= clock then this.(rests := rests - {id}) else this
    }

    function SetRest(id: Id, duration: int): Arb {
      this.(rests := rests[id := Rest(clock, clock + duration)])
    }

    predicate IsJumpingOn(cell: Position) {
      exists g :: 0 <= g < |world.jumps| && world.jumps[g].cell == cell
    }
  }

  function JumpEnds(board: Cells, jumps: seq<Jump>, clock: int): seq<JumpEnd> {
    if jumps == [] then []
    else
      var j := jumps[0];
      (if j.endTime <= clock && j.cell in board then [JumpEnd(board[j.cell].AsToken(), j.cell)] else []) +
      JumpEnds(board, jumps[1..], clock)
  }

  function Remaining(jumps: seq<Jump>, clock: int): seq<Jump> {
    if jumps == [] then []
    else (if clock < jumps[0].endTime then [jumps[0]] else []) + Remaining(jumps[1..], clock)
  }

  datatype Advanced = Advanced(arb: Arb, ended: seq<JumpEnd>, arrivals: seq<Arrival>, dropped: seq<Token>)

  ghost function Advance(a: Arb, ms: nat): Advanced {
    var clock := a.clock + ms;
    var run := Run(a.world, clock);
    Advanced(
      Arb(run.world.(jumps := Remaining(run.world.jumps, clock)), clock, a.rests),
      JumpEnds(a.world.board, a.world.jumps, clock),
      run.arrivals,
      run.dropped)
  }

  /** Nothing overdue: no arrival, collision or meeting is due and every jump ends later. */
  ghost predicate Settled(a: Arb) {
    && Quiet(a.world, a.clock)
    && forall g :: 0 <= g < |a.world.jumps| ==> a.clock < a.world.jumps[g].endTime
  }

  lemma {:induction false} RemainingShape(jumps: seq<Jump>, clock: int)
    ensures var left := Remaining(jumps, clock);
      && (forall g :: 0 <= g < |left| ==> left[g] in jumps && clock < left[g].endTime)
      && (forall j :: j in jumps && clock < j.endTime ==> j in left)
  {
    if jumps != [] {
      RemainingShape(jumps[1..], clock);
    }
  }

  lemma {:induction false} AllRemain(jumps: seq<Jump>, clock: int)
    requires forall g :: 0 <= g < |jumps| ==> clock < jumps[g].endTime
    ensures Remaining(jumps, clock) == jumps
  {
    if jumps != [] {
      AllRemain(jumps[1..], clock);
    }
  }

  lemma {:induction false} NoneEnd(board: Cells, jumps: seq<Jump>, clock: int)
    requires forall g :: 0 <= g < |jumps| ==> clock < jumps[g].endTime
    ensures JumpEnds(board, jumps, clock) == []
  {
    if jumps != [] {
      NoneEnd(board, jumps[1..], clock);
    }
  }

  /** Which candidates there are does not depend on the jumps. */
  lemma QuietWithoutJumps(w: World, jumps: seq<Jump>, bound: int)
    requires Quiet(w, bound)
    ensures Quiet(w.(jumps := jumps), bound)
  {
    var w' := w.(jumps := jumps);
    forall o | IsCandidate(w', o) ensures bound < TimeOf(w', o) {
      assert IsCandidate(w, o) && TimeOf(w, o) == TimeOf(w', o);
    }
  }

  lemma AdvanceKeepsJumpsAhead(a: Arb, ms: nat)
    ensures forall g :: 0 <= g < |Advance(a, ms).arb.world.jumps| ==>
      a.clock + ms < Advance(a, ms).arb.world.jumps[g].endTime
  {
    hide Run;
    RemainingShape(Run(a.world, a.clock + ms).world.jumps, a.clock + ms);
  }

  lemma ValidWithoutJumps(w: World, jumps: seq<Jump>)
    requires w.Valid()
    ensures w.(jumps := jumps).Valid()
  {
  }

  /** After any call nothing is overdue. */
  lemma AdvanceSettles(a: Arb, ms: nat)
    requires a.world.Valid()
    ensures Settled(Advance(a, ms).arb) && Advance(a, ms).arb.world.Valid()
  {
    hide Run, Quiet, World.Valid;
    var clock := a.clock + ms;
    var run := Run(a.world, clock);
    RunValid(a.world, clock);
    RunQuiet(a.world, clock);
    QuietWithoutJumps(run.world, Remaining(run.world.jumps, clock), clock);
    ValidWithoutJumps(run.world, Remaining(run.world.jumps, clock));
    AdvanceKeepsJumpsAhead(a, ms);
  }

  /** Advancing a settled arbiter by nothing changes nothing and reports nothing. */
  lemma AdvanceByNothing(a: Arb)
    requires Settled(a)
    ensures Advance(a, 0) == Advanced(a, [], [], [])
  {
    QuietRunsNothing(a.world, a.clock);
    AllRemain(a.world.jumps, a.clock);
    NoneEnd(a.world.board, a.world.jumps, a.clock);
  }
}
