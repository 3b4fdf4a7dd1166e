/** What every request and every wait keeps. */
module Invariants {
  import opened Pieces
  import opened Paths
  import opened Simulation
  import opened SimulationLaws
  import opened Timing
  import opened Motions
  import opened Rules
  import opened Arbitration
  import opened Splitting
  import opened Games

  /** A motion exactly as some accepted request launched it. */
  ghost predicate IsLaunched(cfg: Config, clock: int, f: Flight) {
    exists destination: Position ::
      && f == Launched(cfg, f.start, f.piece, f.source, destination)
      && destination != f.source && f.start <= clock
      && (Aligned(f.source, destination) || Distance(f.source, destination) == 2)
  }

  ghost predicate AllLaunched(cfg: Config, a: Arb) {
    forall i :: 0 <= i < |a.world.flights| ==> IsLaunched(cfg, a.clock, a.world.flights[i])
  }

  /** Every piece is in one place, nothing is overdue, every motion in flight is whole, and
      no cell is guarded twice. */
  ghost predicate Sound(cfg: Config, a: Arb) {
    a.world.Valid() && Settled(a) && AllLaunched(cfg, a) && GuardsOnce(a.world.jumps)
  }

  lemma LaunchedFlight(cfg: Config, clock: int, piece: Piece, source: Position, destination: Position)
    requires cfg.Valid()
    ensures var f := Launched(cfg, clock, piece, source, destination);
      && f.Valid() && f.Destination() == destination
      && (source != destination ==> f.stops != [] && f.stops[0].time >= clock + cfg.moveDuration)
  {
    TimetableValid(piece, source, destination, clock, PerCell(cfg.moveDuration, source, destination));
    PathShape(source, destination);
  }

  // ----- launching -----------------------------------------------------------------------------------

  /** A motion whose stops all lie ahead adds nothing that is due. */
  lemma LaunchStaysQuiet(w: World, source: Position, f: Flight, clock: int)
    requires Quiet(w, clock) && f.stops != []
    requires forall k :: 0 <= k < |f.stops| ==> clock < f.stops[k].time
    ensures Quiet(w.(board := w.board - {source}, flights := w.flights + [f]), clock)
  {
    var w' := w.(board := w.board - {source}, flights := w.flights + [f]);
    var n := |w.flights|;
    forall o | IsCandidate(w', o) ensures clock < TimeOf(w', o) {
      if o.i < n && !(o.Collide? && o.j == n) {
        assert IsCandidate(w, o) && TimeOf(w, o) == TimeOf(w', o);
      }
    }
  }

  lemma LaunchSound(cfg: Config, a: Arb, source: Position, destination: Position)
    requires cfg.Valid() && Sound(cfg, a)
    requires Verdict(a.world.board, cfg.height, source, destination) == Ok
    ensures Sound(cfg, Launch(cfg, a, source, destination))
  {
    hide World.Valid, Quiet, Verdict;
    AcceptedMove(a.world.board, cfg.height, source, destination, cfg.moveDuration);
    var f := Launched(cfg, a.clock, a.world.board[source], source, destination);
    LaunchedFlight(cfg, a.clock, a.world.board[source], source, destination);
    LaunchValid(a.world, source, f);
    LaunchStaysQuiet(a.world, source, f, a.clock);
    assert IsLaunched(cfg, a.clock, f) by { AcceptedShape(a.world.board, cfg.height, source, destination); }
  }

  lemma AcceptedShape(board: Cells, height: nat, source: Position, destination: Position)
    requires Verdict(board, height, source, destination) == Ok
    ensures Aligned(source, destination) || Distance(source, destination) == 2
  {
  }

  // ----- guarding --------------------------------------------------------------------------------------

  lemma GuardSound(cfg: Config, a: Arb, jump: Jump)
    requires Sound(cfg, a) && !a.IsJumpingOn(jump.cell) && a.clock < jump.endTime
    ensures Sound(cfg, a.(world := a.world.(jumps := a.world.jumps + [jump])))
  {
    hide World.Valid, Quiet, IsLaunched;
    ValidWithoutJumps(a.world, a.world.jumps + [jump]);
    QuietWithoutJumps(a.world, a.world.jumps + [jump], a.clock);
  }

  // ----- advancing -------------------------------------------------------------------------------------

  lemma {:induction false} RemainingGuardsOnce(jumps: seq<Jump>, clock: int)
    requires GuardsOnce(jumps)
    ensures GuardsOnce(Remaining(jumps, clock))
  {
    if jumps != [] {
      RemainingGuardsOnce(jumps[1..], clock);
      RemainingShape(jumps[1..], clock);
    }
  }

  lemma LaunchedStays(cfg: Config, early: int, late: int, f: Flight)
    requires IsLaunched(cfg, early, f) && early <= late
    ensures IsLaunched(cfg, late, f)
  {
    var destination: Position :|
      && f == Launched(cfg, f.start, f.piece, f.source, destination)
      && destination != f.source && f.start <= early
      && (Aligned(f.source, destination) || Distance(f.source, destination) == 2);
    assert f == Launched(cfg, f.start, f.piece, f.source, destination);
  }

  lemma AdvanceSound(cfg: Config, a: Arb, ms: nat)
    requires Sound(cfg, a)
    ensures Sound(cfg, Advance(a, ms).arb)
  {
    hide World.Valid, Settled, IsLaunched, Run, GuardsOnce;
    AdvanceSettles(a, ms);
    RunValid(a.world, a.clock + ms);
    SurvivorsAreWhole(a.world, a.clock + ms);
    RemainingGuardsOnce(a.world.jumps, a.clock + ms);
    var flights := Advance(a, ms).arb.world.flights;
    forall i | 0 <= i < |flights| ensures IsLaunched(cfg, a.clock + ms, flights[i]) {
      assert flights[i] in a.world.flights;
      LaunchedStays(cfg, a.clock, a.clock + ms, flights[i]);
    }
  }

  // ----- applying the batch ----------------------------------------------------------------------------

  /** The same pieces on the same cells, up to their kind. */
  ghost predicate Reskinned(before: Cells, after: Cells) {
    && before.Keys == after.Keys
    && forall c :: c in before ==>
      after[c].id == before[c].id && after[c].color == before[c].color && after[c].cell == before[c].cell
  }

  /** Publishing and promoting change nothing of the simulation but the kind of pieces. */
  ghost predicate SameBut(a: Arb, b: Arb) {
    && b.clock == a.clock && b.world.flights == a.world.flights && b.world.jumps == a.world.jumps
    && Reskinned(a.world.board, b.world.board)
  }

  lemma ReskinValid(w: World, board: Cells)
    requires w.Valid() && Reskinned(w.board, board)
    ensures w.(board := board).Valid()
  {
  }

  lemma ReskinQuiet(w: World, board: Cells, clock: int)
    requires Quiet(w, clock) && Reskinned(w.board, board)
    ensures Quiet(w.(board := board), clock)
  {
    var w' := w.(board := board);
    forall o | IsCandidate(w', o) ensures clock < TimeOf(w', o) {
      assert IsCandidate(w, o) && TimeOf(w, o) == TimeOf(w', o);
    }
  }

  lemma SameButSound(cfg: Config, a: Arb, b: Arb)
    requires Sound(cfg, a) && SameBut(a, b)
    ensures Sound(cfg, b)
  {
    hide World.Valid, Quiet, IsLaunched, Reskinned;
    ReskinValid(a.world, b.world.board);
    ReskinQuiet(a.world, b.world.board, a.clock);
    assert b.world == a.world.(board := b.world.board);
  }

  lemma {:induction false} EndJumpsShape(cfg: Config, g: Game, ended: seq<JumpEnd>)
    ensures var g' := EndJumps(cfg, g, ended);
      && g'.arb.world == g.arb.world && g'.arb.clock == g.arb.clock
      && g'.over == g.over && g'.arrivals == g.arrivals && g'.dropped == g.dropped
    decreases |ended|
  {
    if ended != [] {
      var j := ended[0];
      var rested := g.(arb := g.arb.SetRest(j.piece.id, cfg.shortRest));
      EndJumpsShape(cfg, rested.PublishUnlessOver(JumpCompleted(j.piece, j.cell, g.arb.clock)), ended[1..]);
    }
  }

  ghost predicate CellsKnown(a: Arb) {
    forall c :: c in a.world.board ==> a.world.board[c].cell == c
  }

  lemma ApplyOneShape(cfg: Config, g: Game, e: Arrival)
    requires CellsKnown(g.arb)
    ensures var g' := ApplyOne(cfg, g, e);
      && SameBut(g.arb, g'.arb) && CellsKnown(g'.arb)
      && g'.arrivals == g.arrivals && g'.dropped == g.dropped
      && g'.over == (g.over || e.KingCaptured())
  {
  }

  lemma {:induction false} ApplyShape(cfg: Config, g: Game, arrivals: seq<Arrival>)
    requires CellsKnown(g.arb)
    ensures var g' := ApplyArrivals(cfg, g, arrivals);
      && SameBut(g.arb, g'.arb) && CellsKnown(g'.arb)
      && g'.arrivals == g.arrivals && g'.dropped == g.dropped
      && (g'.over <==> g.over || exists n :: 0 <= n < |arrivals| && arrivals[n].KingCaptured())
    decreases |arrivals|
  {
    if arrivals != [] {
      ApplyOneShape(cfg, g, arrivals[0]);
      if !arrivals[0].KingCaptured() {
        ApplyShape(cfg, ApplyOne(cfg, g, arrivals[0]), arrivals[1..]);
      }
    }
  }

  // ----- every operation ---------------------------------------------------------------------------------

  lemma LookSound(cfg: Config, g: Game, cell: Position)
    requires Sound(cfg, g.arb)
    ensures Sound(cfg, g.Look(cell).arb)
    ensures g.Look(cell).arb.world == g.arb.world && g.Look(cell).arb.clock == g.arb.clock
  {
  }

  lemma WaitSound(cfg: Config, g: Game, ms: nat)
    requires Sound(cfg, g.arb)
    ensures Sound(cfg, Wait(cfg, g, ms).arb)
  {
    hide Sound, Advance;
    var adv := Advance(g.arb, ms);
    var ended := EndJumps(cfg, Moved(g, ms), adv.ended);
    AdvanceSound(cfg, g.arb, ms);
    EndJumpsShape(cfg, Moved(g, ms), adv.ended);
    assert Sound(cfg, ended.arb) && CellsKnown(ended.arb) by { SoundElsewhere(cfg, adv.arb, ended.arb); }
    ApplyShape(cfg, ended, adv.arrivals);
    SameButSound(cfg, ended.arb, Wait(cfg, g, ms).arb);
  }

  lemma SoundElsewhere(cfg: Config, a: Arb, b: Arb)
    requires Sound(cfg, a) && b.world == a.world && b.clock == a.clock
    ensures Sound(cfg, b) && CellsKnown(b)
  {
  }

  lemma DoSound(cfg: Config, g: Game, op: Op)
    requires cfg.Valid() && Sound(cfg, g.arb)
    ensures Sound(cfg, Do(cfg, g, op).arb)
  {
    hide Sound, Verdict, Wait;
    match op {
      case Move(source, destination) =>
        LookSound(cfg, g, source);
        if Verdict(g.arb.world.board, cfg.height, source, destination) == Ok {
          LaunchSound(cfg, g.Look(source).arb, source, destination);
        }
      case JumpOn(cell) =>
        LookSound(cfg, g, cell);
        if !g.arb.IsJumpingOn(cell) {
          GuardSound(cfg, g.Look(cell).arb, Jump(cell, g.arb.clock + cfg.jumpDuration));
        }
      case ResignBy(color) =>
      case WaitFor(ms) => WaitSound(cfg, g, ms);
    }
  }

  lemma StartSound(cfg: Config, board: Cells)
    requires ProperBoard(board)
    ensures Sound(cfg, Start(board).arb)
  {
  }

  /** In every state any game reaches: every piece is in one place, nothing is overdue, every
      motion is as it was launched however often motions were shortened, no cell is guarded
      twice. */
  lemma {:induction false} PlaySound(cfg: Config, board: Cells, ops: seq<Op>)
    requires cfg.Valid() && ProperBoard(board)
    ensures Sound(cfg, Play(cfg, Start(board), ops).arb)
    decreases |ops|
  {
    hide Sound, Do, ProperBoard;
    if ops == [] {
      StartSound(cfg, board);
    } else {
      PlaySound(cfg, board, ops[..|ops| - 1]);
      DoSound(cfg, Play(cfg, Start(board), ops[..|ops| - 1]), ops[|ops| - 1]);
    }
  }

  /** `wait(0)` changes nothing and publishes nothing, in every reachable state. */
  lemma WaitZero(cfg: Config, board: Cells, ops: seq<Op>)
    requires cfg.Valid() && ProperBoard(board)
    ensures var g := Play(cfg, Start(board), ops); Wait(cfg, g, 0) == g
  {
    hide Play, Advance, Quiet, ProperBoard;
    var g := Play(cfg, Start(board), ops);
    PlaySound(cfg, board, ops);
    AdvanceByNothing(g.arb);
    assert g.arrivals + [] == g.arrivals && g.dropped + [] == g.dropped;
  }
}
