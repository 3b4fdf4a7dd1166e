/** What an answer to a request means, and what a wait tells. */
module Requests {
  import opened Pieces
  import opened Paths
  import opened Simulation
  import opened Motions
  import opened Rules
  import opened Arbitration
  import opened Games
  import opened Invariants
  import opened Outcomes
  import opened Rests

  // ----- requests -----------------------------------------------------------------------------------

  /** Nothing changes, except that rests which are over may be forgotten. */
  ghost predicate SameGame(g: Game, h: Game) {
    && h.arb.world == g.arb.world && h.arb.clock == g.arb.clock && h.over == g.over
    && h.arrivals == g.arrivals && h.dropped == g.dropped
    && forall x :: h.arb.IsResting(x) <==> g.arb.IsResting(x)
  }

  /** A refusal is told as an illegal action, with the piece that was asked for, if any. */
  ghost predicate Refused(g: Game, h: Game, source: Position, destination: Position) {
    && SameGame(g, h)
    && if g.over then h.log == g.log
       else
         h.log == g.log + [IllegalAction(
                             if source in g.arb.world.board then Some(g.arb.world.board[source].id) else None,
                             destination, g.arb.clock)]
  }

  /** The piece left its cell and is on its way to the destination, where it arrives after one
      move duration for each step of the distance. */
  ghost predicate SetOut(cfg: Config, g: Game, h: Game, source: Position, destination: Position) {
    var w, flights := g.arb.world, h.arb.world.flights;
    && source in w.board && SameGame(g.(arb := g.arb.(world := h.arb.world)), h) && h.log == g.log
    && h.arb.world.board == w.board - {source} && h.arb.world.jumps == w.jumps
    && |flights| == |w.flights| + 1 && flights[..|w.flights|] == w.flights
    && var f := flights[|w.flights|];
       && f.piece == w.board[source] && f.source == source && f.start == g.arb.clock
       && f.Destination() == destination
       && f.Arrival() == g.arb.clock + cfg.moveDuration * Distance(source, destination)
  }

  lemma LookIsSame(g: Game, cell: Position)
    ensures SameGame(g, g.Look(cell)) && g.Look(cell).log == g.log
  {
  }

  lemma RejectIsRefused(g: Game, h: Game, source: Position, destination: Position)
    requires SameGame(g, h) && h.log == g.log
    ensures Refused(g, h.Reject(source, destination), source, destination)
  {
    hide Arb.IsResting;
  }

  lemma LaunchSetsOut(cfg: Config, g: Game, source: Position, destination: Position)
    requires cfg.Valid() && Verdict(g.arb.world.board, cfg.height, source, destination) == Ok
    ensures var seen := g.Look(source);
      SetOut(cfg, g, seen.(arb := Launch(cfg, seen.arb, source, destination)), source, destination)
  {
    var a := g.Look(source).arb;
    LookIsSame(g, source);
    AcceptedMove(g.arb.world.board, cfg.height, source, destination, cfg.moveDuration);
    TimetableValid(a.world.board[source], source, destination, a.clock, PerCell(cfg.moveDuration, source, destination));
    hide Verdict, Timetable, PerCell, Distance, PathCells;
  }

  /** A move is refused because the game is over, else for a jump, else for a rest, else for the
      rules; a refusal changes nothing and is told. Otherwise the piece sets out. */
  lemma MoveOutcome(cfg: Config, g: Game, source: Position, destination: Position)
    requires cfg.Valid()
    ensures var reply := RequestMove(cfg, g, source, destination);
      && (reply.reason == GameOver <==> g.over)
      && (reply.reason == JumpInProgress <==> !g.over && exists j :: j in g.arb.world.jumps && j.cell == source)
      && (reply.reason == Resting <==>
        !g.over && (forall j :: j in g.arb.world.jumps ==> j.cell != source) && source in g.arb.world.board &&
        g.arb.IsResting(g.arb.world.board[source].id))
      && (reply.reason !in {GameOver, JumpInProgress, Resting} ==>
        reply.reason == Verdict(g.arb.world.board, cfg.height, source, destination))
      && (reply.reason != Ok ==> Refused(g, reply.game, source, destination))
      && (reply.reason == Ok ==> SetOut(cfg, g, reply.game, source, destination))
  {
    VerdictNames(g.arb.world.board, cfg.height, source, destination);
    JumpingMeans(g.arb, source);
    LookIsSame(g, source);
    hide Verdict, Launch, Arb.IsJumpingOn, Refused, SetOut, Game.Reject, Arb.IsResting;
    if !g.over {
      RejectIsRefused(g, g, source, destination);
      RejectIsRefused(g, g.Look(source), source, destination);
    } else {
      OverIsRefused(g, source, destination);
    }
    if Verdict(g.arb.world.board, cfg.height, source, destination) == Ok {
      LaunchSetsOut(cfg, g, source, destination);
    }
  }

  lemma OverIsRefused(g: Game, source: Position, destination: Position)
    requires g.over
    ensures Refused(g, g, source, destination)
  {
  }

  lemma JumpingMeans(a: Arb, cell: Position)
    ensures a.IsJumpingOn(cell) <==> exists j :: j in a.world.jumps && j.cell == cell
  {
  }

  lemma VerdictNames(board: Cells, height: nat, source: Position, destination: Position)
    ensures Verdict(board, height, source, destination) in {Ok, EmptySource, FriendlyDestination, IllegalPieceMove}
  {
  }

  /** The cell is guarded from now for one jump duration. */
  ghost predicate StandsGuard(cfg: Config, g: Game, h: Game, cell: Position) {
    && cell in g.arb.world.board && h.log == g.log
    && SameGame(g.(arb := g.arb.(world := g.arb.world.(jumps := h.arb.world.jumps))), h)
    && h.arb.world.jumps == g.arb.world.jumps + [Jump(cell, g.arb.clock + cfg.jumpDuration)]
  }

  /** A jump is refused because the game is over, else because the cell is guarded, else because
      nobody stands there, else for a rest. Otherwise the cell is guarded. */
  lemma JumpOutcome(cfg: Config, g: Game, cell: Position)
    ensures var reply := RequestJump(cfg, g, cell);
      var guarded := exists j :: j in g.arb.world.jumps && j.cell == cell;
      && (reply.reason == GameOver <==> g.over)
      && (reply.reason == JumpInProgress <==> !g.over && guarded)
      && (reply.reason == EmptySource <==> !g.over && !guarded && cell !in g.arb.world.board)
      && (reply.reason == Resting <==>
        !g.over && !guarded && cell in g.arb.world.board && g.arb.IsResting(g.arb.world.board[cell].id))
      && (reply.reason != Ok ==> Refused(g, reply.game, cell, cell))
      && (reply.reason == Ok ==> StandsGuard(cfg, g, reply.game, cell))
  {
    JumpingMeans(g.arb, cell);
    LookIsSame(g, cell);
    hide Arb.IsJumpingOn, Refused, Game.Reject;
    if !g.over {
      RejectIsRefused(g, g, cell, cell);
    } else {
      OverIsRefused(g, cell, cell);
    }
  }

  // ----- waits ---------------------------------------------------------------------------------------

  /** What was told of moves and jumps. */
  function Doings(log: seq<Event>): seq<Event>
    decreases |log|
  {
    if log == [] then []
    else Doings(log[..|log| - 1]) + if log[|log| - 1].Promotion? then [] else [log[|log| - 1]]
  }

  lemma DoingsAppend(log: seq<Event>, e: Event)
    ensures Doings(log + [e]) == Doings(log) + if e.Promotion? then [] else [e]
  {
    assert (log + [e])[..|log|] == log;
  }

  /** The event tells of this arrival, at this time. */
  ghost predicate TellsOf(event: Event, e: Arrival, time: int) {
    if e.captured == None then event == MoveCompleted(e.mover, e.destination, time)
    else if e.captured.value.id == e.mover.id then event == MotionStopped(e.mover, e.destination, time)
    else event == Capture(e.mover, e.captured.value, e.destination, time)
  }

  function JumpsTold(ended: seq<JumpEnd>, time: int): (told: seq<Event>)
    ensures |told| == |ended|
  {
    seq(|ended|, n requires 0 <= n < |ended| => JumpCompleted(ended[n].piece, ended[n].cell, time))
  }

  lemma {:induction false} EndJumpsTell(cfg: Config, g: Game, ended: seq<JumpEnd>)
    requires !g.over
    ensures Doings(EndJumps(cfg, g, ended).log) ==
      Doings(g.log) + JumpsTold(ended, g.arb.clock)
    decreases |ended|
  {
    if ended != [] {
      var j := ended[0];
      var rested := g.(arb := g.arb.SetRest(j.piece.id, cfg.shortRest));
      var e := JumpCompleted(j.piece, j.cell, g.arb.clock);
      DoingsAppend(g.log, e);
      EndJumpsTell(cfg, rested.PublishUnlessOver(e), ended[1..]);
    }
  }

  lemma ApplyOneTellsOnce(cfg: Config, g: Game, e: Arrival)
    requires !g.over && !e.KingCaptured() && CellsKnown(g.arb)
    ensures var h := ApplyOne(cfg, g, e);
      && !h.over && h.arb.clock == g.arb.clock && CellsKnown(h.arb)
      && |Doings(h.log)| == |Doings(g.log)| + 1 && Doings(g.log) <= Doings(h.log)
      && TellsOf(Doings(h.log)[|Doings(g.log)|], e, g.arb.clock)
  {
    var event := ActionEvent(e, g.arb.clock);
    var told := g.PublishUnlessOver(event);
    ApplyOneShape(cfg, g, e);
    DoingsAppend(g.log, event);
    if Stands(told, e) {
      var moved := told.arb.world.board[e.destination];
      var kind := Promoted(cfg, moved.kind, moved.color, e.destination.row);
      DoingsAppend(told.log, Promotion(moved.id, moved.color, moved.kind, kind, e.destination, g.arb.clock));
    }
  }

  ghost predicate TellsAll(before: seq<Event>, after: seq<Event>, arrivals: seq<Arrival>, time: int) {
    && before <= after && |after| == |before| + |arrivals|
    && forall n :: 0 <= n < |arrivals| ==> TellsOf(after[|before| + n], arrivals[n], time)
  }

  lemma {:induction false} ApplyTellsAll(cfg: Config, g: Game, arrivals: seq<Arrival>)
    requires !g.over && NoKingTaken(arrivals) && CellsKnown(g.arb)
    ensures TellsAll(Doings(g.log), Doings(ApplyArrivals(cfg, g, arrivals).log), arrivals, g.arb.clock)
    decreases |arrivals|
  {
    hide ApplyOne, TellsOf, CellsKnown, Doings;
    if arrivals != [] {
      var h := ApplyOne(cfg, g, arrivals[0]);
      ApplyOneTellsOnce(cfg, g, arrivals[0]);
      ApplyTellsAll(cfg, h, arrivals[1..]);
      var done, all := Doings(g.log), Doings(ApplyArrivals(cfg, h, arrivals[1..]).log);
      forall n | 0 <= n < |arrivals| ensures TellsOf(all[|done| + n], arrivals[n], g.arb.clock) {
        if n > 0 { assert arrivals[n] == arrivals[1..][n - 1]; }
      }
    }
  }

  /** A wait that does not end the game tells first of every ended jump and then of every
      arrival, in order and once each, with its place and the new time. */
  lemma WaitTells(cfg: Config, g: Game, ms: nat)
    requires g.arb.world.Valid() && !Wait(cfg, g, ms).over
    ensures var adv, log, clock := Advance(g.arb, ms), Wait(cfg, g, ms).log, g.arb.clock + ms;
      TellsAll(Doings(g.log) + JumpsTold(adv.ended, clock), Doings(log), adv.arrivals, clock)
  {
    hide World.Valid, Run, JumpEnds, SameBut, Doings, CellsKnown, Wait, EndJumps, TellsAll, JumpsTold;
    ReadyShape(cfg, g, ms);
    MovedClock(g, ms);
    EndJumpsTell(cfg, Moved(g, ms), Advance(g.arb, ms).ended);
    ApplyTellsAll(cfg, Ready(cfg, g, ms), Advance(g.arb, ms).arrivals);
  }
}
