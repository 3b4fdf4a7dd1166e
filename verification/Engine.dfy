/** `engine/game_engine.py`: the engine as an object, proved to play the games of `Games`. */
module Engine {
  import opened Pieces
  import opened Paths
  import opened Simulation
  import opened Motions
  import opened Rules
  import opened Arbitration
  import opened Boards
  import opened RealTime
  import opened Games
  import opened Invariants

  lemma PromotionValid(w: World, cell: Position, kind: Kind)
    requires w.Valid() && cell in w.board
    ensures w.(board := w.board[w.board[cell].cell := w.board[cell].(kind := kind)]).Valid()
  {
    ReskinValid(w, w.board[w.board[cell].cell := w.board[cell].(kind := kind)]);
  }

  class GameEngine {
    const cfg: Config
    const board: Board
    const arbiter: RealTimeArbiter
    var gameOver: bool
    var published: seq<Event>
    ghost var arrivals: seq<Arrival>
    ghost var dropped: seq<Token>

    ghost predicate Valid()
      reads this, arbiter, arbiter.board, arbiter.motions
    {
      arbiter.board == board && arbiter.Valid() && cfg.Valid() && cfg.height == board.height
    }

    ghost function State(): Game
      reads this, arbiter, arbiter.board, arbiter.motions
    {
      Game(arbiter.State(), gameOver, published, arrivals, dropped)
    }

    constructor (cfg: Config, board: Board, arbiter: RealTimeArbiter)
      requires cfg.Valid() && cfg.height == board.height && arbiter.board == board && arbiter.Valid()
      ensures Valid() && this.cfg == cfg && this.board == board && this.arbiter == arbiter
      ensures State() == Game(arbiter.State(), false, [], [], [])
    {
      this.cfg := cfg;
      this.board := board;
      this.arbiter := arbiter;
      gameOver := false;
      published := [];
      arrivals := [];
      dropped := [];
    }

    // ----- publishing -------------------------------------------------------------------------------

    method Publish(e: Event)
      modifies this`published
      ensures published == old(published) + [e]
    {
      published := published + [e];
    }

    method PublishUnlessOver(e: Event)
      modifies this`published
      ensures State() == old(State()).PublishUnlessOver(e)
    {
      if !gameOver {
        Publish(e);
      }
    }

    method PublishIllegalAction(source: Position, destination: Position)
      requires Valid()
      modifies this`published
      ensures State() == old(State()).Reject(source, destination)
    {
      var piece := PieceAt(board.cells, source);
      PublishUnlessOver(IllegalAction(if piece.Some? then Some(piece.value.id) else None, destination, arbiter.clock));
    }

    // ----- requests ---------------------------------------------------------------------------------

    /** Is there a piece on the cell, and is it resting? */
    method Look(cell: Position) returns (resting: bool)
      requires Valid()
      modifies arbiter`cooldowns
      ensures Valid()
      ensures State() == old(State()).Look(cell)
      ensures resting == old(State()).RestsOn(cell)
    {
      resting := false;
      if cell in board.cells {
        resting := arbiter.IsResting(board.cells[cell].id);
      }
    }

    method RequestMove(source: Position, destination: Position) returns (reason: Reason)
      requires Valid()
      modifies this`published, arbiter, board
      ensures Valid()
      ensures Reply(State(), reason) == Games.RequestMove(cfg, old(State()), source, destination)
    {
      hide World.Valid, Verdict, Arb.IsJumpingOn;
      if gameOver {
        return GameOver;
      }
      var jumping := arbiter.IsJumpingOn(source);
      if jumping {
        PublishIllegalAction(source, destination);
        return JumpInProgress;
      }
      var resting := Look(source);
      if resting {
        PublishIllegalAction(source, destination);
        return Resting;
      }
      reason := ValidateMove(board.cells, board.height, source, destination);
      if reason != Ok {
        PublishIllegalAction(source, destination);
        return;
      }
      AcceptedMove(board.cells, board.height, source, destination, cfg.moveDuration);
      var piece := board.cells[source];
      var duration := cfg.moveDuration * Distance(source, destination);
      arbiter.StartMotion(piece, source, destination, duration, PerCell(cfg.moveDuration, source, destination));
    }

    method RequestJump(cell: Position) returns (reason: Reason)
      requires Valid()
      modifies this`published, arbiter
      ensures Valid()
      ensures Reply(State(), reason) == Games.RequestJump(cfg, old(State()), cell)
    {
      hide World.Valid, Arb.IsJumpingOn;
      if gameOver {
        return GameOver;
      }
      var jumping := arbiter.IsJumpingOn(cell);
      if jumping {
        PublishIllegalAction(cell, cell);
        return JumpInProgress;
      }
      if cell !in board.cells {
        PublishIllegalAction(cell, cell);
        return EmptySource;
      }
      var resting := Look(cell);
      if resting {
        PublishIllegalAction(cell, cell);
        return Resting;
      }
      arbiter.StartJump(cell, arbiter.clock + cfg.jumpDuration);
      reason := Ok;
    }

    method Resign(loser: Color)
      requires Valid()
      modifies this`gameOver, this`published
      ensures Valid()
      ensures State() == Games.Resign(old(State()), loser)
    {
      if gameOver {
        return;
      }
      gameOver := true;
      Publish(Ended(loser.Other(), arbiter.clock));
    }

    // ----- waiting ----------------------------------------------------------------------------------

    method EndJumps(ended: seq<JumpEnd>)
      requires Valid()
      modifies this`published, arbiter`cooldowns
      ensures Valid()
      ensures State() == Games.EndJumps(cfg, old(State()), ended)
    {
      hide World.Valid;
      for n := 0 to |ended|
        invariant Valid()
        invariant Games.EndJumps(cfg, State(), ended[n..]) == Games.EndJumps(cfg, old(State()), ended)
      {
        assert ended[n..][1..] == ended[n + 1..];
        arbiter.SetCooldown(ended[n].piece.id, cfg.shortRest);
        PublishUnlessOver(JumpCompleted(ended[n].piece, ended[n].cell, arbiter.clock));
      }
    }

    /** The piece that landed rests; a pawn on its last rank is replaced by a queen. */
    method Settle(cell: Position)
      requires Valid() && cell in board.cells
      modifies this`published, arbiter`cooldowns, board
      ensures Valid()
      ensures State() == Games.Settle(cfg, old(State()), cell)
    {
      hide World.Valid, Timetable;
      var moved := board.cells[cell];
      ghost var w := arbiter.AsWorld();
      var kind := Promoted(cfg, moved.kind, moved.color, cell.row);
      PromotionValid(w, cell, kind);
      arbiter.SetCooldown(moved.id, cfg.longRest);
      board.AddPiece(moved.(kind := kind));
      assert arbiter.AsWorld() == w.(board := board.cells);
      if kind != moved.kind {
        Publish(Promotion(moved.id, moved.color, moved.kind, kind, cell, arbiter.clock));
      }
    }

    method ApplyOne(e: Arrival) returns (stop: bool)
      requires Valid()
      modifies this`published, this`gameOver, arbiter`cooldowns, board
      ensures Valid()
      ensures State() == Games.ApplyOne(cfg, old(State()), e) && stop == e.KingCaptured()
    {
      hide World.Valid;
      PublishUnlessOver(ActionEvent(e, arbiter.clock));
      if e.KingCaptured() {
        gameOver := true;
        Publish(Ended(e.captured.value.color.Other(), arbiter.clock));
        return true;
      }
      stop := false;
      if !e.SelfDestroyed() && e.destination in board.cells && board.cells[e.destination].id == e.mover.id {
        Settle(e.destination);
      }
    }

    method ApplyArrivals(batch: seq<Arrival>)
      requires Valid()
      modifies this`published, this`gameOver, arbiter`cooldowns, board
      ensures Valid()
      ensures State() == Games.ApplyArrivals(cfg, old(State()), batch)
    {
      hide World.Valid, Games.ApplyOne;
      for n := 0 to |batch|
        invariant Valid()
        invariant Games.ApplyArrivals(cfg, State(), batch[n..]) == Games.ApplyArrivals(cfg, old(State()), batch)
      {
        assert batch[n..][1..] == batch[n + 1..];
        var stop := ApplyOne(batch[n]);
        if stop {
          return;
        }
      }
    }

    /** `wait`. A negative duration is refused and changes nothing. */
    method Wait(ms: int) returns (accepted: bool)
      requires Valid()
      modifies this`published, this`gameOver, this`arrivals, this`dropped, arbiter, board, arbiter.motions
      ensures Valid()
      ensures accepted == (ms >= 0)
      ensures ms < 0 ==> State() == old(State())
      ensures ms >= 0 ==> State() == Games.Wait(cfg, old(State()), ms)
    {
      hide World.Valid, Advance;
      var wait, gone := arbiter.AdvanceTime(ms);
      if wait.NegativeDuration? {
        return false;
      }
      arrivals := arrivals + wait.arrivals;
      dropped := dropped + gone;
      EndJumps(wait.ended);
      ApplyArrivals(wait.arrivals);
      accepted := true;
    }
  }
}
