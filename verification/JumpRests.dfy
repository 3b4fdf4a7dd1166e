/** A jump that ends starts a short rest, and jumping is limited like moving. */
module JumpRests {
  import opened Pieces
  import opened Simulation
  import opened SimulationLaws
  import opened Presence
  import opened Timing
  import opened Arbitration
  import opened Rules
  import opened Games
  import opened Invariants
  import opened Scores
  import opened Rests

  // ----- an ended jump starts a rest ---------------------------------------------------------------

  ghost predicate EndedFor(ended: seq<JumpEnd>, x: Id) {
    exists n :: 0 <= n < |ended| && ended[n].piece.id == x
  }

  /** Ended jumps give a short rest to exactly the pieces that they are reported for. */
  lemma {:induction false} EndJumpsExactly(cfg: Config, g: Game, ended: seq<JumpEnd>, x: Id)
    ensures var rests := EndJumps(cfg, g, ended).arb.rests;
      if EndedFor(ended, x) then x in rests && rests[x] == Rest(g.arb.clock, g.arb.clock + cfg.shortRest)
      else (x in rests <==> x in g.arb.rests) && (x in rests ==> rests[x] == g.arb.rests[x])
    decreases |ended|
  {
    if ended != [] {
      var j, rest := ended[0], ended[1..];
      var rested := g.(arb := g.arb.SetRest(j.piece.id, cfg.shortRest));
      EndJumpsExactly(cfg, rested.PublishUnlessOver(JumpCompleted(j.piece, j.cell, g.arb.clock)), rest, x);
      assert EndedFor(ended, x) <==> j.piece.id == x || EndedFor(rest, x) by {
        assert forall n :: 0 <= n < |rest| ==> rest[n] == ended[n + 1];
        if EndedFor(ended, x) {
          var n :| 0 <= n < |ended| && ended[n].piece.id == x;
          assert n == 0 || rest[n - 1] == ended[n];
        }
      }
    }
  }

  /** What is reported to have ended its jump stands on the board, on the guarded cell. */
  lemma {:induction false} EndedStand(board: Cells, jumps: seq<Jump>, clock: int, n: nat)
    requires n < |JumpEnds(board, jumps, clock)|
    ensures var e := JumpEnds(board, jumps, clock)[n]; e.cell in board && board[e.cell].AsToken() == e.piece
    decreases |jumps|
  {
    var first := if jumps[0].endTime <= clock && jumps[0].cell in board then 1 else 0;
    if n >= first {
      EndedStand(board, jumps[1..], clock, n - first);
    }
  }

  /** A piece that stands on a cell whose jump ends is reported. */
  lemma {:induction false} StandingIsTold(board: Cells, jumps: seq<Jump>, clock: int, j: Jump)
    requires j in jumps && j.endTime <= clock && j.cell in board
    ensures EndedFor(JumpEnds(board, jumps, clock), board[j.cell].id)
    decreases |jumps|
  {
    var ends, later := JumpEnds(board, jumps, clock), JumpEnds(board, jumps[1..], clock);
    if jumps[0] == j {
      assert ends[0].piece.id == board[j.cell].id;
    } else {
      StandingIsTold(board, jumps[1..], clock, j);
      var n :| 0 <= n < |later| && later[n].piece.id == board[j.cell].id;
      assert ends[|ends| - |later| + n] == later[n];
    }
  }

  /** Nothing that stood on the board at first is reported landing. */
  lemma StandingDoesNotLand(w: World, bound: int, c: Position, n: nat)
    requires w.Valid() && c in w.board && n < |Run(w, bound).arrivals|
    ensures Run(w, bound).arrivals[n].mover.id != w.board[c].id
  {
    hide Run;
    MoversFlew(w, bound, n);
    var f :| f in w.flights && f.piece.AsToken() == Run(w, bound).arrivals[n].mover;
    NotInBoth(w, f, c);
  }

  lemma StandingRests(cfg: Config, g: Game, ms: nat, c: Position)
    requires g.arb.world.Valid() && !Wait(cfg, g, ms).over && c in g.arb.world.board
    ensures var x, rests, clock := g.arb.world.board[c].id, Wait(cfg, g, ms).arb.rests, g.arb.clock + ms;
      if EndedFor(Advance(g.arb, ms).ended, x) then x in rests && rests[x] == Rest(clock, clock + cfg.shortRest)
      else (x in rests <==> x in g.arb.rests) && (x in rests ==> rests[x] == g.arb.rests[x])
  {
    hide World.Valid, Wait, Stands, CellsKnown, Run, EndJumps, ApplyArrivals, SameBut;
    var x, h, arrivals := g.arb.world.board[c].id, Ready(cfg, g, ms), Advance(g.arb, ms).arrivals;
    ReadyShape(cfg, g, ms);
    MovedClock(g, ms);
    EndJumpsExactly(cfg, Moved(g, ms), Advance(g.arb, ms).ended, x);
    ApplyRests(cfg, h, arrivals, x);
    forall n | 0 <= n < |arrivals| ensures arrivals[n].mover.id != x {
      StandingDoesNotLand(g.arb.world, g.arb.clock + ms, c, n);
    }
    assert !StandsFor(h, arrivals, x);
  }

  /** After a wait that does not end the game, every piece reported to have ended its jump
      rests until `shortRest` from now. */
  lemma WaitRestsJumped(cfg: Config, g: Game, ms: nat, n: nat)
    requires g.arb.world.Valid() && !Wait(cfg, g, ms).over && n < |Advance(g.arb, ms).ended|
    ensures var x, g' := Advance(g.arb, ms).ended[n].piece.id, Wait(cfg, g, ms);
      x in g'.arb.rests && g'.arb.rests[x] == Rest(g.arb.clock + ms, g.arb.clock + ms + cfg.shortRest)
  {
    hide World.Valid, Wait, Run;
    EndedStand(g.arb.world.board, g.arb.world.jumps, g.arb.clock + ms, n);
    assert EndedFor(Advance(g.arb, ms).ended, Advance(g.arb, ms).ended[n].piece.id);
    StandingRests(cfg, g, ms, Advance(g.arb, ms).ended[n].cell);
  }

  // ----- the rate limit for jumps --------------------------------------------------------------------

  /** The piece on `c` may not act: its jump is still up, or it rests until then. */
  predicate Grounded(cfg: Config, a: Arb, c: Position, x: Id, until: int) {
    || (exists g :: 0 <= g < |a.world.jumps| && GroundedBy(cfg, a.world.jumps[g], c, until))
    || (a.clock + cfg.shortRest >= until && x in a.rests && a.rests[x].end >= until)
  }

  predicate GroundedBy(cfg: Config, j: Jump, c: Position, until: int) {
    j.cell == c && j.endTime + cfg.shortRest >= until
  }

  /** Until then piece `x` stays where it stands and may not act, if it stands at all. */
  ghost predicate JumpedUntil(cfg: Config, g: Game, x: Id, until: int) {
    g.over || until <= g.arb.clock || (
      && (forall f :: f in g.arb.world.flights ==> f.piece.id != x)
      && (forall c :: c in g.arb.world.board && g.arb.world.board[c].id == x ==> Grounded(cfg, g.arb, c, x, until)))
  }

  /** A piece that stands after a wait and was not in flight has stood there all the time. */
  lemma StoodThere(g: Game, ms: nat, c: Position)
    requires g.arb.world.Valid() && c in Advance(g.arb, ms).arb.world.board
    requires forall f :: f in g.arb.world.flights ==> f.piece.id != Advance(g.arb, ms).arb.world.board[c].id
    ensures c in g.arb.world.board && g.arb.world.board[c].id == Advance(g.arb, ms).arb.world.board[c].id
  {
    hide World.Valid, Run;
    var after, arrivals := Advance(g.arb, ms).arb.world.board, Advance(g.arb, ms).arrivals;
    WaitExplained(g, ms);
    if !(c in g.arb.world.board && g.arb.world.board[c] == after[c]) {
      var n :| 0 <= n < |arrivals| && arrivals[n].mover == after[c].AsToken() && arrivals[n].destination == c;
      MoversFlew(g.arb.world, g.arb.clock + ms, n);
      assert false;
    }
  }

  lemma WaitKeepsGrounded(cfg: Config, g: Game, ms: nat, c: Position, until: int)
    requires g.arb.world.Valid() && !Wait(cfg, g, ms).over && c in g.arb.world.board
    requires Grounded(cfg, g.arb, c, g.arb.world.board[c].id, until)
    ensures Grounded(cfg, Wait(cfg, g, ms).arb, c, g.arb.world.board[c].id, until)
  {
    hide World.Valid, Wait, Advance, EndedFor;
    StandingRests(cfg, g, ms, c);
    WaitJumps(cfg, g, ms);
    if k :| 0 <= k < |g.arb.world.jumps| && GroundedBy(cfg, g.arb.world.jumps[k], c, until) {
      var j := g.arb.world.jumps[k];
      if j.endTime <= g.arb.clock + ms {
        EndedJumpIsTold(g, ms, j);
      } else {
        RemainingShape(g.arb.world.jumps, g.arb.clock + ms);
        var after := Wait(cfg, g, ms).arb.world.jumps;
        var n :| 0 <= n < |after| && after[n] == j;
        assert GroundedBy(cfg, after[n], c, until);
      }
    }
  }

  lemma EndedJumpIsTold(g: Game, ms: nat, j: Jump)
    requires j in g.arb.world.jumps && j.endTime <= g.arb.clock + ms && j.cell in g.arb.world.board
    ensures EndedFor(Advance(g.arb, ms).ended, g.arb.world.board[j.cell].id)
  {
    hide Run;
    StandingIsTold(g.arb.world.board, g.arb.world.jumps, g.arb.clock + ms, j);
  }

  lemma WaitJumps(cfg: Config, g: Game, ms: nat)
    requires g.arb.world.Valid()
    ensures Wait(cfg, g, ms).arb.world.jumps == Remaining(g.arb.world.jumps, g.arb.clock + ms)
    ensures Wait(cfg, g, ms).arb.world.flights == Advance(g.arb, ms).arb.world.flights
    ensures Wait(cfg, g, ms).arb.clock == g.arb.clock + ms
  {
    hide World.Valid, Wait, Run, CellsKnown;
    ReadyShape(cfg, g, ms);
    RunValid(g.arb.world, g.arb.clock + ms);
  }

  lemma WaitKeepsJumped(cfg: Config, g: Game, ms: nat, x: Id, until: int)
    requires g.arb.world.Valid() && !g.over && JumpedUntil(cfg, g, x, until)
    ensures JumpedUntil(cfg, Wait(cfg, g, ms), x, until)
  {
    hide World.Valid, Wait, Grounded, CellsKnown, Run;
    var g', a := Wait(cfg, g, ms), Advance(g.arb, ms).arb;
    if !g'.over && g.arb.clock + ms < until {
      ReadyShape(cfg, g, ms);
      WaitJumps(cfg, g, ms);
      SurvivorsAreWhole(g.arb.world, g.arb.clock + ms);
      forall c | c in g'.arb.world.board && g'.arb.world.board[c].id == x ensures Grounded(cfg, g'.arb, c, x, until) {
        assert c in a.world.board && a.world.board[c].id == x;
        StoodThere(g, ms, c);
        WaitKeepsGrounded(cfg, g, ms, c, until);
      }
    } else {
      WaitJumps(cfg, g, ms);
    }
  }

  /** A piece that is grounded is not free to act. */
  lemma NotFree(cfg: Config, g: Game, cell: Position, until: int)
    requires !g.over && cell in g.arb.world.board && JumpedUntil(cfg, g, g.arb.world.board[cell].id, until)
    requires !g.arb.IsJumpingOn(cell) && !g.RestsOn(cell)
    ensures until <= g.arb.clock
  {
  }

  lemma LookKeepsJumped(cfg: Config, g: Game, cell: Position, x: Id, until: int)
    requires JumpedUntil(cfg, g, x, until)
    ensures JumpedUntil(cfg, g.Look(cell), x, until)
  {
  }

  lemma LaunchKeepsJumped(cfg: Config, g: Game, source: Position, destination: Position, x: Id, until: int)
    requires source in g.arb.world.board && g.arb.world.board[source].id != x && JumpedUntil(cfg, g, x, until)
    ensures JumpedUntil(cfg, g.(arb := Launch(cfg, g.arb, source, destination)), x, until)
  {
    var h := g.(arb := Launch(cfg, g.arb, source, destination));
    forall c | c in h.arb.world.board && h.arb.world.board[c].id == x && !g.over && g.arb.clock < until
      ensures Grounded(cfg, h.arb, c, x, until)
    {
      assert Grounded(cfg, g.arb, c, x, until);
    }
  }

  lemma MoveKeepsJumped(cfg: Config, g: Game, source: Position, destination: Position, x: Id, until: int)
    requires !g.over && JumpedUntil(cfg, g, x, until)
    ensures JumpedUntil(cfg, RequestMove(cfg, g, source, destination).game, x, until)
  {
    hide Verdict, Launch, Arb.IsJumpingOn, Grounded;
    var reply := RequestMove(cfg, g, source, destination);
    LookKeepsJumped(cfg, g, source, x, until);
    if reply.reason == Ok {
      assert source in g.arb.world.board by { OkHasPiece(g.arb.world.board, cfg.height, source, destination); }
      if g.arb.world.board[source].id == x {
        NotFree(cfg, g, source, until);
        assert reply.game.arb.clock == g.arb.clock by { LaunchClock(cfg, g.Look(source).arb, source, destination); }
      } else {
        LaunchKeepsJumped(cfg, g.Look(source), source, destination, x, until);
      }
    }
  }

  lemma OkHasPiece(board: Cells, height: nat, source: Position, destination: Position)
    requires Verdict(board, height, source, destination) == Ok
    ensures source in board
  {
  }

  lemma LaunchClock(cfg: Config, a: Arb, source: Position, destination: Position)
    requires source in a.world.board
    ensures Launch(cfg, a, source, destination).clock == a.clock
  {
  }

  lemma JumpKeepsJumped(cfg: Config, g: Game, cell: Position, x: Id, until: int)
    requires !g.over && JumpedUntil(cfg, g, x, until)
    ensures JumpedUntil(cfg, RequestJump(cfg, g, cell).game, x, until)
  {
    hide Arb.IsJumpingOn;
    LookKeepsJumped(cfg, g, cell, x, until);
    var seen, h := g.Look(cell), RequestJump(cfg, g, cell).game;
    forall c | c in h.arb.world.board && h.arb.world.board[c].id == x && Grounded(cfg, seen.arb, c, x, until)
      ensures Grounded(cfg, h.arb, c, x, until) || h.arb == g.arb
    {
      if k :| 0 <= k < |seen.arb.world.jumps| && GroundedBy(cfg, seen.arb.world.jumps[k], c, until) {
        assert h.arb != g.arb ==> h.arb.world.jumps[k] == seen.arb.world.jumps[k];
      }
    }
  }

  lemma DoKeepsJumped(cfg: Config, g: Game, op: Op, x: Id, until: int)
    requires g.arb.world.Valid() && JumpedUntil(cfg, g, x, until)
    ensures JumpedUntil(cfg, Do(cfg, g, op), x, until)
  {
    hide World.Valid, Wait, RequestMove, RequestJump, Grounded;
    if g.over {
      DoKeepsOver(cfg, g, op);
    } else {
      match op {
        case Move(source, destination) => MoveKeepsJumped(cfg, g, source, destination, x, until);
        case JumpOn(cell) => JumpKeepsJumped(cfg, g, cell, x, until);
        case ResignBy(color) =>
        case WaitFor(ms) => WaitKeepsJumped(cfg, g, ms, x, until);
      }
    }
  }

  lemma {:induction false} PlayKeepsJumped(cfg: Config, g: Game, ops: seq<Op>, x: Id, until: int)
    requires cfg.Valid() && Sound(cfg, g.arb) && JumpedUntil(cfg, g, x, until)
    ensures Sound(cfg, Play(cfg, g, ops).arb) && JumpedUntil(cfg, Play(cfg, g, ops), x, until)
    decreases |ops|
  {
    hide Do, JumpedUntil;
    if ops != [] {
      var h := Play(cfg, g, ops[..|ops| - 1]);
      PlayKeepsJumped(cfg, g, ops[..|ops| - 1], x, until);
      assert h.arb.world.Valid();
      hide Sound;
      DoSound(cfg, h, ops[|ops| - 1]);
      DoKeepsJumped(cfg, h, ops[|ops| - 1], x, until);
    }
  }

  lemma AcceptedIsGrounded(cfg: Config, g: Game, cell: Position)
    requires g.arb.world.Valid() && RequestJump(cfg, g, cell).reason == Ok
    ensures cell in g.arb.world.board
    ensures JumpedUntil(cfg, RequestJump(cfg, g, cell).game, g.arb.world.board[cell].id,
                        g.arb.clock + cfg.jumpDuration + cfg.shortRest)
  {
    hide Arb.IsJumpingOn;
    var h, x := RequestJump(cfg, g, cell).game, g.arb.world.board[cell].id;
    var until := g.arb.clock + cfg.jumpDuration + cfg.shortRest;
    assert GroundedBy(cfg, h.arb.world.jumps[|h.arb.world.jumps| - 1], cell, until);
    forall c | c in h.arb.world.board && h.arb.world.board[c].id == x ensures c == cell {
      OnlyThere(g.arb.world, cell, c);
    }
  }

  /** Per-piece rate limit for jumps, over whole games. Once a jump of a piece is accepted, the
      next request for the same piece, to move or to jump, is accepted only after the whole
      jump and a whole short rest. */
  lemma JumpRateLimit(cfg: Config, board: Cells, before: seq<Op>, cell: Position, between: seq<Op>, op: Op)
    requires cfg.Valid() && ProperBoard(board) && (op.Move? || op.JumpOn?)
    requires RequestJump(cfg, Play(cfg, Start(board), before), cell).reason == Ok
    ensures var g := Play(cfg, Start(board), before);
      var h := Play(cfg, RequestJump(cfg, g, cell).game, between);
      && cell in g.arb.world.board
      && (Accepts(cfg, h, op) && Subject(op) in h.arb.world.board &&
          h.arb.world.board[Subject(op)].id == g.arb.world.board[cell].id ==>
            h.arb.clock >= g.arb.clock + cfg.jumpDuration + cfg.shortRest)
  {
    hide Play, Sound, World.Valid, JumpedUntil, ProperBoard, Verdict, Launch, Arb.IsJumpingOn;
    var g := Play(cfg, Start(board), before);
    var g' := RequestJump(cfg, g, cell).game;
    PlaySound(cfg, board, before);
    DoSound(cfg, g, JumpOn(cell));
    assert g.arb.world.Valid() by { SoundIsValid(cfg, g.arb); }
    AcceptedIsGrounded(cfg, g, cell);
    var x, until := g.arb.world.board[cell].id, g.arb.clock + cfg.jumpDuration + cfg.shortRest;
    PlayKeepsJumped(cfg, g', between, x, until);
    var h := Play(cfg, g', between);
    if Accepts(cfg, h, op) && Subject(op) in h.arb.world.board && h.arb.world.board[Subject(op)].id == x {
      NotFree(cfg, h, Subject(op), until);
    }
  }
}
