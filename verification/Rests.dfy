/** Every landing is processed, and no piece acts more often than its rests allow. */
module Rests {
  import opened Pieces
  import opened Simulation
  import opened SimulationLaws
  import opened Timing
  import opened Reports
  import opened Arbitration
  import opened Rules
  import opened Games
  import opened Invariants
  import opened Outcomes
  import opened Scores

  // ----- what applying a batch does to rests and pawns --------------------------------------------------

  ghost predicate StandsFor(g: Game, arrivals: seq<Arrival>, x: Id) {
    exists n :: 0 <= n < |arrivals| && Stands(g, arrivals[n]) && arrivals[n].mover.id == x
  }

  lemma StandsElsewhere(g: Game, h: Game, e: Arrival)
    requires SameBut(g.arb, h.arb)
    ensures Stands(g, e) <==> Stands(h, e)
  {
  }

  lemma ApplyOneRests(cfg: Config, g: Game, e: Arrival)
    requires CellsKnown(g.arb) && !e.KingCaptured()
    ensures ApplyOne(cfg, g, e).arb.rests ==
      if Stands(g, e) then g.arb.rests[e.mover.id := Rest(g.arb.clock, g.arb.clock + cfg.longRest)] else g.arb.rests
  {
  }

  /** Applying a batch without a captured king gives a long rest to exactly the pieces that
      landed in it and still stand there. */
  lemma {:induction false} ApplyRests(cfg: Config, g: Game, arrivals: seq<Arrival>, x: Id)
    requires CellsKnown(g.arb) && NoKingTaken(arrivals)
    ensures var rests := ApplyArrivals(cfg, g, arrivals).arb.rests;
      if StandsFor(g, arrivals, x) then x in rests && rests[x] == Rest(g.arb.clock, g.arb.clock + cfg.longRest)
      else (x in rests <==> x in g.arb.rests) && (x in rests ==> rests[x] == g.arb.rests[x])
    decreases |arrivals|
  {
    hide CellsKnown, ApplyOne, Stands, SameBut;
    if arrivals != [] {
      var e, rest, h := arrivals[0], arrivals[1..], ApplyOne(cfg, g, arrivals[0]);
      ApplyOneShape(cfg, g, e);
      ApplyOneRests(cfg, g, e);
      ApplyRests(cfg, h, rest, x);
      forall n | 0 <= n < |rest| ensures Stands(h, rest[n]) <==> Stands(g, arrivals[n + 1]) {
        StandsElsewhere(g, h, rest[n]);
      }
      assert h.arb.clock == g.arb.clock by { SameClock(g.arb, h.arb); }
      if StandsFor(h, rest, x) {
        var n :| 0 <= n < |rest| && Stands(h, rest[n]) && rest[n].mover.id == x;
        assert Stands(g, arrivals[n + 1]);
      }
      if StandsFor(g, arrivals, x) {
        var n :| 0 <= n < |arrivals| && Stands(g, arrivals[n]) && arrivals[n].mover.id == x;
        assert n == 0 || Stands(h, rest[n - 1]);
      }
    }
  }

  lemma SameClock(a: Arb, b: Arb)
    requires SameBut(a, b)
    ensures a.clock == b.clock
  {
  }

  predicate PawnOnLastRank(cfg: Config, board: Cells, c: Position)
    requires c in board
  {
    board[c].kind == Pawn && c.row == if board[c].color.White? then 0 else cfg.height - 1
  }

  lemma ApplyOnePawns(cfg: Config, g: Game, e: Arrival, c: Position)
    requires CellsKnown(g.arb) && !e.KingCaptured() && c in g.arb.world.board
    ensures var board := ApplyOne(cfg, g, e).arb.world.board;
      && c in board
      && (PawnOnLastRank(cfg, board, c) ==> PawnOnLastRank(cfg, g.arb.world.board, c))
      && (Stands(g, e) && e.destination == c ==> !PawnOnLastRank(cfg, board, c))
  {
  }

  /** After the batch a pawn is on its last rank only if it was there before and did not land
      there in this batch. */
  lemma {:induction false} ApplyPawns(cfg: Config, g: Game, arrivals: seq<Arrival>, c: Position)
    requires CellsKnown(g.arb) && NoKingTaken(arrivals) && c in g.arb.world.board
    ensures var board := ApplyArrivals(cfg, g, arrivals).arb.world.board;
      && c in board
      && (PawnOnLastRank(cfg, board, c) ==>
        && PawnOnLastRank(cfg, g.arb.world.board, c)
        && forall n :: 0 <= n < |arrivals| && Stands(g, arrivals[n]) ==> arrivals[n].destination != c)
    decreases |arrivals|
  {
    hide CellsKnown, ApplyOne, Stands, SameBut, PawnOnLastRank;
    if arrivals != [] {
      var e, rest, h := arrivals[0], arrivals[1..], ApplyOne(cfg, g, arrivals[0]);
      ApplyOneShape(cfg, g, e);
      ApplyOnePawns(cfg, g, e, c);
      ApplyPawns(cfg, h, rest, c);
      forall n | 0 <= n < |rest| ensures Stands(h, rest[n]) <==> Stands(g, arrivals[n + 1]) {
        StandsElsewhere(g, h, rest[n]);
      }
      forall n | 0 <= n < |arrivals| && Stands(g, arrivals[n])
        ensures PawnOnLastRank(cfg, ApplyArrivals(cfg, g, arrivals).arb.world.board, c) ==> arrivals[n].destination != c
      {
        if n > 0 { assert arrivals[n] == rest[n - 1]; }
      }
    }
  }

  // ----- one wait ------------------------------------------------------------------------------------------

  /** The game after the clock moved and the ended jumps were booked, before the arrivals. */
  ghost function Ready(cfg: Config, g: Game, ms: nat): Game {
    EndJumps(cfg, Moved(g, ms), Advance(g.arb, ms).ended)
  }

  lemma ReadyShape(cfg: Config, g: Game, ms: nat)
    requires g.arb.world.Valid()
    ensures var h := Ready(cfg, g, ms);
      && h.arb.world == Advance(g.arb, ms).arb.world && h.arb.clock == g.arb.clock + ms && h.over == g.over
      && CellsKnown(h.arb) && h.arb.world.Valid()
      && Wait(cfg, g, ms) == ApplyArrivals(cfg, h, Advance(g.arb, ms).arrivals)
      && SameBut(h.arb, Wait(cfg, g, ms).arb)
      && (!Wait(cfg, g, ms).over <==> !g.over && NoKingTaken(Advance(g.arb, ms).arrivals))
  {
    hide World.Valid, Run, SameBut;
    EndJumpsShape(cfg, Moved(g, ms), Advance(g.arb, ms).ended);
    AdvanceSettles(g.arb, ms);
    assert CellsKnown(Ready(cfg, g, ms).arb) by { ValidKnows(Advance(g.arb, ms).arb); }
    ApplyShape(cfg, Ready(cfg, g, ms), Advance(g.arb, ms).arrivals);
  }

  lemma WaitExplained(g: Game, ms: nat)
    requires g.arb.world.Valid()
    ensures Explained(g.arb.world.board, Advance(g.arb, ms).arb.world.board, Advance(g.arb, ms).arrivals)
  {
    hide World.Valid, Explained, Fair;
    RunReports(g.arb.world, g.arb.clock + ms);
  }

  lemma LandedStands(g: Game, arrivals: seq<Arrival>, c: Position)
    requires c in g.arb.world.board && LandedBy(arrivals, c, g.arb.world.board[c].AsToken())
    ensures exists n :: 0 <= n < |arrivals| && Stands(g, arrivals[n]) && arrivals[n].destination == c
    ensures StandsFor(g, arrivals, g.arb.world.board[c].id)
  {
    var n :| 0 <= n < |arrivals| && arrivals[n].mover == g.arb.world.board[c].AsToken() &&
      arrivals[n].destination == c && !arrivals[n].SelfDestroyed();
    assert Stands(g, arrivals[n]);
  }

  ghost predicate NoPawnHome(cfg: Config, board: Cells) {
    forall c :: c in board ==> !PawnOnLastRank(cfg, board, c)
  }

  lemma WaitPawns(cfg: Config, g: Game, ms: nat)
    requires g.arb.world.Valid() && !Wait(cfg, g, ms).over && NoPawnHome(cfg, g.arb.world.board)
    ensures NoPawnHome(cfg, Wait(cfg, g, ms).arb.world.board)
  {
    hide World.Valid, Wait, Advance, PawnOnLastRank, Stands;
    var h, arrivals := Ready(cfg, g, ms), Advance(g.arb, ms).arrivals;
    ReadyShape(cfg, g, ms);
    WaitExplained(g, ms);
    forall c | c in Wait(cfg, g, ms).arb.world.board ensures !PawnOnLastRank(cfg, Wait(cfg, g, ms).arb.world.board, c) {
      assert c in h.arb.world.board;
      ApplyPawns(cfg, h, arrivals, c);
      if LandedBy(arrivals, c, h.arb.world.board[c].AsToken()) {
        LandedStands(h, arrivals, c);
      } else {
        SamePawn(cfg, g.arb.world.board, h.arb.world.board, c);
      }
    }
  }

  lemma SamePawn(cfg: Config, a: Cells, b: Cells, c: Position)
    requires c in a && c in b && a[c] == b[c]
    ensures PawnOnLastRank(cfg, a, c) <==> PawnOnLastRank(cfg, b, c)
  {
  }

  /** After a wait that does not end the game, every piece reported landing that still stands
      where it landed rests until `longRest` from now. */
  lemma WaitRestsLanded(cfg: Config, g: Game, ms: nat, n: nat)
    requires g.arb.world.Valid() && !Wait(cfg, g, ms).over
    requires n < |Advance(g.arb, ms).arrivals| && Stands(Wait(cfg, g, ms), Advance(g.arb, ms).arrivals[n])
    ensures var g' := Wait(cfg, g, ms);
      var x := Advance(g.arb, ms).arrivals[n].mover.id;
      && g'.arb.clock == g.arb.clock + ms
      && x in g'.arb.rests && g'.arb.rests[x] == Rest(g'.arb.clock, g'.arb.clock + cfg.longRest)
  {
    hide World.Valid, Wait, Advance, Stands;
    var h, arrivals := Ready(cfg, g, ms), Advance(g.arb, ms).arrivals;
    ReadyShape(cfg, g, ms);
    StandsElsewhere(h, Wait(cfg, g, ms), arrivals[n]);
    ApplyRests(cfg, h, arrivals, arrivals[n].mover.id);
  }

  lemma RequestPawns(cfg: Config, g: Game, op: Op)
    requires NoPawnHome(cfg, g.arb.world.board) && !op.WaitFor?
    ensures NoPawnHome(cfg, Do(cfg, g, op).arb.world.board)
  {
    hide Verdict;
    match op {
      case Move(source, destination) =>
      case JumpOn(cell) =>
      case ResignBy(color) =>
    }
  }

  /** No state of an unfinished game shows a pawn on its last rank, if the start did not. */
  lemma {:induction false} NoPawnEverHome(cfg: Config, board: Cells, ops: seq<Op>)
    requires cfg.Valid() && ProperBoard(board) && NoPawnHome(cfg, board)
    ensures var g := Play(cfg, Start(board), ops); !g.over ==> NoPawnHome(cfg, g.arb.world.board)
    decreases |ops|
  {
    hide Do, ProperBoard, World.Valid, NoPawnHome, Wait;
    if ops != [] {
      var g, op := Play(cfg, Start(board), ops[..|ops| - 1]), ops[|ops| - 1];
      NoPawnEverHome(cfg, board, ops[..|ops| - 1]);
      PlaySound(cfg, board, ops[..|ops| - 1]);
      if g.over {
        DoKeepsOver(cfg, g, op);
      } else if op.WaitFor? {
        Ledger.DoWait(cfg, g, op.ms);
        if !Wait(cfg, g, op.ms).over { WaitPawns(cfg, g, op.ms); }
      } else {
        RequestPawns(cfg, g, op);
      }
    }
  }

  // ----- the rate limit ------------------------------------------------------------------------------------

  function ShorterRest(cfg: Config): int {
    Min(cfg.longRest, cfg.shortRest)
  }

  /** Piece `x` may not act before `until`: in flight it reaches no cell before its rest could
      end by then, and on the board it rests, or `until` has come. */
  ghost predicate HeldUntil(cfg: Config, g: Game, x: Id, until: int) {
    g.over || (
      && (forall i :: 0 <= i < |g.arb.world.flights| && g.arb.world.flights[i].piece.id == x ==>
        g.arb.world.flights[i].stops != [] && g.arb.world.flights[i].stops[0].time + ShorterRest(cfg) >= until)
      && (forall c :: c in g.arb.world.board && g.arb.world.board[c].id == x ==> HeldOnBoard(cfg, g.arb, x, until)))
  }

  predicate HeldOnBoard(cfg: Config, a: Arb, x: Id, until: int) {
    a.clock + ShorterRest(cfg) >= until && (until <= a.clock || (x in a.rests && a.rests[x].end >= until))
  }

  lemma {:induction false} EndJumpsRests(cfg: Config, g: Game, ended: seq<JumpEnd>, x: Id)
    ensures var rests := EndJumps(cfg, g, ended).arb.rests;
      || (x in rests && rests[x].end == g.arb.clock + cfg.shortRest)
      || ((x in rests <==> x in g.arb.rests) && (x in rests ==> rests[x] == g.arb.rests[x]))
    decreases |ended|
  {
    if ended != [] {
      var j := ended[0];
      var rested := g.(arb := g.arb.SetRest(j.piece.id, cfg.shortRest));
      EndJumpsRests(cfg, rested.PublishUnlessOver(JumpCompleted(j.piece, j.cell, g.arb.clock)), ended[1..], x);
    }
  }

  /** A piece that lands in a run bound for `bound` was in flight and has passed its first cell. */
  lemma LandedWasDue(w: World, bound: int, c: Position, i: nat)
    requires w.Valid() && c in Run(w, bound).world.board && i < |w.flights|
    requires w.flights[i].piece.id == Run(w, bound).world.board[c].id && w.flights[i].stops != []
    ensures w.flights[i].stops[0].time <= bound
  {
    hide Run;
    RunValid(w, bound);
    if bound < w.flights[i].stops[0].time {
      RunKeepsFuture(w, bound, w.flights[i]);
      NotInBoth(Run(w, bound).world, w.flights[i], c);
    }
  }

  lemma NotInBoth(w: World, f: Flight, c: Position)
    requires w.Valid() && f in w.flights && c in w.board
    ensures f.piece.id != w.board[c].id
  {
  }

  lemma WaitKeepsFlightsHeld(cfg: Config, g: Game, ms: nat, x: Id, until: int)
    requires g.arb.world.Valid() && !g.over && HeldUntil(cfg, g, x, until)
    ensures var fs := Advance(g.arb, ms).arb.world.flights;
      forall i :: 0 <= i < |fs| && fs[i].piece.id == x ==>
        fs[i].stops != [] && fs[i].stops[0].time + ShorterRest(cfg) >= until
  {
    hide Run, World.Valid, HeldOnBoard;
    SurvivorsAreWhole(g.arb.world, g.arb.clock + ms);
    var fs := Advance(g.arb, ms).arb.world.flights;
    forall i | 0 <= i < |fs| && fs[i].piece.id == x
      ensures fs[i].stops != [] && fs[i].stops[0].time + ShorterRest(cfg) >= until
    {
      assert fs[i] in g.arb.world.flights;
    }
  }

  /** On the board before the wait: its rest stays, or is replaced by one that ends later. */
  lemma WaitKeepsStanding(cfg: Config, g: Game, ms: nat, c: Position, until: int)
    requires cfg.Valid() && g.arb.world.Valid() && !Wait(cfg, g, ms).over && c in g.arb.world.board
    requires HeldOnBoard(cfg, g.arb, g.arb.world.board[c].id, until)
    ensures HeldOnBoard(cfg, Wait(cfg, g, ms).arb, g.arb.world.board[c].id, until)
  {
    hide World.Valid, Advance, Wait, Stands, CellsKnown;
    var x, h := g.arb.world.board[c].id, Ready(cfg, g, ms);
    ReadyShape(cfg, g, ms);
    EndJumpsRests(cfg, Moved(g, ms), Advance(g.arb, ms).ended, x);
    assert Moved(g, ms).arb.clock == g.arb.clock + ms && Moved(g, ms).arb.rests == g.arb.rests by { MovedClock(g, ms); }
    ApplyRests(cfg, h, Advance(g.arb, ms).arrivals, x);
  }

  lemma MovedClock(g: Game, ms: nat)
    ensures Moved(g, ms).arb.clock == g.arb.clock + ms && Moved(g, ms).arb.rests == g.arb.rests
  {
  }

  /** Landed in the wait: it was in flight, has passed its first cell, and now has a long rest. */
  lemma WaitHoldsLanded(cfg: Config, g: Game, ms: nat, c: Position, x: Id, until: int)
    requires cfg.Valid() && g.arb.world.Valid() && !Wait(cfg, g, ms).over && HeldUntil(cfg, g, x, until)
    requires c in Advance(g.arb, ms).arb.world.board && Advance(g.arb, ms).arb.world.board[c].id == x
    requires LandedBy(Advance(g.arb, ms).arrivals, c, Advance(g.arb, ms).arb.world.board[c].AsToken())
    requires exists i :: 0 <= i < |g.arb.world.flights| && g.arb.world.flights[i].piece.id == x
    ensures HeldOnBoard(cfg, Wait(cfg, g, ms).arb, x, until)
  {
    hide World.Valid, Wait, Stands, CellsKnown, HeldOnBoard, Run, LandedBy;
    var h := Ready(cfg, g, ms);
    ReadyShape(cfg, g, ms);
    var i :| 0 <= i < |g.arb.world.flights| && g.arb.world.flights[i].piece.id == x;
    LandedWasDue(g.arb.world, g.arb.clock + ms, c, i);
    LandedStands(h, Advance(g.arb, ms).arrivals, c);
    ApplyRests(cfg, h, Advance(g.arb, ms).arrivals, x);
    HeldByLongRest(cfg, Wait(cfg, g, ms).arb, x, until);
  }

  lemma HeldByLongRest(cfg: Config, a: Arb, x: Id, until: int)
    requires a.clock + ShorterRest(cfg) >= until && x in a.rests && a.rests[x].end == a.clock + cfg.longRest
    ensures HeldOnBoard(cfg, a, x, until)
  {
  }

  /** A live piece was on the board or in flight before the run. */
  lemma LiveBefore(w: World, bound: int, c: Position)
    requires w.Valid() && c in Run(w, bound).world.board
    ensures var x := Run(w, bound).world.board[c].id;
      (exists d :: d in w.board && w.board[d].id == x) ||
      (exists i :: 0 <= i < |w.flights| && w.flights[i].piece.id == x)
  {
    hide Run, World.Valid;
    Accounting.RunAccounts(w, bound);
    var t := Run(w, bound).world.board[c].AsToken();
    assert t in Run(w, bound).world.Live();
    assert t in multiset(w.Live());
  }

  lemma WaitHoldsBoard(cfg: Config, g: Game, ms: nat, c: Position, x: Id, until: int)
    requires cfg.Valid() && g.arb.world.Valid() && !g.over && !Wait(cfg, g, ms).over && HeldUntil(cfg, g, x, until)
    requires c in Advance(g.arb, ms).arb.world.board && Advance(g.arb, ms).arb.world.board[c].id == x
    ensures HeldOnBoard(cfg, Wait(cfg, g, ms).arb, x, until)
  {
    hide World.Valid, Wait, HeldOnBoard, Run, LandedBy;
    LiveBefore(g.arb.world, g.arb.clock + ms, c);
    WaitExplained(g, ms);
    if d :| d in g.arb.world.board && g.arb.world.board[d].id == x {
      WaitKeepsStanding(cfg, g, ms, d, until);
    } else {
      WaitHoldsLanded(cfg, g, ms, c, x, until);
    }
  }

  lemma WaitKeepsHeld(cfg: Config, g: Game, ms: nat, x: Id, until: int)
    requires cfg.Valid() && g.arb.world.Valid() && !g.over && HeldUntil(cfg, g, x, until)
    ensures HeldUntil(cfg, Wait(cfg, g, ms), x, until)
  {
    hide World.Valid, Wait, HeldOnBoard, Advance, CellsKnown;
    var g', a := Wait(cfg, g, ms), Advance(g.arb, ms).arb;
    if !g'.over {
      ReadyShape(cfg, g, ms);
      WaitKeepsFlightsHeld(cfg, g, ms, x, until);
      forall c | c in g'.arb.world.board && g'.arb.world.board[c].id == x ensures HeldOnBoard(cfg, g'.arb, x, until) {
        assert c in a.world.board && a.world.board[c].id == x;
        WaitHoldsBoard(cfg, g, ms, c, x, until);
      }
    }
  }

  lemma LookKeepsHeld(cfg: Config, g: Game, cell: Position, x: Id, until: int)
    requires HeldUntil(cfg, g, x, until)
    ensures HeldUntil(cfg, g.Look(cell), x, until)
  {
  }

  /** A piece that is held and not resting has waited long enough. */
  lemma FreeAfter(cfg: Config, g: Game, cell: Position, until: int)
    requires !g.over && cell in g.arb.world.board && HeldUntil(cfg, g, g.arb.world.board[cell].id, until)
    requires !g.RestsOn(cell)
    ensures until <= g.arb.clock
  {
    assert HeldOnBoard(cfg, g.arb, g.arb.world.board[cell].id, until);
  }

  lemma LaunchHolds(cfg: Config, g: Game, source: Position, destination: Position, x: Id, until: int)
    requires cfg.Valid() && g.arb.world.Valid() && source in g.arb.world.board && source != destination
    requires !g.over && HeldUntil(cfg, g, x, until)
    requires g.arb.world.board[source].id == x ==> until <= g.arb.clock + cfg.moveDuration + ShorterRest(cfg)
    ensures HeldUntil(cfg, g.(arb := Launch(cfg, g.arb, source, destination)), x, until)
  {
    hide HeldOnBoard;
    LaunchedFlight(cfg, g.arb.clock, g.arb.world.board[source], source, destination);
    var w := Launch(cfg, g.arb, source, destination).world;
    forall c | c in w.board && w.board[c].id == x
      ensures HeldOnBoard(cfg, Launch(cfg, g.arb, source, destination), x, until)
    {
      assert HeldOnBoard(cfg, g.arb, x, until);
      HeldAnywhere(cfg, g.arb, Launch(cfg, g.arb, source, destination), x, until);
    }
  }

  lemma HeldAnywhere(cfg: Config, a: Arb, b: Arb, x: Id, until: int)
    requires HeldOnBoard(cfg, a, x, until) && b.clock == a.clock && b.rests == a.rests
    ensures HeldOnBoard(cfg, b, x, until)
  {
  }

  lemma MoveKeepsHeld(cfg: Config, g: Game, source: Position, destination: Position, x: Id, until: int)
    requires cfg.Valid() && g.arb.world.Valid() && !g.over && HeldUntil(cfg, g, x, until)
    ensures HeldUntil(cfg, RequestMove(cfg, g, source, destination).game, x, until)
  {
    hide World.Valid, Verdict, Launch, Arb.IsJumpingOn;
    var seen := g.Look(source);
    LookKeepsHeld(cfg, g, source, x, until);
    if RequestMove(cfg, g, source, destination).reason == Ok {
      AcceptedMove(g.arb.world.board, cfg.height, source, destination, cfg.moveDuration);
      if g.arb.world.board[source].id == x { FreeAfter(cfg, g, source, until); }
      LaunchHolds(cfg, seen, source, destination, x, until);
    } else {
      assert forall h: Game :: h.arb == g.arb && h.over == g.over ==> HeldUntil(cfg, h, x, until);
    }
  }

  lemma JumpKeepsHeld(cfg: Config, g: Game, cell: Position, x: Id, until: int)
    requires HeldUntil(cfg, g, x, until)
    ensures HeldUntil(cfg, RequestJump(cfg, g, cell).game, x, until)
  {
    LookKeepsHeld(cfg, g, cell, x, until);
  }

  lemma DoKeepsHeld(cfg: Config, g: Game, op: Op, x: Id, until: int)
    requires cfg.Valid() && g.arb.world.Valid() && HeldUntil(cfg, g, x, until)
    ensures HeldUntil(cfg, Do(cfg, g, op), x, until)
  {
    hide World.Valid, Wait, RequestMove, HeldOnBoard;
    if g.over {
      hide HeldUntil;
      DoKeepsOver(cfg, g, op);
      OverIsHeld(cfg, Do(cfg, g, op), x, until);
    } else {
      match op {
        case Move(source, destination) => MoveKeepsHeld(cfg, g, source, destination, x, until);
        case JumpOn(cell) => JumpKeepsHeld(cfg, g, cell, x, until);
        case ResignBy(color) =>
        case WaitFor(ms) => WaitKeepsHeld(cfg, g, ms, x, until);
      }
    }
  }

  lemma OverIsHeld(cfg: Config, g: Game, x: Id, until: int)
    requires g.over
    ensures HeldUntil(cfg, g, x, until)
  {
  }

  lemma {:induction false} PlayKeepsHeld(cfg: Config, g: Game, ops: seq<Op>, x: Id, until: int)
    requires cfg.Valid() && Sound(cfg, g.arb) && HeldUntil(cfg, g, x, until)
    ensures Sound(cfg, Play(cfg, g, ops).arb) && HeldUntil(cfg, Play(cfg, g, ops), x, until)
    decreases |ops|
  {
    hide Do, HeldUntil;
    if ops != [] {
      var h := Play(cfg, g, ops[..|ops| - 1]);
      PlayKeepsHeld(cfg, g, ops[..|ops| - 1], x, until);
      assert h.arb.world.Valid();
      hide Sound;
      DoSound(cfg, h, ops[|ops| - 1]);
      DoKeepsHeld(cfg, h, ops[|ops| - 1], x, until);
    }
  }

  lemma AcceptedIsHeld(cfg: Config, g: Game, source: Position, destination: Position)
    requires cfg.Valid() && g.arb.world.Valid() && RequestMove(cfg, g, source, destination).reason == Ok
    ensures source in g.arb.world.board
    ensures HeldUntil(cfg, RequestMove(cfg, g, source, destination).game, g.arb.world.board[source].id,
                      g.arb.clock + cfg.moveDuration + ShorterRest(cfg))
  {
    hide HeldOnBoard, Verdict;
    AcceptedMove(g.arb.world.board, cfg.height, source, destination, cfg.moveDuration);
    LaunchedFlight(cfg, g.arb.clock, g.arb.world.board[source], source, destination);
  }

  ghost predicate Accepts(cfg: Config, g: Game, op: Op) {
    match op
    case Move(source, destination) => RequestMove(cfg, g, source, destination).reason == Ok
    case JumpOn(cell) => RequestJump(cfg, g, cell).reason == Ok
    case _ => false
  }

  function Subject(op: Op): Position
    requires op.Move? || op.JumpOn?
  {
    if op.Move? then op.source else op.cell
  }

  /** Per-piece rate limit, over whole games. Once a move of a piece is accepted, the next
      request for the same piece, to move or to jump, is accepted only after the time of one
      cell and the shorter of the two rests, wherever the piece was stopped on its way. */
  lemma RateLimit(cfg: Config, board: Cells, before: seq<Op>, source: Position, destination: Position,
                  between: seq<Op>, op: Op)
    requires cfg.Valid() && ProperBoard(board) && (op.Move? || op.JumpOn?)
    requires RequestMove(cfg, Play(cfg, Start(board), before), source, destination).reason == Ok
    ensures var g := Play(cfg, Start(board), before);
      var h := Play(cfg, RequestMove(cfg, g, source, destination).game, between);
      && source in g.arb.world.board
      && (Accepts(cfg, h, op) && Subject(op) in h.arb.world.board &&
          h.arb.world.board[Subject(op)].id == g.arb.world.board[source].id ==>
            h.arb.clock >= g.arb.clock + cfg.moveDuration + Min(cfg.longRest, cfg.shortRest))
  {
    hide Play, Sound, World.Valid, HeldUntil, ProperBoard, Verdict, Launch, Arb.IsJumpingOn;
    var g := Play(cfg, Start(board), before);
    var g' := RequestMove(cfg, g, source, destination).game;
    PlaySound(cfg, board, before);
    DoSound(cfg, g, Move(source, destination));
    assert g.arb.world.Valid() by { SoundIsValid(cfg, g.arb); }
    AcceptedIsHeld(cfg, g, source, destination);
    var x, until := g.arb.world.board[source].id, g.arb.clock + cfg.moveDuration + ShorterRest(cfg);
    PlayKeepsHeld(cfg, g', between, x, until);
    var h := Play(cfg, g', between);
    if Accepts(cfg, h, op) && Subject(op) in h.arb.world.board && h.arb.world.board[Subject(op)].id == x {
      FreeAfter(cfg, h, Subject(op), until);
    }
  }

  lemma SoundIsValid(cfg: Config, a: Arb)
    requires Sound(cfg, a)
    ensures a.world.Valid()
  {
  }
}
