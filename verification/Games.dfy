/** `GameEngine` as functions on values: requests, waiting, and what they publish. */
module Games {
  import opened Pieces
  import opened Simulation
  import opened Motions
  import opened Rules
  import opened Arbitration

  datatype Config = Config(moveDuration: int, jumpDuration: int, longRest: int, shortRest: int, height: nat) {
    /** What the constructor of `GameEngine` demands. */
    predicate Valid() {
      moveDuration > 0 && jumpDuration > 0 && longRest >= 0 && shortRest >= 0
    }
  }

  datatype Event =
    | MoveCompleted(mover: Token, at: Position, time: int)
    | Capture(mover: Token, victim: Token, at: Position, time: int)
    | MotionStopped(mover: Token, at: Position, time: int)
    | JumpCompleted(piece: Token, at: Position, time: int)
    | Promotion(id: Id, color: Color, from: Kind, to: Kind, at: Position, time: int)
    | Ended(winner: Color, time: int)
    | IllegalAction(pieceId: Option<Id>, destination: Position, time: int)

  /** The engine. `log` is everything published. `arrivals` and `dropped` are what the arbiter
      has reported and left unreported since the start; the source keeps neither. */
  datatype Game = Game(arb: Arb, over: bool, log: seq<Event>, arrivals: seq<Arrival>, dropped: seq<Token>) {
    function Publish(e: Event): Game {
      this.(log := log + [e])
    }

    function PublishUnlessOver(e: Event): Game {
      if over then this else Publish(e)
    }

    function Reject(source: Position, destination: Position): Game {
      var piece := PieceAt(arb.world.board, source);
      PublishUnlessOver(IllegalAction(if piece.Some? then Some(piece.value.id) else None, destination, arb.clock))
    }

    /** A look at the rest of the piece on `cell`, which forgets the rest if it is over. */
    function Look(cell: Position): Game {
      if cell in arb.world.board then this.(arb := arb.Forget(arb.world.board[cell].id)) else this
    }

    predicate RestsOn(cell: Position) {
      cell in arb.world.board && arb.IsResting(arb.world.board[cell].id)
    }
  }

  datatype Reply = Reply(game: Game, reason: Reason)

  // ----- requests --------------------------------------------------------------------------------

  ghost function Launched(cfg: Config, clock: int, piece: Piece, source: Position, destination: Position): Flight {
    Flight(piece, source, clock, Timetable(source, destination, clock, PerCell(cfg.moveDuration, source, destination)))
  }

  ghost function Launch(cfg: Config, a: Arb, source: Position, destination: Position): Arb
    requires source in a.world.board
  {
    var f := Launched(cfg, a.clock, a.world.board[source], source, destination);
    a.(world := a.world.(board := a.world.board - {source}, flights := a.world.flights + [f]))
  }

  ghost function RequestMove(cfg: Config, g: Game, source: Position, destination: Position): Reply {
    if g.over then Reply(g, GameOver)
    else if g.arb.IsJumpingOn(source) then Reply(g.Reject(source, destination), JumpInProgress)
    else if g.RestsOn(source) then Reply(g.Reject(source, destination), Resting)
    else
      var seen := g.Look(source);
      var verdict := Verdict(g.arb.world.board, cfg.height, source, destination);
      if verdict != Ok then Reply(seen.Reject(source, destination), verdict)
      else Reply(seen.(arb := Launch(cfg, seen.arb, source, destination)), Ok)
  }

  ghost function RequestJump(cfg: Config, g: Game, cell: Position): Reply {
    if g.over then Reply(g, GameOver)
    else if g.arb.IsJumpingOn(cell) then Reply(g.Reject(cell, cell), JumpInProgress)
    else if cell !in g.arb.world.board then Reply(g.Reject(cell, cell), EmptySource)
    else if g.RestsOn(cell) then Reply(g.Reject(cell, cell), Resting)
    else
      var seen := g.Look(cell);
      var jump := Jump(cell, g.arb.clock + cfg.jumpDuration);
      Reply(seen.(arb := seen.arb.(world := seen.arb.world.(jumps := seen.arb.world.jumps + [jump]))), Ok)
  }

  function Resign(g: Game, loser: Color): Game {
    if g.over then g else g.(over := true).Publish(Ended(loser.Other(), g.arb.clock))
  }

  // ----- waiting -----------------------------------------------------------------------------------

  /** `LastRankPromotion.promote`. */
  function Promoted(cfg: Config, kind: Kind, color: Color, row: int): Kind {
    if kind == Pawn && row == (if color.White? then 0 else cfg.height - 1) then Queen else kind
  }

  function ActionEvent(e: Arrival, time: int): Event {
    if e.SelfDestroyed() then MotionStopped(e.mover, e.destination, time)
    else if e.captured.Some? then Capture(e.mover, e.captured.value, e.destination, time)
    else MoveCompleted(e.mover, e.destination, time)
  }

  function EndJumps(cfg: Config, g: Game, ended: seq<JumpEnd>): Game
    decreases |ended|
  {
    if ended == [] then g
    else
      var j := ended[0];
      var rested := g.(arb := g.arb.SetRest(j.piece.id, cfg.shortRest));
      EndJumps(cfg, rested.PublishUnlessOver(JumpCompleted(j.piece, j.cell, g.arb.clock)), ended[1..])
  }

  /** The piece that landed rests, and a pawn on its last rank becomes a queen. */
  function Settle(cfg: Config, g: Game, cell: Position): Game
    requires cell in g.arb.world.board
  {
    var moved := g.arb.world.board[cell];
    var kind := Promoted(cfg, moved.kind, moved.color, cell.row);
    var rested := g.arb.SetRest(moved.id, cfg.longRest);
    var board := g.arb.world.board[moved.cell := moved.(kind := kind)];
    var settled := g.(arb := rested.(world := rested.world.(board := board)));
    if kind == moved.kind then settled
    else settled.Publish(Promotion(moved.id, moved.color, moved.kind, kind, cell, g.arb.clock))
  }

  predicate Stands(g: Game, e: Arrival) {
    && !e.SelfDestroyed()
    && e.destination in g.arb.world.board
    && g.arb.world.board[e.destination].id == e.mover.id
  }

  function ApplyOne(cfg: Config, g: Game, e: Arrival): Game {
    var told := g.PublishUnlessOver(ActionEvent(e, g.arb.clock));
    if e.KingCaptured() then
      told.(over := true).Publish(Ended(e.captured.value.color.Other(), g.arb.clock))
    else if Stands(told, e) then Settle(cfg, told, e.destination)
    else told
  }

  /** Arrivals are applied in order; a captured king leaves the rest of the batch unapplied. */
  function ApplyArrivals(cfg: Config, g: Game, arrivals: seq<Arrival>): Game
    decreases |arrivals|
  {
    if arrivals == [] then g
    else if arrivals[0].KingCaptured() then ApplyOne(cfg, g, arrivals[0])
    else ApplyArrivals(cfg, ApplyOne(cfg, g, arrivals[0]), arrivals[1..])
  }

  /** The game right after the arbiter has advanced, before any of it is published. */
  ghost function Moved(g: Game, ms: nat): Game {
    var adv := Advance(g.arb, ms);
    g.(arb := adv.arb, arrivals := g.arrivals + adv.arrivals, dropped := g.dropped + adv.dropped)
  }

  ghost function Wait(cfg: Config, g: Game, ms: nat): Game {
    var adv := Advance(g.arb, ms);
    ApplyArrivals(cfg, EndJumps(cfg, Moved(g, ms), adv.ended), adv.arrivals)
  }

  // ----- whole games -------------------------------------------------------------------------------

  datatype Op =
    | Move(source: Position, destination: Position)
    | JumpOn(cell: Position)
    | ResignBy(color: Color)
    | WaitFor(ms: nat)

  ghost function Do(cfg: Config, g: Game, op: Op): Game {
    match op
    case Move(source, destination) => RequestMove(cfg, g, source, destination).game
    case JumpOn(cell) => RequestJump(cfg, g, cell).game
    case ResignBy(color) => Resign(g, color)
    case WaitFor(ms) => Wait(cfg, g, ms)
  }

  ghost function Play(cfg: Config, g: Game, ops: seq<Op>): Game
    decreases |ops|
  {
    if ops == [] then g else Do(cfg, Play(cfg, g, ops[..|ops| - 1]), ops[|ops| - 1])
  }

  ghost predicate ProperBoard(board: Cells) {
    && (forall c :: c in board ==> board[c].cell == c)
    && (forall c, d :: c in board && d in board && board[c].id == board[d].id ==> c == d)
  }

  function Start(board: Cells): Game {
    Game(Arb(World(board, [], []), 0, map[]), false, [], [], [])
  }
}
