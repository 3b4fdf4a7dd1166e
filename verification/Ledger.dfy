/** Nothing is lost: pieces, kings and points over whole games. */
module Ledger {
  import opened Pieces
  import opened Simulation
  import opened Accounting
  import opened Material
  import opened Arbitration
  import opened Rules
  import opened Games
  import opened Invariants

  /** What promotions have added to a sum over the pieces. */
  function Gained(log: seq<Event>, f: Token -> int): int
    decreases |log|
  {
    if log == [] then 0
    else
      var e := log[|log| - 1];
      Gained(log[..|log| - 1], f) +
      (if e.Promotion? then f(Token(e.id, e.color, e.to)) - f(Token(e.id, e.color, e.from)) else 0)
  }

  lemma GainedAppend(log: seq<Event>, e: Event, f: Token -> int)
    ensures Gained(log + [e], f) == Gained(log, f) +
      (if e.Promotion? then f(Token(e.id, e.color, e.to)) - f(Token(e.id, e.color, e.from)) else 0)
  {
    assert (log + [e])[..|log|] == log;
  }

  /** The sum of any measure over the pieces of the start, and what promotions added to it, is
      found again in the live, the captured and the dropped. */
  ghost predicate Balanced(start: set<Token>, g: Game, f: Token -> int) {
    Sum(multiset(start), f) + Gained(g.log, f) ==
      Sum(multiset(g.arb.world.Live()), f) + Sum(multiset(Captured(g.arrivals)), f) + Sum(multiset(g.dropped), f)
  }

  // ----- requests -----------------------------------------------------------------------------------------

  lemma LaunchLive(w: World, source: Position, f: Flight)
    requires w.Valid() && source in w.board && f.piece == w.board[source]
    ensures w.(board := w.board - {source}, flights := w.flights + [f]).Live() == w.Live()
  {
    TokensTake(w, source);
    TokensAppend(w.flights, f);
  }

  lemma TellingKeepsBalance(start: set<Token>, g: Game, e: Event, f: Token -> int)
    requires Balanced(start, g, f) && !e.Promotion?
    ensures Balanced(start, g.Publish(e), f) && Balanced(start, g.PublishUnlessOver(e), f)
  {
    GainedAppend(g.log, e, f);
  }

  lemma RejectKeepsBalance(start: set<Token>, g: Game, source: Position, destination: Position, f: Token -> int)
    requires Balanced(start, g, f)
    ensures Balanced(start, g.Reject(source, destination), f)
  {
    var piece := PieceAt(g.arb.world.board, source);
    var id := if piece.Some? then Some(piece.value.id) else None;
    TellingKeepsBalance(start, g, IllegalAction(id, destination, g.arb.clock), f);
  }

  lemma LaunchKeepsBalance(cfg: Config, start: set<Token>, g: Game, source: Position, destination: Position,
    f: Token -> int)
    requires g.arb.world.Valid() && Balanced(start, g, f) && source in g.arb.world.board
    ensures Balanced(start, g.(arb := Launch(cfg, g.arb, source, destination)), f)
  {
    var w := g.arb.world;
    LaunchLive(w, source, Launched(cfg, g.arb.clock, w.board[source], source, destination));
    hide Sum, Gained, World.Live, World.Valid, Captured;
  }

  lemma MoveKeepsBalance(cfg: Config, start: set<Token>, g: Game, source: Position, destination: Position,
    f: Token -> int)
    requires g.arb.world.Valid() && Balanced(start, g, f)
    ensures Balanced(start, RequestMove(cfg, g, source, destination).game, f)
  {
    hide Sum, Gained, World.Live, World.Valid, Arb.IsJumpingOn, Game.Reject, IsLegal, Captured, Launch;
    var seen := g.Look(source);
    assert Balanced(start, seen, f);
    RejectKeepsBalance(start, g, source, destination, f);
    RejectKeepsBalance(start, seen, source, destination, f);
    if source in g.arb.world.board {
      LaunchKeepsBalance(cfg, start, seen, source, destination, f);
    }
  }

  lemma JumpKeepsBalance(cfg: Config, start: set<Token>, g: Game, cell: Position, f: Token -> int)
    requires Balanced(start, g, f)
    ensures Balanced(start, RequestJump(cfg, g, cell).game, f)
  {
    hide Sum, Gained, World.Live, Arb.IsJumpingOn, Game.Reject, Captured;
    RejectKeepsBalance(start, g, cell, cell, f);
    GuardLive(g.arb.world, g.arb.world.jumps + [Jump(cell, g.arb.clock + cfg.jumpDuration)]);
  }

  lemma RequestKeepsBalance(cfg: Config, start: set<Token>, g: Game, op: Op, f: Token -> int)
    requires g.arb.world.Valid() && Balanced(start, g, f) && !op.WaitFor?
    ensures Balanced(start, Do(cfg, g, op), f)
  {
    hide Balanced, World.Valid, RequestMove, RequestJump;
    match op {
      case Move(source, destination) => MoveKeepsBalance(cfg, start, g, source, destination, f);
      case JumpOn(cell) => JumpKeepsBalance(cfg, start, g, cell, f);
      case ResignBy(color) => ResignKeepsBalance(start, g, color, f);
    }
  }

  lemma ResignKeepsBalance(start: set<Token>, g: Game, loser: Color, f: Token -> int)
    requires Balanced(start, g, f)
    ensures Balanced(start, Resign(g, loser), f)
  {
    assert Balanced(start, g.(over := true), f);
    TellingKeepsBalance(start, g.(over := true), Ended(loser.Other(), g.arb.clock), f);
  }

  lemma GuardLive(w: World, jumps: seq<Jump>)
    ensures w.(jumps := jumps).Live() == w.Live()
  {
  }

  // ----- waiting --------------------------------------------------------------------------------------------

  lemma AdvanceKeepsBalance(start: set<Token>, g: Game, ms: nat, f: Token -> int)
    requires g.arb.world.Valid() && Balanced(start, g, f)
    ensures Balanced(start, Moved(g, ms), f)
  {
    hide Sum, Gained, World.Live, World.Valid, Run, Captured;
    var run := Run(g.arb.world, g.arb.clock + ms);
    RunAccounts(g.arb.world, g.arb.clock + ms);
    EffectSum(g.arb.world, run, f);
    GuardLive(run.world, Remaining(run.world.jumps, g.arb.clock + ms));
    CapturedConcat(g.arrivals, run.arrivals);
    SumPlus(multiset(Captured(g.arrivals)), multiset(Captured(run.arrivals)), f);
    SumPlus(multiset(g.dropped), multiset(run.dropped), f);
    assert multiset(Captured(g.arrivals) + Captured(run.arrivals)) ==
      multiset(Captured(g.arrivals)) + multiset(Captured(run.arrivals));
    assert multiset(g.dropped + run.dropped) == multiset(g.dropped) + multiset(run.dropped);
  }

  lemma {:induction false} EndJumpsKeepsBalance(cfg: Config, start: set<Token>, g: Game, ended: seq<JumpEnd>,
    f: Token -> int)
    requires Balanced(start, g, f)
    ensures Balanced(start, EndJumps(cfg, g, ended), f)
    decreases |ended|
  {
    hide Sum, Gained, World.Live;
    if ended != [] {
      var j := ended[0];
      var rested := g.(arb := g.arb.SetRest(j.piece.id, cfg.shortRest));
      assert Balanced(start, rested, f);
      TellingKeepsBalance(start, rested, JumpCompleted(j.piece, j.cell, g.arb.clock), f);
      EndJumpsKeepsBalance(cfg, start, rested.PublishUnlessOver(JumpCompleted(j.piece, j.cell, g.arb.clock)),
        ended[1..], f);
    }
  }

  /** Replacing one live token by another moves the sum by their difference. */
  lemma SumReplace(tokens: set<Token>, t: Token, u: Token, f: Token -> int)
    requires t in tokens && (u == t || u !in tokens)
    ensures Sum(multiset(tokens - {t} + {u}), f) == Sum(multiset(tokens), f) - f(t) + f(u)
  {
    SetLosesOne(tokens, tokens - {t}, t);
    SetLosesOne(tokens - {t} + {u}, tokens - {t}, u);
    SumPlus(multiset(tokens - {t}), multiset{t}, f);
    SumPlus(multiset(tokens - {t}), multiset{u}, f);
    SumOne(t, f);
    SumOne(u, f);
  }

  lemma PromoteLive(w: World, cell: Position, kind: Kind)
    requires w.Valid() && cell in w.board
    ensures var t := w.board[cell].AsToken();
      var u := t.(kind := kind);
      && t in w.Live() && (u == t || u !in w.Live())
      && w.(board := w.board[cell := w.board[cell].(kind := kind)]).Live() == w.Live() - {t} + {u}
  {
    TokenPlaces(w);
    TokensPut(w, cell, w.board[cell].(kind := kind));
  }

  lemma SettleKeepsBalance(cfg: Config, start: set<Token>, g: Game, cell: Position, f: Token -> int)
    requires g.arb.world.Valid() && Balanced(start, g, f) && cell in g.arb.world.board
    ensures Balanced(start, Settle(cfg, g, cell), f)
  {
    hide Sum, Gained, World.Live;
    var moved := g.arb.world.board[cell];
    var kind := Promoted(cfg, moved.kind, moved.color, cell.row);
    PromoteLive(g.arb.world, cell, kind);
    SumReplace(g.arb.world.Live(), moved.AsToken(), moved.AsToken().(kind := kind), f);
    GainedAppend(g.log, Promotion(moved.id, moved.color, moved.kind, kind, cell, g.arb.clock), f);
  }

  lemma ApplyOneKeepsBalance(cfg: Config, start: set<Token>, g: Game, e: Arrival, f: Token -> int)
    requires g.arb.world.Valid() && Balanced(start, g, f)
    ensures Balanced(start, ApplyOne(cfg, g, e), f)
  {
    hide Sum, Gained, World.Live, World.Valid, Settle;
    var told := g.PublishUnlessOver(ActionEvent(e, g.arb.clock));
    TellingKeepsBalance(start, g, ActionEvent(e, g.arb.clock), f);
    if e.KingCaptured() {
      assert Balanced(start, told.(over := true), f);
      TellingKeepsBalance(start, told.(over := true), Ended(e.captured.value.color.Other(), g.arb.clock), f);
    } else if Stands(told, e) {
      SettleKeepsBalance(cfg, start, told, e.destination, f);
    }
  }

  lemma ApplyOneValid(cfg: Config, g: Game, e: Arrival)
    requires g.arb.world.Valid()
    ensures ApplyOne(cfg, g, e).arb.world.Valid()
  {
    hide ApplyOne;
    ApplyOneShape(cfg, g, e);
    var w := ApplyOne(cfg, g, e).arb.world;
    ReskinValid(g.arb.world, w.board);
    assert w == g.arb.world.(board := w.board);
  }

  lemma {:induction false} ApplyKeepsBalance(cfg: Config, start: set<Token>, g: Game, arrivals: seq<Arrival>,
    f: Token -> int)
    requires g.arb.world.Valid() && Balanced(start, g, f)
    ensures Balanced(start, ApplyArrivals(cfg, g, arrivals), f)
    decreases |arrivals|
  {
    hide Balanced, World.Valid, ApplyOne;
    if arrivals != [] {
      ApplyOneKeepsBalance(cfg, start, g, arrivals[0], f);
      ApplyOneValid(cfg, g, arrivals[0]);
      ApplyKeepsBalance(cfg, start, ApplyOne(cfg, g, arrivals[0]), arrivals[1..], f);
    }
  }

  lemma WaitKeepsBalance(cfg: Config, start: set<Token>, g: Game, ms: nat, f: Token -> int)
    requires g.arb.world.Valid() && Balanced(start, g, f)
    ensures Balanced(start, Wait(cfg, g, ms), f)
  {
    hide Balanced, World.Valid, Advance;
    var adv := Advance(g.arb, ms);
    AdvanceKeepsBalance(start, g, ms, f);
    AdvanceSettles(g.arb, ms);
    EndJumpsKeepsBalance(cfg, start, Moved(g, ms), adv.ended, f);
    EndJumpsShape(cfg, Moved(g, ms), adv.ended);
    ApplyKeepsBalance(cfg, start, EndJumps(cfg, Moved(g, ms), adv.ended), adv.arrivals, f);
  }

  /** Conservation over whole games, for every measure on pieces. */
  lemma {:induction false} PlayBalanced(cfg: Config, board: Cells, ops: seq<Op>, f: Token -> int)
    requires cfg.Valid() && ProperBoard(board)
    ensures Balanced(Start(board).arb.world.Live(), Play(cfg, Start(board), ops), f)
    decreases |ops|
  {
    hide Do, ProperBoard, Wait;
    if ops != [] {
      var g, op := Play(cfg, Start(board), ops[..|ops| - 1]), ops[|ops| - 1];
      PlayBalanced(cfg, board, ops[..|ops| - 1], f);
      PlaySound(cfg, board, ops[..|ops| - 1]);
      hide Balanced;
      if op.WaitFor? {
        WaitKeepsBalance(cfg, Start(board).arb.world.Live(), g, op.ms, f);
        assert Do(cfg, g, op) == Wait(cfg, g, op.ms) by { DoWait(cfg, g, op.ms); }
      } else {
        RequestKeepsBalance(cfg, Start(board).arb.world.Live(), g, op, f);
      }
    } else {
      StartBalanced(board, f);
    }
  }

  lemma DoWait(cfg: Config, g: Game, ms: nat)
    ensures Do(cfg, g, WaitFor(ms)) == Wait(cfg, g, ms)
  {
  }

  lemma StartBalanced(board: Cells, f: Token -> int)
    ensures Balanced(Start(board).arb.world.Live(), Start(board), f)
  {
    NoneCaptured(f);
    var none: seq<Token> := [];
    assert multiset(none) == multiset{};
  }
}
