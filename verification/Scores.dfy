/** `events/score_tracker.py` and the ledger that ties scores to what is left on the board. */
module Scores {
  import opened Pieces
  import opened Simulation
  import opened Accounting
  import opened Material
  import opened Reports
  import opened Arbitration
  import opened Rules
  import opened Games
  import opened Invariants
  import opened Ledger
  import opened Outcomes

  /** What the published captures have earned `color`. */
  function Score(log: seq<Event>, color: Color): int
    decreases |log|
  {
    if log == [] then 0
    else
      var e := log[|log| - 1];
      Score(log[..|log| - 1], color) + (if e.Capture? && e.mover.color == color then Points(e.victim.kind) else 0)
  }

  /** `ScoreTracker`, subscribed to `CaptureEvent`. */
  class ScoreTracker {
    var score: map<Color, int>

    constructor ()
      ensures White in score && Black in score
      ensures forall c :: c in score ==> score[c] == Score([], c)
    {
      score := map[White := 0, Black := 0];
    }

    /** The tally follows the log: hearing of one more event keeps it the score of the log. */
    method OnCapture(e: Event, ghost log: seq<Event>)
      requires e.Capture? && White in score && Black in score
      requires forall c :: c in score ==> score[c] == Score(log, c)
      modifies this
      ensures White in score && Black in score
      ensures forall c :: c in score ==> score[c] == Score(log + [e], c)
    {
      assert (log + [e])[..|log|] == log;
      assert e.mover.color == White || e.mover.color == Black;
      score := score[e.mover.color := score[e.mover.color] + Points(e.victim.kind)];
    }
  }

  /** What one published capture earns, and for whom. */
  lemma CaptureScores(e: Event)
    requires e.Capture?
    ensures Score([e], e.mover.color.Other()) == 0
    ensures var points := Score([e], e.mover.color);
      && (points == 0 <==> e.victim.kind == King) && (points == 1 <==> e.victim.kind == Pawn)
      && (points == 3 <==> e.victim.kind == Knight || e.victim.kind == Bishop)
      && (points == 5 <==> e.victim.kind == Rook) && (points == 9 <==> e.victim.kind == Queen)
  {
    assert [e][..0] == [];
  }

  /** Points of `color` that were published as stopped for good. */
  function Stopped(log: seq<Event>, color: Color): int
    decreases |log|
  {
    if log == [] then 0
    else
      var e := log[|log| - 1];
      Stopped(log[..|log| - 1], color) + (if e.MotionStopped? then PointsOf(color)(e.mover) else 0)
  }

  function Promotions(log: seq<Event>, color: Color): nat
    decreases |log|
  {
    if log == [] then 0
    else
      var e := log[|log| - 1];
      Promotions(log[..|log| - 1], color) + (if e.Promotion? && e.color == color then 1 else 0)
  }

  lemma Append(log: seq<Event>, e: Event, color: Color)
    ensures Score(log + [e], color) ==
      Score(log, color) + (if e.Capture? && e.mover.color == color then Points(e.victim.kind) else 0)
    ensures Stopped(log + [e], color) ==
      Stopped(log, color) + (if e.MotionStopped? then PointsOf(color)(e.mover) else 0)
  {
    assert (log + [e])[..|log|] == log;
  }

  lemma AppendArrival(arrivals: seq<Arrival>, e: Arrival, color: Color)
    ensures Taken(arrivals + [e], color) == Taken(arrivals, color) +
      (if e.captured.Some? && !e.SelfDestroyed() then PointsOf(color)(e.captured.value) else 0)
    ensures Lost(arrivals + [e], color) == Lost(arrivals, color) +
      (if e.SelfDestroyed() then PointsOf(color)(e.captured.value) else 0)
  {
    assert (arrivals + [e])[..|arrivals|] == arrivals;
  }

  /** The published events book exactly the given arrivals. */
  ghost predicate Booked(log: seq<Event>, arrivals: seq<Arrival>) {
    forall c: Color :: Score(log, c.Other()) == Taken(arrivals, c) && Stopped(log, c) == Lost(arrivals, c)
  }

  lemma BookOne(log: seq<Event>, arrivals: seq<Arrival>, e: Arrival, time: int)
    requires Booked(log, arrivals) && Fair(e)
    ensures Booked(log + [ActionEvent(e, time)], arrivals + [e])
  {
    hide Score, Stopped, Taken, Lost;
    forall c: Color ensures Score(log + [ActionEvent(e, time)], c.Other()) == Taken(arrivals + [e], c)
      && Stopped(log + [ActionEvent(e, time)], c) == Lost(arrivals + [e], c)
    {
      Append(log, ActionEvent(e, time), c);
      Append(log, ActionEvent(e, time), c.Other());
      AppendArrival(arrivals, e, c);
    }
  }

  lemma BookNothing(log: seq<Event>, arrivals: seq<Arrival>, e: Event)
    requires Booked(log, arrivals) && !e.Capture? && !e.MotionStopped?
    ensures Booked(log + [e], arrivals)
  {
    hide Score, Stopped, Taken, Lost;
    forall c: Color
      ensures Score(log + [e], c.Other()) == Taken(arrivals, c) && Stopped(log + [e], c) == Lost(arrivals, c)
    {
      Append(log, e, c);
      Append(log, e, c.Other());
    }
  }

  lemma ApplyOneBooks(cfg: Config, g: Game, done: seq<Arrival>, e: Arrival)
    requires Booked(g.log, done) && Fair(e) && !g.over && !e.KingCaptured()
    ensures Booked(ApplyOne(cfg, g, e).log, done + [e]) && !ApplyOne(cfg, g, e).over
  {
    hide Booked, Fair;
    BookOne(g.log, done, e, g.arb.clock);
    var told := g.PublishUnlessOver(ActionEvent(e, g.arb.clock));
    if Stands(told, e) {
      var moved := told.arb.world.board[e.destination];
      var kind := Promoted(cfg, moved.kind, moved.color, e.destination.row);
      BookNothing(told.log, done + [e],
        Promotion(moved.id, moved.color, moved.kind, kind, e.destination, told.arb.clock));
    }
  }

  lemma {:induction false} ApplyBooks(cfg: Config, g: Game, done: seq<Arrival>, arrivals: seq<Arrival>)
    requires Booked(g.log, done) && !g.over && NoKingTaken(arrivals)
    requires forall n :: 0 <= n < |arrivals| ==> Fair(arrivals[n])
    ensures Booked(ApplyArrivals(cfg, g, arrivals).log, done + arrivals)
    decreases |arrivals|
  {
    hide Booked, Fair, ApplyOne;
    if arrivals == [] {
      assert done + arrivals == done;
    } else {
      ApplyOneBooks(cfg, g, done, arrivals[0]);
      ApplyBooks(cfg, ApplyOne(cfg, g, arrivals[0]), done + [arrivals[0]], arrivals[1..]);
      assert done + [arrivals[0]] + arrivals[1..] == done + arrivals;
    }
  }

  lemma {:induction false} EndJumpsBooks(cfg: Config, g: Game, ended: seq<JumpEnd>, done: seq<Arrival>)
    requires Booked(g.log, done)
    ensures Booked(EndJumps(cfg, g, ended).log, done)
    decreases |ended|
  {
    hide Booked;
    if ended != [] {
      var j := ended[0];
      var rested := g.(arb := g.arb.SetRest(j.piece.id, cfg.shortRest));
      BookNothing(g.log, done, JumpCompleted(j.piece, j.cell, g.arb.clock));
      EndJumpsBooks(cfg, rested.PublishUnlessOver(JumpCompleted(j.piece, j.cell, g.arb.clock)), ended[1..], done);
    }
  }

  lemma WaitBooks(cfg: Config, g: Game, ms: nat)
    requires g.arb.world.Valid() && !g.over && Booked(g.log, g.arrivals) && !Wait(cfg, g, ms).over
    ensures Booked(Wait(cfg, g, ms).log, Wait(cfg, g, ms).arrivals)
  {
    hide Booked, Run, World.Valid, Explained;
    var adv := Advance(g.arb, ms);
    var ended := EndJumps(cfg, Moved(g, ms), adv.ended);
    RunReports(g.arb.world, g.arb.clock + ms);
    AdvanceSettles(g.arb, ms);
    EndJumpsShape(cfg, Moved(g, ms), adv.ended);
    EndJumpsBooks(cfg, Moved(g, ms), adv.ended, g.arrivals);
    assert CellsKnown(ended.arb) by { ValidKnows(adv.arb); }
    ApplyShape(cfg, ended, adv.arrivals);
    ApplyBooks(cfg, ended, g.arrivals, adv.arrivals);
  }

  lemma RequestBooks(cfg: Config, g: Game, op: Op)
    requires Booked(g.log, g.arrivals) && !op.WaitFor?
    ensures Booked(Do(cfg, g, op).log, Do(cfg, g, op).arrivals)
  {
    hide Booked, Launch, Verdict;
    match op {
      case Move(source, destination) =>
        var piece := PieceAt(g.arb.world.board, source);
        var id := if piece.Some? then Some(piece.value.id) else None;
        BookNothing(g.log, g.arrivals, IllegalAction(id, destination, g.arb.clock));
      case JumpOn(cell) =>
        var piece := PieceAt(g.arb.world.board, cell);
        var id := if piece.Some? then Some(piece.value.id) else None;
        BookNothing(g.log, g.arrivals, IllegalAction(id, cell, g.arb.clock));
      case ResignBy(color) =>
        BookNothing(g.log, g.arrivals, Ended(color.Other(), g.arb.clock));
    }
  }

  lemma DoKeepsOver(cfg: Config, g: Game, op: Op)
    requires g.over && g.arb.world.Valid()
    ensures Do(cfg, g, op).over
  {
    hide World.Valid, Advance, ApplyArrivals, EndJumps;
    if op.WaitFor? {
      var adv := Advance(g.arb, op.ms);
      EndJumpsShape(cfg, Moved(g, op.ms), adv.ended);
      AdvanceSettles(g.arb, op.ms);
      assert CellsKnown(EndJumps(cfg, Moved(g, op.ms), adv.ended).arb) by { ValidKnows(adv.arb); }
      ApplyShape(cfg, EndJumps(cfg, Moved(g, op.ms), adv.ended), adv.arrivals);
    }
  }

  lemma {:induction false} PlayBooks(cfg: Config, board: Cells, ops: seq<Op>)
    requires cfg.Valid() && ProperBoard(board)
    ensures var g := Play(cfg, Start(board), ops); !g.over ==> Booked(g.log, g.arrivals)
    decreases |ops|
  {
    hide Do, ProperBoard, World.Valid, Booked, Wait;
    if ops == [] {
      assert Booked([], []) by { NothingBooked(); }
    } else {
      var g, op := Play(cfg, Start(board), ops[..|ops| - 1]), ops[|ops| - 1];
      PlayBooks(cfg, board, ops[..|ops| - 1]);
      PlaySound(cfg, board, ops[..|ops| - 1]);
      if g.over {
        DoKeepsOver(cfg, g, op);
      } else if op.WaitFor? {
        DoWait(cfg, g, op.ms);
        if !Wait(cfg, g, op.ms).over { WaitBooks(cfg, g, op.ms); }
      } else {
        RequestBooks(cfg, g, op);
      }
    }
  }

  lemma NothingBooked()
    ensures Booked([], [])
  {
  }

  lemma {:induction false} EightPerPromotion(log: seq<Event>, color: Color)
    requires PawnsToQueens(log)
    ensures Gained(log, PointsOf(color)) == 8 * Promotions(log, color)
    decreases |log|
  {
    if log != [] {
      assert log[|log| - 1] == log[|log| - 1];
      EightPerPromotion(log[..|log| - 1], color);
    }
  }

  ghost function MaterialOf(tokens: set<Token>, color: Color): int {
    Sum(multiset(tokens), PointsOf(color))
  }

  /** The material ledger. While the game is not over, the material of a colour is what it
      started with, less the enemy's score, less what was stopped for good or dropped, plus
      eight points for each of its promotions. */
  lemma MaterialLedger(cfg: Config, board: Cells, ops: seq<Op>, color: Color)
    requires cfg.Valid() && ProperBoard(board)
    ensures var g := Play(cfg, Start(board), ops);
      !g.over ==>
        MaterialOf(g.arb.world.Live(), color) ==
          MaterialOf(BoardTokens(board), color) - Score(g.log, color.Other()) - Stopped(g.log, color)
            - Sum(multiset(g.dropped), PointsOf(color)) + 8 * Promotions(g.log, color)
  {
    hide Play, Sum, World.Live, Gained, Captured, Taken, Lost, Score, Stopped, Promotions;
    var g := Play(cfg, Start(board), ops);
    PlayBalanced(cfg, board, ops, PointsOf(color));
    PlayPromotes(cfg, board, ops);
    EightPerPromotion(g.log, color);
    PlayBooks(cfg, board, ops);
    CapturedPoints(g.arrivals, color);
    StartLive(board);
  }
}
