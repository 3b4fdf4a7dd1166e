/** What still happens once a game is over. */
module Finality {
  import opened Pieces
  import opened Paths
  import opened Simulation
  import opened SimulationLaws
  import opened Motions
  import opened Arbitration
  import opened Rules
  import opened Games
  import opened Invariants
  import opened Outcomes
  import opened Rests
  import opened Departures
  import opened Ledger

  /** The log went on with nothing but endings and promotions. */
  ghost predicate OnlyLateNews(before: seq<Event>, after: seq<Event>) {
    && before <= after
    && forall n :: |before| <= n < |after| ==> after[n].Ended? || after[n].Promotion?
  }

  lemma ApplyOneOver(cfg: Config, g: Game, e: Arrival)
    requires g.over
    ensures ApplyOne(cfg, g, e).over && OnlyLateNews(g.log, ApplyOne(cfg, g, e).log)
    ensures e.KingCaptured() ==>
      ApplyOne(cfg, g, e).log == g.log + [Ended(e.captured.value.color.Other(), g.arb.clock)]
    ensures !e.KingCaptured() ==>
      forall n :: |g.log| <= n < |ApplyOne(cfg, g, e).log| ==> ApplyOne(cfg, g, e).log[n].Promotion?
  {
  }

  lemma {:induction false} ApplyOver(cfg: Config, g: Game, arrivals: seq<Arrival>)
    requires g.over
    ensures var g' := ApplyArrivals(cfg, g, arrivals);
      && g'.over && OnlyLateNews(g.log, g'.log)
      && ((exists n :: |g.log| <= n < |g'.log| && g'.log[n].Ended?) <==> !NoKingTaken(arrivals))
    decreases |arrivals|
  {
    hide ApplyOne;
    if arrivals != [] {
      var h := ApplyOne(cfg, g, arrivals[0]);
      ApplyOneOver(cfg, g, arrivals[0]);
      if arrivals[0].KingCaptured() {
        assert h.log[|g.log|].Ended?;
      } else {
        ApplyOver(cfg, h, arrivals[1..]);
        var g' := ApplyArrivals(cfg, h, arrivals[1..]);
        assert NoKingTaken(arrivals) <==> NoKingTaken(arrivals[1..]);
        assert forall n :: |g.log| <= n < |h.log| ==> g'.log[n] == h.log[n];
      }
    }
  }

  lemma {:induction false} EndJumpsOver(cfg: Config, g: Game, ended: seq<JumpEnd>)
    requires g.over
    ensures EndJumps(cfg, g, ended).log == g.log && EndJumps(cfg, g, ended).over
    decreases |ended|
  {
    if ended != [] {
      EndJumpsOver(cfg, g.(arb := g.arb.SetRest(ended[0].piece.id, cfg.shortRest)), ended[1..]);
    }
  }

  // ----- promotions after the end ---------------------------------------------------------------------------

  /** The arrival brings a pawn to its last rank, where it still stands. */
  ghost predicate BringsPawn(cfg: Config, g: Game, e: Arrival) {
    Stands(g, e) && PawnOnLastRank(cfg, g.arb.world.board, e.destination)
  }

  /** The batch brings one home before any king is captured in it. */
  ghost predicate BringsPawnHome(cfg: Config, g: Game, arrivals: seq<Arrival>) {
    exists n :: 0 <= n < |arrivals| && BringsPawn(cfg, g, arrivals[n]) && NoKingUpTo(arrivals, n)
  }

  ghost predicate NoKingUpTo(arrivals: seq<Arrival>, n: nat)
    requires n < |arrivals|
  {
    forall m :: 0 <= m <= n ==> !arrivals[m].KingCaptured()
  }

  ghost predicate TellsPromotion(before: seq<Event>, after: seq<Event>) {
    exists n :: |before| <= n < |after| && after[n].Promotion?
  }

  ghost predicate TellsEnding(before: seq<Event>, after: seq<Event>) {
    exists n :: |before| <= n < |after| && after[n].Ended?
  }

  lemma ApplyOneTells(cfg: Config, g: Game, e: Arrival)
    requires g.over && CellsKnown(g.arb) && !e.KingCaptured()
    ensures var h := ApplyOne(cfg, g, e);
      && (BringsPawn(cfg, g, e) ==> |h.log| == |g.log| + 1 && h.log[|g.log|].Promotion?)
      && (!BringsPawn(cfg, g, e) ==> h.log == g.log && SameKinds(g.arb.world.board, h.arb.world.board))
  {
  }

  ghost predicate SameKinds(before: Cells, after: Cells) {
    before.Keys == after.Keys && forall c :: c in before ==> after[c] == before[c]
  }

  lemma SameKindsBring(cfg: Config, g: Game, h: Game, arrivals: seq<Arrival>)
    requires SameKinds(g.arb.world.board, h.arb.world.board)
    ensures BringsPawnHome(cfg, g, arrivals) <==> BringsPawnHome(cfg, h, arrivals)
  {
    assert forall e: Arrival :: BringsPawn(cfg, g, e) <==> BringsPawn(cfg, h, e);
  }

  lemma BringsFirst(cfg: Config, g: Game, arrivals: seq<Arrival>)
    requires arrivals != [] && !arrivals[0].KingCaptured()
    ensures BringsPawnHome(cfg, g, arrivals) <==>
      BringsPawn(cfg, g, arrivals[0]) || BringsPawnHome(cfg, g, arrivals[1..])
  {
    hide BringsPawn;
    var rest := arrivals[1..];
    if BringsPawnHome(cfg, g, arrivals) {
      var n :| 0 <= n < |arrivals| && BringsPawn(cfg, g, arrivals[n]) && NoKingUpTo(arrivals, n);
      if n > 0 { assert arrivals[n] == rest[n - 1] && NoKingUpTo(rest, n - 1); }
    }
    if BringsPawnHome(cfg, g, rest) {
      var n :| 0 <= n < |rest| && BringsPawn(cfg, g, rest[n]) && NoKingUpTo(rest, n);
      assert arrivals[n + 1] == rest[n] && NoKingUpTo(arrivals, n + 1);
    }
    if BringsPawn(cfg, g, arrivals[0]) {
      assert NoKingUpTo(arrivals, 0);
    }
  }

  lemma {:induction false} ApplyPromotesExactly(cfg: Config, g: Game, arrivals: seq<Arrival>)
    requires g.over && CellsKnown(g.arb)
    ensures TellsPromotion(g.log, ApplyArrivals(cfg, g, arrivals).log) <==> BringsPawnHome(cfg, g, arrivals)
    decreases |arrivals|
  {
    hide ApplyOne, CellsKnown, BringsPawn, SameKinds;
    if arrivals != [] {
      var e, h := arrivals[0], ApplyOne(cfg, g, arrivals[0]);
      if e.KingCaptured() {
        ApplyOneOver(cfg, g, e);
      } else {
        ApplyOneOver(cfg, g, e);
        ApplyOneShape(cfg, g, e);
        ApplyOneTells(cfg, g, e);
        ApplyPromotesExactly(cfg, h, arrivals[1..]);
        ApplyOver(cfg, h, arrivals[1..]);
        BringsFirst(cfg, g, arrivals);
        if BringsPawn(cfg, g, e) {
          assert ApplyArrivals(cfg, h, arrivals[1..]).log[|g.log|].Promotion?;
        } else {
          SameKindsBring(cfg, g, h, arrivals[1..]);
        }
      }
    }
  }

  // ----- what a finished game still does ---------------------------------------------------------------------

  /** A wait captures a king, in a game that is over. */
  ghost predicate EndsAgain(g: Game, op: Op) {
    op.WaitFor? && !NoKingTaken(Advance(g.arb, op.ms).arrivals)
  }

  /** A wait brings a pawn to its last rank, where it still stands once the clock has moved. */
  ghost predicate PromotesAgain(cfg: Config, g: Game, op: Op) {
    op.WaitFor? && BringsPawnHome(cfg, Moved(g, op.ms), Advance(g.arb, op.ms).arrivals)
  }

  /** Once over, a game stays over. Requests and resignations change nothing at all. A wait
      publishes no move, capture, stop, finished jump or illegal action. It does publish an
      ending again exactly when a king is captured in it, and a promotion exactly when a pawn
      lands on its last rank in it and stands there, before any such capture. */
  lemma OverIsFinal(cfg: Config, g: Game, op: Op)
    requires g.over
    ensures Do(cfg, g, op).over && OnlyLateNews(g.log, Do(cfg, g, op).log)
    ensures !op.WaitFor? ==> Do(cfg, g, op) == g
    ensures TellsEnding(g.log, Do(cfg, g, op).log) <==> EndsAgain(g, op)
    ensures g.arb.world.Valid() ==> (TellsPromotion(g.log, Do(cfg, g, op).log) <==> PromotesAgain(cfg, g, op))
  {
    hide Advance, EndJumps, ApplyArrivals, Verdict, Launch, World.Valid, BringsPawnHome, TellsPromotion;
    if op.WaitFor? {
      var adv := Advance(g.arb, op.ms);
      var ended := EndJumps(cfg, Moved(g, op.ms), adv.ended);
      EndJumpsOver(cfg, Moved(g, op.ms), adv.ended);
      ApplyOver(cfg, ended, adv.arrivals);
      if g.arb.world.Valid() {
        AdvanceSettles(g.arb, op.ms);
        ValidKnows(adv.arb);
        EndJumpsShape(cfg, Moved(g, op.ms), adv.ended);
        assert CellsKnown(ended.arb);
        ApplyPromotesExactly(cfg, ended, adv.arrivals);
        SameKindsBring(cfg, Moved(g, op.ms), ended, adv.arrivals);
      }
    } else {
      NothingTold(g.log);
    }
  }

  lemma NothingTold(log: seq<Event>)
    ensures !TellsPromotion(log, log) && !TellsEnding(log, log)
  {
  }

  /** So a finished game is silent exactly when no king is captured and no pawn comes home. */
  lemma SilentExactly(cfg: Config, g: Game, ms: nat)
    requires g.over && g.arb.world.Valid()
    ensures var arrivals := Advance(g.arb, ms).arrivals;
      Wait(cfg, g, ms).log == g.log <==>
        NoKingTaken(arrivals) && !exists n :: 0 <= n < |arrivals| && BringsPawn(cfg, Moved(g, ms), arrivals[n])
  {
    hide Wait, Advance, World.Valid, BringsPawn;
    var arrivals, log := Advance(g.arb, ms).arrivals, Wait(cfg, g, ms).log;
    DoWait(cfg, g, ms);
    OverIsFinal(cfg, g, WaitFor(ms));
    OnlyTwoKinds(g.log, log);
    if n :| 0 <= n < |arrivals| && BringsPawn(cfg, Moved(g, ms), arrivals[n]) {
      if NoKingTaken(arrivals) { assert NoKingUpTo(arrivals, n); }
    }
  }

  lemma OnlyTwoKinds(before: seq<Event>, after: seq<Event>)
    requires OnlyLateNews(before, after)
    ensures after == before <==> !TellsEnding(before, after) && !TellsPromotion(before, after)
  {
    if |after| > |before| {
      assert after[|before|].Ended? || after[|before|].Promotion?;
    }
  }

  lemma WaitValid(cfg: Config, g: Game, ms: nat)
    requires g.arb.world.Valid()
    ensures Wait(cfg, g, ms).arb.world.Valid()
  {
    hide World.Valid, Advance, ApplyArrivals, EndJumps;
    var adv := Advance(g.arb, ms);
    var ended := EndJumps(cfg, Moved(g, ms), adv.ended);
    AdvanceSettles(g.arb, ms);
    EndJumpsShape(cfg, Moved(g, ms), adv.ended);
    ValidKnows(adv.arb);
    assert CellsKnown(ended.arb);
    ApplyShape(cfg, ended, adv.arrivals);
    ReskinValid(ended.arb.world, Wait(cfg, g, ms).arb.world.board);
    assert Wait(cfg, g, ms).arb.world == ended.arb.world.(board := Wait(cfg, g, ms).arb.world.board);
  }

  lemma {:induction false} OverStaysValid(cfg: Config, g: Game, ops: seq<Op>)
    requires g.over && g.arb.world.Valid()
    ensures Play(cfg, g, ops).over && Play(cfg, g, ops).arb.world.Valid()
    decreases |ops|
  {
    hide Do, World.Valid;
    if ops != [] {
      var h, op := Play(cfg, g, ops[..|ops| - 1]), ops[|ops| - 1];
      OverStaysValid(cfg, g, ops[..|ops| - 1]);
      OverIsFinal(cfg, h, op);
      if op.WaitFor? {
        WaitValid(cfg, h, op.ms);
        DoWait(cfg, h, op.ms);
      }
    }
  }

  lemma TellsMore(log: seq<Event>, mid: seq<Event>, end: seq<Event>)
    requires OnlyLateNews(log, mid) && OnlyLateNews(mid, end)
    ensures OnlyLateNews(log, end)
    ensures TellsEnding(log, end) <==> TellsEnding(log, mid) || TellsEnding(mid, end)
    ensures TellsPromotion(log, end) <==> TellsPromotion(log, mid) || TellsPromotion(mid, end)
  {
    assert forall n :: |log| <= n < |mid| ==> end[n] == mid[n];
  }

  ghost predicate EverEndsAgain(cfg: Config, g: Game, ops: seq<Op>) {
    exists k :: 0 <= k < |ops| && EndsAgain(Play(cfg, g, ops[..k]), ops[k])
  }

  ghost predicate EverPromotesAgain(cfg: Config, g: Game, ops: seq<Op>) {
    exists k :: 0 <= k < |ops| && PromotesAgain(cfg, Play(cfg, g, ops[..k]), ops[k])
  }

  lemma EverSplits(cfg: Config, g: Game, ops: seq<Op>)
    ensures ops == [] ==> !EverEndsAgain(cfg, g, ops) && !EverPromotesAgain(cfg, g, ops)
    ensures ops != [] ==>
      var init, h, op := ops[..|ops| - 1], Play(cfg, g, ops[..|ops| - 1]), ops[|ops| - 1];
      && (EverEndsAgain(cfg, g, ops) <==> EverEndsAgain(cfg, g, init) || EndsAgain(h, op))
      && (EverPromotesAgain(cfg, g, ops) <==> EverPromotesAgain(cfg, g, init) || PromotesAgain(cfg, h, op))
  {
    hide Play, EndsAgain, PromotesAgain;
    if ops != [] {
      var n := |ops| - 1;
      assert forall k :: 0 <= k < n ==> ops[..n][..k] == ops[..k] && ops[..n][k] == ops[k];
    }
  }

  /** Over any number of operations: an ending is published exactly when some wait captures a
      king, a promotion exactly when some wait brings a pawn home, and nothing else ever. */
  lemma {:induction false} OverForever(cfg: Config, g: Game, ops: seq<Op>)
    requires g.over && g.arb.world.Valid()
    ensures Play(cfg, g, ops).over && OnlyLateNews(g.log, Play(cfg, g, ops).log)
    ensures TellsEnding(g.log, Play(cfg, g, ops).log) <==> EverEndsAgain(cfg, g, ops)
    ensures TellsPromotion(g.log, Play(cfg, g, ops).log) <==> EverPromotesAgain(cfg, g, ops)
    decreases |ops|
  {
    hide Do, World.Valid, EndsAgain, PromotesAgain, OnlyLateNews, TellsEnding, TellsPromotion, EverEndsAgain,
      EverPromotesAgain;
    EverSplits(cfg, g, ops);
    if ops != [] {
      var n := |ops| - 1;
      var init := ops[..n];
      var h := Play(cfg, g, init);
      OverForever(cfg, g, init);
      OverStaysValid(cfg, g, init);
      OverIsFinal(cfg, h, ops[n]);
      TellsMore(g.log, h.log, Play(cfg, g, ops).log);
    } else {
      NothingTold(g.log);
      OnlyItself(g.log);
    }
  }

  lemma OnlyItself(log: seq<Event>)
    ensures OnlyLateNews(log, log)
  {
  }

  // ----- two endings with different winners ------------------------------------------------------------------

  const A1 := Position(0, 0)
  const B1 := Position(0, 1)
  const WHITE_ROOK := Piece(0, White, Rook, A1)
  const BLACK_KING := Piece(1, Black, King, B1)

  /** A rook one step from the king. */
  function LastMove(cfg: Config): World {
    World(map[B1 := BLACK_KING], [Flight(WHITE_ROOK, A1, 0, [Stop(B1, cfg.moveDuration)])], [])
  }

  lemma LastMoveIsNext(cfg: Config)
    requires cfg.Valid()
    ensures LastMove(cfg).Valid() && IsNext(LastMove(cfg), Arrive(0), cfg.moveDuration)
  {
    forall p | IsCandidate(LastMove(cfg), p) ensures p == Arrive(0) {
    }
  }

  lemma LastMoveTakesKing(cfg: Config)
    requires cfg.Valid()
    ensures var e := Resolve(LastMove(cfg), Arrive(0));
      e.world.flights == [] && e.arrivals == [Arrival(WHITE_ROOK.AsToken(), A1, B1, Some(BLACK_KING.AsToken()))]
  {
    assert RemoveAt(LastMove(cfg).flights, 0) == [];
  }

  lemma LastMoveLands(cfg: Config)
    requires cfg.Valid()
    ensures Run(LastMove(cfg), cfg.moveDuration).arrivals ==
      [Arrival(WHITE_ROOK.AsToken(), A1, B1, Some(BLACK_KING.AsToken()))]
  {
    hide Run, World.Valid;
    var w, o := LastMove(cfg), Arrive(0);
    LastMoveIsNext(cfg);
    LastMoveTakesKing(cfg);
    RunUnfold(w, o, cfg.moveDuration);
    QuietRunsNothing(Resolve(w, o).world, cfg.moveDuration);
  }

  lemma RookIsLaunched(cfg: Config)
    requires cfg.Valid()
    ensures var g := Start(map[A1 := WHITE_ROOK, B1 := BLACK_KING]);
      RequestMove(cfg, g, A1, B1) == Reply(g.(arb := Arb(LastMove(cfg), 0, map[])), Ok)
  {
    var board := map[A1 := WHITE_ROOK, B1 := BLACK_KING];
    StepNextDoor(cfg, board, A1, B1, 0);
    hide PathCells, ClearBetween, Timetable, PerCell;
    Departs(cfg, Start(board), A1, B1, [Stop(B1, cfg.moveDuration)]);
    hide Verdict, RequestMove;
    assert board - {A1} == map[B1 := BLACK_KING];
  }

  /** White resigns while its rook is on the way to the black king: the game ends twice, and
      the second ending names the other winner. */
  lemma TwoWinners(cfg: Config)
    requires cfg.Valid()
    ensures var g := Play(cfg, Start(map[A1 := WHITE_ROOK, B1 := BLACK_KING]),
                          [Move(A1, B1), ResignBy(White), WaitFor(cfg.moveDuration)]);
      g.log == [Ended(Black, 0), Ended(White, cfg.moveDuration)]
  {
    var start := Start(map[A1 := WHITE_ROOK, B1 := BLACK_KING]);
    var moved := start.(arb := Arb(LastMove(cfg), 0, map[]));
    var resigned := moved.(over := true, log := [Ended(Black, 0)]);
    var ops := [Move(A1, B1), ResignBy(White), WaitFor(cfg.moveDuration)];
    hide Advance, RequestMove, Run;
    RookIsLaunched(cfg);
    assert ops[..2] == [Move(A1, B1), ResignBy(White)] && ops[..2][..1] == [Move(A1, B1)] && ops[..2][..1][..0] == [];
    assert Play(cfg, start, ops[..2][..1]) == moved;
    assert Play(cfg, start, ops[..2]) == resigned;
    assert Play(cfg, start, ops) == Wait(cfg, resigned, cfg.moveDuration);
    LastWait(cfg, resigned);
  }

  lemma LastWait(cfg: Config, g: Game)
    requires cfg.Valid() && g.arb == Arb(LastMove(cfg), 0, map[]) && g.over
    ensures Wait(cfg, g, cfg.moveDuration).log == g.log + [Ended(White, cfg.moveDuration)]
  {
    hide Run;
    LastMoveLands(cfg);
    EndJumpsOver(cfg, Moved(g, cfg.moveDuration), []);
  }

  // ----- a promotion after the end ----------------------------------------------------------------------------

  const A2 := Position(1, 0)
  const WHITE_PAWN := Piece(0, White, Pawn, A2)

  /** A pawn one step from its last rank. */
  function LastStep(cfg: Config): World {
    World(map[], [Flight(WHITE_PAWN, A2, 0, [Stop(A1, cfg.moveDuration)])], [])
  }

  lemma PawnLands(cfg: Config)
    requires cfg.Valid()
    ensures Run(LastStep(cfg), cfg.moveDuration) ==
      Effect(World(map[A1 := WHITE_PAWN.(cell := A1)], [], []), [Arrival(WHITE_PAWN.AsToken(), A2, A1, None)], [])
  {
    var w, o := LastStep(cfg), Arrive(0);
    forall p | IsCandidate(w, p) ensures p == o {
    }
    assert w.Valid() && IsNext(w, o, cfg.moveDuration);
    assert RemoveAt(w.flights, 0) == [];
    hide Run, World.Valid;
    RunUnfold(w, o, cfg.moveDuration);
    QuietRunsNothing(Resolve(w, o).world, cfg.moveDuration);
  }

  lemma PawnIsLaunched(cfg: Config)
    requires cfg.Valid()
    ensures var g := Start(map[A2 := WHITE_PAWN]);
      RequestMove(cfg, g, A2, A1) == Reply(g.(arb := Arb(LastStep(cfg), 0, map[])), Ok)
  {
    var board := map[A2 := WHITE_PAWN];
    StepNextDoor(cfg, board, A2, A1, 0);
    hide PathCells, Timetable, PerCell;
    Departs(cfg, Start(board), A2, A1, [Stop(A1, cfg.moveDuration)]);
    hide Verdict, RequestMove;
    assert board - {A2} == map[];
  }

  lemma PawnWait(cfg: Config, g: Game)
    requires cfg.Valid() && g.arb == Arb(LastStep(cfg), 0, map[]) && g.over
    ensures Wait(cfg, g, cfg.moveDuration).log == g.log + [Promotion(0, White, Pawn, Queen, A1, cfg.moveDuration)]
  {
    hide Run;
    PawnLands(cfg);
    var m, e := Moved(g, cfg.moveDuration), Arrival(WHITE_PAWN.AsToken(), A2, A1, None);
    assert Advance(g.arb, cfg.moveDuration).ended == [];
    assert Wait(cfg, g, cfg.moveDuration) == ApplyArrivals(cfg, m, [e]);
    assert ApplyArrivals(cfg, m, [e]) == ApplyOne(cfg, m, e) by { assert [e][1..] == []; }
    assert m.log == g.log && m.over && Stands(m, e);
  }

  /** Black resigns while a white pawn is on the way to its last rank: the pawn is promoted,
      and this is published, in a game that is over. */
  lemma PromotedAfterTheEnd(cfg: Config)
    requires cfg.Valid()
    ensures var g := Play(cfg, Start(map[A2 := WHITE_PAWN]),
                          [Move(A2, A1), ResignBy(Black), WaitFor(cfg.moveDuration)]);
      g.log == [Ended(White, 0), Promotion(0, White, Pawn, Queen, A1, cfg.moveDuration)]
  {
    var start := Start(map[A2 := WHITE_PAWN]);
    var moved := start.(arb := Arb(LastStep(cfg), 0, map[]));
    var resigned := moved.(over := true, log := [Ended(White, 0)]);
    var ops := [Move(A2, A1), ResignBy(Black), WaitFor(cfg.moveDuration)];
    hide Advance, RequestMove, Run;
    PawnIsLaunched(cfg);
    assert ops[..2] == [Move(A2, A1), ResignBy(Black)] && ops[..2][..1] == [Move(A2, A1)] && ops[..2][..1][..0] == [];
    assert Play(cfg, start, ops[..2][..1]) == moved;
    assert Play(cfg, start, ops[..2]) == resigned;
    assert Play(cfg, start, ops) == Wait(cfg, resigned, cfg.moveDuration);
    PawnWait(cfg, resigned);
  }
}
