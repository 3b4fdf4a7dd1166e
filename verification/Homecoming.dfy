/** A game in which the loop works back in time: a piece that returns to its source is captured
    there by a motion that had flown over it before. */
module Homecoming {
  import opened Pieces
  import opened Paths
  import opened Simulation
  import opened SimulationLaws
  import opened Motions
  import opened Rules
  import opened Arbitration
  import opened Games
  import opened Invariants
  import opened Departures

  // ----- the game -------------------------------------------------------------------------------

  const START := Position(3, 3)
  const HOME := Position(3, 4)
  const AHEAD := Position(3, 5)
  const NORTH := Position(0, 4)
  const SOUTH := Position(4, 4)
  const CORNER := Position(0, 5)
  const WALKER := Piece(0, White, Rook, START)
  const RAIDER := Piece(1, Black, Rook, NORTH)
  const FRIEND := Piece(2, White, Rook, CORNER)

  const SETUP: Cells := map[START := WALKER, NORTH := RAIDER, CORNER := FRIEND]

  /** The walker steps to its home, while the raider sets out over that home and the friend for
      the cell ahead of it. Once rested the walker follows, and finds its friend there. */
  const STORY :=
    [Move(START, HOME), Move(NORTH, SOUTH), Move(CORNER, AHEAD),
     WaitFor(1000), WaitFor(1500), Move(HOME, AHEAD), WaitFor(1000)]

  // ----- its motions and states -------------------------------------------------------------------

  const ARRIVING := Flight(WALKER, START, 0, [Stop(HOME, 1000)])
  const RAIDING := Flight(RAIDER, NORTH, 0,
    [Stop(Position(1, 4), 1000), Stop(Position(2, 4), 2000), Stop(HOME, 3000), Stop(SOUTH, 4000)])
  const HELPING := Flight(FRIEND, CORNER, 0,
    [Stop(Position(1, 5), 1000), Stop(Position(2, 5), 2000), Stop(AHEAD, 3000)])
  const AT_HOME := WALKER.(cell := HOME)
  const WALKING := Flight(AT_HOME, HOME, 2500, [Stop(AHEAD, 3500)])
  const HELPER := FRIEND.(cell := AHEAD)

  const FLYING := World(map[], [ARRIVING, RAIDING, HELPING], [])
  const RESTING := World(map[HOME := AT_HOME], [RAIDING, HELPING], [])
  const BEFORE := World(map[], [RAIDING, HELPING, WALKING], [])
  const HELPED := World(map[AHEAD := HELPER], [RAIDING, WALKING], [])
  const STOPPED := World(map[AHEAD := HELPER], [RAIDING, WALKING.Cut(0)], [])
  const LANDED := World(map[AHEAD := HELPER, HOME := AT_HOME], [RAIDING], [])
  const CAPTURED := World(map[AHEAD := HELPER], [RAIDING], [])

  const CAME := Arrival(WALKER.AsToken(), START, HOME, None)
  const HELPS := Arrival(FRIEND.AsToken(), CORNER, AHEAD, None)
  const RETURNS := Arrival(WALKER.AsToken(), HOME, HOME, None)
  const RAIDS := Arrival(RAIDER.AsToken(), NORTH, HOME, Some(WALKER.AsToken()))

  lemma Columns()
    ensures forall k :: 0 <= k < |RAIDING.stops| ==>
      RAIDING.stops[k].cell == Position(k + 1, 4) && RAIDING.stops[k].time == 1000 * (k + 1)
    ensures forall k :: 0 <= k < |HELPING.stops| ==>
      HELPING.stops[k].cell == Position(k + 1, 5) && HELPING.stops[k].time == 1000 * (k + 1)
  {
  }

  // ----- the last wait ------------------------------------------------------------------------------

  lemma FriendIsNext()
    ensures BEFORE.Valid() && IsNext(BEFORE, Arrive(1), 3500)
    ensures Resolve(BEFORE, Arrive(1)) == Effect(HELPED, [HELPS], [])
  {
    Columns();
    FlightsValid();
    hide World.Valid, Flight.Valid;
    forall o | IsCandidate(BEFORE, o) ensures o in {Arrive(0), Arrive(1), Arrive(2), Collide(1, 2, 2, 0)} {
    }
    assert RemoveAt(BEFORE.flights, 1) == HELPED.flights;
  }

  lemma WalkerIsNext()
    ensures HELPED.Valid() && IsNext(HELPED, Arrive(1), 3500) && TimeOf(HELPED, Arrive(1)) == 3500
    ensures Resolve(HELPED, Arrive(1)) == Effect(STOPPED, [], [])
  {
    Columns();
    forall o | IsCandidate(HELPED, o) ensures o in {Arrive(0), Arrive(1)} {
    }
    assert RemoveAt(HELPED.flights, 1) == [RAIDING];
    assert [RAIDING] + [WALKING.Cut(0)] == STOPPED.flights;
  }

  lemma ReturnIsNext()
    ensures STOPPED.Valid() && IsNext(STOPPED, Arrive(1), 3500)
    ensures Resolve(STOPPED, Arrive(1)) == Effect(LANDED, [RETURNS], [])
  {
    Columns();
    FlightsValid();
    hide World.Valid, Flight.Valid;
    forall o | IsCandidate(STOPPED, o) ensures o in {Arrive(0), Arrive(1)} {
    }
    assert RemoveAt(STOPPED.flights, 1) == [RAIDING];
  }

  lemma RaidIsNext()
    ensures LANDED.Valid() && IsNext(LANDED, Meet(0, 2), 3500) && TimeOf(LANDED, Meet(0, 2)) == 3000
    ensures Resolve(LANDED, Meet(0, 2)) == Effect(CAPTURED, [RAIDS], [])
  {
    Columns();
    forall o | IsCandidate(LANDED, o) ensures o in {Arrive(0), Meet(0, 2)} {
    }
    assert LANDED.board - {HOME} == CAPTURED.board;
  }

  lemma RaiderFliesOn()
    ensures Run(CAPTURED, 3500) == Effect(CAPTURED, [], [])
  {
    Columns();
    forall o | IsCandidate(CAPTURED, o) ensures 3500 < TimeOf(CAPTURED, o) {
      assert o == Arrive(0);
    }
    QuietRunsNothing(CAPTURED, 3500);
  }

  lemma LastRun()
    ensures Run(BEFORE, 3500) == Effect(CAPTURED, [HELPS, RETURNS, RAIDS], [])
  {
    hide Run, Resolve, World.Valid, IsNext;
    FriendIsNext();
    WalkerIsNext();
    ReturnIsNext();
    RaidIsNext();
    RaiderFliesOn();
    RunUnfold(BEFORE, Arrive(1), 3500);
    RunUnfold(HELPED, Arrive(1), 3500);
    RunUnfold(STOPPED, Arrive(1), 3500);
    RunUnfold(LANDED, Meet(0, 2), 3500);
  }

  // ----- the waits before ---------------------------------------------------------------------------

  lemma ArrivalIsNext()
    ensures FLYING.Valid() && IsNext(FLYING, Arrive(0), 1000)
  {
    Columns();
    FlightsValid();
    hide World.Valid, Flight.Valid;
    forall o | IsCandidate(FLYING, o) ensures o in {Arrive(0), Arrive(1), Arrive(2), Collide(0, 1, 0, 2)} {
    }
  }

  lemma FlightsValid()
    ensures FLYING.Valid() && BEFORE.Valid() && STOPPED.Valid()
  {
    EachFlightValid();
    hide Flight.Valid, Flight.Cut;
  }

  lemma EachFlightValid()
    ensures ARRIVING.Valid() && RAIDING.Valid() && HELPING.Valid() && WALKING.Valid() && WALKING.Cut(0).Valid()
    ensures WALKING.Cut(0).piece == AT_HOME
  {
    Columns();
  }

  lemma FirstRun()
    ensures Run(FLYING, 1000) == Effect(RESTING, [CAME], [])
  {
    ArrivalIsNext();
    assert Resolve(FLYING, Arrive(0)) == Effect(RESTING, [CAME], []) by {
      assert RemoveAt(FLYING.flights, 0) == RESTING.flights;
    }
    hide Run, Resolve, World.Valid, IsNext;
    RunUnfold(FLYING, Arrive(0), 1000);
    NothingUntil(1000);
  }

  lemma NothingUntil(clock: int)
    requires clock <= 2500
    ensures Run(RESTING, clock) == Effect(RESTING, [], [])
  {
    Columns();
    forall o | IsCandidate(RESTING, o) ensures clock < TimeOf(RESTING, o) {
      assert o in {Arrive(0), Arrive(1), Meet(0, 2)};
    }
    QuietRunsNothing(RESTING, clock);
  }

  const TOLD := [MoveCompleted(WALKER.AsToken(), HOME, 1000)]

  lemma FirstWait(g: Game)
    requires g == Game(Arb(FLYING, 0, map[]), false, [], [], [])
    ensures Wait(CLASSIC, g, 1000) == Game(Arb(RESTING, 1000, map[0 := Rest(1000, 2500)]), false, TOLD, [CAME], [])
  {
    hide Run;
    FirstRun();
    var m := Moved(g, 1000);
    assert Wait(CLASSIC, g, 1000) == ApplyArrivals(CLASSIC, m, [CAME]);
    assert ApplyArrivals(CLASSIC, m, [CAME]) == ApplyOne(CLASSIC, m, CAME) by { assert [CAME][1..] == []; }
    assert RESTING.board[HOME := AT_HOME] == RESTING.board;
  }

  lemma SecondWait(g: Game)
    requires g == Game(Arb(RESTING, 1000, map[0 := Rest(1000, 2500)]), false, TOLD, [CAME], [])
    ensures Wait(CLASSIC, g, 1500) == g.(arb := g.arb.(clock := 2500))
  {
    hide Run;
    NothingUntil(2500);
  }

  lemma LastWait(g: Game)
    requires g.arb == Arb(BEFORE, 2500, map[])
    ensures Wait(CLASSIC, g, 1000).arrivals == g.arrivals + [HELPS, RETURNS, RAIDS]
  {
    hide Run;
    LastRun();
    var m := Moved(g, 1000);
    assert Wait(CLASSIC, g, 1000) == ApplyArrivals(CLASSIC, m, [HELPS, RETURNS, RAIDS]);
    hide ApplyArrivals, Advance;
    ApplyShape(CLASSIC, m, [HELPS, RETURNS, RAIDS]);
  }

  // ----- the requests ---------------------------------------------------------------------------------

  const OPENING := Start(SETUP)
  const ONE := OPENING.(arb := Arb(World(map[NORTH := RAIDER, CORNER := FRIEND], [ARRIVING], []), 0, map[]))
  const TWO := OPENING.(arb := Arb(World(map[CORNER := FRIEND], [ARRIVING, RAIDING], []), 0, map[]))
  const THREE := OPENING.(arb := Arb(FLYING, 0, map[]))

  lemma WalkerSetsOut()
    ensures RequestMove(CLASSIC, OPENING, START, HOME) == Reply(ONE, Ok)
  {
    StepNextDoor(CLASSIC, SETUP, START, HOME, 0);
    hide PathCells, ClearBetween, Timetable, PerCell;
    Departs(CLASSIC, OPENING, START, HOME, ARRIVING.stops);
    hide Verdict, RequestMove;
    assert SETUP - {START} == ONE.arb.world.board;
  }

  lemma RaiderSetsOut()
    ensures RequestMove(CLASSIC, ONE, NORTH, SOUTH) == Reply(TWO, Ok)
  {
    StepsBelow(CLASSIC, ONE.arb.world.board, NORTH, 4, 0);
    hide PathCells, ClearBetween, Timetable, PerCell;
    Departs(CLASSIC, ONE, NORTH, SOUTH, RAIDING.stops);
    hide Verdict, RequestMove;
    assert ONE.arb.world.board - {NORTH} == TWO.arb.world.board;
    assert [ARRIVING] + [RAIDING] == TWO.arb.world.flights;
  }

  lemma FriendSetsOut()
    ensures RequestMove(CLASSIC, TWO, CORNER, AHEAD) == Reply(THREE, Ok)
  {
    StepsBelow(CLASSIC, TWO.arb.world.board, CORNER, 3, 0);
    hide PathCells, ClearBetween, Timetable, PerCell;
    Departs(CLASSIC, TWO, CORNER, AHEAD, HELPING.stops);
    hide Verdict, RequestMove;
    assert TWO.arb.world.board - {CORNER} == FLYING.board;
    assert [ARRIVING, RAIDING] + [HELPING] == FLYING.flights;
  }

  lemma WalkerGoesOn(g: Game)
    requires g == Game(Arb(RESTING, 2500, map[0 := Rest(1000, 2500)]), false, TOLD, [CAME], [])
    ensures RequestMove(CLASSIC, g, HOME, AHEAD) == Reply(g.(arb := Arb(BEFORE, 2500, map[])), Ok)
  {
    StepNextDoor(CLASSIC, RESTING.board, HOME, AHEAD, 2500);
    hide PathCells, ClearBetween, Timetable, PerCell;
    Departs(CLASSIC, g, HOME, AHEAD, WALKING.stops);
    hide Verdict, RequestMove;
    assert g.arb.rests - {0} == map[];
    assert RESTING.board - {HOME} == BEFORE.board;
    assert [RAIDING, HELPING] + [WALKING] == BEFORE.flights;
  }

  // ----- the story --------------------------------------------------------------------------------------

  lemma Setting()
    ensures Play(CLASSIC, OPENING, STORY[..3]) == THREE
  {
    hide RequestMove, Play;
    WalkerSetsOut();
    RaiderSetsOut();
    FriendSetsOut();
    PlayOn(CLASSIC, OPENING, STORY, 0);
    PlayOn(CLASSIC, OPENING, STORY, 1);
    PlayOn(CLASSIC, OPENING, STORY, 2);
  }

  /** Home, and free to act again. */
  const RESTED := Game(Arb(RESTING, 2500, map[0 := Rest(1000, 2500)]), false, TOLD, [CAME], [])

  lemma WalkerRested()
    ensures Play(CLASSIC, OPENING, STORY[..5]) == RESTED
  {
    hide RequestMove, Play, Wait;
    Setting();
    PlayOn(CLASSIC, OPENING, STORY, 3);
    PlayOn(CLASSIC, OPENING, STORY, 4);
    FirstWait(THREE);
    SecondWait(Play(CLASSIC, OPENING, STORY[..4]));
  }

  lemma Reached()
    ensures Play(CLASSIC, OPENING, STORY[..6]).arb == Arb(BEFORE, 2500, map[])
    ensures Play(CLASSIC, OPENING, STORY[..6]).arrivals == [CAME]
  {
    hide RequestMove, Play, Wait;
    WalkerRested();
    PlayOn(CLASSIC, OPENING, STORY, 5);
    WalkerGoesOn(RESTED);
  }

  /** The walker is sent home at 3500 and captured there, in the same call, at 3000, by a raider
      that had flown over its home while it was away. */
  lemma CapturedInThePast()
    ensures ProperBoard(SETUP) && CLASSIC.Valid()
    ensures var g := Play(CLASSIC, Start(SETUP), STORY[..6]);
      && g.arb == Arb(BEFORE, 2500, map[])
      && Play(CLASSIC, Start(SETUP), STORY).arrivals == g.arrivals + [HELPS, RETURNS, RAIDS]
    ensures Resolve(BEFORE, Arrive(1)).world == HELPED && IsNext(BEFORE, Arrive(1), 3500)
    ensures Resolve(HELPED, Arrive(1)).world == STOPPED && IsNext(HELPED, Arrive(1), 3500) &&
      TimeOf(HELPED, Arrive(1)) == 3500
    ensures Resolve(STOPPED, Arrive(1)).world == LANDED && IsNext(STOPPED, Arrive(1), 3500)
    ensures IsNext(LANDED, Meet(0, 2), 3500) && TimeOf(LANDED, Meet(0, 2)) == 3000
  {
    hide Run, Resolve, World.Valid, IsNext, Play, Wait;
    FriendIsNext();
    WalkerIsNext();
    ReturnIsNext();
    RaidIsNext();
    Reached();
    PlayOn(CLASSIC, OPENING, STORY, 6);
    assert STORY[..7] == STORY;
    LastWait(Play(CLASSIC, OPENING, STORY[..6]));
  }
}
