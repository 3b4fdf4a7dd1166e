/** A game in which a king is gone, and nothing ever tells of it. */
module LostKing {
  import opened Pieces
  import opened Paths
  import opened Simulation
  import opened SimulationLaws
  import opened Accounting
  import opened Motions
  import opened Rules
  import opened Arbitration
  import opened Games
  import opened Outcomes
  import opened Departures

  const THRONE := Position(4, 4)
  const NEXT_DOOR := Position(4, 5)
  const WEST := Position(4, 3)
  const ABOVE := Position(3, 5)
  const PAGE := Piece(0, White, Rook, WEST)
  const KING := Piece(1, White, King, THRONE)
  const GUEST := Piece(2, White, Rook, ABOVE)
  const COURT: Cells := map[THRONE := KING, WEST := PAGE, ABOVE := GUEST]

  /** The king steps to where the guest will land before it, and the page steps onto the cell
      that the king left. */
  const PROCESSION := [Move(ABOVE, NEXT_DOOR), WaitFor(500), Move(THRONE, NEXT_DOOR), Move(WEST, THRONE), WaitFor(1000)]

  const VISITING := Flight(GUEST, ABOVE, 0, [Stop(NEXT_DOOR, 1000)])
  const LEAVING := Flight(KING, THRONE, 500, [Stop(NEXT_DOOR, 1500)])
  const FOLLOWING := Flight(PAGE, WEST, 500, [Stop(THRONE, 1500)])

  const SEATED_GUEST := GUEST.(cell := NEXT_DOOR)
  const SEATED_PAGE := PAGE.(cell := THRONE)
  const MOVING := World(map[], [VISITING, LEAVING, FOLLOWING], [])
  const VISITED := World(map[NEXT_DOOR := SEATED_GUEST], [LEAVING, FOLLOWING], [])
  const TAKEN := World(map[NEXT_DOOR := SEATED_GUEST, THRONE := SEATED_PAGE], [LEAVING], [])
  const SENT_BACK := TAKEN.(flights := [LEAVING.Cut(0)])
  const OVER := TAKEN.(flights := [])

  const VISITS := Arrival(GUEST.AsToken(), ABOVE, NEXT_DOOR, None)
  const FOLLOWS := Arrival(PAGE.AsToken(), WEST, THRONE, None)

  // ----- the last wait ------------------------------------------------------------------------------

  lemma EachFlightValid()
    ensures VISITING.Valid() && LEAVING.Valid() && FOLLOWING.Valid() && LEAVING.Cut(0).Valid()
    ensures LEAVING.Cut(0).piece == KING
  {
  }

  lemma WorldsValid()
    ensures MOVING.Valid() && VISITED.Valid() && TAKEN.Valid() && SENT_BACK.Valid()
  {
    hide Flight.Valid, Flight.Cut;
    EachFlightValid();
  }

  lemma GuestIsNext()
    ensures MOVING.Valid() && IsNext(MOVING, Arrive(0), 1500)
    ensures Resolve(MOVING, Arrive(0)) == Effect(VISITED, [VISITS], [])
  {
    hide World.Valid, Flight.Valid;
    WorldsValid();
    forall o | IsCandidate(MOVING, o) ensures o in {Arrive(0), Arrive(1), Arrive(2), Collide(0, 1, 0, 0)} {
    }
    assert RemoveAt(MOVING.flights, 0) == VISITED.flights;
  }

  lemma PageIsNext()
    ensures VISITED.Valid() && IsNext(VISITED, Arrive(1), 1500)
    ensures Resolve(VISITED, Arrive(1)) == Effect(TAKEN, [FOLLOWS], [])
  {
    hide World.Valid, Flight.Valid;
    WorldsValid();
    forall o | IsCandidate(VISITED, o) ensures o in {Arrive(0), Arrive(1)} {
    }
    assert RemoveAt(VISITED.flights, 1) == [LEAVING];
  }

  lemma KingIsNext()
    ensures TAKEN.Valid() && IsNext(TAKEN, Arrive(0), 1500)
    ensures Resolve(TAKEN, Arrive(0)) == Effect(SENT_BACK, [], [])
  {
    hide World.Valid, Flight.Valid;
    WorldsValid();
    forall o | IsCandidate(TAKEN, o) ensures o == Arrive(0) {
    }
    assert RemoveAt(TAKEN.flights, 0) == [];
    assert [] + [LEAVING.Cut(0)] == SENT_BACK.flights;
  }

  lemma KingIsDropped()
    ensures SENT_BACK.Valid() && IsNext(SENT_BACK, Arrive(0), 1500)
    ensures Resolve(SENT_BACK, Arrive(0)) == Effect(OVER, [], [KING.AsToken()])
  {
    hide World.Valid, Flight.Valid;
    WorldsValid();
    forall o | IsCandidate(SENT_BACK, o) ensures o == Arrive(0) {
    }
    assert RemoveAt(SENT_BACK.flights, 0) == [];
  }

  lemma LastRun()
    ensures Run(MOVING, 1500) == Effect(OVER, [VISITS, FOLLOWS], [KING.AsToken()])
  {
    hide Run, Resolve, World.Valid, IsNext, Quiet;
    GuestIsNext();
    PageIsNext();
    KingIsNext();
    KingIsDropped();
    NobodyMoves();
    RunUnfold(MOVING, Arrive(0), 1500);
    RunUnfold(VISITED, Arrive(1), 1500);
    RunUnfold(TAKEN, Arrive(0), 1500);
    RunUnfold(SENT_BACK, Arrive(0), 1500);
    QuietRunsNothing(OVER, 1500);
  }

  lemma NobodyMoves()
    ensures Quiet(OVER, 1500)
  {
    forall o ensures !IsCandidate(OVER, o) {
    }
  }

  const TOLD := [MoveCompleted(GUEST.AsToken(), NEXT_DOOR, 1500), MoveCompleted(PAGE.AsToken(), THRONE, 1500)]

  lemma LastWait(g: Game)
    requires g == Game(Arb(MOVING, 500, map[]), false, [], [], [])
    ensures var h := Wait(CLASSIC, g, 1000);
      !h.over && h.log == TOLD && h.dropped == [KING.AsToken()]
  {
    hide Run;
    LastRun();
    var m := Moved(g, 1000);
    var one := ApplyOne(CLASSIC, m, VISITS);
    assert Wait(CLASSIC, g, 1000) == ApplyArrivals(CLASSIC, m, [VISITS, FOLLOWS]);
    assert [VISITS, FOLLOWS][1..] == [FOLLOWS] && [FOLLOWS][1..] == [];
    assert ApplyArrivals(CLASSIC, m, [VISITS, FOLLOWS]) == ApplyArrivals(CLASSIC, one, [FOLLOWS]);
    assert ApplyArrivals(CLASSIC, one, [FOLLOWS]) == ApplyOne(CLASSIC, one, FOLLOWS);
  }

  // ----- the requests -------------------------------------------------------------------------------

  const OPENING := Start(COURT)
  const INVITED := OPENING.(arb := Arb(World(map[THRONE := KING, WEST := PAGE], [VISITING], []), 0, map[]))
  const LATER := INVITED.(arb := INVITED.arb.(clock := 500))
  const LEFT := LATER.(arb := Arb(World(map[WEST := PAGE], [VISITING, LEAVING], []), 500, map[]))
  const FOLLOWED := LATER.(arb := Arb(MOVING, 500, map[]))

  lemma GuestSetsOut()
    ensures RequestMove(CLASSIC, OPENING, ABOVE, NEXT_DOOR) == Reply(INVITED, Ok)
  {
    StepNextDoor(CLASSIC, COURT, ABOVE, NEXT_DOOR, 0);
    hide PathCells, ClearBetween, Timetable, PerCell;
    Departs(CLASSIC, OPENING, ABOVE, NEXT_DOOR, VISITING.stops);
    hide Verdict, RequestMove;
    assert COURT - {ABOVE} == INVITED.arb.world.board;
  }

  lemma NothingYet()
    ensures Wait(CLASSIC, INVITED, 500) == LATER
  {
    var w := INVITED.arb.world;
    forall o | IsCandidate(w, o) ensures 500 < TimeOf(w, o) {
      assert o == Arrive(0);
    }
    hide Run;
    QuietRunsNothing(w, 500);
  }

  lemma KingSetsOut()
    ensures RequestMove(CLASSIC, LATER, THRONE, NEXT_DOOR) == Reply(LEFT, Ok)
  {
    StepNextDoor(CLASSIC, LATER.arb.world.board, THRONE, NEXT_DOOR, 500);
    hide PathCells, ClearBetween, Timetable, PerCell;
    Departs(CLASSIC, LATER, THRONE, NEXT_DOOR, LEAVING.stops);
    hide Verdict, RequestMove;
    assert LATER.arb.world.board - {THRONE} == LEFT.arb.world.board;
    assert [VISITING] + [LEAVING] == LEFT.arb.world.flights;
  }

  lemma PageSetsOut()
    ensures RequestMove(CLASSIC, LEFT, WEST, THRONE) == Reply(FOLLOWED, Ok)
  {
    StepNextDoor(CLASSIC, LEFT.arb.world.board, WEST, THRONE, 500);
    hide PathCells, ClearBetween, Timetable, PerCell;
    Departs(CLASSIC, LEFT, WEST, THRONE, FOLLOWING.stops);
    hide Verdict, RequestMove;
    assert LEFT.arb.world.board - {WEST} == map[];
    assert [VISITING, LEAVING] + [FOLLOWING] == MOVING.flights;
  }

  lemma Followed()
    ensures Play(CLASSIC, OPENING, PROCESSION[..4]) == FOLLOWED
  {
    hide RequestMove, Play, Wait;
    PlayOn(CLASSIC, OPENING, PROCESSION, 0);
    PlayOn(CLASSIC, OPENING, PROCESSION, 1);
    PlayOn(CLASSIC, OPENING, PROCESSION, 2);
    PlayOn(CLASSIC, OPENING, PROCESSION, 3);
    GuestSetsOut();
    NothingYet();
    KingSetsOut();
    PageSetsOut();
  }

  lemma CourtIsProper()
    ensures ProperBoard(COURT) && KING.AsToken() in BoardTokens(COURT)
  {
    assert COURT[THRONE] == KING;
  }

  /** The king finds the guest ahead of it and is sent home, finds the page there and is
      dropped: it is gone, the game goes on, and all that was published is the two moves. */
  lemma KingVanishes()
    ensures CLASSIC.Valid() && ProperBoard(COURT) && KING.AsToken() in BoardTokens(COURT)
    ensures var g := Play(CLASSIC, Start(COURT), PROCESSION);
      && !g.over && g.log == TOLD
      && g.dropped == [KING.AsToken()] && !HasId(g.arb.world.Live(), KING.id)
  {
    hide Play, Wait, World.Live, Captured, ProperBoard, BoardTokens;
    CourtIsProper();
    Followed();
    PlayOn(CLASSIC, OPENING, PROCESSION, 4);
    assert PROCESSION[..5] == PROCESSION;
    LastWait(FOLLOWED);
    var g := Play(CLASSIC, OPENING, PROCESSION);
    EachPieceOnce(CLASSIC, COURT, PROCESSION, KING.id);
    assert Gone(g)[|Gone(g)| - 1] == KING.AsToken();
  }
}
