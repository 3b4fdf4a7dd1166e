/** Two games in which a cut in the time of `advance_time` shows. */
module Cuts {
  import opened Pieces
  import opened Paths
  import opened Simulation
  import opened SimulationLaws
  import opened Motions
  import opened Rules
  import opened Arbitration
  import opened Splitting
  import opened Games
  import opened Departures
  import opened Homecoming

  // ----- a jump that ends before the cut -----------------------------------------------------------

  const DEFENDER := Piece(0, White, Rook, HOME)
  const ATTACKER := Piece(1, Black, Rook, AHEAD)
  const SIEGE: Cells := map[HOME := DEFENDER, AHEAD := ATTACKER]
  const WATCH := [Jump(HOME, 1000)]

  /** The defender jumps, and at the next millisecond its neighbour attacks. */
  const ASSAULT := [JumpOn(HOME), WaitFor(1), Move(AHEAD, HOME)]

  const WATCHED := Start(SIEGE).(arb := Arb(World(SIEGE, [], WATCH), 0, map[]))

  lemma WatchIsKept()
    ensures Wait(CLASSIC, WATCHED, 1) == WATCHED.(arb := Arb(World(SIEGE, [], WATCH), 1, map[]))
  {
    var w := WATCHED.arb.world;
    forall o ensures !IsCandidate(w, o) {
    }
    hide Run;
    QuietRunsNothing(w, 1);
    AllRemain(WATCH, 1);
    NoneEnd(SIEGE, WATCH, 1);
  }

  lemma AttackerSetsOut(g: Game)
    requires g == WATCHED.(arb := Arb(World(SIEGE, [], WATCH), 1, map[]))
    ensures RequestMove(CLASSIC, g, AHEAD, HOME) == Reply(g.(arb := Raid(HOME, WATCH, 1, 1001)), Ok)
  {
    StepNextDoor(CLASSIC, SIEGE, AHEAD, HOME, 1);
    hide PathCells, ClearBetween, Timetable, PerCell;
    Departs(CLASSIC, g, AHEAD, HOME, [Stop(HOME, 1001)]);
    hide Verdict, RequestMove;
    assert SIEGE - {AHEAD} == map[HOME := DEFENDER];
  }

  lemma AssaultReached()
    ensures Play(CLASSIC, Start(SIEGE), ASSAULT).arb == Raid(HOME, WATCH, 1, 1001)
  {
    hide Play, RequestMove, Wait, Raid;
    PlayOn(CLASSIC, Start(SIEGE), ASSAULT, 0);
    PlayOn(CLASSIC, Start(SIEGE), ASSAULT, 1);
    PlayOn(CLASSIC, Start(SIEGE), ASSAULT, 2);
    assert RequestJump(CLASSIC, Start(SIEGE), HOME).game == WATCHED by {
      assert WATCHED.arb.world.jumps == [] + [Jump(HOME, 1000)];
    }
    WatchIsKept();
    AttackerSetsOut(WATCHED.(arb := Arb(World(SIEGE, [], WATCH), 1, map[])));
    assert ASSAULT[..3] == ASSAULT;
  }

  /** At 1 a jump until 1000 is up and the attacker arrives at 1001. In one call past 1001 it
      is intercepted; after a cut at 1000 it takes the defender. */
  lemma GuardOutlivesJump(y: nat)
    requires y > 0
    ensures ProperBoard(SIEGE)
    ensures var a := Play(CLASSIC, Start(SIEGE), ASSAULT).arb;
      && a.clock == 1 && a.world.jumps == WATCH && !StateSplits(a, 999, y)
      && var whole, second := Advance(a, 999 + y).arb.world.board, Advance(Advance(a, 999).arb, y).arb.world.board;
         && HOME in whole && whole[HOME].id == DEFENDER.id
         && HOME in second && second[HOME].id != DEFENDER.id
  {
    hide Play, Advance, StateSplits, Raid;
    AssaultReached();
    assert Raid(HOME, WATCH, 1, 1001).clock == 1 && Raid(HOME, WATCH, 1, 1001).world.jumps == WATCH by { RaidShape(); }
    RaidTells(WATCH, 1, 999, y, 0);
  }

  lemma RaidShape()
    ensures var a := Raid(HOME, WATCH, 1, 1001); a.clock == 1 && a.world.jumps == WATCH
  {
  }

  // ----- a jump that ends after the cut ------------------------------------------------------------

  /** Home and rested, the walker jumps instead of going on, while the raider comes over it. */
  const STAND := STORY[..5] + [JumpOn(HOME)]
  const GUARD := [Jump(HOME, 3500)]
  const GUARDED := World(map[HOME := AT_HOME], [RAIDING, HELPING], GUARD)
  const EMPTIED := World(map[], [RAIDING, HELPING], GUARD)
  const LEFT := World(map[AHEAD := HELPER], [RAIDING], GUARD)

  lemma StandReached()
    ensures Play(CLASSIC, OPENING, STAND).arb == Arb(GUARDED, 2500, map[])
  {
    hide Play;
    PlayOn(CLASSIC, OPENING, STAND, 5);
    assert STAND[..5] == STORY[..5] && STAND[..6] == STAND;
    WalkerRested();
    assert RequestJump(CLASSIC, RESTED, HOME).game.arb == Arb(GUARDED, 2500, map[]) by {
      assert RESTED.arb.rests - {0} == map[];
    }
  }

  lemma RaidPasses()
    ensures GUARDED.Valid() && IsNext(GUARDED, Meet(0, 2), 3000)
    ensures Resolve(GUARDED, Meet(0, 2)).world == EMPTIED
  {
    Columns();
    EachFlightValid();
    hide Flight.Valid;
    forall o | IsCandidate(GUARDED, o) ensures o in {Arrive(0), Arrive(1), Meet(0, 2)} {
    }
    assert GUARDED.board - {HOME} == map[];
  }

  lemma FriendLands()
    ensures EMPTIED.Valid() && IsNext(EMPTIED, Arrive(1), 3000)
    ensures Resolve(EMPTIED, Arrive(1)).world == LEFT
  {
    Columns();
    EachFlightValid();
    hide Flight.Valid;
    forall o | IsCandidate(EMPTIED, o) ensures o in {Arrive(0), Arrive(1)} {
    }
    assert RemoveAt(EMPTIED.flights, 1) == [RAIDING];
  }

  lemma FirstHalf()
    ensures Run(GUARDED, 3000).world == LEFT
  {
    RaidPasses();
    FriendLands();
    assert Quiet(LEFT, 3000) by {
      Columns();
      forall o | IsCandidate(LEFT, o) ensures o == Arrive(0) {
      }
    }
    hide Run, Resolve, World.Valid, IsNext, Quiet;
    RunUnfold(GUARDED, Meet(0, 2), 3000);
    RunUnfold(EMPTIED, Arrive(1), 3000);
    QuietRunsNothing(LEFT, 3000);
  }

  /** At 2500 a jump until 3500 is up, and no jump ends by 3000. The guard is captured in
      passing at 3000. One call to 3500 reports its jump as ended, two calls cut at 3000 do
      not; the state they leave is the same. */
  lemma JumpEndsUntold()
    ensures ProperBoard(SETUP)
    ensures var a := Play(CLASSIC, Start(SETUP), STAND).arb;
      && NoneEndBy(a.world.jumps, a.clock + 500) && StateSplits(a, 500, 500) && !EndedSplit(a, 500, 500)
      && Advance(a, 1000).ended == [JumpEnd(WALKER.AsToken(), HOME)]
      && Advance(a, 500).ended == [] && Advance(Advance(a, 500).arb, 500).ended == []
  {
    StandReached();
    RaidPasses();
    FirstHalf();
    hide Run, World.Valid, IsNext, StateSplits, Play, JumpEnds;
    var a := Arb(GUARDED, 2500, map[]);
    SplitWhileJumpsLast(a, 500, 500);
    GuardEnds(GUARDED.board, 3000);
    GuardEnds(GUARDED.board, 3500);
    GuardEnds(LEFT.board, 3500);
    AllRemain(GUARD, 3000);
    assert Advance(a, 500).arb.world == LEFT;
  }

  lemma GuardEnds(board: Cells, clock: int)
    ensures JumpEnds(board, GUARD, clock) ==
      if 3500 <= clock && HOME in board then [JumpEnd(board[HOME].AsToken(), HOME)] else []
  {
    assert GUARD[1..] == [];
  }
}
