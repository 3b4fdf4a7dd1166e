/** Whole runs of the room registry, alone and beside other servers. */
module RoomRuns {
  import opened Pieces
  import opened Sessions
  import opened Directories
  import opened Rooms

  /** One operation of the registry, or anything another server does to the directory. */
  datatype Op =
    | Open(players: seq<(Conn, User)>, draws: seq<Draw>, buildFails: bool)
    | JoinBy(conn: Conn, user: User, code: Code)
    | ReturnTo(room: RoomId, from: Conn, conn: Conn, user: User, stale: Option<Conn>)
    | LeaveBy(conn: Conn, seatedIn: Option<RoomId>)
    | TickOf(room: RoomId, after: Seats, dt: int, grace: int)
    | Elsewhere(dir: Directory)

  /** `_reserve_and_build_room` and the placing that follows; a failed build is rolled back. */
  function OpenRoom(s: System, players: seq<(Conn, User)>, draws: seq<Draw>, buildFails: bool): System {
    var search := FindRoom(s.dir, NamesOf(players), draws, s.reg.server);
    if !search.Found? then s
    else if buildFails then
      var room := search.draw.room;
      var d := Reserve(s.dir, room, NamesOf(players), search.draw.code, s.reg.server).0;
      System(Forgotten(BuildRoom(s.reg, room), room),
        Closed(d, room, (set n | n in NamesOf(players)), search.draw.code))
    else Opened(s, search.draw.room, players, search.draw.code)
  }

  /** When an operation can happen at all. */
  ghost predicate Possible(s: System, op: Op) {
    match op
    case Open(players, draws, buildFails) => players != []
    case JoinBy(conn, user, code) => true
    case ReturnTo(room, from, conn, user, stale) => MayReturn(s, room, from, user) && Newcomer(s, room, from, conn)
    case LeaveBy(conn, room) => true
    case TickOf(room, after, dt, grace) => room in s.reg.sessions ==> Ticked(s.reg.sessions[room], after)
    case Elsewhere(after) => Untouched(s.reg.server, s.dir, after) && after.Integrity()
  }

  function Do(s: System, op: Op): System
    requires SameRooms(s.reg)
  {
    match op
    case Open(players, draws, buildFails) => OpenRoom(s, players, draws, buildFails)
    case JoinBy(conn, user, code) => JoinRoom(s, conn, user, code)
    case ReturnTo(room, from, conn, user, stale) =>
      if MayReturn(s, room, from, user) then Return(s, room, from, conn, user, stale) else s
    case LeaveBy(conn, room) => Leave(s, conn, room)
    case TickOf(room, after, dt, grace) => TickRoom(s, room, after, dt, grace)
    case Elsewhere(after) => s.(dir := after)
  }

  lemma OpenRoomKeepsAgreement(s: System, players: seq<(Conn, User)>, draws: seq<Draw>, buildFails: bool)
    requires Agree(s) && players != []
    ensures Agree(OpenRoom(s, players, draws, buildFails))
    ensures buildFails || !FindRoom(s.dir, NamesOf(players), draws, s.reg.server).Found? ==>
      OpenRoom(s, players, draws, buildFails) == s
  {
    hide Agree, Opened, Reserve, Closed, Forgotten, BuildRoom;
    var search := FindRoom(s.dir, NamesOf(players), draws, s.reg.server);
    if search.Found? {
      FoundIsGranted(s.dir, NamesOf(players), draws, s.reg.server);
      if buildFails {
        RollbackRestores(s, search.draw, NamesOf(players));
      } else {
        OpenKeepsAgreement(s, search.draw.room, players, search.draw.code);
      }
    }
  }

  lemma ElsewhereKeepsAgreement(s: System, after: Directory)
    requires Agree(s) && Untouched(s.reg.server, s.dir, after) && after.Integrity()
    ensures Agree(s.(dir := after))
  {
    hide RoomShape, Directory.Integrity;
    forall r, u | r in s.reg.sessions ensures after.SeatedIn(u, r) <==> u in s.reg.usernames[r] {
      assert s.dir.Owned(r, s.reg.server);
    }
    forall r, c | r in s.reg.sessions ensures after.LeadsTo(c, r) <==> r in s.reg.codes && s.reg.codes[r] == c {
      assert s.dir.Owned(r, s.reg.server);
    }
  }

  lemma DoKeepsAgreement(s: System, op: Op)
    requires Agree(s) && Possible(s, op)
    ensures Agree(Do(s, op))
  {
    assert SameRooms(s.reg);
    hide Agree, OpenRoom, JoinRoom, Leave, Return, TickRoom;
    match op {
      case Open(players, draws, buildFails) => OpenRoomKeepsAgreement(s, players, draws, buildFails);
      case JoinBy(conn, user, code) => JoinKeepsAgreement(s, conn, user, code);
      case ReturnTo(room, from, conn, user, stale) => ReturnKeepsAgreement(s, room, from, conn, user, stale);
      case LeaveBy(conn, room) => LeaveKeepsAgreement(s, conn, room);
      case TickOf(room, after, dt, grace) => TickKeepsAgreement(s, room, after, dt, grace);
      case Elsewhere(after) => ElsewhereKeepsAgreement(s, after);
    }
  }

  // ----- whole runs ------------------------------------------------------------------------------------------

  /** The run goes through these states by these operations. */
  ghost predicate IsRun(states: seq<System>, ops: seq<Op>) {
    && |states| == |ops| + 1
    && forall n :: 0 <= n < |ops| ==>
      SameRooms(states[n].reg) && Possible(states[n], ops[n]) && states[n + 1] == Do(states[n], ops[n])
  }

  const NO_ROOMS: map<RoomId, Seats> := map[]

  function FreshRegistry(server: ServerId): Registry {
    Registry(server, NO_ROOMS, map[], map[], map[], map[], map[])
  }

  lemma FreshAgrees(server: ServerId, d: Directory)
    requires d.Integrity() && forall r :: !d.Owned(r, server)
    ensures Agree(System(FreshRegistry(server), d))
  {
  }

  /** Registry and directory agree in every state of every run. */
  lemma {:induction false} RunAgrees(states: seq<System>, ops: seq<Op>, server: ServerId, d: Directory, n: nat)
    requires IsRun(states, ops) && n < |states|
    requires states[0] == System(FreshRegistry(server), d) && d.Integrity() && forall r :: !d.Owned(r, server)
    ensures Agree(states[n])
  {
    if n == 0 {
      FreshAgrees(server, d);
    } else {
      RunAgrees(states, ops, server, d, n - 1);
      hide Agree, Do, Possible;
      assert states[n - 1 + 1] == Do(states[n - 1], ops[n - 1]);
      DoKeepsAgreement(states[n - 1], ops[n - 1]);
    }
  }

  // ----- what a server guarantees to the others ------------------------------------------------------------------

  lemma ReserveLeavesOthers(d: Directory, room: RoomId, names: seq<User>, code: Option<Code>, server: ServerId,
    other: ServerId)
    requires d.Integrity() && other != server
    ensures Untouched(other, d, Reserve(d, room, names, code, server).0)
  {
  }

  lemma ClosedLeavesOthers(s: System, room: RoomId, other: ServerId)
    requires Agree(s) && room in s.reg.sessions && other != s.reg.server
    ensures Untouched(other, s.dir, CloseRoom(s, room).dir)
  {
    hide AllSeated, RoomShape;
    assert s.dir.Owned(room, s.reg.server);
    assert forall u :: s.dir.SeatedIn(u, room) <==> u in s.reg.usernames[room];
    assert forall c :: s.dir.LeadsTo(c, room) <==> CodeOf(s.reg, room) == Some(c);
  }

  lemma JoinLeavesOthers(s: System, conn: Conn, user: User, code: Code, other: ServerId)
    requires Agree(s) && other != s.reg.server
    ensures Untouched(other, s.dir, JoinRoom(s, conn, user, code).dir)
  {
    var status := Join(s.dir, code, user).1;
    if status.Joined? {
      if status.room in s.reg.sessions {
        assert s.dir.Owned(status.room, s.reg.server);
      } else {
        ReleaseUndoesJoin(s.dir, code, user);
      }
    }
  }

  lemma LeaveLeavesOthers(s: System, conn: Conn, room: Option<RoomId>, other: ServerId)
    requires Agree(s) && other != s.reg.server
    ensures Untouched(other, s.dir, Leave(s, conn, room).dir)
  {
    hide Agree, CloseRoom, Directory.Owned, Directory.SeatedIn, Directory.LeadsTo;
    LeaveKeepsAgreement(s, conn, room);
    if room.Some? && room.value in s.reg.sessions {
      ClosedLeavesOthers(s, room.value, other);
    }
  }

  lemma TickLeavesOthers(s: System, room: RoomId, after: Seats, dt: int, grace: int, other: ServerId)
    requires Agree(s) && other != s.reg.server && (room in s.reg.sessions ==> Ticked(s.reg.sessions[room], after))
    ensures Untouched(other, s.dir, TickRoom(s, room, after, dt, grace).dir)
  {
    hide AllSeated, RoomShape;
    if room in s.reg.sessions {
      var reg := s.reg.(sessions := s.reg.sessions[room := after]);
      assert CloseRoom(System(reg, s.dir), room).dir == CloseRoom(s, room).dir;
      hide CloseRoom, Agree;
      ClosedLeavesOthers(s, room, other);
    }
  }

  /** Whatever this server does leaves every other server's rooms, users and codes alone. */
  lemma OthersUntouched(s: System, op: Op, other: ServerId)
    requires Agree(s) && Possible(s, op) && !op.Elsewhere? && other != s.reg.server
    ensures Untouched(other, s.dir, Do(s, op).dir) && Do(s, op).dir.Integrity()
  {
    DoKeepsAgreement(s, op);
    assert SameRooms(s.reg) && s.dir.Integrity();
    assert Agree(Do(s, op)) ==> Do(s, op).dir.Integrity();
    hide Agree, JoinRoom, Leave, TickRoom, Opened, Reserve, Directory.Integrity;
    match op {
      case Open(players, draws, buildFails) =>
        OpenRoomKeepsAgreement(s, players, draws, buildFails);
        var search := FindRoom(s.dir, NamesOf(players), draws, s.reg.server);
        if search.Found? && !buildFails {
          ReserveLeavesOthers(s.dir, search.draw.room, NamesOf(players), search.draw.code, s.reg.server, other);
          OpenedDirectory(s, players, search.draw);
        }
      case JoinBy(conn, user, code) => JoinLeavesOthers(s, conn, user, code, other);
      case ReturnTo(room, from, conn, user, stale) =>
      case LeaveBy(conn, room) => LeaveLeavesOthers(s, conn, room, other);
      case TickOf(room, after, dt, grace) => TickLeavesOthers(s, room, after, dt, grace, other);
    }
  }

  lemma OpenedDirectory(s: System, players: seq<(Conn, User)>, draw: Draw)
    ensures Opened(s, draw.room, players, draw.code).dir ==
      Reserve(s.dir, draw.room, NamesOf(players), draw.code, s.reg.server).0
  {
  }

  lemma DoKeepsServer(s: System, op: Op)
    requires SameRooms(s.reg)
    ensures Do(s, op).reg.server == s.reg.server
  {
    hide Reserve, Closed, Join;
    match op {
      case Open(players, draws, buildFails) =>
        var search := FindRoom(s.dir, NamesOf(players), draws, s.reg.server);
        if search.Found? {
          PlacedServer(Built(s, search.draw.room, search.draw.code), search.draw.room, players);
          OpenedIsPlaced(s, search.draw.room, players, search.draw.code);
        }
      case JoinBy(conn, user, code) =>
      case ReturnTo(room, from, conn, user, stale) =>
      case LeaveBy(conn, room) =>
      case TickOf(room, after, dt, grace) =>
      case Elsewhere(after) =>
    }
  }

  lemma {:induction false} PlacedServer(reg: Registry, room: RoomId, players: seq<(Conn, User)>)
    requires room in reg.sessions && room in reg.connections && room in reg.participants && room in reg.usernames
    ensures PlaceAll(reg, room, players).server == reg.server
    decreases |players|
  {
    if players != [] {
      PlacedServer(Place(reg, room, players[0].0, players[0].1), room, players[1..]);
    }
  }

  /** Two servers on one directory: any operation of one keeps both in agreement with it. */
  lemma ServersSideBySide(a: System, b: Registry, op: Op)
    requires Agree(a) && Agree(System(b, a.dir)) && b.server != a.reg.server
    requires Possible(a, op) && !op.Elsewhere?
    ensures Agree(Do(a, op)) && Agree(System(b, Do(a, op).dir))
  {
    assert SameRooms(a.reg);
    DoKeepsAgreement(a, op);
    OthersUntouched(a, op, b.server);
    hide Agree, Do;
    ElsewhereKeepsAgreement(System(b, a.dir), Do(a, op).dir);
  }

  // ----- any number of servers -------------------------------------------------------------------------------

  /** The registries of several servers on one directory. */
  datatype Fleet = Fleet(regs: seq<Registry>, dir: Directory)

  ghost predicate DifferentServers(regs: seq<Registry>) {
    forall m, n :: 0 <= m < n < |regs| ==> regs[m].server != regs[n].server
  }

  ghost predicate AllAgree(f: Fleet) {
    DifferentServers(f.regs) && forall n :: 0 <= n < |f.regs| ==> Agree(System(f.regs[n], f.dir))
  }

  /** One of the servers does one thing; the others only see what becomes of the directory. */
  ghost predicate FleetStep(f: Fleet, h: Fleet, n: nat, op: Op) {
    && n < |f.regs| && !op.Elsewhere? && SameRooms(f.regs[n]) && Possible(System(f.regs[n], f.dir), op)
    && var done := Do(System(f.regs[n], f.dir), op);
       h == Fleet(f.regs[n := done.reg], done.dir)
  }

  lemma StepKeepsAll(f: Fleet, h: Fleet, n: nat, op: Op)
    requires AllAgree(f) && FleetStep(f, h, n, op)
    ensures AllAgree(h)
  {
    hide Agree, Do, Possible, SameRooms;
    var s := System(f.regs[n], f.dir);
    DoKeepsServer(s, op);
    DoKeepsAgreement(s, op);
    forall m | 0 <= m < |h.regs| ensures Agree(System(h.regs[m], h.dir)) {
      if m != n {
        ServersSideBySide(s, f.regs[m], op);
      }
    }
  }

  ghost predicate IsFleetRun(states: seq<Fleet>, turns: seq<(nat, Op)>) {
    && |states| == |turns| + 1
    && forall k :: 0 <= k < |turns| ==> FleetStep(states[k], states[k + 1], turns[k].0, turns[k].1)
  }

  lemma FreshFleet(f: Fleet)
    requires DifferentServers(f.regs) && f.dir.Integrity()
    requires forall n :: 0 <= n < |f.regs| ==>
      f.regs[n] == FreshRegistry(f.regs[n].server) && forall r :: !f.dir.Owned(r, f.regs[n].server)
    ensures AllAgree(f)
  {
    hide Agree;
    forall n | 0 <= n < |f.regs| ensures Agree(System(f.regs[n], f.dir)) {
      FreshAgrees(f.regs[n].server, f.dir);
    }
  }

  /** Any number of servers take turns, in any order, on one directory: in every state each of
      them agrees with it. */
  lemma {:induction false} FleetRunAgrees(states: seq<Fleet>, turns: seq<(nat, Op)>, k: nat)
    requires IsFleetRun(states, turns) && k < |states|
    requires DifferentServers(states[0].regs) && states[0].dir.Integrity()
    requires forall n :: 0 <= n < |states[0].regs| ==>
      && states[0].regs[n] == FreshRegistry(states[0].regs[n].server)
      && forall r :: !states[0].dir.Owned(r, states[0].regs[n].server)
    ensures AllAgree(states[k])
    decreases k
  {
    hide AllAgree, FleetStep, Directory.Integrity, Directory.Owned, FreshRegistry;
    if k == 0 {
      FreshFleet(states[0]);
    } else {
      FleetRunAgrees(states, turns, k - 1);
      assert FleetStep(states[k - 1], states[k - 1 + 1], turns[k - 1].0, turns[k - 1].1);
      StepKeepsAll(states[k - 1], states[k], turns[k - 1].0, turns[k - 1].1);
    }
  }
}
