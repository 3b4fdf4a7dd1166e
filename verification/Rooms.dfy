/** `server/rooms.py` on values: the registry of one server against the shared directory. */
module Rooms {
  import opened Pieces
  import opened Sessions
  import opened Directories

  const NO_SEATS := Seats(map[], map[], {}, false)

  /** The room dictionaries of `GameRoomRegistry`. */
  datatype Registry = Registry(
    server: ServerId,
    sessions: map<RoomId, Seats>,
    connections: map<RoomId, set<Conn>>,
    participants: map<RoomId, map<Conn, User>>,
    usernames: map<RoomId, set<User>>,
    codes: map<RoomId, Code>,
    closing: map<RoomId, int>)

  datatype System = System(reg: Registry, dir: Directory)

  // ----- the invariant ------------------------------------------------------------------------------------

  ghost predicate SameRooms(reg: Registry) {
    && reg.connections.Keys == reg.sessions.Keys
    && reg.participants.Keys == reg.sessions.Keys
    && reg.usernames.Keys == reg.sessions.Keys
    && reg.codes.Keys <= reg.sessions.Keys
    && reg.closing.Keys <= reg.sessions.Keys
  }

  /** Everyone present in the room is connected, everyone the room knows is in its username
      set. */
  ghost predicate ShapeOf(reg: Registry, r: RoomId)
    requires r in reg.sessions && r in reg.connections && r in reg.participants && r in reg.usernames
  {
    && reg.participants[r].Keys <= reg.connections[r]
    && (forall c :: c in reg.participants[r] ==> reg.participants[r][c] in reg.usernames[r])
    && (forall c :: c in reg.sessions[r].names ==> reg.sessions[r].names[c] in reg.usernames[r])
  }

  ghost predicate RoomShape(reg: Registry)
    requires SameRooms(reg)
  {
    forall r :: r in reg.sessions ==> reg.connections[r] != {} && ShapeOf(reg, r)
  }

  /** The directory says about this server's rooms exactly what the registry says. */
  ghost predicate DirectoryAgrees(reg: Registry, dir: Directory)
    requires SameRooms(reg)
  {
    && (forall r :: dir.Owned(r, reg.server) <==> r in reg.sessions)
    && (forall r, u :: r in reg.sessions ==> (dir.SeatedIn(u, r) <==> u in reg.usernames[r]))
    && (forall r, c :: r in reg.sessions ==> (dir.LeadsTo(c, r) <==> r in reg.codes && reg.codes[r] == c))
  }

  /** In every room the seats are given in order, each to one connection. */
  ghost predicate AllSeated(sessions: map<RoomId, Seats>) {
    forall r :: r in sessions ==> Seated(sessions[r].roles)
  }

  ghost predicate Agree(s: System) {
    && SameRooms(s.reg) && RoomShape(s.reg) && AllSeated(s.reg.sessions)
    && DirectoryAgrees(s.reg, s.dir) && s.dir.Integrity()
  }

  lemma SeatedPut(sessions: map<RoomId, Seats>, room: RoomId, seats: Seats)
    requires AllSeated(sessions) && Seated(seats.roles)
    ensures AllSeated(sessions[room := seats])
  {
    hide Seated;
  }

  lemma SeatedTake(sessions: map<RoomId, Seats>, room: RoomId)
    requires AllSeated(sessions)
    ensures AllSeated(sessions - {room})
  {
    hide Seated;
  }

  lemma SeatedAt(sessions: map<RoomId, Seats>, room: RoomId)
    requires AllSeated(sessions) && room in sessions
    ensures Seated(sessions[room].roles)
  {
    hide Seated;
  }

  lemma PlaceSeated(reg: Registry, room: RoomId, conn: Conn, user: User)
    requires room in reg.sessions && room in reg.connections && room in reg.participants && room in reg.usernames
    requires AllSeated(reg.sessions)
    ensures AllSeated(Place(reg, room, conn, user).sessions)
  {
    SeatedAt(reg.sessions, room);
    AssignSeated(reg.sessions[room].roles, conn);
    SeatedPut(reg.sessions, room, Place(reg, room, conn, user).sessions[room]);
    hide Seated, AllSeated;
  }

  lemma {:induction false} PlaceAllSeated(reg: Registry, room: RoomId, players: seq<(Conn, User)>)
    requires room in reg.sessions && room in reg.connections && room in reg.participants && room in reg.usernames
    requires AllSeated(reg.sessions)
    ensures AllSeated(PlaceAll(reg, room, players).sessions)
    decreases |players|
  {
    hide AllSeated;
    if players != [] {
      PlaceSeated(reg, room, players[0].0, players[0].1);
      PlaceAllSeated(Place(reg, room, players[0].0, players[0].1), room, players[1..]);
    }
  }

  lemma NobodySeated()
    ensures Seated(NO_SEATS.roles)
  {
  }

  lemma BuiltSeated(s: System, room: RoomId, code: Option<Code>)
    requires AllSeated(s.reg.sessions)
    ensures AllSeated(Built(s, room, code).sessions)
  {
    NobodySeated();
    SeatedPut(s.reg.sessions, room, NO_SEATS);
    hide AllSeated;
  }

  /** Username sets of different rooms are disjoint. */
  lemma UsernamesDisjoint(s: System, q: RoomId, r: RoomId)
    requires Agree(s) && q in s.reg.sessions && r in s.reg.sessions && q != r
    ensures s.reg.usernames[q] !! s.reg.usernames[r]
  {
    forall u | u in s.reg.usernames[q] ensures u !in s.reg.usernames[r] {
      assert s.dir.SeatedIn(u, q);
    }
  }

  // ----- building and closing rooms ------------------------------------------------------------------------

  function BuildRoom(reg: Registry, room: RoomId): Registry {
    reg.(sessions := reg.sessions[room := NO_SEATS], connections := reg.connections[room := {}],
         participants := reg.participants[room := map[]], usernames := reg.usernames[room := {}])
  }

  function Place(reg: Registry, room: RoomId, conn: Conn, user: User): Registry
    requires room in reg.sessions && room in reg.connections && room in reg.participants && room in reg.usernames
  {
    var seats := reg.sessions[room];
    var seated := seats.(roles := Assigned(seats.roles, conn), names := seats.names[conn := user]);
    reg.(sessions := reg.sessions[room := seated],
         connections := reg.connections[room := reg.connections[room] + {conn}],
         participants := reg.participants[room := reg.participants[room][conn := user]],
         usernames := reg.usernames[room := reg.usernames[room] + {user}])
  }

  function CodeOf(reg: Registry, room: RoomId): Option<Code> {
    if room in reg.codes then Some(reg.codes[room]) else None
  }

  function Forgotten(reg: Registry, room: RoomId): Registry {
    reg.(sessions := reg.sessions - {room}, connections := reg.connections - {room},
         participants := reg.participants - {room}, usernames := reg.usernames - {room},
         codes := reg.codes - {room}, closing := reg.closing - {room})
  }

  function CloseRoom(s: System, room: RoomId): System {
    var names := if room in s.reg.usernames then s.reg.usernames[room] else {};
    System(Forgotten(s.reg, room), Closed(s.dir, room, names, CodeOf(s.reg, room)))
  }

  /** No map of the registry and no entry of the directory mentions the room. */
  ghost predicate NoTrace(s: System, room: RoomId) {
    && room !in s.reg.sessions && room !in s.reg.connections && room !in s.reg.participants
    && room !in s.reg.usernames && room !in s.reg.codes && room !in s.reg.closing
    && room !in s.dir.rooms
    && (forall u :: !s.dir.SeatedIn(u, room))
    && (forall c :: !s.dir.LeadsTo(c, room))
  }

  lemma CloseKeepsAgreement(s: System, room: RoomId)
    requires Agree(s) && room in s.reg.sessions
    ensures Agree(CloseRoom(s, room))
  {
    hide AllSeated;
    SeatedTake(s.reg.sessions, room);
    var t := CloseRoom(s, room);
    hide RoomShape;
    assert RoomShape(t.reg) by { CloseKeepsShape(s.reg, room); }
    assert s.dir.Owned(room, s.reg.server);
    forall u | u in t.dir.users ensures t.dir.users[u] in t.dir.rooms {
      assert !s.dir.SeatedIn(u, room);
    }
    forall c | c in t.dir.codes ensures t.dir.codes[c] in t.dir.rooms {
      assert !s.dir.LeadsTo(c, room) || CodeOf(s.reg, room) == Some(c);
    }
    forall r, c | r in t.reg.sessions ensures t.dir.LeadsTo(c, r) <==> r in t.reg.codes && t.reg.codes[r] == c {
      assert s.dir.LeadsTo(c, r) <==> r in s.reg.codes && s.reg.codes[r] == c;
      assert s.dir.LeadsTo(c, room) <==> CodeOf(s.reg, room) == Some(c);
    }
    forall r, u | r in t.reg.sessions ensures t.dir.SeatedIn(u, r) <==> u in t.reg.usernames[r] {
      assert s.dir.SeatedIn(u, room) <==> u in s.reg.usernames[room];
      assert s.dir.SeatedIn(u, r) <==> u in s.reg.usernames[r];
    }
  }

  lemma CloseKeepsShape(reg: Registry, room: RoomId)
    requires SameRooms(reg) && RoomShape(reg)
    ensures SameRooms(Forgotten(reg, room)) && RoomShape(Forgotten(reg, room))
  {
  }

  /** A closed room leaves no trace, not even of users who left in the middle of the game. */
  lemma CloseLeavesNoTrace(s: System, room: RoomId)
    requires Agree(s) && room in s.reg.sessions
    ensures NoTrace(CloseRoom(s, room), room)
    ensures forall u :: u in s.reg.usernames[room] ==> u !in CloseRoom(s, room).dir.users
  {
    var t := CloseRoom(s, room);
    forall u ensures !t.dir.SeatedIn(u, room) {
      assert s.dir.SeatedIn(u, room) <==> u in s.reg.usernames[room];
    }
    forall c ensures !t.dir.LeadsTo(c, room) {
      assert s.dir.LeadsTo(c, room) <==> CodeOf(s.reg, room) == Some(c);
    }
  }

  // ----- create, match, join ---------------------------------------------------------------------------------

  /** A room just reserved and built for these players, the first of whom is placed first. */
  function Opened(s: System, room: RoomId, players: seq<(Conn, User)>, code: Option<Code>): System {
    var names := NamesOf(players);
    var reg := BuildRoom(s.reg, room);
    System(PlaceAll(if code.Some? then reg.(codes := reg.codes[room := code.value]) else reg, room, players),
           Reserve(s.dir, room, names, code, s.reg.server).0)
  }

  function NamesOf(players: seq<(Conn, User)>): seq<User> {
    seq(|players|, n requires 0 <= n < |players| => players[n].1)
  }

  function PlaceAll(reg: Registry, room: RoomId, players: seq<(Conn, User)>): (placed: Registry)
    requires room in reg.sessions && room in reg.connections && room in reg.participants && room in reg.usernames
    decreases |players|
  {
    if players == [] then reg else PlaceAll(Place(reg, room, players[0].0, players[0].1), room, players[1..])
  }

  /** Placing someone changes one room, where it adds one connection and one name. */
  ghost predicate OnlyRoom(a: Registry, b: Registry, room: RoomId) {
    && b.server == a.server && b.codes == a.codes && b.closing == a.closing
    && b.sessions.Keys == a.sessions.Keys && b.connections.Keys == a.connections.Keys
    && b.participants.Keys == a.participants.Keys && b.usernames.Keys == a.usernames.Keys
    && (forall r :: r in a.sessions && r != room ==> b.sessions[r] == a.sessions[r])
    && (forall r :: r in a.connections && r != room ==> b.connections[r] == a.connections[r])
    && (forall r :: r in a.participants && r != room ==> b.participants[r] == a.participants[r])
    && (forall r :: r in a.usernames && r != room ==> b.usernames[r] == a.usernames[r])
  }

  lemma ShapeElsewhere(a: Registry, b: Registry, r: RoomId)
    requires r in a.sessions && r in a.connections && r in a.participants && r in a.usernames
    requires r in b.sessions && r in b.connections && r in b.participants && r in b.usernames
    requires ShapeOf(a, r) && b.sessions[r] == a.sessions[r] && b.connections[r] == a.connections[r]
    requires b.participants[r] == a.participants[r] && b.usernames[r] == a.usernames[r]
    ensures ShapeOf(b, r)
  {
  }

  lemma {:induction false} PlaceAllShape(reg: Registry, room: RoomId, players: seq<(Conn, User)>)
    requires room in reg.sessions && room in reg.connections && room in reg.participants && room in reg.usernames
    requires ShapeOf(reg, room)
    ensures var b := PlaceAll(reg, room, players);
      && OnlyRoom(reg, b, room)
      && b.usernames[room] == reg.usernames[room] + (set n | n in NamesOf(players))
      && ShapeOf(b, room)
      && (players != [] || reg.connections[room] != {} ==> b.connections[room] != {})
    decreases |players|
  {
    if players == [] {
    } else {
      var next := Place(reg, room, players[0].0, players[0].1);
      assert OnlyRoom(reg, next, room) && ShapeOf(next, room);
      PlaceAllShape(next, room, players[1..]);
      assert NamesOf(players) == [players[0].1] + NamesOf(players[1..]);
    }
  }

  /** The registry between building a room and placing its first player. */
  function Built(s: System, room: RoomId, code: Option<Code>): (built: Registry)
    ensures room in built.sessions && room in built.connections && room in built.participants && room in built.usernames
  {
    var reg := BuildRoom(s.reg, room);
    if code.Some? then reg.(codes := reg.codes[room := code.value]) else reg
  }

  lemma BuildRoomRooms(reg: Registry, room: RoomId)
    requires SameRooms(reg) && room !in reg.sessions
    ensures var built := BuildRoom(reg, room);
      && SameRooms(built) && built.server == reg.server && built.codes == reg.codes
      && built.sessions.Keys == reg.sessions.Keys + {room}
      && built.usernames[room] == {} && built.participants[room] == map[] && built.sessions[room] == NO_SEATS
  {
    assert BuildRoom(reg, room).sessions.Keys == reg.sessions.Keys + {room};
    assert BuildRoom(reg, room).connections.Keys == reg.connections.Keys + {room};
    assert BuildRoom(reg, room).participants.Keys == reg.participants.Keys + {room};
    assert BuildRoom(reg, room).usernames.Keys == reg.usernames.Keys + {room};
  }

  lemma BuildRoomElsewhere(reg: Registry, room: RoomId, r: RoomId)
    requires SameRooms(reg) && r in reg.sessions && r != room
    ensures var built := BuildRoom(reg, room);
      && r in built.sessions && r in built.connections && r in built.participants && r in built.usernames
      && built.sessions[r] == reg.sessions[r] && built.connections[r] == reg.connections[r]
      && built.participants[r] == reg.participants[r] && built.usernames[r] == reg.usernames[r]
  {
  }

  lemma BuiltRooms(s: System, room: RoomId, code: Option<Code>)
    requires SameRooms(s.reg) && room !in s.reg.sessions
    ensures var reg := Built(s, room, code);
      && SameRooms(reg) && reg.server == s.reg.server && reg.sessions.Keys == s.reg.sessions.Keys + {room}
      && reg.usernames[room] == {} && reg.participants[room] == map[] && reg.sessions[room] == NO_SEATS
      && reg.codes == (if code.Some? then s.reg.codes[room := code.value] else s.reg.codes)
      && (forall r :: r in s.reg.sessions ==>
        reg.sessions[r] == s.reg.sessions[r] && reg.connections[r] == s.reg.connections[r] &&
        reg.participants[r] == s.reg.participants[r] && reg.usernames[r] == s.reg.usernames[r])
  {
    BuildRoomRooms(s.reg, room);
    forall r | r in s.reg.sessions ensures
      && BuildRoom(s.reg, room).sessions[r] == s.reg.sessions[r]
      && BuildRoom(s.reg, room).connections[r] == s.reg.connections[r]
      && BuildRoom(s.reg, room).participants[r] == s.reg.participants[r]
      && BuildRoom(s.reg, room).usernames[r] == s.reg.usernames[r]
    {
      BuildRoomElsewhere(s.reg, room, r);
    }
    hide BuildRoom;
  }

  lemma BuiltShape(s: System, room: RoomId, code: Option<Code>)
    requires SameRooms(s.reg) && RoomShape(s.reg) && room !in s.reg.sessions
    ensures SameRooms(Built(s, room, code)) && room in Built(s, room, code).sessions &&
      ShapeOf(Built(s, room, code), room)
    ensures forall r :: r in Built(s, room, code).sessions && r != room ==>
      Built(s, room, code).connections[r] != {} && ShapeOf(Built(s, room, code), r)
  {
    BuiltRooms(s, room, code);
    var reg := Built(s, room, code);
    assert ShapeOf(reg, room);
    hide Built, ShapeOf;
    forall r | r in reg.sessions && r != room ensures reg.connections[r] != {} && ShapeOf(reg, r) {
      ShapeElsewhere(s.reg, reg, r);
    }
  }

  lemma PlacedShape(reg: Registry, room: RoomId, players: seq<(Conn, User)>)
    requires SameRooms(reg) && players != [] && room in reg.sessions && ShapeOf(reg, room)
    requires forall r :: r in reg.sessions && r != room ==> reg.connections[r] != {} && ShapeOf(reg, r)
    ensures SameRooms(PlaceAll(reg, room, players)) && RoomShape(PlaceAll(reg, room, players))
  {
    hide ShapeOf, PlaceAll;
    PlaceAllShape(reg, room, players);
    var t := PlaceAll(reg, room, players);
    forall r | r in t.sessions ensures t.connections[r] != {} && ShapeOf(t, r) {
      if r != room { ShapeElsewhere(reg, t, r); }
    }
  }

  lemma OpenedIsPlaced(s: System, room: RoomId, players: seq<(Conn, User)>, code: Option<Code>)
    ensures Opened(s, room, players, code).reg == PlaceAll(Built(s, room, code), room, players)
  {
  }

  lemma BuiltAndPlaced(s: System, room: RoomId, players: seq<(Conn, User)>, code: Option<Code>)
    requires SameRooms(s.reg) && RoomShape(s.reg) && players != [] && room !in s.reg.sessions
    ensures var reg := PlaceAll(Built(s, room, code), room, players);
      && reg.server == s.reg.server && reg.sessions.Keys == s.reg.sessions.Keys + {room}
      && room in reg.usernames && reg.usernames[room] == (set n | n in NamesOf(players))
      && (forall r :: r in s.reg.sessions ==>
        r in reg.usernames && r in s.reg.usernames && reg.usernames[r] == s.reg.usernames[r])
      && reg.codes == (if code.Some? then s.reg.codes[room := code.value] else s.reg.codes)
  {
    hide ShapeOf, RoomShape, PlaceAll, Built;
    BuiltRooms(s, room, code);
    BuiltShape(s, room, code);
    PlaceAllShape(Built(s, room, code), room, players);
  }

  lemma OpenKeepsShape(s: System, room: RoomId, players: seq<(Conn, User)>, code: Option<Code>)
    requires SameRooms(s.reg) && RoomShape(s.reg) && players != [] && room !in s.reg.sessions
    ensures var t := Opened(s, room, players, code);
      && SameRooms(t.reg) && RoomShape(t.reg)
      && t.reg.server == s.reg.server && t.reg.sessions.Keys == s.reg.sessions.Keys + {room}
      && t.reg.usernames[room] == (set n | n in NamesOf(players))
      && (forall r :: r in s.reg.sessions ==> t.reg.usernames[r] == s.reg.usernames[r])
      && t.reg.codes == (if code.Some? then s.reg.codes[room := code.value] else s.reg.codes)
  {
    hide ShapeOf, RoomShape, PlaceAll, Built, Opened, BuildRoom;
    BuiltShape(s, room, code);
    PlacedShape(Built(s, room, code), room, players);
    BuiltAndPlaced(s, room, players, code);
    OpenedIsPlaced(s, room, players, code);
  }

  lemma ReserveUsers(s: System, room: RoomId, names: seq<User>, code: Option<Code>)
    requires s.dir.Integrity() && Reserve(s.dir, room, names, code, s.reg.server).1 == Reserved
    ensures var d := Reserve(s.dir, room, names, code, s.reg.server).0;
      && d.Integrity()
      && (forall u :: d.SeatedIn(u, room) <==> u in names)
      && (forall u, r :: r != room ==> (d.SeatedIn(u, r) <==> s.dir.SeatedIn(u, r)))
      && (forall c :: d.LeadsTo(c, room) <==> code == Some(c))
      && (forall c, r :: r != room ==> (d.LeadsTo(c, r) <==> s.dir.LeadsTo(c, r)))
      && (forall r :: d.Owned(r, s.reg.server) <==> r == room || s.dir.Owned(r, s.reg.server))
  {
  }

  /** Opening a room that the directory granted keeps the agreement. */
  lemma OpenKeepsAgreement(s: System, room: RoomId, players: seq<(Conn, User)>, code: Option<Code>)
    requires Agree(s) && players != []
    requires Reserve(s.dir, room, NamesOf(players), code, s.reg.server).1 == Reserved
    ensures Agree(Opened(s, room, players, code))
  {
    hide RoomShape, PlaceAll, BuildRoom, Reserve, Directory.Integrity, DirectoryAgrees, AllSeated;
    BuiltSeated(s, room, code);
    PlaceAllSeated(Built(s, room, code), room, players);
    OpenedIsPlaced(s, room, players, code);
    assert room !in s.reg.sessions by { GrantedIsNew(s, room, NamesOf(players), code); }
    OpenKeepsShape(s, room, players, code);
    ReserveUsers(s, room, NamesOf(players), code);
    var t := Opened(s, room, players, code);
    assert t.dir == Reserve(s.dir, room, NamesOf(players), code, s.reg.server).0;
    hide Opened;
    OneMoreRoom(s.reg, t.reg, s.dir, t.dir, room, NamesOf(players), code);
  }

  /** One more room of these users, in the registry and in the directory. */
  lemma OneMoreRoom(reg: Registry, t: Registry, dir: Directory, d: Directory, room: RoomId, names: seq<User>,
    code: Option<Code>)
    requires SameRooms(reg) && SameRooms(t) && DirectoryAgrees(reg, dir) && room !in reg.sessions &&
      t.server == reg.server
    requires t.sessions.Keys == reg.sessions.Keys + {room} && t.usernames[room] == (set n | n in names)
    requires forall r :: r in reg.sessions ==> t.usernames[r] == reg.usernames[r]
    requires t.codes == if code.Some? then reg.codes[room := code.value] else reg.codes
    requires (forall u :: d.SeatedIn(u, room) <==> u in names) && (forall c :: d.LeadsTo(c, room) <==> code == Some(c))
    requires forall u, r :: r != room ==> (d.SeatedIn(u, r) <==> dir.SeatedIn(u, r))
    requires forall c, r :: r != room ==> (d.LeadsTo(c, r) <==> dir.LeadsTo(c, r))
    requires forall r :: d.Owned(r, reg.server) <==> r == room || dir.Owned(r, reg.server)
    ensures DirectoryAgrees(t, d)
  {
    hide Directory.SeatedIn, Directory.LeadsTo, Directory.Owned;
  }

  lemma GrantedIsNew(s: System, room: RoomId, names: seq<User>, code: Option<Code>)
    requires Agree(s) && Reserve(s.dir, room, names, code, s.reg.server).1 == Reserved
    ensures room !in s.reg.sessions
  {
    assert !s.dir.Owned(room, s.reg.server);
  }

  lemma RoomAfterPlacing(reg: Registry, room: RoomId, conn: Conn, user: User)
    requires room in reg.sessions && room in reg.connections && room in reg.participants && room in reg.usernames
    ensures Place(reg, room, conn, user).sessions[room].roles == Assigned(reg.sessions[room].roles, conn)
  {
  }

  /** The only player of a new room has white. Of two, on different connections, the first has
      white and the second black. */
  lemma SeatsOfNewRoom(s: System, room: RoomId, players: seq<(Conn, User)>, code: Option<Code>)
    ensures room in Opened(s, room, players, code).reg.sessions
    ensures var roles := Opened(s, room, players, code).reg.sessions[room].roles;
      && (|players| == 1 ==> roles == map[players[0].0 := WhiteSeat])
      && (|players| == 2 && players[0].0 != players[1].0 ==>
        roles == map[players[0].0 := WhiteSeat, players[1].0 := BlackSeat])
  {
    hide Opened, Built, Place, PlaceAll;
    var reg := Built(s, room, code);
    OpenedIsPlaced(s, room, players, code);
    BuiltEmpty(s, room, code);
    PlacedStays(reg, room, players);
    if |players| == 1 {
      assert players == [players[0]];
      OnePlaced(reg, room, players[0]);
    } else if |players| == 2 {
      assert players == [players[0], players[1]];
      TwoPlaced(reg, room, players[0], players[1]);
    }
  }

  lemma BuiltEmpty(s: System, room: RoomId, code: Option<Code>)
    ensures Built(s, room, code).sessions[room] == NO_SEATS
  {
  }

  lemma OnePlaced(reg: Registry, room: RoomId, p: (Conn, User))
    requires room in reg.sessions && room in reg.connections && room in reg.participants && room in reg.usernames
    ensures var t := PlaceAll(reg, room, [p]);
      room in t.sessions && t.sessions[room].roles == Assigned(reg.sessions[room].roles, p.0)
  {
    PlaceRooms(reg, room, p.0, p.1);
    RoomAfterPlacing(reg, room, p.0, p.1);
    assert [p][1..] == [];
    hide Place;
  }

  lemma TwoPlaced(reg: Registry, room: RoomId, p: (Conn, User), q: (Conn, User))
    requires room in reg.sessions && room in reg.connections && room in reg.participants && room in reg.usernames
    ensures var t := PlaceAll(reg, room, [p, q]);
      room in t.sessions && t.sessions[room].roles == Assigned(Assigned(reg.sessions[room].roles, p.0), q.0)
  {
    PlaceRooms(reg, room, p.0, p.1);
    RoomAfterPlacing(reg, room, p.0, p.1);
    OnePlaced(Place(reg, room, p.0, p.1), room, q);
    assert [p, q][1..] == [q];
    hide Place;
  }

  lemma PlaceAllStep(reg: Registry, room: RoomId, players: seq<(Conn, User)>)
    requires room in reg.sessions && room in reg.connections && room in reg.participants && room in reg.usernames
    requires players != []
    ensures var t := Place(reg, room, players[0].0, players[0].1);
      && room in t.sessions && room in t.connections && room in t.participants && room in t.usernames
      && PlaceAll(reg, room, players) == PlaceAll(t, room, players[1..])
  {
  }

  lemma NobodyPlaced(reg: Registry, room: RoomId)
    requires room in reg.sessions && room in reg.connections && room in reg.participants && room in reg.usernames
    ensures PlaceAll(reg, room, []) == reg
  {
  }

  lemma PlaceRooms(reg: Registry, room: RoomId, conn: Conn, user: User)
    requires room in reg.sessions && room in reg.connections && room in reg.participants && room in reg.usernames
    ensures var t := Place(reg, room, conn, user);
      room in t.sessions && room in t.connections && room in t.participants && room in t.usernames
  {
  }

  lemma {:induction false} PlacedStays(reg: Registry, room: RoomId, players: seq<(Conn, User)>)
    requires room in reg.sessions && room in reg.connections && room in reg.participants && room in reg.usernames
    ensures room in PlaceAll(reg, room, players).sessions
    decreases |players|
  {
    if players != [] {
      PlacedStays(Place(reg, room, players[0].0, players[0].1), room, players[1..]);
    }
  }

  // ----- finding a room id -----------------------------------------------------------------------------------

  datatype Draw = Draw(room: RoomId, code: Option<Code>)

  datatype Search = Found(draw: Draw) | NameTaken | Exhausted

  /** `_reserve_new_room`: the first draw whose identifiers are free, unless a name is taken. */
  function FindRoom(d: Directory, names: seq<User>, draws: seq<Draw>, server: ServerId): Search
    decreases |draws|
  {
    if draws == [] then Exhausted
    else
      match Reserve(d, draws[0].room, names, draws[0].code, server).1
      case Reserved => Found(draws[0])
      case UsernameConflict => NameTaken
      case IdentifierConflict => FindRoom(d, names, draws[1..], server)
  }

  lemma {:induction false} FoundIsGranted(d: Directory, names: seq<User>, draws: seq<Draw>, server: ServerId)
    requires FindRoom(d, names, draws, server).Found?
    ensures var draw := FindRoom(d, names, draws, server).draw;
      draw in draws && Reserve(d, draw.room, names, draw.code, server).1 == Reserved
    decreases |draws|
  {
    if Reserve(d, draws[0].room, names, draws[0].code, server).1 == IdentifierConflict {
      FoundIsGranted(d, names, draws[1..], server);
    }
  }

  /** If building the room fails after the reservation, undoing both restores everything. */
  lemma RollbackRestores(s: System, draw: Draw, names: seq<User>)
    requires Agree(s) && Reserve(s.dir, draw.room, names, draw.code, s.reg.server).1 == Reserved
    ensures Closed(Reserve(s.dir, draw.room, names, draw.code, s.reg.server).0, draw.room, (set n | n in names),
      draw.code) == s.dir
    ensures Forgotten(BuildRoom(s.reg, draw.room), draw.room) == s.reg
  {
    GrantedIsNew(s, draw.room, names, draw.code);
    RestoredRooms(s.reg, draw.room);
    var d := Reserve(s.dir, draw.room, names, draw.code, s.reg.server).0;
    assert d.rooms - {draw.room} == s.dir.rooms;
    assert d.users - (set n | n in names) == s.dir.users;
  }

  lemma PutAndTake<V>(m: map<RoomId, V>, room: RoomId, v: V)
    requires room !in m
    ensures m[room := v] - {room} == m
  {
  }

  lemma RestoredRooms(reg: Registry, room: RoomId)
    requires SameRooms(reg) && room !in reg.sessions
    ensures Forgotten(BuildRoom(reg, room), room) == reg
  {
    PutAndTake(reg.sessions, room, NO_SEATS);
    PutAndTake(reg.connections, room, {});
    PutAndTake(reg.participants, room, map[]);
    PutAndTake(reg.usernames, room, {});
    assert reg.codes - {room} == reg.codes && reg.closing - {room} == reg.closing;
  }

  // ----- joining, leaving, coming back ------------------------------------------------------------------------

  function JoinRoom(s: System, conn: Conn, user: User, code: Code): System
    requires SameRooms(s.reg)
  {
    var (d, status) := Join(s.dir, code, user);
    if !status.Joined? then s
    else if status.room !in s.reg.sessions then s.(dir := Released(d, user))
    else System(Place(s.reg, status.room, conn, user), d)
  }

  lemma PlaceKeepsShape(reg: Registry, room: RoomId, conn: Conn, user: User)
    requires SameRooms(reg) && RoomShape(reg) && room in reg.sessions
    ensures SameRooms(Place(reg, room, conn, user)) && RoomShape(Place(reg, room, conn, user))
    ensures OnlyRoom(reg, Place(reg, room, conn, user), room)
    ensures Place(reg, room, conn, user).usernames[room] == reg.usernames[room] + {user}
  {
    var t := Place(reg, room, conn, user);
    PlaceShape(reg, room, conn, user);
    hide ShapeOf, Place;
    forall r | r in t.sessions ensures t.connections[r] != {} && ShapeOf(t, r) {
      if r != room { ShapeElsewhere(reg, t, r); } else { PlaceConnects(reg, room, conn, user); }
    }
  }

  lemma PlaceShape(reg: Registry, room: RoomId, conn: Conn, user: User)
    requires SameRooms(reg) && room in reg.sessions && ShapeOf(reg, room)
    ensures var t := Place(reg, room, conn, user);
      SameRooms(t) && OnlyRoom(reg, t, room) && ShapeOf(t, room) && t.usernames[room] == reg.usernames[room] + {user}
  {
  }

  lemma PlaceConnects(reg: Registry, room: RoomId, conn: Conn, user: User)
    requires SameRooms(reg) && room in reg.sessions
    ensures conn in Place(reg, room, conn, user).connections[room]
  {
  }

  lemma JoinClaims(d: Directory, code: Code, user: User)
    requires d.Integrity() && Join(d, code, user).1.Joined?
    ensures var e, room := Join(d, code, user).0, Join(d, code, user).1.room;
      && e.Integrity() && e.rooms == d.rooms && e.codes == d.codes
      && (forall u, r :: e.SeatedIn(u, r) <==> d.SeatedIn(u, r) || (u == user && r == room))
  {
  }

  lemma JoinedAgrees(s: System, d: Directory, room: RoomId, conn: Conn, user: User)
    requires Agree(s) && room in s.reg.sessions && d.Integrity() && d.rooms == s.dir.rooms && d.codes == s.dir.codes
    requires forall u, r :: d.SeatedIn(u, r) <==> s.dir.SeatedIn(u, r) || (u == user && r == room)
    ensures Agree(System(Place(s.reg, room, conn, user), d))
  {
    hide RoomShape, Place, Directory.Integrity, Directory.SeatedIn, DirectoryAgrees, AllSeated;
    PlaceKeepsShape(s.reg, room, conn, user);
    PlaceSeated(s.reg, room, conn, user);
    var t := Place(s.reg, room, conn, user);
    assert forall r, c :: d.LeadsTo(c, r) <==> s.dir.LeadsTo(c, r);
    assert forall r :: d.Owned(r, t.server) <==> s.dir.Owned(r, s.reg.server);
    OneMoreSeated(s.reg, t, s.dir, d, room, user);
  }

  /** One more user in one room, in the registry and in the directory. */
  lemma OneMoreSeated(reg: Registry, t: Registry, dir: Directory, d: Directory, room: RoomId, user: User)
    requires SameRooms(reg) && SameRooms(t) && DirectoryAgrees(reg, dir) && OnlyRoom(reg, t, room)
    requires room in reg.sessions && t.usernames[room] == reg.usernames[room] + {user}
    requires forall u, r :: d.SeatedIn(u, r) <==> dir.SeatedIn(u, r) || (u == user && r == room)
    requires forall r, c :: d.LeadsTo(c, r) <==> dir.LeadsTo(c, r)
    requires forall r :: d.Owned(r, t.server) <==> dir.Owned(r, reg.server)
    ensures DirectoryAgrees(t, d)
  {
    hide Directory.SeatedIn, Directory.LeadsTo, Directory.Owned;
    forall r, u | r in t.sessions ensures d.SeatedIn(u, r) <==> u in t.usernames[r] {
      assert dir.SeatedIn(u, r) <==> u in reg.usernames[r];
    }
  }

  lemma JoinKeepsAgreement(s: System, conn: Conn, user: User, code: Code)
    requires Agree(s)
    ensures Agree(JoinRoom(s, conn, user, code))
  {
    var (d, status) := Join(s.dir, code, user);
    if status.Joined? {
      JoinClaims(s.dir, code, user);
      if status.room in s.reg.sessions {
        JoinedAgrees(s, d, status.room, conn, user);
      } else {
        ReleaseUndoesJoin(s.dir, code, user);
      }
    }
    hide Agree, Place;
  }

  /** Claiming a user for another server's room and letting go again changes nothing. */
  lemma ReleaseUndoesJoin(d: Directory, code: Code, user: User)
    requires Join(d, code, user).1.Joined?
    ensures Released(Join(d, code, user).0, user) == d
  {
  }

  /** `remove_participant`: the last one out closes the room, anyone else leaves a countdown. */
  function Leave(s: System, conn: Conn, room: Option<RoomId>): System
    requires SameRooms(s.reg)
  {
    if room.None? || room.value !in s.reg.sessions then s
    else
      var r := room.value;
      var connections := s.reg.connections[r] - {conn};
      var reg := s.reg.(connections := s.reg.connections[r := connections],
                        participants := s.reg.participants[r := s.reg.participants[r] - {conn}]);
      if connections == {} then CloseRoom(s.(reg := reg), r)
      else s.(reg := reg.(sessions := reg.sessions[r := AwayAfter(reg.sessions[r], conn)]))
  }

  /** A registry that differs from an agreeing one in one room's people only. */
  ghost predicate SameClaims(a: Registry, b: Registry, room: RoomId) {
    && SameRooms(b) && OnlyRoom(a, b, room)
    && room in a.usernames && room in b.usernames && b.usernames[room] == a.usernames[room]
  }

  lemma SameClaimsAgree(s: System, b: Registry, room: RoomId)
    requires Agree(s) && SameClaims(s.reg, b, room) && room in b.sessions
    requires b.connections[room] != {} && ShapeOf(b, room) && AllSeated(b.sessions)
    ensures Agree(System(b, s.dir))
  {
    hide ShapeOf, Directory.Integrity, AllSeated;
    forall r | r in b.sessions ensures b.connections[r] != {} && ShapeOf(b, r) {
      if r != room { ShapeElsewhere(s.reg, b, r); }
    }
    assert RoomShape(b);
    hide RoomShape;
    assert forall r :: r in b.sessions ==> b.usernames[r] == s.reg.usernames[r];
  }

  lemma CloseAfterLast(s: System, a: Registry, room: RoomId)
    requires SameRooms(s.reg) && SameRooms(a) && room in s.reg.sessions && room in a.sessions &&
      OnlyRoom(s.reg, a, room)
    requires a.usernames[room] == s.reg.usernames[room]
    ensures CloseRoom(System(a, s.dir), room) == CloseRoom(s, room)
  {
    SameWithout(a.sessions, s.reg.sessions, room);
    SameWithout(a.connections, s.reg.connections, room);
    SameWithout(a.participants, s.reg.participants, room);
    SameWithout(a.usernames, s.reg.usernames, room);
  }

  lemma SameWithout<V>(a: map<RoomId, V>, b: map<RoomId, V>, room: RoomId)
    requires a.Keys == b.Keys && forall r :: r in b && r != room ==> a[r] == b[r]
    ensures a - {room} == b - {room}
  {
    var x, y := a - {room}, b - {room};
    assert x.Keys == y.Keys;
    forall r | r in y ensures x[r] == y[r] {
      assert r in b && r != room;
    }
  }

  lemma LeaveKeepsAgreement(s: System, conn: Conn, room: Option<RoomId>)
    requires Agree(s)
    ensures Agree(Leave(s, conn, room))
    ensures room.Some? && room.value in s.reg.sessions && s.reg.connections[room.value] - {conn} == {} ==>
      Leave(s, conn, room) == CloseRoom(s, room.value)
  {
    hide AllSeated, Seated;
    if room.Some? && room.value in s.reg.sessions {
      var r := room.value;
      var reg := s.reg.(connections := s.reg.connections[r := s.reg.connections[r] - {conn}],
                        participants := s.reg.participants[r := s.reg.participants[r] - {conn}]);
      if s.reg.connections[r] - {conn} == {} {
        CloseAfterLast(s, reg, r);
        CloseKeepsAgreement(s, r);
      } else {
        var b := reg.(sessions := reg.sessions[r := AwayAfter(reg.sessions[r], conn)]);
        SeatedAt(s.reg.sessions, r);
        SeatedPut(s.reg.sessions, r, AwayAfter(reg.sessions[r], conn));
        LeaveShape(s.reg, r, conn);
        hide ShapeOf, SameClaims, RoomShape;
        SameClaimsAgree(s, b, r);
      }
    }
  }

  lemma LeaveShape(reg: Registry, r: RoomId, conn: Conn)
    requires SameRooms(reg) && RoomShape(reg) && r in reg.sessions
    ensures var b := reg.(connections := reg.connections[r := reg.connections[r] - {conn}],
                          participants := reg.participants[r := reg.participants[r] - {conn}],
                          sessions := reg.sessions[r := AwayAfter(reg.sessions[r], conn)]);
      r in b.sessions && SameClaims(reg, b, r) && ShapeOf(b, r)
  {
    hide RoomShape;
    assert ShapeOf(reg, r) by { ShapeAt(reg, r); }
  }

  lemma ShapeAt(reg: Registry, r: RoomId)
    requires SameRooms(reg) && RoomShape(reg) && r in reg.sessions
    ensures ShapeOf(reg, r)
  {
    hide ShapeOf;
  }

  /** May the user come back to the seat that connection `from` had in the room? */
  predicate MayReturn(s: System, room: RoomId, from: Conn, user: User) {
    room in s.reg.sessions && MayTakeBack(s.reg.sessions[room], from, user)
  }

  /** `try_reconnect`: the seat moves to the new connection, which replaces a stale one. */
  function Return(s: System, room: RoomId, from: Conn, conn: Conn, user: User, stale: Option<Conn>): System
    requires SameRooms(s.reg) && MayReturn(s, room, from, user)
  {
    var others := if stale.Some? then s.reg.participants[room] - {stale.value} else s.reg.participants[room];
    s.(reg := s.reg.(sessions := s.reg.sessions[room := SeatBack(s.reg.sessions[room], from, conn, user)],
                     connections := s.reg.connections[room := s.reg.connections[room] + {conn}],
                     participants := s.reg.participants[room := others[conn := user]]))
  }

  /** A connection asks for its user's seat right after login, before it has any other. */
  predicate Newcomer(s: System, room: RoomId, from: Conn, conn: Conn) {
    room in s.reg.sessions ==> conn == from || conn !in s.reg.sessions[room].roles
  }

  lemma ReturnKeepsAgreement(s: System, room: RoomId, from: Conn, conn: Conn, user: User, stale: Option<Conn>)
    requires Agree(s) && MayReturn(s, room, from, user) && Newcomer(s, room, from, conn)
    ensures Agree(Return(s, room, from, conn, user, stale))
  {
    hide AllSeated, Seated, Reseated;
    var b := Return(s, room, from, conn, user, stale).reg;
    SeatedAt(s.reg.sessions, room);
    ReconnectSeated(s.reg.sessions[room].roles, from, conn);
    SeatedPut(s.reg.sessions, room, SeatBack(s.reg.sessions[room], from, conn, user));
    ReturnShape(s, room, from, conn, user, stale);
    hide ShapeOf, SameClaims, SeatBack;
    SameClaimsAgree(s, b, room);
  }

  lemma ReturnShape(s: System, room: RoomId, from: Conn, conn: Conn, user: User, stale: Option<Conn>)
    requires Agree(s) && MayReturn(s, room, from, user)
    ensures var b := Return(s, room, from, conn, user, stale).reg;
      && SameClaims(s.reg, b, room) && room in b.sessions
      && conn in b.connections[room] && ShapeOf(b, room)
  {
    hide AllSeated, Seated, DirectoryAgrees, Directory.Integrity, RoomShape;
    ShapeAt(s.reg, room);
    ReturnClaims(s, room, from, conn, user, stale);
    hide SameClaims;
    assert user in s.reg.usernames[room] by { assert s.reg.sessions[room].names[from] == user; }
  }

  lemma ReturnClaims(s: System, room: RoomId, from: Conn, conn: Conn, user: User, stale: Option<Conn>)
    requires SameRooms(s.reg) && MayReturn(s, room, from, user)
    ensures SameClaims(s.reg, Return(s, room, from, conn, user, stale).reg, room)
  {
    hide MayTakeBack, SeatBack;
  }

  /** There is at most one room a user can come back to. */
  lemma ReturnIsUnique(s: System, q: RoomId, r: RoomId, from: Conn, other: Conn, user: User)
    requires Agree(s) && MayReturn(s, q, from, user) && MayReturn(s, r, other, user)
    ensures q == r && s.dir.SeatedIn(user, q)
  {
    assert ShapeOf(s.reg, q) && ShapeOf(s.reg, r);
    assert s.dir.SeatedIn(user, q) && s.dir.SeatedIn(user, r);
  }

  // ----- the tick --------------------------------------------------------------------------------------------

  /** `_tick_room`: a finished game stays for the grace period, then its room is closed. */
  function TickRoom(s: System, room: RoomId, after: Seats, dt: int, grace: int): System {
    if room !in s.reg.sessions then s
    else
      var reg := s.reg.(sessions := s.reg.sessions[room := after]);
      if !after.over then s.(reg := reg)
      else
        var remaining := (if room in reg.closing then reg.closing[room] else grace) - dt;
        if remaining <= 0 then CloseRoom(s.(reg := reg), room)
        else s.(reg := reg.(closing := reg.closing[room := remaining]))
  }

  lemma TickKeepsAgreement(s: System, room: RoomId, after: Seats, dt: int, grace: int)
    requires Agree(s) && (room in s.reg.sessions ==> Ticked(s.reg.sessions[room], after))
    ensures Agree(TickRoom(s, room, after, dt, grace))
  {
    hide Agree, CloseRoom, SameRooms, Ticked;
    if room in s.reg.sessions {
      var reg := s.reg.(sessions := s.reg.sessions[room := after]);
      TickedAgrees(s, room, after);
      var remaining := (if room in reg.closing then reg.closing[room] else grace) - dt;
      if after.over && remaining > 0 {
        ClosingIsFree(System(reg, s.dir), room, remaining);
      } else if after.over {
        CloseKeepsAgreement(System(reg, s.dir), room);
      }
    }
  }

  lemma TickedAgrees(s: System, room: RoomId, after: Seats)
    requires Agree(s) && room in s.reg.sessions && Ticked(s.reg.sessions[room], after)
    ensures Agree(s.(reg := s.reg.(sessions := s.reg.sessions[room := after])))
  {
    hide DirectoryAgrees, AllSeated, Seated;
    SeatedAt(s.reg.sessions, room);
    SeatedPut(s.reg.sessions, room, after);
    var reg := s.reg.(sessions := s.reg.sessions[room := after]);
    assert ShapeOf(s.reg, room);
    assert SameClaims(s.reg, reg, room) && ShapeOf(reg, room);
    hide ShapeOf, RoomShape, SameClaims;
    SameClaimsAgree(s, reg, room);
  }

  lemma ClosingIsFree(s: System, room: RoomId, remaining: int)
    requires Agree(s) && room in s.reg.sessions
    ensures Agree(s.(reg := s.reg.(closing := s.reg.closing[room := remaining])))
  {
    var b := s.reg.(closing := s.reg.closing[room := remaining]);
    forall r | r in b.sessions ensures b.connections[r] != {} && ShapeOf(b, r) {
      ShapeElsewhere(s.reg, b, r);
    }
    hide ShapeOf;
    assert RoomShape(b);
  }
}
