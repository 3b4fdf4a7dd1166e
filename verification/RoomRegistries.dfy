/** `server/rooms.py`: the registry as an object, proved to do what `Rooms` says. */
module RoomRegistries {
  import opened Pieces
  import opened Sessions
  import opened Directories
  import opened Rooms
  import opened RoomRuns

  /** `Participant`, as far as the registry fills it in. */
  class Participant {
    const conn: Conn
    const user: User
    var role: Option<Role>
    var room: Option<RoomId>

    constructor (conn: Conn, user: User)
      ensures this.conn == conn && this.user == user && role == None && room == None
    {
      this.conn := conn;
      this.user := user;
      role := None;
      room := None;
    }
  }

  type People = map<Conn, Participant>

  ghost function UsersIn(people: People): (users: map<Conn, User>)
    ensures users.Keys == people.Keys
  {
    map c | c in people :: people[c].user
  }

  ghost function UsersByRoom(rooms: map<RoomId, People>): (users: map<RoomId, map<Conn, User>>)
    ensures users.Keys == rooms.Keys
    ensures forall r :: r in rooms ==> users[r] == UsersIn(rooms[r])
  {
    map r | r in rooms :: UsersIn(rooms[r])
  }

  function PeopleOf(people: People): set<Participant> {
    set c | c in people :: people[c]
  }

  lemma UsersPut(people: People, p: Participant)
    ensures UsersIn(people[p.conn := p]) == UsersIn(people)[p.conn := p.user]
  {
  }

  lemma UsersTake(people: People, conn: Conn)
    ensures UsersIn(people - {conn}) == UsersIn(people) - {conn}
  {
  }

  lemma RoomPut(rooms: map<RoomId, People>, room: RoomId, people: People)
    ensures UsersByRoom(rooms[room := people]) == UsersByRoom(rooms)[room := UsersIn(people)]
  {
  }

  lemma RoomTake(rooms: map<RoomId, People>, room: RoomId)
    ensures UsersByRoom(rooms - {room}) == UsersByRoom(rooms) - {room}
  {
  }

  /** A connection of the room on which the user is still filed, if there is one. */
  ghost predicate StaleIs(users: map<RoomId, map<Conn, User>>, room: RoomId, user: User, stale: Option<Conn>) {
    && room in users
    && match stale
       case None => forall c :: c in users[room] ==> users[room][c] != user
       case Some(c) => c in users[room] && users[room][c] == user
  }

  class GameRoomRegistry {
    const directory: RoomDirectory
    const grace: int
    var sessions: map<RoomId, Seats>
    var connections: map<RoomId, set<Conn>>
    var participants: map<RoomId, People>
    var usernames: map<RoomId, set<User>>
    var codes: map<RoomId, Code>
    var closing: map<RoomId, int>

    ghost function AsRegistry(): Registry
      reads this
    {
      Registry(directory.server, sessions, connections, UsersByRoom(participants), usernames, codes, closing)
    }

    ghost function State(): System
      reads this, directory
    {
      System(AsRegistry(), directory.Content())
    }

    ghost function Present(): set<Participant>
      reads this
    {
      set r, c | r in participants && c in participants[r] :: participants[r][c]
    }

    /** Everyone present is filed under the own connection and knows the room. */
    ghost predicate AtHome()
      reads this, Present()
    {
      forall r, c :: r in participants && c in participants[r] ==>
        participants[r][c].conn == c && participants[r][c].room == Some(r)
    }

    /** No other room has this participant. */
    ghost predicate OnlyHere(p: Participant, room: RoomId)
      reads this
    {
      forall r, c :: r in participants && c in participants[r] && r != room ==> participants[r][c] != p
    }

    ghost predicate Valid()
      reads this, directory, Present()
    {
      Agree(State()) && AtHome()
    }

    constructor (directory: RoomDirectory, graceSeconds: int)
      requires directory.Content().Integrity() && forall r :: !directory.Content().Owned(r, directory.server)
      ensures Valid() && this.directory == directory && grace == graceSeconds * 1000
      ensures State() == System(FreshRegistry(directory.server), directory.Content())
    {
      this.directory := directory;
      grace := graceSeconds * 1000;
      sessions, connections, participants, usernames, codes, closing := map[], map[], map[], map[], map[], map[];
      new;
      assert UsersByRoom(participants) == map[];
      FreshAgrees(directory.server, directory.Content());
    }

    // ----- building blocks ------------------------------------------------------------------------

    method BuildLocalRoom(room: RoomId)
      modifies this`sessions, this`connections, this`participants, this`usernames
      ensures AsRegistry() == BuildRoom(old(AsRegistry()), room)
      ensures participants == old(participants)[room := map[]]
    {
      connections := connections[room := {}];
      participants := participants[room := map[]];
      usernames := usernames[room := {}];
      sessions := sessions[room := NO_SEATS];
      RoomPut(old(participants), room, map[]);
      assert UsersIn(map[]) == map[];
    }

    /** Seats a participant, or lets it watch, and files it under the room. */
    method PlaceParticipant(room: RoomId, p: Participant) returns (role: Role)
      requires room in sessions && room in connections && room in participants && room in usernames
      requires AtHome() && OnlyHere(p, room)
      modifies this`sessions, this`connections, this`participants, this`usernames, p
      ensures AtHome()
      ensures AsRegistry() == Place(old(AsRegistry()), room, p.conn, p.user)
      ensures participants == old(participants)[room := old(participants)[room][p.conn := p]]
      ensures room in sessions && room in connections && room in participants && room in usernames
      ensures p.room == Some(room) && p.role == Some(role)
      ensures sessions[room].roles == Assigned(old(sessions)[room].roles, p.conn) && HasItsRole(p, room)
      ensures role == sessions[room].roles[p.conn]
    {
      var seats := sessions[room];
      var roles := Assigned(seats.roles, p.conn);
      role := roles[p.conn];
      sessions := sessions[room := seats.(roles := roles, names := seats.names[p.conn := p.user])];
      connections := connections[room := connections[room] + {p.conn}];
      participants := participants[room := participants[room][p.conn := p]];
      usernames := usernames[room := usernames[room] + {p.user}];
      RoomPut(old(participants), room, old(participants)[room][p.conn := p]);
      UsersPut(old(participants)[room], p);
      p.role := Some(role);
      p.room := Some(room);
    }

    /** Sends everyone still present back to the lobby. */
    method ResetAll(people: People)
      modifies PeopleOf(people)
      ensures forall c :: c in people ==> people[c].room == None && people[c].role == None
    {
      var todo := PeopleOf(people);
      while todo != {}
        invariant todo <= PeopleOf(people)
        invariant forall p :: p in PeopleOf(people) && p !in todo ==> p.room == None && p.role == None
        decreases todo
      {
        var p :| p in todo;
        p.room := None;
        p.role := None;
        todo := todo - {p};
      }
    }

    /** Takes the room out of every map. */
    method Forget(room: RoomId) returns (names: set<User>, code: Option<Code>)
      modifies this
      ensures AsRegistry() == Forgotten(old(AsRegistry()), room) && participants == old(participants) - {room}
      ensures names == (if room in old(usernames) then old(usernames)[room] else {})
      ensures code == CodeOf(old(AsRegistry()), room)
    {
      RoomTake(participants, room);
      participants := participants - {room};
      names := if room in usernames then usernames[room] else {};
      usernames := usernames - {room};
      code := if room in codes then Some(codes[room]) else None;
      codes := codes - {room};
      connections := connections - {room};
      sessions := sessions - {room};
      closing := closing - {room};
    }

    /** `_close_room`: everyone still present goes back to the lobby, nothing of the room stays. */
    method CloseRoomNow(room: RoomId)
      requires AtHome() && room in participants
      modifies this, directory, PeopleOf(participants[room])
      ensures AtHome() && State() == CloseRoom(old(State()), room)
      ensures forall p :: p in old(PeopleOf(participants[room])) ==> p.room == None && p.role == None
      ensures participants == old(participants) - {room}
    {
      hide Forgotten, UsersByRoom, Closed;
      assert forall p :: p in PeopleOf(participants[room]) ==> p.room == Some(room);
      assert forall r, c :: r in participants && r != room && c in participants[r] ==>
        participants[r][c].room == Some(r);
      ResetAll(participants[room]);
      var names, code := Forget(room);
      directory.CloseRoom(room, names, code);
    }

    /** `_reserve_new_room`: tries the draws in turn. */
    method ReserveNewRoom(names: seq<User>, draws: seq<Draw>) returns (search: Search)
      modifies directory
      ensures search == FindRoom(old(directory.Content()), names, draws, directory.server)
      ensures search.Found? ==>
        directory.Content() == Reserve(old(directory.Content()), search.draw.room, names, search.draw.code,
          directory.server).0
      ensures !search.Found? ==> directory.Content() == old(directory.Content())
    {
      for n := 0 to |draws|
        invariant directory.Content() == old(directory.Content())
        invariant FindRoom(old(directory.Content()), names, draws[n..], directory.server) ==
          FindRoom(old(directory.Content()), names, draws, directory.server)
      {
        assert draws[n..][1..] == draws[n + 1..];
        var status := directory.ReserveNewRoom(draws[n].room, names, draws[n].code);
        match status {
          case Reserved => return Found(draws[n]);
          case UsernameConflict => return NameTaken;
          case IdentifierConflict =>
        }
      }
      return Exhausted;
    }

    /** A room that cannot be built is taken back, and its reservation undone. */
    method BuildAndRollBack(draw: Draw, names: seq<User>)
      requires AtHome() && draw.room !in participants
      modifies this, directory
      ensures AtHome() && participants == old(participants)
      ensures AsRegistry() == Forgotten(BuildRoom(old(AsRegistry()), draw.room), draw.room)
      ensures directory.Content() == Closed(old(directory.Content()), draw.room, (set n | n in names), draw.code)
    {
      hide Forgotten, BuildRoom, UsersByRoom, Closed;
      ghost var before := participants;
      BuildLocalRoom(draw.room);
      var _, _ := Forget(draw.room);
      assert before[draw.room := map[]] - {draw.room} == before;
      var taken := set n | n in names;
      directory.CloseRoom(draw.room, taken, draw.code);
    }

    /** Whoever is present anywhere has a claim in the directory. */
    lemma PresentAreClaimed(before: Directory)
      requires Agree(System(AsRegistry(), before))
      ensures forall r, c :: r in participants && c in participants[r] ==> before.SeatedIn(participants[r][c].user, r)
    {
      forall r, c | r in participants && c in participants[r] ensures before.SeatedIn(participants[r][c].user, r) {
        assert ShapeOf(AsRegistry(), r);
        assert AsRegistry().participants[r][c] == participants[r][c].user;
      }
    }

    /** Nobody whose name the directory just granted is present in any room. */
    lemma GrantedAreAbsent(before: Directory, players: seq<Participant>, draw: Draw)
      requires Agree(System(AsRegistry(), before))
      requires Reserve(before, draw.room, NamesOf(Pairs(players)), draw.code, directory.server).1 == Reserved
      ensures forall p :: p in players ==> OnlyHere(p, draw.room)
    {
      var names := NamesOf(Pairs(players));
      forall p | p in players ensures p.user in names {
        var n :| 0 <= n < |players| && players[n] == p;
        assert names[n] == p.user;
      }
      PresentAreClaimed(before);
    }

    /** The participant was told the role that the session gave its connection. */
    predicate HasItsRole(p: Participant, room: RoomId)
      requires room in sessions
      reads this, p
    {
      p.conn in sessions[room].roles && p.role == Some(sessions[room].roles[p.conn])
    }

    /** Seats the players of a new room in order. */
    method PlaceEach(room: RoomId, players: seq<Participant>)
      requires room in sessions && room in connections && room in participants && room in usernames
      requires AtHome() && forall p :: p in players ==> OnlyHere(p, room)
      modifies this`sessions, this`connections, this`participants, this`usernames, set p | p in players
      ensures AsRegistry() == PlaceAll(old(AsRegistry()), room, Pairs(players)) && AtHome()
      ensures room in sessions && forall p :: p in players ==> p.room == Some(room) && HasItsRole(p, room)
    {
      hide AtHome, Place, PlaceAll, UsersByRoom, UsersIn;
      ghost var pairs := Pairs(players);
      for n := 0 to |players|
        invariant room in sessions && room in connections && room in participants && room in usernames
        invariant PlaceAll(AsRegistry(), room, pairs[n..]) == PlaceAll(old(AsRegistry()), room, pairs)
        invariant AtHome()
        invariant forall p :: p in players ==> OnlyHere(p, room)
        invariant forall m :: 0 <= m < n ==> players[m].room == Some(room) && HasItsRole(players[m], room)
      {
        assert pairs[n..][1..] == pairs[n + 1..] && pairs[n..][0] == (players[n].conn, players[n].user);
        ghost var roles := sessions[room].roles;
        PlaceAllStep(AsRegistry(), room, pairs[n..]);
        var role := PlaceParticipant(room, players[n]);
        assert forall c :: c in roles ==> c in sessions[room].roles && sessions[room].roles[c] == roles[c];
      }
      assert pairs[|players|..] == [];
      assert PlaceAll(AsRegistry(), room, []) == AsRegistry() by { NobodyPlaced(AsRegistry(), room); }
    }
  
    // ----- the operations -------------------------------------------------------------------------

    /** Opens a room for one player or two; all or nothing, also when building it fails. */
    method OpenFor(players: seq<Participant>, draws: seq<Draw>, buildFails: bool) returns (search: Search)
      requires Valid() && players != []
      modifies this, directory, set p | p in players
      ensures Valid()
      ensures State() == OpenRoom(old(State()), Pairs(players), draws, buildFails)
      ensures search == FindRoom(old(directory.Content()), NamesOf(Pairs(players)), draws, directory.server)
      ensures search.Found? && !buildFails ==>
        search.draw.room in sessions &&
        forall p :: p in players ==> p.room == Some(search.draw.room) && HasItsRole(p, search.draw.room)
    {
      hide Agree, Closed, Reserve, BuildRoom, PlaceAll, Forgotten, UsersByRoom, FindRoom;
      ghost var before := State();
      OpenRoomKeepsAgreement(before, Pairs(players), draws, buildFails);
      var names := NamesOf(Pairs(players));
      search := ReserveNewRoom(names, draws);
      if !search.Found? {
        return;
      }
      FoundIsGranted(before.dir, names, draws, directory.server);
      GrantedIsNew(before, search.draw.room, names, search.draw.code);
      if buildFails {
        FreshRoom(before);
        BuildAndRollBack(search.draw, names);
        return;
      }
      GrantedAreAbsent(before.dir, players, search.draw);
      BuildAndPlace(search.draw, players);
    }

    method BuildAndPlace(draw: Draw, players: seq<Participant>)
      requires AtHome() && forall p :: p in players ==> OnlyHere(p, draw.room)
      modifies this, set p | p in players
      ensures AtHome()
      ensures AsRegistry() == PlaceAll(Built(old(State()), draw.room, draw.code), draw.room, Pairs(players))
      ensures draw.room in sessions
      ensures forall p :: p in players ==> p.room == Some(draw.room) && HasItsRole(p, draw.room)
    {
      BuildLocalRoom(draw.room);
      if draw.code.Some? {
        codes := codes[draw.room := draw.code.value];
      }
      PlaceEach(draw.room, players);
    }

    /** `create_private_room`: a room with a join code for one. */
    method CreatePrivateRoom(p: Participant, draws: seq<Draw>, buildFails: bool) returns (search: Search)
      requires Valid() && forall d :: d in draws ==> d.code.Some?
      modifies this, directory, p
      ensures Valid() && State() == OpenRoom(old(State()), [(p.conn, p.user)], draws, buildFails)
      ensures search.Found? && !buildFails ==>
        && p.room == Some(search.draw.room) && p.role == Some(WhiteSeat)
        && p.room.value in sessions && sessions[p.room.value].roles == map[p.conn := WhiteSeat]
    {
      hide Agree, AtHome, Opened;
      if FindRoom(directory.Content(), [p.user], draws, directory.server).Found? {
        var draw := FindRoom(directory.Content(), [p.user], draws, directory.server).draw;
        SeatsOfNewRoom(State(), draw.room, [(p.conn, p.user)], draw.code);
      }
      assert NamesOf([(p.conn, p.user)]) == [p.user];
      assert Pairs([p]) == [(p.conn, p.user)];
      search := OpenFor([p], draws, buildFails);
    }

    /** `create_matched_room`: white and black, in this order, or neither. */
    method CreateMatchedRoom(white: Participant, black: Participant, draws: seq<Draw>, buildFails: bool)
      returns (search: Search)
      requires Valid() && forall d :: d in draws ==> d.code.None?
      modifies this, directory, white, black
      ensures Valid()
      ensures State() == OpenRoom(old(State()), [(white.conn, white.user), (black.conn, black.user)], draws, buildFails)
      ensures search.Found? && !buildFails ==>
        white.room == Some(search.draw.room) && black.room == Some(search.draw.room)
      ensures search.Found? && !buildFails && white.conn != black.conn ==>
        && white.role == Some(WhiteSeat) && black.role == Some(BlackSeat)
        && white.room.value in sessions
        && sessions[white.room.value].roles == map[white.conn := WhiteSeat, black.conn := BlackSeat]
    {
      hide Agree, AtHome, Opened;
      var names := [white.user, black.user];
      if FindRoom(directory.Content(), names, draws, directory.server).Found? {
        var draw := FindRoom(directory.Content(), names, draws, directory.server).draw;
        SeatsOfNewRoom(State(), draw.room, [(white.conn, white.user), (black.conn, black.user)], draw.code);
      }
      assert NamesOf([(white.conn, white.user), (black.conn, black.user)]) == names;
      assert Pairs([white, black]) == [(white.conn, white.user), (black.conn, black.user)];
      search := OpenFor([white, black], draws, buildFails);
    }

    /** `join_private_room`: a claim on another server's room is let go again. */
    method JoinPrivateRoom(p: Participant, code: Code) returns (status: JoinStatus)
      requires Valid()
      modifies this, directory, p
      ensures Valid() && State() == JoinRoom(old(State()), p.conn, p.user, code)
      ensures status.Joined? ==> p.room == Some(status.room) && status.room in sessions && HasItsRole(p, status.room)
      ensures status.Joined? ==>
        && status.room in old(sessions)
        && sessions[status.room].roles == Assigned(old(sessions)[status.room].roles, p.conn)
        && (|old(sessions)[status.room].roles| == 1 && p.conn !in old(sessions)[status.room].roles ==>
          p.role == Some(BlackSeat))
    {
      hide Agree, Place, UsersByRoom, Released;
      ghost var before := State();
      JoinKeepsAgreement(before, p.conn, p.user, code);
      PresentAreClaimed(before.dir);
      SessionsAreRooms();
      status := directory.ReserveJoin(code, p.user);
      if !status.Joined? {
        return;
      }
      if status.room !in sessions {
        directory.ReleaseUsername(p.user);
        return NotFound;
      }
      var role := PlaceParticipant(status.room, p);
    }

    lemma SessionsAreRooms()
      requires Agree(State())
      ensures connections.Keys == sessions.Keys && participants.Keys == sessions.Keys && usernames.Keys == sessions.Keys
      ensures forall r :: r in sessions ==> UsersIn(participants[r]).Keys <= connections[r]
    {
      forall r | r in sessions ensures UsersIn(participants[r]).Keys <= connections[r] {
        assert ShapeOf(AsRegistry(), r);
      }
    }

    /** `remove_participant`: the last one out closes the room. */
    method RemoveParticipant(p: Participant) returns (closed: bool)
      requires Valid()
      modifies this, directory, Present()
      ensures Valid() && State() == Leave(old(State()), p.conn, old(p.room))
      ensures closed <==>
        && old(p.room).Some? && old(p.room).value in old(sessions)
        && old(connections)[old(p.room).value] <= {p.conn}
    {
      hide Agree, CloseRoom, UsersByRoom, AwayAfter;
      LeaveKeepsAgreement(State(), p.conn, p.room);
      SessionsAreRooms();
      if p.room.None? || p.room.value !in connections {
        return false;
      }
      var room := p.room.value;
      RoomPut(participants, room, participants[room] - {p.conn});
      UsersTake(participants[room], p.conn);
      connections := connections[room := connections[room] - {p.conn}];
      participants := participants[room := participants[room] - {p.conn}];
      if connections[room] != {} {
        sessions := sessions[room := AwayAfter(sessions[room], p.conn)];
        return false;
      }
      CloseRoomNow(room);
      closed := true;
    }

    /** `_tick_room`, after the session's own tick has left it as `after`. */
    method TickOneRoom(room: RoomId, after: Seats, dt: int)
      requires Valid() && (room in sessions ==> Ticked(sessions[room], after))
      modifies this, directory, Present()
      ensures Valid() && State() == TickRoom(old(State()), room, after, dt, grace)
    {
      hide Agree, CloseRoom, UsersByRoom;
      TickKeepsAgreement(State(), room, after, dt, grace);
      SessionsAreRooms();
      if room !in sessions {
        return;
      }
      sessions := sessions[room := after];
      if !after.over {
        return;
      }
      var remaining := (if room in closing then closing[room] else grace) - dt;
      if remaining <= 0 {
        CloseRoomNow(room);
      } else {
        closing := closing[room := remaining];
      }
    }

    /** A connection of the room that the user was logged in on. */
    method ConnectionOf(room: RoomId, user: User) returns (conn: Option<Conn>)
      requires room in sessions
      ensures conn.Some? ==> conn.value in sessions[room].names && sessions[room].names[conn.value] == user
      ensures conn.None? ==> forall c :: c in sessions[room].names ==> sessions[room].names[c] != user
    {
      if c :| c in sessions[room].names && sessions[room].names[c] == user {
        return Some(c);
      }
      return None;
    }

    /** Files the participant in the place of a stale connection of the same user. */
    method ReplaceParticipant(room: RoomId, p: Participant, seat: Role) returns (ghost stale: Option<Conn>)
      requires room in participants && AtHome() && OnlyHere(p, room)
      modifies this`participants, p
      ensures AtHome() && p.room == Some(room) && p.role == Some(seat)
      ensures StaleIs(old(UsersByRoom(participants)), room, p.user, stale)
      ensures var was := UsersIn(old(participants)[room]);
        UsersByRoom(participants) ==
          UsersByRoom(old(participants))[room := (if stale.Some? then was - {stale.value} else was)[p.conn := p.user]]
    {
      var people: People := participants[room];
      stale := None;
      if c :| c in people && people[c].user == p.user {
        stale := Some(c);
        UsersTake(people, c);
        people := people - {c};
      }
      UsersPut(people, p);
      RoomPut(participants, room, people[p.conn := p]);
      participants := participants[room := people[p.conn := p]];
      p.role := Some(seat);
      p.room := Some(room);
    }

    /** Someone who may come back is present in no other room. */
    lemma ReturningIsOnlyHere(room: RoomId, from: Conn, p: Participant)
      requires Agree(State()) && MayReturn(State(), room, from, p.user)
      ensures OnlyHere(p, room) && room in connections && room in participants
    {
      PresentAreClaimed(State().dir);
      assert ShapeOf(AsRegistry(), room);
      assert State().dir.SeatedIn(p.user, room);
    }

    /** Moves the seat of `from` to the participant's new connection. */
    method TakeSeatBack(room: RoomId, from: Conn, p: Participant) returns (ghost stale: Option<Conn>)
      requires Valid() && MayReturn(State(), room, from, p.user) && Newcomer(State(), room, from, p.conn)
      modifies this`sessions, this`connections, this`participants, p
      ensures Valid() && State() == Return(old(State()), room, from, p.conn, p.user, stale)
      ensures p.room == Some(room) && p.role == Some(old(sessions)[room].roles[from])
      ensures StaleIs(old(UsersByRoom(participants)), room, p.user, stale)
    {
      hide Agree, UsersByRoom, UsersIn, Reseated;
      ghost var before := State();
      ReturningIsOnlyHere(room, from, p);
      var seats := sessions[room];
      var seat := seats.roles[from];
      sessions := sessions[room := SeatBack(seats, from, p.conn, p.user)];
      connections := connections[room := connections[room] + {p.conn}];
      stale := ReplaceParticipant(room, p, seat);
      ReturnKeepsAgreement(before, room, from, p.conn, p.user, stale);
    }

    /** In this room the user has no seat to come back to on some connection it was known by. */
    ghost predicate NoWayBack(s: System, r: RoomId, user: User) {
      r in s.reg.sessions ==> NoSeatBack(s.reg.sessions[r], user)
    }

    /** `try_reconnect`: the first room whose session gives the user a seat back. It is called once
        for a connection, right after its login. */
    method TryReconnect(p: Participant) returns (room: Option<RoomId>, ghost from: Conn, ghost stale: Option<Conn>)
      requires Valid() && forall r :: r in sessions ==> p.conn !in sessions[r].roles
      modifies this`sessions, this`connections, this`participants, p
      ensures Valid()
      ensures room.None? ==> State() == old(State()) && p.room == old(p.room)
      ensures room.None? ==> forall r :: NoWayBack(old(State()), r, p.user)
      ensures room.Some? ==>
        && MayReturn(old(State()), room.value, from, p.user)
        && State() == Return(old(State()), room.value, from, p.conn, p.user, stale)
        && p.room == room && p.role == Some(old(sessions)[room.value].roles[from])
        && StaleIs(old(UsersByRoom(participants)), room.value, p.user, stale)
    {
      hide Agree, Return, UsersByRoom;
      from, stale := 0, None;
      ghost var s := State();
      var todo := sessions.Keys;
      while true
        invariant Valid() && State() == s && p.room == old(p.room) && unchanged(this)
        invariant forall r :: r !in todo ==> NoWayBack(s, r, p.user)
        decreases todo
      {
        if r: RoomId :| r in todo && r in sessions {
          todo := todo - {r};
          var found := ConnectionOf(r, p.user);
          if found.Some? && MayTakeBack(sessions[r], found.value, p.user) {
            from := found.value;
            stale := TakeSeatBack(r, found.value, p);
            return Some(r), from, stale;
          }
          assert NoWayBack(s, r, p.user) by {
            if found.Some? { assert !MayTakeBack(sessions[r], found.value, p.user); }
          }
        } else {
          break;
        }
      }
      assert forall r :: r !in sessions ==> NoWayBack(s, r, p.user);
      room := None;
    }

    lemma FreshRoom(s: System)
      requires Agree(s)
      ensures s.reg.participants.Keys == s.reg.sessions.Keys
    {
    }
  }

  function Pairs(players: seq<Participant>): seq<(Conn, User)> {
    seq(|players|, n requires 0 <= n < |players| => (players[n].conn, players[n].user))
  }
}
