/** What the rooms promise their players: who finds a room, who may come back, when it closes. */
module RoomLaws {
  import opened Pieces
  import opened Sessions
  import opened Countdowns
  import opened Directories
  import opened Rooms

  // ----- finding a room -----------------------------------------------------------------------------

  ghost predicate InUse(d: Directory, draw: Draw) {
    draw.room in d.rooms || (draw.code.Some? && draw.code.value in d.codes)
  }

  ghost predicate SomeoneSeated(d: Directory, names: seq<User>) {
    exists n :: 0 <= n < |names| && names[n] in d.users
  }

  /** The `n`-th draw is the first whose identifiers are free. */
  ghost predicate FirstFree(d: Directory, draws: seq<Draw>, n: nat) {
    n < |draws| && !InUse(d, draws[n]) && forall m :: 0 <= m < n ==> InUse(d, draws[m])
  }

  /** The first free draw is found if none of the users is seated anywhere. A seated user ends
      the search there: a later draw would not help. With no free draw the search is exhausted. */
  lemma {:induction false} SearchOutcome(d: Directory, names: seq<User>, draws: seq<Draw>, server: ServerId)
    ensures var search := FindRoom(d, names, draws, server);
      && (search.Exhausted? <==> forall n :: 0 <= n < |draws| ==> InUse(d, draws[n]))
      && (search.NameTaken? ==> SomeoneSeated(d, names))
      && (search.Found? ==>
        !SomeoneSeated(d, names) && exists n: nat :: FirstFree(d, draws, n) && search.draw == draws[n])
    decreases |draws|
  {
    if draws != [] {
      if InUse(d, draws[0]) {
        var search, rest := FindRoom(d, names, draws[1..], server), draws[1..];
        assert FindRoom(d, names, draws, server) == search;
        SearchOutcome(d, names, rest, server);
        assert forall n :: 0 <= n < |rest| ==> rest[n] == draws[n + 1];
        assert forall n :: 1 <= n < |draws| ==> draws[n] == rest[n - 1];
        hide InUse, SomeoneSeated;
        if search.Found? {
          var n: nat :| FirstFree(d, rest, n) && search.draw == rest[n];
          forall m | 0 <= m < n + 1 ensures InUse(d, draws[m]) {
            if m > 0 { assert InUse(d, rest[m - 1]); }
          }
          assert FirstFree(d, draws, n + 1) && draws[n + 1] == rest[n];
        }
      } else {
        assert FirstFree(d, draws, 0);
      }
    }
  }

  // ----- leaving and coming back ------------------------------------------------------------------------

  /** A seated player who leaves while others stay may come back to the seat of that connection. */
  lemma LeavingKeepsTheSeat(s: System, room: RoomId, conn: Conn)
    requires SameRooms(s.reg) && room in s.reg.sessions && s.reg.connections[room] - {conn} != {}
    requires conn in s.reg.sessions[room].roles && conn in s.reg.sessions[room].names
    ensures var t, user := Leave(s, conn, Some(room)), s.reg.sessions[room].names[conn];
      && SameRooms(t.reg) && t.dir == s.dir
      && (MayReturn(t, room, conn, user) <==> s.reg.sessions[room].roles[conn] != Spectator)
      && (room in t.reg.sessions && conn !in t.reg.connections[room] && conn !in t.reg.participants[room])
      && t.reg.usernames == s.reg.usernames
  {
    var seats := s.reg.sessions[room];
    if seats.roles[conn].Spectator? {
      assert seats.roles[conn].Seat() == None;
    }
  }

  /** Leaving and coming back on a new connection gives back the very seat: the role and the
      name move to the new connection and nobody is newly away. */
  lemma ComingBackRestores(s: System, room: RoomId, conn: Conn, back: Conn, stale: Option<Conn>)
    requires SameRooms(s.reg) && room in s.reg.sessions && s.reg.connections[room] - {conn} != {}
    requires conn in s.reg.sessions[room].roles && conn in s.reg.sessions[room].names
    requires s.reg.sessions[room].roles[conn] != Spectator && back !in s.reg.sessions[room].roles
    requires s.reg.sessions[room].roles[conn].Seat().value !in s.reg.sessions[room].away
    ensures var t, user := Leave(s, conn, Some(room)), s.reg.sessions[room].names[conn];
      && SameRooms(t.reg) && MayReturn(t, room, conn, user)
      && var u := Return(t, room, conn, back, user, stale);
         && u.dir == s.dir && room in u.reg.sessions && back in u.reg.connections[room]
         && back in u.reg.participants[room] && u.reg.participants[room][back] == user
         && var was, now := s.reg.sessions[room], u.reg.sessions[room];
            && now.roles == Reseated(was.roles, conn, back, was.roles[conn])
            && now.names == Reseated(was.names, conn, back, user)
            && now.away == was.away && now.over == was.over
  {
    LeavingKeepsTheSeat(s, room, conn);
    hide Reseated;
  }

  /** Who comes back is filed on the new connection alone, in the place of the stale one. */
  lemma ReturnReplaces(s: System, room: RoomId, from: Conn, conn: Conn, user: User, stale: Option<Conn>)
    requires SameRooms(s.reg) && MayReturn(s, room, from, user)
    requires forall c :: c in s.reg.participants[room] && s.reg.participants[room][c] == user ==> stale == Some(c)
    ensures var people := Return(s, room, from, conn, user, stale).reg.participants[room];
      && (forall c :: c in people && people[c] == user <==> c == conn)
      && (forall c :: c in s.reg.participants[room] && s.reg.participants[room][c] != user && c != conn ==>
        stale == Some(c) || (c in people && people[c] == s.reg.participants[room][c]))
  {
    hide SeatBack;
  }

  // ----- closing a finished room --------------------------------------------------------------------------

  /** The room ticks while its game is over. */
  function Lingering(s: System, room: RoomId, after: Seats, dts: seq<nat>, grace: int): System
    decreases |dts|
  {
    if dts == [] then s
    else TickRoom(Lingering(s, room, after, dts[..|dts| - 1], grace), room, after, dts[|dts| - 1], grace)
  }

  /** The room of a finished game is closed in exactly the first tick in which the time since
      the end reaches the grace period, however that time is cut. */
  lemma {:induction false} ClosedInTime(s: System, room: RoomId, after: Seats, dts: seq<nat>, grace: int)
    requires room in s.reg.sessions && room !in s.reg.closing && after.over
    ensures var t := Lingering(s, room, after, dts, grace);
      && (room in t.reg.sessions <==> dts == [] || Elapsed(dts) < grace)
      && (room in t.reg.sessions && dts != [] ==> room in t.reg.closing && t.reg.closing[room] == grace - Elapsed(dts))
      && (dts == [] ==> t == s)
    decreases |dts|
  {
    hide CloseRoom;
    if dts != [] {
      var init := dts[..|dts| - 1];
      var before := Lingering(s, room, after, init, grace);
      ClosedInTime(s, room, after, init, grace);
      ElapsedGrows(dts);
      if room in before.reg.sessions {
        var reg := before.reg.(sessions := before.reg.sessions[room := after]);
        ClosingForgets(before.(reg := reg), room);
      }
    }
  }

  lemma ElapsedGrows(dts: seq<nat>)
    requires dts != []
    ensures Elapsed(dts) == Elapsed(dts[..|dts| - 1]) + dts[|dts| - 1]
  {
  }

  lemma ClosingForgets(s: System, room: RoomId)
    ensures room !in CloseRoom(s, room).reg.sessions
  {
  }

  /** While the game goes on a tick closes nothing and starts no grace period. */
  lemma NotClosedEarly(s: System, room: RoomId, after: Seats, dt: int, grace: int)
    requires room in s.reg.sessions && !after.over
    ensures var t := TickRoom(s, room, after, dt, grace);
      t.dir == s.dir && t.reg.sessions.Keys == s.reg.sessions.Keys && t.reg.closing == s.reg.closing
  {
    assert s.reg.sessions[room := after].Keys == s.reg.sessions.Keys;
  }
}
