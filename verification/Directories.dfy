/** `server/room_directory.py`: the shared room directory and its atomic scripts. */
module Directories {
  import opened Pieces
  import opened Sessions

  type RoomId = int
  type Code = int
  type ServerId = int

  /** Who owns each room, where each user is seated, and where each join code leads. */
  datatype Directory = Directory(rooms: map<RoomId, ServerId>, users: map<User, RoomId>, codes: map<Code, RoomId>) {
    /** No claim leads to a room that does not exist. */
    ghost predicate Integrity() {
      && (forall u :: u in users ==> users[u] in rooms)
      && (forall c :: c in codes ==> codes[c] in rooms)
    }

    predicate Owned(room: RoomId, server: ServerId) {
      room in rooms && rooms[room] == server
    }

    predicate SeatedIn(user: User, room: RoomId) {
      user in users && users[user] == room
    }

    predicate LeadsTo(code: Code, room: RoomId) {
      code in codes && codes[code] == room
    }
  }

  datatype Status = Reserved | IdentifierConflict | UsernameConflict

  datatype JoinStatus = Joined(room: RoomId) | NotFound | AlreadyInRoom

  function Claimed(users: map<User, RoomId>, names: seq<User>, room: RoomId): (claimed: map<User, RoomId>)
    ensures forall u :: u in claimed <==> u in users || u in names
    ensures forall u :: u in claimed ==> claimed[u] == if u in names then room else users[u]
  {
    map u | u in users.Keys + (set n | n in names) :: if u in names then room else users[u]
  }

  /** What `_RESERVE_NEW_ROOM_SCRIPT` does: all of it or none. */
  function Reserve(d: Directory, room: RoomId, names: seq<User>, code: Option<Code>, server: ServerId)
    : (Directory, Status)
  {
    if room in d.rooms || (code.Some? && code.value in d.codes) then (d, IdentifierConflict)
    else if exists n :: 0 <= n < |names| && names[n] in d.users then (d, UsernameConflict)
    else
      (Directory(d.rooms[room := server], Claimed(d.users, names, room),
                 if code.Some? then d.codes[code.value := room] else d.codes), Reserved)
  }

  /** What `_RESERVE_JOIN_SCRIPT` does. */
  function Join(d: Directory, code: Code, user: User): (Directory, JoinStatus) {
    if code !in d.codes || d.codes[code] !in d.rooms then (d, NotFound)
    else if user in d.users then (d, AlreadyInRoom)
    else (d.(users := d.users[user := d.codes[code]]), Joined(d.codes[code]))
  }

  function Closed(d: Directory, room: RoomId, names: set<User>, code: Option<Code>): Directory {
    Directory(d.rooms - {room}, d.users - names, if code.Some? then d.codes - {code.value} else d.codes)
  }

  function Released(d: Directory, user: User): Directory {
    d.(users := d.users - {user})
  }

  /** The key-value store, changed key by key. */
  class RoomDirectory {
    const server: ServerId
    var rooms: map<RoomId, ServerId>
    var users: map<User, RoomId>
    var codes: map<Code, RoomId>

    constructor (server: ServerId)
      ensures this.server == server && Content() == Directory(map[], map[], map[])
    {
      this.server := server;
      rooms, users, codes := map[], map[], map[];
    }

    function Content(): Directory
      reads this
    {
      Directory(rooms, users, codes)
    }

    method ReserveNewRoom(room: RoomId, names: seq<User>, code: Option<Code>) returns (status: Status)
      modifies this
      ensures (Content(), status) == Reserve(old(Content()), room, names, code, server)
    {
      if room in rooms {
        return IdentifierConflict;
      }
      if code.Some? && code.value in codes {
        return IdentifierConflict;
      }
      for n := 0 to |names|
        invariant forall m :: 0 <= m < n ==> names[m] !in users
      {
        if names[n] in users {
          return UsernameConflict;
        }
      }
      rooms := rooms[room := server];
      if code.Some? {
        codes := codes[code.value := room];
      }
      ghost var before := users;
      for n := 0 to |names|
        invariant rooms == old(rooms)[room := server]
        invariant codes == if code.Some? then old(codes)[code.value := room] else old(codes)
        invariant users == Claimed(before, names[..n], room)
      {
        users := users[names[n] := room];
        assert names[..n + 1] == names[..n] + [names[n]];
      }
      assert names[..|names|] == names;
      status := Reserved;
    }

    method ReserveJoin(code: Code, user: User) returns (status: JoinStatus)
      modifies this
      ensures (Content(), status) == Join(old(Content()), code, user)
    {
      if code !in codes {
        return NotFound;
      }
      var room := codes[code];
      if room !in rooms {
        return NotFound;
      }
      if user in users {
        return AlreadyInRoom;
      }
      users := users[user := room];
      status := Joined(room);
    }

    method CloseRoom(room: RoomId, names: set<User>, code: Option<Code>)
      modifies this
      ensures Content() == Closed(old(Content()), room, names, code)
    {
      rooms := rooms - {room};
      users := users - names;
      if code.Some? {
        codes := codes - {code.value};
      }
    }

    method ReleaseUsername(user: User)
      modifies this
      ensures Content() == Released(old(Content()), user)
    {
      users := users - {user};
    }
  }

  // ----- servers side by side ---------------------------------------------------------------------------

  /** Nothing about the rooms of this server has changed. */
  ghost predicate Untouched(server: ServerId, before: Directory, after: Directory) {
    && (forall r :: before.Owned(r, server) <==> after.Owned(r, server))
    && (forall r, u :: before.Owned(r, server) ==> (before.SeatedIn(u, r) <==> after.SeatedIn(u, r)))
    && (forall r, c :: before.Owned(r, server) ==> (before.LeadsTo(c, r) <==> after.LeadsTo(c, r)))
  }
}
