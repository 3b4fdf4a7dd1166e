/** `server/session.py`: one room's seats, disconnects and rating hand-off. */
module Sessions {
  import opened Pieces
  import opened Simulation
  import opened Games
  import opened Countdowns
  import opened Finality
  import opened Engine
  import opened Arbitration
  import opened Motions

  type Conn = int
  type User = int

  datatype Role = WhiteSeat | BlackSeat | Spectator {
    function Seat(): Option<Color> {
      match this
      case WhiteSeat => Some(White)
      case BlackSeat => Some(Black)
      case Spectator => None
    }
  }

  /** A finished game handed to the rating store. */
  datatype Result = Result(white: User, black: User, winner: Color)

  function RoleFor(index: nat): Role {
    if index == 0 then WhiteSeat else if index == 1 then BlackSeat else Spectator
  }

  predicate Holds(roles: map<Conn, Role>, role: Role) {
    exists c :: c in roles && roles[c] == role
  }

  /** The first to come has white, the second black, and nobody shares a seat. */
  ghost predicate Seated(roles: map<Conn, Role>) {
    && (|roles| >= 1 <==> Holds(roles, WhiteSeat))
    && (|roles| >= 2 <==> Holds(roles, BlackSeat))
    && forall c, d :: c in roles && d in roles && roles[c] == roles[d] && !roles[c].Spectator? ==> c == d
  }

  function Assigned(roles: map<Conn, Role>, conn: Conn): map<Conn, Role> {
    if conn in roles then roles else roles[conn := RoleFor(|roles|)]
  }

  lemma AssignSeated(roles: map<Conn, Role>, conn: Conn)
    requires Seated(roles)
    ensures Seated(Assigned(roles, conn))
  {
    if conn !in roles {
      var after := Assigned(roles, conn);
      assert after[conn] == RoleFor(|roles|) && after.Keys == roles.Keys + {conn};
      assert forall c :: c in roles ==> after[c] == roles[c];
      if Holds(roles, WhiteSeat) {
        var c :| c in roles && roles[c] == WhiteSeat;
        assert after[c] == WhiteSeat;
      }
      if Holds(roles, BlackSeat) {
        var c :| c in roles && roles[c] == BlackSeat;
        assert after[c] == BlackSeat;
      }
    }
  }

  function Reseated<V>(m: map<Conn, V>, from: Conn, to: Conn, v: V): map<Conn, V> {
    (m - {from})[to := v]
  }

  lemma ReseatedHolds(roles: map<Conn, Role>, from: Conn, to: Conn, role: Role)
    requires from in roles && (to == from || to !in roles)
    ensures Holds(Reseated(roles, from, to, roles[from]), role) <==> Holds(roles, role)
  {
    var after := Reseated(roles, from, to, roles[from]);
    if Holds(roles, role) {
      var c :| c in roles && roles[c] == role;
      assert after[if c == from then to else c] == role;
    }
    if Holds(after, role) {
      var c :| c in after && after[c] == role;
      assert roles[if c == to then from else c] == role;
    }
  }

  lemma ReseatedSize(roles: map<Conn, Role>, from: Conn, to: Conn)
    requires from in roles && (to == from || to !in roles)
    ensures |Reseated(roles, from, to, roles[from])| == |roles|
  {
    var after := Reseated(roles, from, to, roles[from]);
    assert after.Keys == roles.Keys - {from} + {to};
    assert |after.Keys| == |roles.Keys|;
  }

  /** A reconnect moves a seat to a connection that has none. */
  lemma ReconnectSeated(roles: map<Conn, Role>, from: Conn, to: Conn)
    requires Seated(roles) && from in roles && (to == from || to !in roles)
    ensures Seated(Reseated(roles, from, to, roles[from]))
  {
    hide Holds;
    ReseatedHolds(roles, from, to, WhiteSeat);
    ReseatedHolds(roles, from, to, BlackSeat);
    ReseatedSize(roles, from, to);
  }

  // ----- what the registry sees ---------------------------------------------------------------------

  /** A session as the registry sees it: seats, logins, who is away, and whether the game is
      over. */
  datatype Seats = Seats(roles: map<Conn, Role>, names: map<Conn, User>, away: set<Color>, over: bool)

  ghost function AwayIn(list: seq<(Color, Countdown)>): set<Color> {
    set color: Color | Of(list, color) != []
  }

  function AwayAfter(seats: Seats, conn: Conn): Seats {
    if conn in seats.roles && seats.roles[conn].Seat().Some?
    then seats.(away := seats.away + {seats.roles[conn].Seat().value}) else seats
  }

  /** May the user come back to the seat that connection `from` had? */
  predicate MayTakeBack(seats: Seats, from: Conn, user: User) {
    && from in seats.names && seats.names[from] == user
    && from in seats.roles && seats.roles[from].Seat().Some? && seats.roles[from].Seat().value in seats.away
  }

  function SeatBack(seats: Seats, from: Conn, conn: Conn, user: User): Seats
    requires MayTakeBack(seats, from, user)
  {
    seats.(roles := Reseated(seats.roles, from, conn, seats.roles[from]),
           names := Reseated(seats.names, from, conn, user),
           away := seats.away - {seats.roles[from].Seat().value})
  }

  /** The user has no seat to come back to on some connection it was known by. */
  ghost predicate NoSeatBack(seats: Seats, user: User) {
    forall c :: MayTakeBack(seats, c, user) ==>
      exists d :: d in seats.names && seats.names[d] == user && !MayTakeBack(seats, d, user)
  }

  /** What a session's own tick does to its seats: nobody moves, nobody newly leaves, and a
      finished game stays finished. */
  predicate Ticked(before: Seats, after: Seats) {
    after.roles == before.roles && after.names == before.names && after.away <= before.away &&
      (before.over ==> after.over)
  }

  lemma BeginIsAway(s: Session, color: Color, ms: int)
    ensures AwayIn(Begin(s, color, ms).countdowns) == AwayIn(s.countdowns) + {color}
    ensures forall c :: |Of(s.countdowns, c)| <= 1 ==> |Of(Begin(s, color, ms).countdowns, c)| <= 1
  {
    var one := [(color, Countdown(ms, Displayed(ms)))];
    assert one[1..] == [];
    forall c: Color
      ensures Of(s.countdowns + one, c) == Of(s.countdowns, c) + if c == color then [one[0].1] else []
    {
      OfPlus(s.countdowns, one, c);
    }
  }

  lemma BackIsPresent(s: Session, color: Color)
    ensures AwayIn(Back(s, color).countdowns) == AwayIn(s.countdowns) - {color}
    ensures forall c :: |Of(s.countdowns, c)| <= 1 ==> |Of(Back(s, color).countdowns, c)| <= 1
  {
    forall c: Color { OfWithout(s.countdowns, color, c); }
  }

  lemma TickIsTicked(cfg: Config, s: Session, dt: nat)
    requires forall c :: |Of(s.countdowns, c)| <= 1
    ensures AwayIn(Countdowns.Tick(cfg, s, dt).countdowns) <= AwayIn(s.countdowns)
    ensures s.game.over ==> Countdowns.Tick(cfg, s, dt).game.over
    ensures forall c :: |Of(Countdowns.Tick(cfg, s, dt).countdowns, c)| <= 1
  {
    hide Wait, Countdowns.Tick;
    var acted := Step(cfg, 0, s, TickBy(dt));
    assert acted == Countdowns.Tick(cfg, s, dt);
    if s.game.over { OverKept(cfg, 0, s, TickBy(dt)); }
    forall c: Color
      ensures |Of(acted.countdowns, c)| <= 1
      ensures Of(s.countdowns, c) == [] ==> Of(acted.countdowns, c) == []
    {
      StepAtMostOne(cfg, 0, s, TickBy(dt), c);
      if Of(s.countdowns, c) == [] { PresentStays(cfg, 0, s, c, TickBy(dt)); }
    }
  }

  lemma {:induction false} WithoutAll(list: seq<(Color, Countdown)>, color: Color)
    requires Of(list, color) == []
    ensures Without(list, color) == list
    decreases |list|
  {
    if list != [] { WithoutAll(list[1..], color); }
  }

  /** The one countdown of a colour stands at `n`: without it the others are left. */
  lemma {:induction false} WithoutAt(list: seq<(Color, Countdown)>, n: nat)
    requires n < |list| && |Of(list, list[n].0)| <= 1
    ensures Of(list, list[n].0) != [] && Without(list, list[n].0) == list[..n] + list[n + 1..]
    decreases |list|
  {
    var color := list[n].0;
    if n == 0 {
      WithoutAll(list[1..], color);
    } else {
      WithoutAt(list[1..], n - 1);
      assert list[1..][n - 1] == list[n] && list[1..][n..] == list[n + 1..];
      assert list[0].0 != color;
      assert [list[0]] + list[1..][..n - 1] == list[..n];
    }
  }

  lemma {:induction false} NoneOf(list: seq<(Color, Countdown)>, color: Color)
    requires forall n :: 0 <= n < |list| ==> list[n].0 != color
    ensures Of(list, color) == []
    decreases |list|
  {
    if list != [] { NoneOf(list[1..], color); }
  }

  // ----- what a tick tells ----------------------------------------------------------------------------

  lemma {:induction false} BatchTellsMore(cfg: Config, g: Game, arrivals: seq<Arrival>)
    ensures g.log <= ApplyArrivals(cfg, g, arrivals).log
    ensures !g.over && ApplyArrivals(cfg, g, arrivals).over ==> TellsEnding(g.log, ApplyArrivals(cfg, g, arrivals).log)
    decreases |arrivals|
  {
    if arrivals != [] {
      var h := ApplyOne(cfg, g, arrivals[0]);
      assert g.log <= h.log;
      if arrivals[0].KingCaptured() {
        assert h.log[|h.log| - 1].Ended?;
      } else {
        BatchTellsMore(cfg, h, arrivals[1..]);
      }
    }
  }

  lemma {:induction false} JumpsTellMore(cfg: Config, g: Game, ended: seq<JumpEnd>)
    ensures g.log <= EndJumps(cfg, g, ended).log && EndJumps(cfg, g, ended).over == g.over
    decreases |ended|
  {
    if ended != [] {
      var j := ended[0];
      var rested := g.(arb := g.arb.SetRest(j.piece.id, cfg.shortRest));
      JumpsTellMore(cfg, rested.PublishUnlessOver(JumpCompleted(j.piece, j.cell, g.arb.clock)), ended[1..]);
    }
  }

  /** The log only grows, and a wait that ends the game tells of it. */
  lemma WaitTellsMore(cfg: Config, g: Game, ms: nat)
    ensures g.log <= Wait(cfg, g, ms).log
    ensures !g.over && Wait(cfg, g, ms).over ==> TellsEnding(g.log, Wait(cfg, g, ms).log)
  {
    hide Advance, EndJumps, ApplyArrivals;
    var adv := Advance(g.arb, ms);
    JumpsTellMore(cfg, Games.Moved(g, ms), adv.ended);
    BatchTellsMore(cfg, EndJumps(cfg, Games.Moved(g, ms), adv.ended), adv.arrivals);
  }

  /** The winner of the first ending in these events. */
  function FirstEnding(events: seq<Event>): Option<Color>
    decreases |events|
  {
    if events == [] then None
    else if events[0].Ended? then Some(events[0].winner)
    else FirstEnding(events[1..])
  }

  lemma {:induction false} EndingIsFound(events: seq<Event>, n: nat)
    requires n < |events| && events[n].Ended?
    ensures FirstEnding(events).Some?
    decreases |events|
  {
    if n > 0 {
      EndingIsFound(events[1..], n - 1);
    }
  }

  /** A tick that ends the game publishes an ending. */
  lemma TickTellsEnding(cfg: Config, s: Session, dt: nat)
    ensures s.game.log <= Countdowns.Tick(cfg, s, dt).game.log
    ensures !s.game.over && Countdowns.Tick(cfg, s, dt).game.over ==>
      FirstEnding(Countdowns.Tick(cfg, s, dt).game.log[|s.game.log|..]).Some?
  {
    hide Wait;
    var game, after := Wait(cfg, s.game, dt), Countdowns.Tick(cfg, s, dt).game;
    WaitTellsMore(cfg, s.game, dt);
    if !game.over {
      TickExactly(cfg, s, dt);
      hide Countdowns.Tick;
      if after.over { assert after.log[|after.log| - 1].Ended?; }
    }
    if !s.game.over && after.over {
      var n :| |s.game.log| <= n < |after.log| && after.log[n].Ended?;
      EndingIsFound(after.log[|s.game.log|..], n - |s.game.log|);
    }
  }

  lemma TickUnfolds(cfg: Config, s: Session, dt: nat)
    ensures var game := Wait(cfg, s.game, dt);
      Countdowns.Tick(cfg, s, dt) ==
        if game.over then s.(game := game, countdowns := [])
        else CountDown(s.(game := game, countdowns := []), s.countdowns, dt)
  {
  }

  class GameSession {
    const engine: GameEngine
    const countdownMs: int
    var roles: map<Conn, Role>
    var names: map<Conn, User>
    var countdowns: seq<(Color, Countdown)>
    var notices: seq<Notice>
    var ratingsUpdated: bool
    var results: seq<Result>

    ghost predicate Shape()
      reads this, engine, engine.arbiter, engine.arbiter.board, engine.arbiter.motions
    {
      engine.Valid() && (results != [] ==> ratingsUpdated) && |results| <= 1
    }

    /** Besides, no colour has two countdowns. */
    ghost predicate Valid()
      reads this, engine, engine.arbiter, engine.arbiter.board, engine.arbiter.motions
    {
      Shape() && forall color :: |Of(countdowns, color)| <= 1
    }

    ghost function Seating(): Seats
      reads this, engine
    {
      Seats(roles, names, AwayIn(countdowns), engine.gameOver)
    }

    ghost function State(): Session
      reads this, engine, engine.arbiter, engine.arbiter.board, engine.arbiter.motions
    {
      Session(engine.State(), countdowns, notices)
    }

    constructor (engine: GameEngine, countdownSeconds: int)
      requires engine.Valid()
      ensures Valid() && Seated(roles) && results == [] && this.engine == engine
      ensures State() == Session(engine.State(), [], []) && countdownMs == countdownSeconds * 1000
      ensures Seating() == Seats(map[], map[], {}, engine.gameOver)
    {
      this.engine := engine;
      countdownMs := countdownSeconds * 1000;
      roles := map[];
      names := map[];
      countdowns := [];
      notices := [];
      ratingsUpdated := false;
      results := [];
    }

    method AssignRole(conn: Conn) returns (role: Role)
      modifies this`roles
      ensures roles == Assigned(old(roles), conn) && conn in roles && role == roles[conn]
      ensures Seating() == old(Seating()).(roles := Assigned(old(roles), conn))
      ensures old(Seated(roles)) ==> Seated(roles)
    {
      if Seated(roles) {
        AssignSeated(roles, conn);
      }
      if conn !in roles {
        roles := roles[conn := RoleFor(|roles|)];
      }
      role := roles[conn];
    }

    method RecordLogin(conn: Conn, user: User)
      modifies this`names
      ensures names == old(names)[conn := user]
      ensures Seating() == old(Seating()).(names := old(names)[conn := user])
    {
      names := names[conn := user];
    }

    method FindCountdown(color: Color) returns (found: Option<nat>)
      requires |Of(countdowns, color)| <= 1
      ensures found.None? <==> Of(countdowns, color) == []
      ensures found.Some? ==>
        && found.value < |countdowns| && countdowns[found.value].0 == color
        && countdowns[..found.value] + countdowns[found.value + 1..] == Without(countdowns, color)
    {
      for n := 0 to |countdowns|
        invariant forall m :: 0 <= m < n ==> countdowns[m].0 != color
      {
        if countdowns[n].0 == color {
          WithoutAt(countdowns, n);
          return Some(n);
        }
      }
      NoneOf(countdowns, color);
      return None;
    }

    /** A player who leaves starts a countdown; a spectator does not, nor one already away. */
    method BeginDisconnectCountdown(conn: Conn)
      requires Valid()
      modifies this`countdowns, this`notices
      ensures Valid()
      ensures State() ==
        if conn in roles && roles[conn].Seat().Some? then Begin(old(State()), roles[conn].Seat().value, countdownMs)
        else old(State())
      ensures Seating() == AwayAfter(old(Seating()), conn)
    {
      hide GameEngine.Valid, Of, Told;
      if conn !in roles || roles[conn].Seat().None? {
        return;
      }
      var color := roles[conn].Seat().value;
      BeginIsAway(State(), color, countdownMs);
      var found := FindCountdown(color);
      if found.Some? {
        return;
      }
      countdowns := countdowns + [(color, Countdown(countdownMs, Displayed(countdownMs)))];
      notices := notices + Told(color, -1, Displayed(countdownMs));
    }

    /** A player whose countdown is running gets the seat back on a new connection; anyone
        else gets nothing and nothing changes. */
    method Reconnect(newConn: Conn, user: User) returns (role: Option<Role>)
      requires Valid()
      modifies this`roles, this`names, this`countdowns, this`notices
      ensures Valid()
      ensures role.None? ==> State() == old(State()) && Seating() == old(Seating()) && NoSeatBack(old(Seating()), user)
      ensures role.Some? ==>
        exists from ::
          && MayTakeBack(old(Seating()), from, user) && role.value == old(roles)[from]
          && Seating() == SeatBack(old(Seating()), from, newConn, user)
          && State() == Back(old(State()), role.value.Seat().value)
    {
      hide GameEngine.Valid, Reseated, Of, Without;
      ghost var before, seats := State(), Seating();
      if from :| from in names && names[from] == user {
        if from !in roles || roles[from].Seat().None? {
          assert !MayTakeBack(seats, from, user);
          return None;
        }
        var color := roles[from].Seat().value;
        var found := FindCountdown(color);
        if found.None? {
          assert !MayTakeBack(seats, from, user);
          return None;
        }
        var n := found.value;
        BackIsPresent(before, color);
        countdowns := countdowns[..n] + countdowns[n + 1..];
        var seat := roles[from];
        roles := Reseated(roles, from, newConn, seat);
        names := Reseated(names, from, newConn, user);
        notices := notices + [Reconnected(color)];
        assert MayTakeBack(seats, from, user) && Seating() == SeatBack(seats, from, newConn, user);
        return Some(seat);
      }
      return None;
    }

    ghost predicate BothNamed()
      reads this
    {
      && (exists w :: w in roles && roles[w] == WhiteSeat && w in names)
      && (exists b :: b in roles && roles[b] == BlackSeat && b in names)
    }

    /** The result went to the two seated players, if both are known by name. */
    ghost predicate HandedOver(before: seq<Result>, winner: Color)
      reads this
    {
      if BothNamed() then
        exists w, b ::
          && w in names && w in roles && roles[w] == WhiteSeat
          && b in names && b in roles && roles[b] == BlackSeat
          && results == before + [Result(names[w], names[b], winner)]
      else results == before
    }

    /** Hands the result over once; a second ending, or a missing player, hands over nothing. */
    method OnGameOver(winner: Color)
      requires Shape()
      modifies this`ratingsUpdated, this`results
      ensures Shape() && ratingsUpdated
      ensures old(ratingsUpdated) ==> results == old(results)
      ensures !old(ratingsUpdated) ==> HandedOver(old(results), winner)
    {
      if ratingsUpdated {
        return;
      }
      ratingsUpdated := true;
      if w :| w in roles && roles[w] == WhiteSeat && w in names {
        if b :| b in roles && roles[b] == BlackSeat && b in names {
          results := results + [Result(names[w], names[b], winner)];
          assert results == old(results) + [Result(names[w], names[b], winner)];
        }
      }
    }

    /** The first ending published counts, unless one counted before. */
    method HearEndings(since: nat)
      requires Shape() && since <= |engine.published|
      modifies this`ratingsUpdated, this`results
      ensures Shape()
      ensures var first := FirstEnding(engine.published[since..]);
        if old(ratingsUpdated) || first.None? then results == old(results) && ratingsUpdated == old(ratingsUpdated)
        else ratingsUpdated && HandedOver(old(results), first.value)
    {
      hide GameEngine.Valid, HandedOver;
      ghost var first := FirstEnding(engine.published[since..]);
      for n := since to |engine.published|
        invariant Shape()
        invariant old(ratingsUpdated) ==> ratingsUpdated && results == old(results)
        invariant !old(ratingsUpdated) && ratingsUpdated ==> first.Some? && HandedOver(old(results), first.value)
        invariant !ratingsUpdated ==> results == old(results) && FirstEnding(engine.published[n..]) == first
      {
        assert engine.published[n..][1..] == engine.published[n + 1..];
        if engine.published[n].Ended? {
          OnGameOver(engine.published[n].winner);
        }
      }
    }

    /** `tick`: the engine waits; then either the game is over and all countdowns stop, or each
        of them advances and the first to run out ends the game. */
    method Tick(dt: nat)
      requires Valid()
      modifies this, engine`published, engine`gameOver, engine`arrivals, engine`dropped,
               engine.arbiter, engine.arbiter.board, engine.arbiter.motions
      ensures Valid()
      ensures State() == Countdowns.Tick(engine.cfg, old(State()), dt)
      ensures Ticked(old(Seating()), Seating())
      ensures old(engine.published) <= engine.published
      ensures var first := FirstEnding(engine.published[|old(engine.published)|..]);
        && (!old(engine.gameOver) && engine.gameOver ==> first.Some?)
        && (if old(ratingsUpdated) || first.None? then results == old(results) && ratingsUpdated == old(ratingsUpdated)
           else ratingsUpdated && HandedOver(old(results), first.value))
    {
      hide World.Valid, Wait, Countdowns.Tick, HandedOver, FirstEnding;
      TickTellsEnding(engine.cfg, State(), dt);
      var heard := |engine.published|;
      TickIsTicked(engine.cfg, State(), dt);
      TickUnfolds(engine.cfg, State(), dt);
      WaitTellsMore(engine.cfg, engine.State(), dt);
      hide TellsEnding;
      var _ := engine.Wait(dt);
      if engine.gameOver {
        countdowns := [];
      } else {
        AdvanceCountdowns(dt);
      }
      HearEndings(heard);
    }

    method AdvanceCountdowns(dt: nat)
      requires Shape()
      modifies this`countdowns, this`notices, engine`published, engine`gameOver
      ensures Shape()
      ensures State() == CountDown(old(State()).(countdowns := []), old(countdowns), dt)
    {
      hide World.Valid, Timetable, Later, Told, GameEngine.Valid;
      var list := countdowns;
      countdowns := [];
      for n := 0 to |list|
        invariant Shape()
        invariant CountDown(State(), list[n..], dt) == CountDown(old(State()).(countdowns := []), list, dt)
      {
        assert list[n..][1..] == list[n + 1..];
        var (color, c) := list[n];
        var later := Later(c, dt);
        notices := notices + Told(color, c.shown, later.shown);
        if later.remaining <= 0 {
          engine.Resign(color);
        } else {
          countdowns := countdowns + [(color, later)];
        }
      }
    }
  }
}
