/** Who is where when something is reported, cut or dropped: nothing happens to a motion on a
    cell that it has already left or not yet reached. */
module Presence {
  import opened Pieces
  import opened Simulation
  import opened SimulationLaws
  import opened CleanStops

  // ----- one step ---------------------------------------------------------------------------------

  /** The motion is on the cell at that time: at one of its stops, or home without any. */
  ghost predicate IsAt(f: Flight, cell: Position, t: int) {
    || (exists k :: 0 <= k < |f.stops| && f.stops[k] == Stop(cell, t))
    || (f.stops == [] && cell == f.source && t == f.start)
  }

  ghost predicate EarlierAt(f: Flight, cell: Position, t: int) {
    exists k :: 0 <= k < |f.stops| && f.stops[k].cell == cell && f.stops[k].time < t
  }

  predicate Guarded(w: World, cell: Position) {
    exists g :: 0 <= g < |w.jumps| && w.jumps[g].cell == cell
  }

  /** Why motion `f` destroyed itself: an enemy guards the cell where it ends, or an enemy
      motion is there at the same time. */
  ghost predicate Stopped(w: World, t: int, f: Flight, cell: Position) {
    || (cell == f.Destination() && Guarded(w, cell) && cell in w.board && w.board[cell].color != f.piece.color)
    || (exists j :: 0 <= j < |w.flights| && w.flights[j].piece.color != f.piece.color && IsAt(w.flights[j], cell, t))
  }

  /** Why motion `f` captured `c`: an enemy stands on the cell, without a guard if `f` ends
      there, or an enemy motion reached it before. */
  ghost predicate Overcome(w: World, t: int, f: Flight, cell: Position, c: Token) {
    && c.color != f.piece.color
    && (|| (cell in w.board && w.board[cell].AsToken() == c && (cell == f.Destination() ==> !Guarded(w, cell)))
        || (exists j :: 0 <= j < |w.flights| && w.flights[j].piece.AsToken() == c && EarlierAt(w.flights[j], cell, t)))
  }

  /** The report is about flight `f`, which is on the reported cell at exactly this time. */
  ghost predicate Rightly(w: World, t: int, f: Flight, e: Arrival) {
    && e.mover == f.piece.AsToken() && e.source == f.source && IsAt(f, e.destination, t)
    && match e.captured
       case None => e.destination == f.Destination() && e.destination !in w.board
       case Some(c) =>
         if c.id == e.mover.id then Stopped(w, t, f, e.destination) else Overcome(w, t, f, e.destination, c)
  }

  ghost predicate AllRightly(w: World, t: int, arrivals: seq<Arrival>) {
    forall n :: 0 <= n < |arrivals| ==> exists i :: 0 <= i < |w.flights| && Rightly(w, t, w.flights[i], arrivals[n])
  }

  lemma ArrivalRightly(w: World, i: nat)
    requires w.Valid() && i < |w.flights|
    ensures AllRightly(w, w.flights[i].Arrival(), ResolveArrival(w, i).arrivals)
  {
    var f, e := w.flights[i], ResolveArrival(w, i);
    var t := f.Arrival();
    assert IsAt(f, f.Destination(), t) by {
      if f.stops != [] { assert f.stops[|f.stops| - 1] == Stop(f.Destination(), t); }
    }
    if e.arrivals != [] {
      assert Rightly(w, t, f, e.arrivals[0]);
    }
  }

  lemma CollisionRightly(w: World, i: nat, j: nat, k: nat, l: nat)
    requires w.Valid() && IsCandidate(w, Collide(i, j, k, l))
    ensures AllRightly(w, TimeOf(w, Collide(i, j, k, l)), ResolveCollision(w, i, j, k, l).arrivals)
  {
    var t, e := TimeOf(w, Collide(i, j, k, l)), ResolveCollision(w, i, j, k, l);
    var a, b := w.flights[i], w.flights[j];
    var cell := a.stops[k].cell;
    assert a.stops[k] == Stop(cell, a.stops[k].time) && b.stops[l] == Stop(cell, b.stops[l].time);
    assert IsAt(a, cell, a.stops[k].time) && IsAt(b, cell, b.stops[l].time);
    assert a.piece.id != b.piece.id;
    hide World.Valid, Flight.Valid, IsAt;
    if a.piece.color != b.piece.color {
      if a.stops[k].time == t && b.stops[l].time == t {
        assert Rightly(w, t, a, e.arrivals[0]) && Rightly(w, t, b, e.arrivals[1]);
      } else if a.stops[k].time == t {
        assert EarlierAt(b, cell, t);
        assert Rightly(w, t, a, e.arrivals[0]);
      } else {
        assert EarlierAt(a, cell, t);
        assert Rightly(w, t, b, e.arrivals[0]);
      }
    }
  }

  lemma MeetingRightly(w: World, i: nat, k: nat)
    requires w.Valid() && IsCandidate(w, Meet(i, k))
    ensures AllRightly(w, TimeOf(w, Meet(i, k)), ResolveMeeting(w, i, k).arrivals)
  {
    var f, e := w.flights[i], ResolveMeeting(w, i, k);
    var t := f.stops[k].time;
    assert f.stops[k] == Stop(f.stops[k].cell, t);
    assert f.stops[k].cell != f.Destination() && w.board[f.stops[k].cell].id != f.piece.id;
    hide World.Valid, Flight.Valid;
    if e.arrivals != [] {
      assert Rightly(w, t, f, e.arrivals[0]);
    }
  }

  /** In every step the mover of every report is on the reported cell at exactly the time of
      the step, and what it captured is an enemy that stands there or came there earlier. */
  lemma ResolveRightly(w: World, o: Outcome)
    requires w.Valid() && IsCandidate(w, o)
    ensures AllRightly(w, TimeOf(w, o), Resolve(w, o).arrivals)
  {
    match o {
      case Arrive(i) => ArrivalRightly(w, i);
      case Collide(i, j, k, l) => CollisionRightly(w, i, j, k, l);
      case Meet(i, k) => MeetingRightly(w, i, k);
    }
  }

  ghost predicate ReachesBy(f: Flight, cell: Position, t: int) {
    exists k :: 0 <= k < |f.stops| && f.stops[k].cell == cell && f.stops[k].time <= t
  }

  /** A friend of motion `f` stands on the cell, or a friendly motion reaches it by then. */
  ghost predicate FriendThere(w: World, t: int, f: Flight, cell: Position) {
    || (cell in w.board && w.board[cell].color == f.piece.color)
    || (exists j :: 0 <= j < |w.flights| && w.flights[j].piece.id != f.piece.id &&
          w.flights[j].piece.color == f.piece.color && ReachesBy(w.flights[j], cell, t))
  }

  /** `g` is `f`, stopped at exactly this time before a cell that a friend has. */
  ghost predicate CutFrom(w: World, t: int, f: Flight, g: Flight) {
    exists k :: 0 <= k < |f.stops| && g == f.Cut(k) && f.stops[k].time == t && FriendThere(w, t, f, f.stops[k].cell)
  }

  ghost predicate AllCutRightly(w: World, t: int, flights: seq<Flight>) {
    forall g :: g in flights ==> g in w.flights || exists i :: 0 <= i < |w.flights| && CutFrom(w, t, w.flights[i], g)
  }

  lemma CollisionCutsRightly(w: World, i: nat, j: nat, k: nat, l: nat)
    requires w.Valid() && IsCandidate(w, Collide(i, j, k, l))
    ensures AllCutRightly(w, TimeOf(w, Collide(i, j, k, l)), ResolveCollision(w, i, j, k, l).world.flights)
  {
    var t, a, b := TimeOf(w, Collide(i, j, k, l)), w.flights[i], w.flights[j];
    var cell := a.stops[k].cell;
    assert a.piece.id != b.piece.id;
    hide World.Valid, Flight.Valid;
    if a.piece.color == b.piece.color {
      assert FriendThere(w, t, a, cell) && FriendThere(w, t, b, cell);
      hide FriendThere;
      assert a.stops[k].time == t ==> CutFrom(w, t, a, a.Cut(k));
      assert b.stops[l].time == t ==> CutFrom(w, t, b, b.Cut(l));
    }
  }

  /** In every step a motion is stopped only by a friend, before the cell that it would have
      reached at exactly the time of the step. No other motion changes. */
  lemma ResolveCutsRightly(w: World, o: Outcome)
    requires w.Valid() && IsCandidate(w, o)
    ensures AllCutRightly(w, TimeOf(w, o), Resolve(w, o).world.flights)
  {
    match o {
      case Arrive(i) =>
        var f := w.flights[i];
        hide World.Valid, Flight.Valid;
        if f.stops != [] && FriendAhead(w, f) {
          assert CutFrom(w, f.Arrival(), f, f.Cut(|f.stops| - 1));
        }
      case Collide(i, j, k, l) => CollisionCutsRightly(w, i, j, k, l);
      case Meet(i, k) =>
        var f := w.flights[i];
        hide World.Valid, Flight.Valid;
        if w.board[f.stops[k].cell].color == f.piece.color {
          assert CutFrom(w, f.stops[k].time, f, f.Cut(k));
        }
    }
  }

  /** Dropped is only what is home again, on a cell that a friend has taken. */
  lemma ResolveDropsRightly(w: World, o: Outcome, n: nat)
    requires IsCandidate(w, o) && n < |Resolve(w, o).dropped|
    ensures o.Arrive? && w.flights[o.i].stops == [] && w.flights[o.i].piece.AsToken() == Resolve(w, o).dropped[n]
    ensures FriendAhead(w, w.flights[o.i]) && Resolve(w, o).arrivals == []
  {
  }

  // ----- whole runs ---------------------------------------------------------------------------------

  /** A motion as it is or was before it was stopped. */
  ghost predicate Begins(f: Flight, g: Flight) {
    g.stops <= f.stops && g == f.(stops := g.stops)
  }

  ghost predicate Inherited(origin: seq<Flight>, flights: seq<Flight>) {
    forall g :: g in flights ==> exists f :: f in origin && Begins(f, g)
  }

  /** No motion reaches the cell by this time. */
  ghost predicate LaterThan(flights: seq<Flight>, cell: Position, t: int) {
    forall g, l :: g in flights && 0 <= l < |g.stops| && g.stops[l].cell == cell ==> t < g.stops[l].time
  }

  /** The piece came home to the cell, or reached it before any of these motions does. */
  ghost predicate CameBefore(f: Flight, cell: Position, flights: seq<Flight>) {
    f.source == cell ||
    exists k :: 0 <= k < |f.stops| && f.stops[k].cell == cell && LaterThan(flights, cell, f.stops[k].time)
  }

  /** Whatever stands on the board stood there at first, or came in one of the first motions
      and before any motion still in flight. */
  ghost predicate Settlers(origin: World, w: World) {
    forall c :: c in w.board ==>
      || (c in origin.board && origin.board[c] == w.board[c])
      || (exists f :: f in origin.flights && f.piece.AsToken() == w.board[c].AsToken() && CameBefore(f, c, w.flights))
  }

  /** The captured piece stood on the cell at first, came home to it, or reached it before. */
  ghost predicate ThereBefore(origin: World, cell: Position, c: Token, t: int) {
    || (cell in origin.board && origin.board[cell].AsToken() == c)
    || (exists h :: h in origin.flights && h.piece.AsToken() == c && (h.source == cell || EarlierAt(h, cell, t)))
  }

  /** The mover came home, or reached the cell in its first motion, after what it captured. */
  ghost predicate InOrder(origin: World, bound: int, f: Flight, e: Arrival) {
    && e.mover == f.piece.AsToken() && e.source == f.source
    && (|| e.destination == f.source
        || (exists k :: 0 <= k < |f.stops| && f.stops[k].cell == e.destination && f.stops[k].time <= bound &&
              AfterCaptured(origin, e, f.stops[k].time)))
  }

  ghost predicate AfterCaptured(origin: World, e: Arrival, t: int) {
    e.captured.Some? && !e.SelfDestroyed() ==> ThereBefore(origin, e.destination, e.captured.value, t)
  }

  ghost predicate IsInOrder(origin: World, bound: int, e: Arrival) {
    exists f :: f in origin.flights && InOrder(origin, bound, f, e)
  }

  ghost predicate AllInOrder(origin: World, bound: int, arrivals: seq<Arrival>) {
    forall n :: 0 <= n < |arrivals| ==> IsInOrder(origin, bound, arrivals[n])
  }

  lemma BeginsTwice(f: Flight, g: Flight, h: Flight)
    requires Begins(f, g) && Begins(g, h)
    ensures Begins(f, h)
  {
  }

  lemma OriginOf(origin: seq<Flight>, flights: seq<Flight>, g: Flight) returns (f: Flight)
    requires Inherited(origin, flights) && g in flights
    ensures f in origin && Begins(f, g)
  {
    f :| f in origin && Begins(f, g);
  }

  lemma StepBegins(w: World, o: Outcome, g: Flight) returns (f: Flight)
    requires w.Valid() && IsCandidate(w, o) && g in Resolve(w, o).world.flights
    ensures f in w.flights && Begins(f, g)
  {
    ResolveCutsRightly(w, o);
    hide Resolve, World.Valid, FriendThere;
    if g in w.flights {
      f := g;
    } else {
      var i :| 0 <= i < |w.flights| && CutFrom(w, TimeOf(w, o), w.flights[i], g);
      f := w.flights[i];
    }
  }

  lemma StepInherits(origin: World, w: World, o: Outcome)
    requires w.Valid() && IsCandidate(w, o) && Inherited(origin.flights, w.flights)
    ensures Inherited(origin.flights, Resolve(w, o).world.flights)
    ensures Inherited(w.flights, Resolve(w, o).world.flights)
  {
    hide Resolve, World.Valid, Begins;
    forall g | g in Resolve(w, o).world.flights
      ensures exists f :: f in w.flights && Begins(f, g)
      ensures exists f :: f in origin.flights && Begins(f, g)
    {
      var f := StepBegins(w, o, g);
      var h := OriginOf(origin.flights, w.flights, f);
      BeginsTwice(h, f, g);
    }
  }

  lemma LaterStays(w: World, flights: seq<Flight>, cell: Position, t: int)
    requires LaterThan(w.flights, cell, t)
    requires Inherited(w.flights, flights)
    ensures LaterThan(flights, cell, t)
  {
    forall g, l | g in flights && 0 <= l < |g.stops| && g.stops[l].cell == cell ensures t < g.stops[l].time {
      var f := OriginOf(w.flights, flights, g);
      assert f.stops[l] == g.stops[l];
    }
  }

  lemma CameBeforeStays(f: Flight, cell: Position, w: World, flights: seq<Flight>)
    requires CameBefore(f, cell, w.flights)
    requires Inherited(w.flights, flights)
    ensures CameBefore(f, cell, flights)
  {
    hide LaterThan;
    if f.source != cell {
      var k :| 0 <= k < |f.stops| && f.stops[k].cell == cell && LaterThan(w.flights, cell, f.stops[k].time);
      LaterStays(w, flights, cell, f.stops[k].time);
    }
  }

  /** What just landed came before any motion that is left. */
  lemma LandedCameBefore(origin: World, w: World, i: nat, bound: int)
    requires w.Valid() && IsNext(w, Arrive(i), bound) && Inherited(origin.flights, w.flights)
    ensures var g, left := w.flights[i], RemoveAt(w.flights, i);
      exists f :: f in origin.flights && f.piece == g.piece && CameBefore(f, g.Destination(), left)
  {
    var g := w.flights[i];
    var f := OriginOf(origin.flights, w.flights, g);
    if g.stops != [] {
      var k := |g.stops| - 1;
      assert f.stops[k] == g.stops[k];
      forall h, l | h in RemoveAt(w.flights, i) && 0 <= l < |h.stops| && h.stops[l].cell == g.Destination()
        ensures g.Arrival() < h.stops[l].time
      {
        var j: nat :| j < |w.flights| && j != i && w.flights[j] == h;
        NoneAhead(w, i, bound, j, l);
      }
      assert LaterThan(RemoveAt(w.flights, i), g.Destination(), g.Arrival());
    }
  }

  lemma OldOrLanded(w: World, o: Outcome, c: Position)
    requires IsCandidate(w, o) && c in Resolve(w, o).world.board
    ensures (c in w.board && w.board[c] == Resolve(w, o).world.board[c])
      || (o.Arrive? && c == w.flights[o.i].Destination()
          && Resolve(w, o).world.board[c].AsToken() == w.flights[o.i].piece.AsToken()
          && Resolve(w, o).world.flights == RemoveAt(w.flights, o.i))
  {
  }

  lemma StepSettles(origin: World, w: World, o: Outcome, bound: int)
    requires w.Valid() && IsNext(w, o, bound) && Inherited(origin.flights, w.flights) && Settlers(origin, w)
    ensures Settlers(origin, Resolve(w, o).world)
  {
    assert IsCandidate(w, o);
    var w' := Resolve(w, o).world;
    StepInherits(origin, w, o);
    hide World.Valid, IsNext, Resolve, Begins, CameBefore;
    forall c | c in w'.board
      ensures (c in origin.board && origin.board[c] == w'.board[c])
        || (exists f ::
              f in origin.flights && f.piece.AsToken() == w'.board[c].AsToken() && CameBefore(f, c, w'.flights))
    {
      OldOrLanded(w, o, c);
      if c in w.board && w.board[c] == w'.board[c] {
        if !(c in origin.board && origin.board[c] == w'.board[c]) {
          var f :| f in origin.flights && f.piece.AsToken() == w.board[c].AsToken() && CameBefore(f, c, w.flights);
          CameBeforeStays(f, c, w, w'.flights);
        }
      } else {
        LandedCameBefore(origin, w, o.i, bound);
      }
    }
  }

  lemma OvercomeInOrder(origin: World, w: World, t: int, f: Flight, cell: Position, c: Token)
    requires Inherited(origin.flights, w.flights) && Settlers(origin, w)
    requires Overcome(w, t, f, cell, c) && f in w.flights && Stop(cell, t) in f.stops
    ensures ThereBefore(origin, cell, c, t)
  {
    if cell in w.board && w.board[cell].AsToken() == c {
      if !(cell in origin.board && origin.board[cell] == w.board[cell]) {
        var h :| h in origin.flights && h.piece.AsToken() == c && CameBefore(h, cell, w.flights);
        if h.source != cell {
          var k :| 0 <= k < |h.stops| && h.stops[k].cell == cell && LaterThan(w.flights, cell, h.stops[k].time);
          assert EarlierAt(h, cell, t);
        }
      }
    } else {
      var j :| 0 <= j < |w.flights| && w.flights[j].piece.AsToken() == c && EarlierAt(w.flights[j], cell, t);
      var h := OriginOf(origin.flights, w.flights, w.flights[j]);
      var k :| 0 <= k < |w.flights[j].stops| && w.flights[j].stops[k].cell == cell && w.flights[j].stops[k].time < t;
      assert h.stops[k] == w.flights[j].stops[k];
      assert EarlierAt(h, cell, t);
    }
  }

  lemma RightlyInOrder(origin: World, w: World, t: int, bound: int, f: Flight, e: Arrival)
    requires Inherited(origin.flights, w.flights) && Settlers(origin, w)
    requires f in w.flights && Rightly(w, t, f, e) && t <= bound
    ensures IsInOrder(origin, bound, e)
  {
    var h := OriginOf(origin.flights, w.flights, f);
    if f.stops != [] {
      var k :| 0 <= k < |f.stops| && f.stops[k] == Stop(e.destination, t);
      assert h.stops[k] == f.stops[k];
      if e.captured.Some? && !e.SelfDestroyed() {
        OvercomeInOrder(origin, w, t, f, e.destination, e.captured.value);
      }
      hide Inherited, Settlers, ThereBefore, Stopped, Overcome;
      assert InOrder(origin, bound, h, e);
    } else {
      assert InOrder(origin, bound, h, e);
    }
  }

  lemma StepInOrder(origin: World, w: World, o: Outcome, bound: int)
    requires w.Valid() && IsNext(w, o, bound) && Inherited(origin.flights, w.flights) && Settlers(origin, w)
    ensures AllInOrder(origin, bound, Resolve(w, o).arrivals)
  {
    assert IsCandidate(w, o) && TimeOf(w, o) <= bound;
    ResolveRightly(w, o);
    hide World.Valid, IsNext, Resolve, Inherited, Settlers, Rightly, IsInOrder;
    var arrivals := Resolve(w, o).arrivals;
    forall n | 0 <= n < |arrivals| ensures IsInOrder(origin, bound, arrivals[n]) {
      var i :| 0 <= i < |w.flights| && Rightly(w, TimeOf(w, o), w.flights[i], arrivals[n]);
      RightlyInOrder(origin, w, TimeOf(w, o), bound, w.flights[i], arrivals[n]);
    }
  }

  lemma {:induction false} RunOnInOrder(origin: World, w: World, bound: int)
    requires w.Valid() && Inherited(origin.flights, w.flights) && Settlers(origin, w)
    ensures AllInOrder(origin, bound, Run(w, bound).arrivals)
    decreases Measure(w)
  {
    hide World.Valid, Inherited, Settlers, IsInOrder, Resolve;
    var next := Next(w, bound);
    if next.Some? {
      var o := next.value;
      RunUnfold(w, o, bound);
      MeasureFalls(w, o);
      StepInOrder(origin, w, o, bound);
      StepInherits(origin, w, o);
      StepSettles(origin, w, o, bound);
      RunOnInOrder(origin, Resolve(w, o).world, bound);
    }
  }

  /** Over a whole run, every mover reached the reported cell in the motion that was in flight
      at first, by the end of the run, or came home; and whatever it captured in passing or
      landing was there before it: stood there at first, came home to it, or reached it at an
      earlier time. Nobody captures what came to the cell later. */
  lemma RunInOrder(w: World, bound: int)
    requires w.Valid()
    ensures AllInOrder(w, bound, Run(w, bound).arrivals)
  {
    assert Inherited(w.flights, w.flights) by {
      forall g | g in w.flights ensures Begins(g, g) {
      }
    }
    RunOnInOrder(w, w, bound);
  }

  /** Every mover was in flight. */
  lemma MoversFlew(w: World, bound: int, n: nat)
    requires w.Valid() && n < |Run(w, bound).arrivals|
    ensures exists f :: f in w.flights && f.piece.AsToken() == Run(w, bound).arrivals[n].mover
  {
    hide Run, World.Valid;
    RunInOrder(w, bound);
    assert IsInOrder(w, bound, Run(w, bound).arrivals[n]);
  }
}
