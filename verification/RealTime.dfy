/** `realtime/real_time_arbiter.py`: the arbiter as an object, proved to run the simulation. */
module RealTime {
  import opened Pieces
  import opened Paths
  import opened Simulation
  import opened SimulationLaws
  import opened Motions
  import opened Arbitration
  import opened Boards

  /** A candidate as the source lists it: its sort key of time, rank and ids, and what it is. */
  datatype Candidate = Candidate(time: int, rank: int, a: Id, b: Id, what: Outcome)

  predicate Before(x: Candidate, y: Candidate) {
    x.time < y.time || (x.time == y.time &&
    (x.rank < y.rank || (x.rank == y.rank &&
    (x.a < y.a || (x.a == y.a && x.b < y.b)))))
  }

  /** Of the cells two motions share they meet at the one with the least time, row, column. */
  ghost predicate FirstMeeting(w: World, o: Outcome) {
    && o.Collide? && IsCandidate(w, o)
    && forall k, l :: IsCandidate(w, Collide(o.i, o.j, k, l)) ==> KeyLeq(KeyOf(w, o), KeyOf(w, Collide(o.i, o.j, k, l)))
  }

  ghost predicate Listed(w: World, bound: int, c: Candidate) {
    && IsCandidate(w, c.what)
    && c.time == TimeOf(w, c.what) <= bound
    && c.rank == KeyOf(w, c.what).rank && c.a == KeyOf(w, c.what).a && c.b == KeyOf(w, c.what).b
    && (c.what.Collide? ==> FirstMeeting(w, c.what))
  }

  ghost predicate AllListed(w: World, bound: int, list: seq<Candidate>) {
    forall n :: 0 <= n < |list| ==> Listed(w, bound, list[n])
  }

  /** Some listed candidate comes no later than `o`. */
  ghost predicate Covered(w: World, list: seq<Candidate>, o: Outcome)
    requires IsCandidate(w, o)
  {
    exists n :: 0 <= n < |list| && IsCandidate(w, list[n].what) && KeyLeq(KeyOf(w, list[n].what), KeyOf(w, o))
  }

  lemma StillCovered(w: World, list: seq<Candidate>, more: seq<Candidate>, o: Outcome)
    requires IsCandidate(w, o) && (Covered(w, list, o) || Covered(w, more, o))
    ensures Covered(w, list + more, o)
  {
    if Covered(w, list, o) {
      var n :| 0 <= n < |list| && IsCandidate(w, list[n].what) && KeyLeq(KeyOf(w, list[n].what), KeyOf(w, o));
      assert (list + more)[n] == list[n];
    } else {
      var n :| 0 <= n < |more| && IsCandidate(w, more[n].what) && KeyLeq(KeyOf(w, more[n].what), KeyOf(w, o));
      assert (list + more)[|list| + n] == more[n];
    }
  }

  lemma CoveredByOne(w: World, c: Candidate, o: Outcome)
    requires IsCandidate(w, o) && IsCandidate(w, c.what) && KeyLeq(KeyOf(w, c.what), KeyOf(w, o))
    ensures Covered(w, [c], o)
  {
    assert [c][0] == c;
  }

  /** Every due arrival of the first `n` flights is covered. */
  ghost predicate CoversArrivals(w: World, bound: int, list: seq<Candidate>, n: nat) {
    forall i :: 0 <= i < n && IsCandidate(w, Arrive(i)) && TimeOf(w, Arrive(i)) <= bound ==> Covered(w, list, Arrive(i))
  }

  /** Every due meeting of the first `n` flights, and of flight `n` before its stop `m`, is covered. */
  ghost predicate CoversMeetings(w: World, bound: int, list: seq<Candidate>, n: nat, m: nat) {
    forall i: nat, k: nat ::
      ((i < n || (i == n && k < m)) && IsCandidate(w, Meet(i, k)) && TimeOf(w, Meet(i, k)) <= bound)
      ==> Covered(w, list, Meet(i, k))
  }

  /** Every due collision of the first `n` flights, and of flight `n` with those before `m`, is covered. */
  ghost predicate CoversCollisions(w: World, bound: int, list: seq<Candidate>, n: nat, m: nat) {
    forall i: nat, j: nat, k: nat, l: nat ::
      ((i < n || (i == n && j < m)) && IsCandidate(w, Collide(i, j, k, l)) && TimeOf(w, Collide(i, j, k, l)) <= bound)
      ==> Covered(w, list, Collide(i, j, k, l))
  }

  ghost predicate CoversPair(w: World, bound: int, list: seq<Candidate>, i: nat, j: nat) {
    forall k, l :: IsCandidate(w, Collide(i, j, k, l)) && TimeOf(w, Collide(i, j, k, l)) <= bound ==>
      Covered(w, list, Collide(i, j, k, l))
  }

  lemma MoreArrivals(w: World, bound: int, list: seq<Candidate>, more: seq<Candidate>, n: nat)
    requires CoversArrivals(w, bound, list, n)
    requires IsCandidate(w, Arrive(n)) && TimeOf(w, Arrive(n)) <= bound ==> Covered(w, more, Arrive(n))
    ensures CoversArrivals(w, bound, list + more, n + 1)
  {
    hide Covered, TimeOf;
    forall i | 0 <= i < n + 1 && IsCandidate(w, Arrive(i)) && TimeOf(w, Arrive(i)) <= bound
      ensures Covered(w, list + more, Arrive(i))
    {
      StillCovered(w, list, more, Arrive(i));
    }
  }

  lemma MoreMeetings(w: World, bound: int, list: seq<Candidate>, more: seq<Candidate>, n: nat, m: nat)
    requires CoversMeetings(w, bound, list, n, m)
    requires IsCandidate(w, Meet(n, m)) && TimeOf(w, Meet(n, m)) <= bound ==> Covered(w, more, Meet(n, m))
    ensures CoversMeetings(w, bound, list + more, n, m + 1)
  {
    hide Covered, TimeOf;
    forall i: nat, k: nat | (i < n || (i == n && k < m + 1)) && IsCandidate(w, Meet(i, k)) &&
      TimeOf(w, Meet(i, k)) <= bound
      ensures Covered(w, list + more, Meet(i, k))
    {
      StillCovered(w, list, more, Meet(i, k));
    }
  }

  lemma MoreCollisions(w: World, bound: int, list: seq<Candidate>, more: seq<Candidate>, n: nat, m: nat)
    requires CoversCollisions(w, bound, list, n, m)
    requires CoversPair(w, bound, more, n, m)
    ensures CoversCollisions(w, bound, list + more, n, m + 1)
  {
    hide Covered, TimeOf;
    forall i: nat, j: nat, k: nat, l: nat | (i < n || (i == n && j < m + 1)) && IsCandidate(w, Collide(i, j, k, l))
      && TimeOf(w, Collide(i, j, k, l)) <= bound
      ensures Covered(w, list + more, Collide(i, j, k, l))
    {
      StillCovered(w, list, more, Collide(i, j, k, l));
    }
  }

  /** Two listed candidates with the same sort key are in the order of their full keys. */
  lemma SortKeySuffices(w: World, bound: int, x: Candidate, y: Candidate)
    requires w.Valid() && Listed(w, bound, x) && Listed(w, bound, y) && !Before(y, x)
    ensures KeyLeq(KeyOf(w, x.what), KeyOf(w, y.what))
  {
  }

  // ----- where two motions meet -----------------------------------------------------------------

  ghost predicate Shared(w: World, i: nat, j: nat, cell: Position) {
    i < |w.flights| && j < |w.flights| && cell in CellsOf(w.flights[i]) && cell in CellsOf(w.flights[j])
  }

  ghost function MeetAt(w: World, i: nat, j: nat, cell: Position): (o: Outcome)
    requires i < j && Shared(w, i, j, cell)
    ensures o.Collide? && o.i == i && o.j == j && IsCandidate(w, o) && w.flights[i].stops[o.k].cell == cell
  {
    Collide(i, j, IndexOf(CellsOf(w.flights[i]), cell), IndexOf(CellsOf(w.flights[j]), cell))
  }

  /** Every collision of two flights is the one at some cell they share. */
  lemma MeetsAtCell(w: World, i: nat, j: nat, k: nat, l: nat)
    requires w.Valid() && IsCandidate(w, Collide(i, j, k, l))
    ensures var cell := w.flights[i].stops[k].cell;
      Shared(w, i, j, cell) && MeetAt(w, i, j, cell) == Collide(i, j, k, l)
  {
    var f, g := w.flights[i], w.flights[j];
    assert CellsOf(f)[k] == f.stops[k].cell && CellsOf(g)[l] == g.stops[l].cell;
    IndexOfStop(CellsOf(f), k);
    IndexOfStop(CellsOf(g), l);
  }

  predicate Earlier(s: int, c: Position, t: int, d: Position) {
    s < t || (s == t && (c.row < d.row || (c.row == d.row && c.col < d.col)))
  }

  /** Meetings of the same two flights are ordered by time, row and column. */
  lemma MeetingOrder(w: World, i: nat, j: nat, c: Position, d: Position)
    requires i < j && Shared(w, i, j, c) && Shared(w, i, j, d)
    ensures var x, y := MeetAt(w, i, j, c), MeetAt(w, i, j, d);
      KeyLeq(KeyOf(w, x), KeyOf(w, y)) <==> !Earlier(TimeOf(w, y), d, TimeOf(w, x), c)
  {
  }

  lemma KeyLeqTransitive(x: Key, y: Key, z: Key)
    requires KeyLeq(x, y) && KeyLeq(y, z)
    ensures KeyLeq(x, z)
  {
  }

  /** `best` comes no later than any of the cells. */
  ghost predicate BestOf(w: World, i: nat, j: nat, best: Position, cells: set<Position>) {
    && i < j && Shared(w, i, j, best)
    && forall c :: c in cells ==>
      Shared(w, i, j, c) && KeyLeq(KeyOf(w, MeetAt(w, i, j, best)), KeyOf(w, MeetAt(w, i, j, c)))
  }

  lemma BestGrows(w: World, i: nat, j: nat, best: Position, cells: set<Position>, c: Position)
    requires BestOf(w, i, j, best, cells) && Shared(w, i, j, c)
    ensures var x, y := MeetAt(w, i, j, best), MeetAt(w, i, j, c);
      BestOf(w, i, j, if Earlier(TimeOf(w, y), c, TimeOf(w, x), best) then c else best, cells + {c})
  {
    hide KeyOf, KeyLeq, MeetAt, Shared, TimeOf, Earlier;
    var x, y := MeetAt(w, i, j, best), MeetAt(w, i, j, c);
    MeetingOrder(w, i, j, best, c);
    MeetingOrder(w, i, j, c, best);
    MeetingOrder(w, i, j, c, c);
    NotBothEarlier(TimeOf(w, x), best, TimeOf(w, y), c);
    forall d | d in cells ensures KeyLeq(KeyOf(w, y), KeyOf(w, x)) ==>
      KeyLeq(KeyOf(w, y), KeyOf(w, MeetAt(w, i, j, d))) {
      if KeyLeq(KeyOf(w, y), KeyOf(w, x)) { KeyLeqTransitive(KeyOf(w, y), KeyOf(w, x), KeyOf(w, MeetAt(w, i, j, d))); }
    }
  }

  lemma AloneIsBest(w: World, i: nat, j: nat, c: Position)
    requires i < j && Shared(w, i, j, c)
    ensures BestOf(w, i, j, c, {c})
  {
  }

  lemma NotBothEarlier(s: int, c: Position, t: int, d: Position)
    ensures !(Earlier(s, c, t, d) && Earlier(t, d, s, c)) && !Earlier(s, c, s, c) && !Earlier(t, d, t, d)
  {
  }

  lemma BestIsFirst(w: World, i: nat, j: nat, best: Position, cells: set<Position>)
    requires w.Valid() && BestOf(w, i, j, best, cells) && forall c :: Shared(w, i, j, c) ==> c in cells
    ensures FirstMeeting(w, MeetAt(w, i, j, best))
  {
    hide World.Valid, KeyLeq, KeyOf, Shared;
    forall k, l | IsCandidate(w, Collide(i, j, k, l))
      ensures KeyLeq(KeyOf(w, MeetAt(w, i, j, best)), KeyOf(w, Collide(i, j, k, l)))
    {
      MeetsAtCell(w, i, j, k, l);
    }
  }

  lemma NothingCovered(w: World, bound: int)
    ensures AllListed(w, bound, []) && CoversArrivals(w, bound, [], 0) && CoversMeetings(w, bound, [], 0, 0)
    ensures CoversCollisions(w, bound, [], 0, 0)
  {
  }

  lemma SkipCollisions(w: World, bound: int, list: seq<Candidate>, n: nat)
    requires CoversCollisions(w, bound, list, n, 0)
    ensures CoversCollisions(w, bound, list, n, n + 1)
  {
  }

  lemma AllPairs(w: World, bound: int, list: seq<Candidate>, n: nat)
    requires CoversCollisions(w, bound, list, n, Max(|w.flights|, n + 1))
    ensures CoversCollisions(w, bound, list, n + 1, 0)
  {
  }

  /** What `_collision_between` found is a candidate with the source's sort key. */
  lemma CollisionListed(w: World, bound: int, c: Candidate, i: nat, j: nat, cell: Position)
    requires i < j && Shared(w, i, j, cell) && FirstMeeting(w, MeetAt(w, i, j, cell))
    requires c.what == MeetAt(w, i, j, cell) && c.time == TimeOf(w, c.what) <= bound && c.rank == 0
    requires c.a == Min(w.flights[i].piece.id, w.flights[j].piece.id)
    requires c.b == Max(w.flights[i].piece.id, w.flights[j].piece.id)
    ensures Listed(w, bound, c)
  {
  }

  /** Listing the first meeting of two flights covers all their meetings. */
  lemma CollisionCovered(w: World, bound: int, more: seq<Candidate>, i: nat, j: nat, meeting: Option<(int, Position)>)
    requires w.Valid() && i < j < |w.flights|
    requires meeting.None? ==> forall c :: !Shared(w, i, j, c)
    requires meeting.Some? ==>
      && Shared(w, i, j, meeting.value.1)
      && FirstMeeting(w, MeetAt(w, i, j, meeting.value.1))
      && meeting.value.0 == TimeOf(w, MeetAt(w, i, j, meeting.value.1))
      && (meeting.value.0 <= bound ==> |more| == 1 && more[0].what == MeetAt(w, i, j, meeting.value.1))
    ensures CoversPair(w, bound, more, i, j)
  {
    hide World.Valid, Shared, MeetAt;
    forall k, l | IsCandidate(w, Collide(i, j, k, l)) && TimeOf(w, Collide(i, j, k, l)) <= bound
      ensures Covered(w, more, Collide(i, j, k, l))
    {
      MeetsAtCell(w, i, j, k, l);
      CoveredByOne(w, more[0], Collide(i, j, k, l));
      assert more == [more[0]];
    }
  }

  lemma MotionPath(w: World, i: nat, k: nat)
    requires w.Valid() && i < |w.flights| && k < |w.flights[i].stops|
    ensures var cell := w.flights[i].stops[k].cell;
      cell in CellsOf(w.flights[i]) && IndexOf(CellsOf(w.flights[i]), cell) == k
  {
    assert CellsOf(w.flights[i])[k] == w.flights[i].stops[k].cell;
    IndexOfStop(CellsOf(w.flights[i]), k);
  }

  lemma WholePath(w: World, bound: int, list: seq<Candidate>, n: nat, m: nat)
    requires CoversMeetings(w, bound, list, n, m) && n < |w.flights| && m + 1 >= |w.flights[n].stops|
    ensures CoversMeetings(w, bound, list, n + 1, 0)
  {
  }

  ghost predicate CoversAll(w: World, bound: int, list: seq<Candidate>) {
    forall o :: IsCandidate(w, o) && TimeOf(w, o) <= bound ==> Covered(w, list, o)
  }

  lemma AllCovered(w: World, bound: int, arrivals: seq<Candidate>, collisions: seq<Candidate>,
    encounters: seq<Candidate>)
    requires CoversArrivals(w, bound, arrivals, |w.flights|)
    requires CoversCollisions(w, bound, collisions, |w.flights|, 0)
    requires CoversMeetings(w, bound, encounters, |w.flights|, 0)
    ensures CoversAll(w, bound, arrivals + collisions + encounters)
  {
    hide Covered, TimeOf;
    forall o | IsCandidate(w, o) && TimeOf(w, o) <= bound ensures Covered(w, arrivals + collisions + encounters, o) {
      match o {
        case Arrive(i) => assert Covered(w, arrivals, o);
        case Collide(i, j, k, l) => assert Covered(w, collisions, o);
        case Meet(i, k) => assert Covered(w, encounters, o);
      }
      if !o.Meet? { StillCovered(w, arrivals, collisions, o); }
      StillCovered(w, arrivals + collisions, encounters, o);
    }
  }

  lemma NothingListed(w: World, bound: int)
    requires CoversAll(w, bound, [])
    ensures Next(w, bound) == None
  {
    NextNoneIffQuiet(w, bound);
  }

  /** Keeping the least so far keeps it least. */
  lemma BeforeOrder(list: seq<Candidate>, n: nat, first: nat)
    requires n < |list| && first < |list|
    ensures !Before(list[n], list[n])
    ensures Before(list[n], list[first]) ==>
      forall m :: 0 <= m < |list| && !Before(list[m], list[first]) ==> !Before(list[m], list[n])
  {
  }

  lemma FirstIsNext(w: World, bound: int, list: seq<Candidate>, first: nat)
    requires w.Valid() && AllListed(w, bound, list) && CoversAll(w, bound, list) && first < |list|
    requires forall m :: 0 <= m < |list| ==> !Before(list[m], list[first])
    ensures Next(w, bound) == Some(list[first].what)
  {
    hide World.Valid, Before, KeyLeq;
    var o := list[first].what;
    assert Listed(w, bound, list[first]);
    forall p | IsCandidate(w, p) ensures KeyLeq(KeyOf(w, o), KeyOf(w, p)) {
      if TimeOf(w, p) <= bound {
        var n :| 0 <= n < |list| && IsCandidate(w, list[n].what) && KeyLeq(KeyOf(w, list[n].what), KeyOf(w, p));
        SortKeySuffices(w, bound, list[first], list[n]);
        KeyLeqTransitive(KeyOf(w, o), KeyOf(w, list[n].what), KeyOf(w, p));
      } else {
        LaterKey(KeyOf(w, o), KeyOf(w, p));
      }
    }
    NextUnique(w, o, bound);
  }

  lemma LaterKey(x: Key, y: Key)
    requires x.time < y.time
    ensures KeyLeq(x, y)
  {
  }

  lemma HomeIsEmptyPath(source: Position, destination: Position)
    ensures PathCells(source, destination) == [] <==> source == destination
  {
    PathShape(source, destination);
  }

  lemma NothingThen(e: Effect)
    ensures forall w: World :: Then(Effect(w, [], []), e) == e
  {
  }

  lemma ThenNothing(e: Effect)
    ensures Then(e, Effect(e.world, [], [])) == e
  {
  }

  lemma RunsOn(w: World, bound: int)
    ensures var next := Next(w, bound);
      if next.None? then Run(w, bound) == Effect(w, [], [])
      else
        && IsCandidate(w, next.value)
        && Measure(Resolve(w, next.value).world) < Measure(w)
        && Run(w, bound) == Then(Resolve(w, next.value), Run(Resolve(w, next.value).world, bound))
  {
    var next := Next(w, bound);
    if next.Some? {
      MeasureFalls(w, next.value);
    }
  }

  datatype Wait = NegativeDuration | Passed(ended: seq<JumpEnd>, arrivals: seq<Arrival>)

  class RealTimeArbiter {
    const board: Board
    var clock: int
    var motions: seq<Motion>
    var jumps: seq<Jump>
    var cooldowns: map<Id, Rest>

    /** The motions in flight are different objects, each on an even timetable. */
    ghost predicate Flying()
      reads this, motions
    {
      && (forall i, j :: 0 <= i < j < |motions| ==> motions[i] != motions[j])
      && (forall i :: 0 <= i < |motions| ==> motions[i].Valid())
    }

    ghost function Flights(): (flights: seq<Flight>)
      reads this, motions
      ensures |flights| == |motions|
      ensures forall i :: 0 <= i < |motions| ==> flights[i] == motions[i].AsFlight()
    {
      seq(|motions|, i requires 0 <= i < |motions| reads this, motions => motions[i].AsFlight())
    }

    ghost function AsWorld(): World
      reads this, board, motions
    {
      World(board.cells, Flights(), jumps)
    }

    ghost function State(): Arb
      reads this, board, motions
    {
      Arb(AsWorld(), clock, cooldowns)
    }

    ghost predicate Valid()
      reads this, board, motions
    {
      Flying() && AsWorld().Valid()
    }

    constructor (board: Board)
      requires forall c :: c in board.cells ==> board.cells[c].cell == c
      requires forall c, d :: c in board.cells && d in board.cells && board.cells[c].id == board.cells[d].id ==> c == d
      ensures Valid() && this.board == board && State() == Arb(World(board.cells, [], []), 0, map[])
    {
      this.board := board;
      clock := 0;
      motions := [];
      jumps := [];
      cooldowns := map[];
    }

    method SetCooldown(id: Id, duration: int)
      modifies this`cooldowns
      ensures State() == old(State()).SetRest(id, duration)
    {
      cooldowns := cooldowns[id := Rest(clock, clock + duration)];
    }

    method IsResting(id: Id) returns (resting: bool)
      modifies this`cooldowns
      ensures State() == old(State()).Forget(id)
      ensures resting == old(State()).IsResting(id)
    {
      if id !in cooldowns {
        return false;
      }
      if clock >= cooldowns[id].end {
        cooldowns := cooldowns - {id};
        return false;
      }
      return true;
    }

    method IsJumpingOn(cell: Position) returns (jumping: bool)
      ensures jumping == State().IsJumpingOn(cell)
    {
      for g := 0 to |jumps|
        invariant forall h :: 0 <= h < g ==> jumps[h].cell != cell
      {
        if jumps[g].cell == cell {
          return true;
        }
      }
      return false;
    }

    /** Takes the piece off the board and puts it in flight. */
    method StartMotion(piece: Piece, source: Position, destination: Position, duration: int, ghost perCell: int)
      requires Valid() && source in board.cells && board.cells[source] == piece
      requires perCell > 0 && duration == perCell * |PathCells(source, destination)|
      modifies this`motions, board
      ensures Valid()
      ensures var w := old(AsWorld());
        State() == old(State()).(world := w.(
          board := w.board - {source},
          flights := w.flights + [Flight(piece, source, clock, Timetable(source, destination, clock, perCell))]))
    {
      hide World.Valid, Timetable;
      ghost var w := AsWorld();
      forall c | c in board.cells && board.cells[c].id == piece.id ensures c == source {
        OnlyThere(w, source, c);
      }
      var motion := new Motion(piece, source, destination, clock, clock + duration, perCell);
      TimetableValid(piece, source, destination, clock, perCell);
      LaunchValid(w, source, motion.AsFlight());
      motions := motions + [motion];
      board.RemovePiece(piece.id);
      assert board.cells == w.board - {source};
      assert Flights() == w.flights + [motion.AsFlight()];
    }

    method StartJump(cell: Position, endTime: int)
      requires Valid()
      modifies this`jumps
      ensures Valid()
      ensures State() == old(State()).(world := old(AsWorld()).(jumps := old(jumps) + [Jump(cell, endTime)]))
    {
      jumps := jumps + [Jump(cell, endTime)];
    }

    // ----- looking for the next event -------------------------------------------------------------

    lemma SharedCells(i: nat, j: nat)
      requires Valid() && i < |motions| && j < |motions|
      ensures forall c :: c in motions[i].Path() && c in motions[j].Path() <==> Shared(AsWorld(), i, j, c)
    {
      motions[i].Reads();
      motions[j].Reads();
    }

    method MeetingTime(i: nat, j: nat, cell: Position) returns (time: int)
      requires Valid() && i < j < |motions| && Shared(AsWorld(), i, j, cell)
      ensures time == TimeOf(AsWorld(), MeetAt(AsWorld(), i, j, cell))
    {
      hide World.Valid, KeyOf, KeyLeq, Timetable, Shared;
      SharedCells(i, j);
      var timeA := motions[i].TimeAtCell(cell);
      var timeB := motions[j].TimeAtCell(cell);
      time := Max(timeA, timeB);
    }

    /** `_collision_between`: the first time and cell at which two motions can meet. */
    method CollisionBetween(i: nat, j: nat) returns (meeting: Option<(int, Position)>)
      requires Valid() && i < j < |motions|
      ensures meeting.None? ==> forall c :: !Shared(AsWorld(), i, j, c)
      ensures meeting.Some? ==>
        && Shared(AsWorld(), i, j, meeting.value.1)
        && FirstMeeting(AsWorld(), MeetAt(AsWorld(), i, j, meeting.value.1))
        && meeting.value.0 == TimeOf(AsWorld(), MeetAt(AsWorld(), i, j, meeting.value.1))
    {
      hide World.Valid, KeyOf, KeyLeq, TimeOf, MeetAt, Earlier, Shared, FirstMeeting, RealTimeArbiter.Flights;
      ghost var w := AsWorld();
      var pathA, pathB := motions[i].Path(), motions[j].Path();
      var shared := set c | c in pathA && c in pathB;
      SharedCells(i, j);
      assert forall c :: Shared(w, i, j, c) ==> c in shared;
      var todo := shared;
      meeting := None;
      while todo != {}
        invariant todo <= shared
        invariant meeting.None? ==> todo == shared
        invariant meeting.Some? ==>
          && BestOf(w, i, j, meeting.value.1, shared - todo)
          && meeting.value.0 == TimeOf(w, MeetAt(w, i, j, meeting.value.1))
        decreases todo
      {
        var cell :| cell in todo;
        var time := MeetingTime(i, j, cell);
        if meeting.Some? {
          BestGrows(w, i, j, meeting.value.1, shared - todo, cell);
        } else {
          AloneIsBest(w, i, j, cell);
        }
        if meeting.None? || Earlier(time, cell, meeting.value.0, meeting.value.1) {
          meeting := Some((time, cell));
        }
        assert shared - (todo - {cell}) == (shared - todo) + {cell};
        todo := todo - {cell};
      }
      if meeting.Some? {
        assert shared - todo == shared;
        BestIsFirst(w, i, j, meeting.value.1, shared);
      }
    }

    method ArrivalCandidates(newClock: int) returns (list: seq<Candidate>)
      requires Valid()
      ensures AllListed(AsWorld(), newClock, list)
      ensures CoversArrivals(AsWorld(), newClock, list, |motions|)
    {
      hide World.Valid, Covered, CoversArrivals, Timetable;
      ghost var w := AsWorld();
      list := [];
      NothingCovered(w, newClock);
      for i := 0 to |motions|
        invariant AllListed(w, newClock, list)
        invariant CoversArrivals(w, newClock, list, i)
      {
        var motion := motions[i];
        motion.Reads();
        var more := [];
        if motion.arrivalTime <= newClock {
          var c := Candidate(motion.arrivalTime, 1, motion.piece.id, 0, Arrive(i));
          CoveredByOne(w, c, Arrive(i));
          more := [c];
        }
        MoreArrivals(w, newClock, list, more, i);
        list := list + more;
      }
    }

    method PairCandidates(newClock: int, i: nat, j: nat) returns (list: seq<Candidate>)
      requires Valid() && i < j < |motions|
      ensures AllListed(AsWorld(), newClock, list)
      ensures CoversPair(AsWorld(), newClock, list, i, j)
    {
      hide World.Valid, Covered, CoversPair, Timetable, KeyLeq, TimeOf, Listed, FirstMeeting;
      ghost var w := AsWorld();
      var meeting := CollisionBetween(i, j);
      assert AsWorld() == w;
      list := [];
      if meeting.Some? && meeting.value.0 <= newClock {
        var (time, cell) := meeting.value;
        var a, b := motions[i].piece.id, motions[j].piece.id;
        SharedCells(i, j);
        motions[i].Reads();
        motions[j].Reads();
        var what := Collide(i, j, IndexOf(motions[i].Path(), cell), IndexOf(motions[j].Path(), cell));
        list := [Candidate(time, 0, Min(a, b), Max(a, b), what)];
        CollisionListed(w, newClock, list[0], i, j, cell);
      }
      CollisionCovered(w, newClock, list, i, j, meeting);
    }

    method CollisionCandidates(newClock: int) returns (list: seq<Candidate>)
      requires Valid()
      ensures AllListed(AsWorld(), newClock, list)
      ensures CoversCollisions(AsWorld(), newClock, list, |motions|, 0)
    {
      hide World.Valid, CoversPair, CoversCollisions, Timetable, Listed;
      ghost var w := AsWorld();
      list := [];
      NothingCovered(w, newClock);
      for i := 0 to |motions|
        invariant AllListed(w, newClock, list)
        invariant CoversCollisions(w, newClock, list, i, 0)
      {
        SkipCollisions(w, newClock, list, i);
        for j := i + 1 to |motions|
          invariant AllListed(w, newClock, list)
          invariant CoversCollisions(w, newClock, list, i, j)
        {
          var more := PairCandidates(newClock, i, j);
          MoreCollisions(w, newClock, list, more, i, j);
          list := list + more;
        }
        AllPairs(w, newClock, list, i);
      }
    }

    method EncounterCandidate(newClock: int, i: nat, k: nat) returns (list: seq<Candidate>)
      requires Valid() && i < |motions| && k + 1 < |motions[i].Path()|
      ensures AllListed(AsWorld(), newClock, list)
      ensures IsCandidate(AsWorld(), Meet(i, k)) && TimeOf(AsWorld(), Meet(i, k)) <= newClock ==>
        Covered(AsWorld(), list, Meet(i, k))
    {
      hide World.Valid, Covered, Timetable;
      ghost var w := AsWorld();
      var motion := motions[i];
      motion.Reads();
      MotionPath(w, i, k);
      var cell := motion.Path()[k];
      list := [];
      if cell in board.cells {
        var time := motion.TimeAtCell(cell);
        if time <= newClock {
          list := [Candidate(time, 0, motion.piece.id, board.cells[cell].id, Meet(i, k))];
          CoveredByOne(w, list[0], Meet(i, k));
        }
      }
    }

    method EncounterCandidates(newClock: int) returns (list: seq<Candidate>)
      requires Valid()
      ensures AllListed(AsWorld(), newClock, list)
      ensures CoversMeetings(AsWorld(), newClock, list, |motions|, 0)
    {
      hide World.Valid, CoversMeetings, Timetable, Listed, Covered;
      ghost var w := AsWorld();
      list := [];
      NothingCovered(w, newClock);
      for i := 0 to |motions|
        invariant AllListed(w, newClock, list)
        invariant CoversMeetings(w, newClock, list, i, 0)
      {
        var path := motions[i].Path();
        var passing := if path == [] then [] else path[..|path| - 1];
        motions[i].Reads();
        for k := 0 to |passing|
          invariant AllListed(w, newClock, list)
          invariant CoversMeetings(w, newClock, list, i, k)
        {
          var more := EncounterCandidate(newClock, i, k);
          MoreMeetings(w, newClock, list, more, i, k);
          list := list + more;
        }
        WholePath(w, newClock, list, i, |passing|);
      }
    }

    /** `_next_event`: of all that is due, what comes first. */
    method NextEvent(newClock: int) returns (next: Option<Outcome>)
      requires Valid()
      ensures next == Next(AsWorld(), newClock)
    {
      hide World.Valid, Listed, CoversArrivals, CoversCollisions, CoversMeetings, Before, IsNext, Quiet;
      ghost var w := AsWorld();
      var arrivals := ArrivalCandidates(newClock);
      var collisions := CollisionCandidates(newClock);
      var encounters := EncounterCandidates(newClock);
      var candidates := arrivals + collisions + encounters;
      AllCovered(w, newClock, arrivals, collisions, encounters);
      if candidates == [] {
        NothingListed(w, newClock);
        return None;
      }
      var first := 0;
      BeforeOrder(candidates, 0, 0);
      for n := 1 to |candidates|
        invariant first < |candidates|
        invariant forall m :: 0 <= m < n ==> !Before(candidates[m], candidates[first])
      {
        BeforeOrder(candidates, n, first);
        if Before(candidates[n], candidates[first]) {
          first := n;
        }
      }
      FirstIsNext(w, newClock, candidates, first);
      next := Some(candidates[first].what);
    }

    // ----- resolving one event -----------------------------------------------------------------

    /** Shortens one motion in place; the others do not notice. */
    method Shorten(i: nat, cell: Position)
      requires Flying() && i < |motions| && cell in motions[i].Path()
      modifies motions[i]
      ensures Flying() && cell in CellsOf(old(Flights())[i])
      ensures Flights() == old(Flights())[i := old(Flights())[i].Cut(IndexOf(CellsOf(old(Flights())[i]), cell))]
    {
      motions[i].TruncateBefore(cell);
    }

    method Withdraw(i: nat)
      requires Flying() && i < |motions|
      modifies this`motions
      ensures Flying() && motions == RemoveAt(old(motions), i)
      ensures Flights() == RemoveAt(old(Flights()), i)
    {
      motions := RemoveAt(motions, i);
    }

    /** `_is_intercepted`, for a motion already taken out of the list. */
    method IsIntercepted(motion: Motion) returns (intercepted: bool)
      requires motion.Valid()
      ensures intercepted == Intercepted(AsWorld(), motion.AsFlight())
    {
      motion.Reads();
      for g := 0 to |jumps|
        invariant forall h :: 0 <= h < g && jumps[h].cell == motion.destination ==>
          !(motion.destination in board.cells && board.cells[motion.destination].color != motion.piece.color)
      {
        if jumps[g].cell == motion.destination {
          if motion.destination in board.cells && board.cells[motion.destination].color != motion.piece.color {
            return true;
          }
        }
      }
      return false;
    }

    /** Sends a motion that was taken out of the list one cell short of its destination. */
    method Requeue(motion: Motion)
      requires Flying() && motion !in motions && motion.Valid() && motion.destination != motion.source
      modifies this`motions, motion
      ensures Flying() && motions == old(motions) + [motion]
      ensures old(motion.AsFlight()).stops != []
      ensures Flights() == old(Flights()) + [old(motion.AsFlight()).Cut(|old(motion.AsFlight()).stops| - 1)]
    {
      ghost var f := motion.AsFlight();
      motion.Reads();
      PathShape(motion.source, motion.destination);
      var path := motion.Path();
      assert CellsOf(f)[|path| - 1] == motion.destination;
      IndexOfStop(CellsOf(f), |path| - 1);
      motion.TruncateBefore(motion.destination);
      motions := motions + [motion];
    }

    method ResolveMotionArrival(i: nat) returns (arrivals: seq<Arrival>, ghost dropped: seq<Token>)
      requires Valid() && i < |motions|
      modifies this`motions, board, motions[i]
      ensures Flying() && (forall m :: m in motions ==> m in old(motions))
      ensures Effect(AsWorld(), arrivals, dropped) == ResolveArrival(old(AsWorld()), i)
    {
      hide World.Valid, Timetable;
      ghost var w := AsWorld();
      var motion := motions[i];
      var piece := motion.piece;
      motion.Reads();
      HomeIsEmptyPath(motion.source, motion.destination);
      ghost var f := motion.AsFlight();
      Withdraw(i);
      dropped := [];
      var intercepted := IsIntercepted(motion);
      if intercepted {
        arrivals := [Arrival(piece.AsToken(), motion.source, motion.destination, Some(piece.AsToken()))];
        return;
      }
      var destination := motion.destination;
      if destination in board.cells && board.cells[destination].color == piece.color {
        arrivals := [];
        if destination == motion.source {
          dropped := [piece.AsToken()];
        } else {
          Requeue(motion);
        }
        return;
      }
      var captured := if destination in board.cells then Some(board.cells[destination].AsToken()) else None;
      board.AddPiece(piece.(cell := destination));
      arrivals := [Arrival(piece.AsToken(), motion.source, destination, captured)];
    }

    /** Shortens motion `i` before the cell of its stop `k`. */
    method ShortenAt(i: nat, ghost k: nat, cell: Position)
      requires Flying() && i < |motions| && Flights()[i].Valid() && k < |Flights()[i].stops|
      requires Flights()[i].stops[k].cell == cell
      modifies motions[i]
      ensures Flying() && Flights() == old(Flights())[i := old(Flights())[i].Cut(k)]
    {
      hide Timetable;
      motions[i].Reads();
      assert CellsOf(Flights()[i])[k] == cell;
      IndexOfStop(CellsOf(Flights()[i]), k);
      Shorten(i, cell);
    }

    method TimeOfStop(i: nat, ghost k: nat, cell: Position) returns (time: int)
      requires Flying() && i < |motions| && Flights()[i].Valid() && k < |Flights()[i].stops|
      requires Flights()[i].stops[k].cell == cell
      ensures time == Flights()[i].stops[k].time
    {
      hide Timetable;
      motions[i].Reads();
      assert CellsOf(Flights()[i])[k] == cell;
      IndexOfStop(CellsOf(Flights()[i]), k);
      time := motions[i].TimeAtCell(cell);
    }

    /** Friends: the later one stops short, both at an exact tie. */
    method FriendsMeet(i: nat, j: nat, ghost k: nat, ghost l: nat, cell: Position, timeA: int, timeB: int)
      requires Valid() && IsCandidate(AsWorld(), Collide(i, j, k, l)) && Flights()[i].stops[k] == Stop(cell, timeA)
      requires Flights()[j].stops[l] == Stop(cell, timeB) && motions[i].piece.color == motions[j].piece.color
      modifies motions[i], motions[j]
      ensures Flying()
      ensures Effect(AsWorld(), [], []) == ResolveCollision(old(AsWorld()), i, j, k, l)
    {
      assert Flights()[i].Valid() && Flights()[j].Valid();
      hide World.Valid, Timetable, Flight.Valid;
      if timeA == timeB {
        ShortenAt(i, k, cell);
        ShortenAt(j, l, cell);
      } else if timeA < timeB {
        ShortenAt(j, l, cell);
      } else {
        ShortenAt(i, k, cell);
      }
    }

    /** Enemies: the later one captures the earlier, and an exact tie destroys both. */
    method EnemiesMeet(i: nat, j: nat, ghost k: nat, ghost l: nat, cell: Position, timeA: int, timeB: int)
      returns (arrivals: seq<Arrival>)
      requires Valid() && IsCandidate(AsWorld(), Collide(i, j, k, l)) && Flights()[i].stops[k] == Stop(cell, timeA)
      requires Flights()[j].stops[l] == Stop(cell, timeB) && motions[i].piece.color != motions[j].piece.color
      modifies this`motions
      ensures Flying() && (forall m :: m in motions ==> m in old(motions))
      ensures Effect(AsWorld(), arrivals, []) == ResolveCollision(old(AsWorld()), i, j, k, l)
    {
      hide World.Valid, Timetable, Flight.Valid, Motion.Valid;
      var a, b := motions[i], motions[j];
      if timeA == timeB {
        Withdraw(j);
        Withdraw(i);
        return [SelfDestroyed(a, cell), SelfDestroyed(b, cell)];
      }
      var early, late := if timeA < timeB then a else b, if timeA < timeB then b else a;
      Withdraw(if timeA < timeB then i else j);
      arrivals := [Arrival(late.piece.AsToken(), late.source, cell, Some(early.piece.AsToken()))];
    }

    method ResolveMotionCollision(i: nat, j: nat, ghost k: nat, ghost l: nat, cell: Position)
      returns (arrivals: seq<Arrival>)
      requires Valid() && IsCandidate(AsWorld(), Collide(i, j, k, l)) && AsWorld().flights[i].stops[k].cell == cell
      modifies this`motions, motions[i], motions[j]
      ensures Flying() && (forall m :: m in motions ==> m in old(motions))
      ensures Effect(AsWorld(), arrivals, []) == ResolveCollision(old(AsWorld()), i, j, k, l)
    {
      assert Flights()[i].Valid() && Flights()[j].Valid();
      hide World.Valid, Timetable, Flight.Valid, ResolveCollision;
      var timeA := TimeOfStop(i, k, cell);
      var timeB := TimeOfStop(j, l, cell);
      if motions[i].piece.color == motions[j].piece.color {
        FriendsMeet(i, j, k, l, cell, timeA, timeB);
        return [];
      }
      arrivals := EnemiesMeet(i, j, k, l, cell, timeA, timeB);
    }

    function SelfDestroyed(motion: Motion, cell: Position): Arrival {
      Arrival(motion.piece.AsToken(), motion.source, cell, Some(motion.piece.AsToken()))
    }

    method ResolveEncounter(i: nat, ghost k: nat, cell: Position) returns (arrivals: seq<Arrival>)
      requires Valid() && IsCandidate(AsWorld(), Meet(i, k)) && AsWorld().flights[i].stops[k].cell == cell
      modifies board, motions[i]
      ensures Flying()
      ensures Effect(AsWorld(), arrivals, []) == ResolveMeeting(old(AsWorld()), i, k)
    {
      assert Flights()[i].Valid();
      ghost var w := AsWorld();
      var motion, other := motions[i], board.cells[cell];
      forall c | c in board.cells && board.cells[c].id == other.id ensures c == cell {
        OnlyThere(w, cell, c);
      }
      hide World.Valid, Timetable, Flight.Valid;
      if other.color == motion.piece.color {
        ShortenAt(i, k, cell);
        return [];
      }
      board.RemovePiece(other.id);
      assert board.cells == w.board - {cell};
      arrivals := [Arrival(motion.piece.AsToken(), motion.source, cell, Some(other.AsToken()))];
    }

    method ResolveNext(next: Outcome) returns (arrivals: seq<Arrival>, ghost dropped: seq<Token>)
      requires Valid() && IsCandidate(AsWorld(), next)
      modifies this`motions, board, motions
      ensures Valid() && (forall m :: m in motions ==> m in old(motions))
      ensures Effect(AsWorld(), arrivals, dropped) == Resolve(old(AsWorld()), next)
    {
      ResolveValid(AsWorld(), next);
      assert forall n :: 0 <= n < |motions| ==> Flights()[n].Valid();
      hide World.Valid, Timetable, ResolveArrival, ResolveCollision, ResolveMeeting, Flight.Valid;
      dropped := [];
      match next {
        case Arrive(i) =>
          arrivals, dropped := ResolveMotionArrival(i);
        case Collide(i, j, k, l) =>
          motions[i].Reads();
          assert CellsOf(Flights()[i])[k] == Flights()[i].stops[k].cell;
          arrivals := ResolveMotionCollision(i, j, k, l, motions[i].Path()[k]);
        case Meet(i, k) =>
          motions[i].Reads();
          assert CellsOf(Flights()[i])[k] == Flights()[i].stops[k].cell;
          arrivals := ResolveEncounter(i, k, motions[i].Path()[k]);
      }
    }

    // ----- advancing ------------------------------------------------------------------------------

    method JumpsEnding(newClock: int) returns (ended: seq<JumpEnd>)
      ensures ended == JumpEnds(board.cells, jumps, newClock)
    {
      ended := [];
      for g := 0 to |jumps|
        invariant ended + JumpEnds(board.cells, jumps[g..], newClock) == JumpEnds(board.cells, jumps, newClock)
      {
        var jump := jumps[g];
        assert jumps[g..][1..] == jumps[g + 1..];
        ghost var rest := JumpEnds(board.cells, jumps[g + 1..], newClock);
        if jump.endTime <= newClock && jump.cell in board.cells {
          var end := JumpEnd(board.cells[jump.cell].AsToken(), jump.cell);
          assert ended + ([end] + rest) == (ended + [end]) + rest;
          ended := ended + [end];
        } else {
          assert [] + rest == rest;
        }
      }
    }

    method DropEndedJumps()
      modifies this`jumps
      ensures jumps == Remaining(old(jumps), clock)
    {
      var active: seq<Jump> := [];
      for g := 0 to |jumps|
        invariant active + Remaining(jumps[g..], clock) == Remaining(jumps, clock)
      {
        assert jumps[g..][1..] == jumps[g + 1..];
        ghost var rest := Remaining(jumps[g + 1..], clock);
        if clock < jumps[g].endTime {
          assert active + ([jumps[g]] + rest) == (active + [jumps[g]]) + rest;
          active := active + [jumps[g]];
        } else {
          assert [] + rest == rest;
        }
      }
      jumps := active;
    }

    /** One turn of the loop of `advance_time`. */
    method ResolveOne(newClock: int) returns (quiet: bool, arrivals: seq<Arrival>, ghost dropped: seq<Token>)
      requires Valid()
      modifies this`motions, board, motions
      ensures Valid() && (forall m :: m in motions ==> m in old(motions))
      ensures quiet ==> AsWorld() == old(AsWorld()) && Run(AsWorld(), newClock) == Effect(AsWorld(), [], [])
      ensures !quiet ==>
        && Measure(AsWorld()) < Measure(old(AsWorld()))
        && Run(old(AsWorld()), newClock) == Then(Effect(AsWorld(), arrivals, dropped), Run(AsWorld(), newClock))
    {
      hide World.Valid, Resolve, Measure, IsCandidate;
      ghost var w := AsWorld();
      RunsOn(w, newClock);
      var next := NextEvent(newClock);
      assert AsWorld() == w;
      if next.None? {
        return true, [], [];
      }
      quiet := false;
      arrivals, dropped := ResolveNext(next.value);
    }

    /** The loop of `advance_time`: it ends, having run the simulation to `newClock`. */
    method ResolveAllDue(newClock: int) returns (arrivals: seq<Arrival>, ghost dropped: seq<Token>)
      requires Valid()
      modifies this`motions, board, motions
      ensures Valid() && (forall m :: m in motions ==> m in old(motions))
      ensures Effect(AsWorld(), arrivals, dropped) == Run(old(AsWorld()), newClock)
    {
      hide World.Valid, Run, Measure;
      ghost var w := AsWorld();
      arrivals, dropped := [], [];
      NothingThen(Run(w, newClock));
      while true
        invariant Valid() && (forall m :: m in motions ==> m in old(motions))
        invariant Then(Effect(AsWorld(), arrivals, dropped), Run(AsWorld(), newClock)) == Run(w, newClock)
        decreases Measure(AsWorld())
      {
        ghost var soFar := Effect(AsWorld(), arrivals, dropped);
        assert forall n :: 0 <= n < |motions| ==> motions[n] in old(motions);
        var quiet, more, gone := ResolveOne(newClock);
        if quiet {
          ThenNothing(soFar);
          break;
        }
        ThenAssociative(soFar, Effect(AsWorld(), more, gone), Run(AsWorld(), newClock));
        arrivals := arrivals + more;
        dropped := dropped + gone;
      }
    }

    /** `advance_time`. A negative duration is refused and changes nothing. */
    method AdvanceTime(ms: int) returns (wait: Wait, ghost dropped: seq<Token>)
      requires Valid()
      modifies this, board, motions
      ensures Valid()
      ensures ms < 0 ==> wait == NegativeDuration && State() == old(State())
      ensures ms >= 0 ==>
        wait.Passed? && Advance(old(State()), ms) == Advanced(State(), wait.ended, wait.arrivals, dropped)
    {
      hide World.Valid, Run, JumpEnds, Remaining;
      dropped := [];
      if ms < 0 {
        return NegativeDuration, [];
      }
      var newClock := clock + ms;
      var ended := JumpsEnding(newClock);
      var arrivals: seq<Arrival>;
      arrivals, dropped := ResolveAllDue(newClock);
      FinishAt(newClock);
      wait := Passed(ended, arrivals);
    }

    /** The clock moves and the jumps that have ended are dropped. */
    method FinishAt(newClock: int)
      requires Valid()
      modifies this`clock, this`jumps
      ensures Valid()
      ensures State() == old(State()).(
          clock := newClock, world := old(AsWorld()).(jumps := Remaining(old(jumps), newClock)))
    {
      hide World.Valid, Remaining;
      ghost var w := AsWorld();
      ValidWithoutJumps(w, Remaining(jumps, newClock));
      clock := newClock;
      DropEndedJumps();
      assert AsWorld() == w.(jumps := jumps);
    }
  }
}
