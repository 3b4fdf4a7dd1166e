/** The discrete-event simulation behind `RealTimeArbiter.advance_time`, on values.

    A motion is seen here as a `Flight`: its timetable, one `Stop` for each cell of its path.
    Shortening a motion keeps a prefix of the timetable. Module `Motions` proves that the
    source's arithmetic (source, destination, start and arrival time) is exactly this. */
module Simulation {
  import opened Pieces

  datatype Stop = Stop(cell: Position, time: int)

  datatype Flight = Flight(piece: Piece, source: Position, start: int, stops: seq<Stop>) {
    function Destination(): Position {
      if stops == [] then source else stops[|stops| - 1].cell
    }

    function Arrival(): int {
      if stops == [] then start else stops[|stops| - 1].time
    }

    /** The flight stopped one cell before stop number `k`. */
    function Cut(k: nat): Flight
      requires k < |stops|
    {
      this.(stops := stops[..k])
    }

    ghost predicate Valid() {
      && (forall k :: 0 <= k < |stops| ==> start < stops[k].time && stops[k].cell != source)
      && (forall j, k :: 0 <= j < k < |stops| ==>
        stops[j].time < stops[k].time && stops[j].cell != stops[k].cell)
    }
  }

  datatype Jump = Jump(cell: Position, endTime: int)

  datatype World = World(board: Cells, flights: seq<Flight>, jumps: seq<Jump>) {
    /** Every piece is in one place: ids are unique over the board and the flights. */
    ghost predicate Valid() {
      && (forall c :: c in board ==> board[c].cell == c)
      && (forall c, d :: c in board && d in board && board[c].id == board[d].id ==> c == d)
      && (forall i :: 0 <= i < |flights| ==> flights[i].Valid())
      && (forall i, j :: 0 <= i < j < |flights| ==> flights[i].piece.id != flights[j].piece.id)
      && (forall i, c :: 0 <= i < |flights| && c in board ==> flights[i].piece.id != board[c].id)
    }

    ghost function Live(): set<Token> {
      BoardTokens(board) + FlightTokens(flights)
    }
  }

  ghost function BoardTokens(board: Cells): set<Token> {
    set c | c in board :: board[c].AsToken()
  }

  ghost function FlightTokens(flights: seq<Flight>): set<Token> {
    set i | 0 <= i < |flights| :: flights[i].piece.AsToken()
  }

  /** What the arbiter reports: `mover` reached `destination`, perhaps capturing.
      A mover that captures itself is destroyed there. */
  datatype Arrival = Arrival(mover: Token, source: Position, destination: Position, captured: Option<Token>) {
    predicate SelfDestroyed() {
      captured.Some? && captured.value.id == mover.id
    }

    predicate KingCaptured() {
      captured.Some? && captured.value.kind == King
    }
  }

  function Destroyed(f: Flight, cell: Position): Arrival {
    Arrival(f.piece.AsToken(), f.source, cell, Some(f.piece.AsToken()))
  }

  // ----- candidates ---------------------------------------------------------------------

  /** Something that can happen next. Flights and stops are named by index.
      Collide: flight i at stop k and flight j at stop l share a cell.
      Meet: flight i passes, at stop k short of its last, a cell where a piece stands. */
  datatype Outcome =
    | Arrive(i: nat)
    | Collide(i: nat, j: nat, k: nat, l: nat)
    | Meet(i: nat, k: nat)

  predicate IsCandidate(w: World, o: Outcome) {
    match o
    case Arrive(i) => i < |w.flights|
    case Collide(i, j, k, l) =>
      && i < j < |w.flights|
      && k < |w.flights[i].stops| && l < |w.flights[j].stops|
      && w.flights[i].stops[k].cell == w.flights[j].stops[l].cell
    case Meet(i, k) =>
      && i < |w.flights|
      && k + 1 < |w.flights[i].stops|
      && w.flights[i].stops[k].cell in w.board
  }

  function Min(a: int, b: int): int {
    if a < b then a else b
  }

  function TimeOf(w: World, o: Outcome): int
    requires IsCandidate(w, o)
  {
    match o
    case Arrive(i) => w.flights[i].Arrival()
    case Collide(i, j, k, l) => Max(w.flights[i].stops[k].time, w.flights[j].stops[l].time)
    case Meet(i, k) => w.flights[i].stops[k].time
  }

  /** The order in which candidates are resolved: by time, arrivals last at equal time, then
      by the ids involved. The cell only separates two meetings of the same two flights. */
  datatype Key = Key(time: int, rank: int, a: Id, b: Id, row: int, col: int)

  predicate KeyLeq(x: Key, y: Key) {
    x.time < y.time || (x.time == y.time &&
    (x.rank < y.rank || (x.rank == y.rank &&
    (x.a < y.a || (x.a == y.a &&
    (x.b < y.b || (x.b == y.b &&
    (x.row < y.row || (x.row == y.row && x.col <= y.col)))))))))
  }

  function KeyOf(w: World, o: Outcome): Key
    requires IsCandidate(w, o)
  {
    var t := TimeOf(w, o);
    match o
    case Arrive(i) => Key(t, 1, w.flights[i].piece.id, 0, 0, 0)
    case Collide(i, j, k, l) =>
      var a, b, c := w.flights[i].piece.id, w.flights[j].piece.id, w.flights[i].stops[k].cell;
      Key(t, 0, Min(a, b), Max(a, b), c.row, c.col)
    case Meet(i, k) =>
      var c := w.flights[i].stops[k].cell;
      Key(t, 0, w.flights[i].piece.id, w.board[c].id, c.row, c.col)
  }

  /** `o` is due by `bound` and no candidate comes before it. */
  ghost predicate IsNext(w: World, o: Outcome, bound: int) {
    && IsCandidate(w, o)
    && TimeOf(w, o) <= bound
    && forall p :: IsCandidate(w, p) ==> KeyLeq(KeyOf(w, o), KeyOf(w, p))
  }

  /** Nothing at all is due by `bound`. */
  ghost predicate Quiet(w: World, bound: int) {
    forall o :: IsCandidate(w, o) ==> bound < TimeOf(w, o)
  }

  ghost function Next(w: World, bound: int): (next: Option<Outcome>)
    ensures next.Some? ==> IsNext(w, next.value, bound)
  {
    if exists o :: IsNext(w, o, bound) then
      var o :| IsNext(w, o, bound);
      Some(o)
    else
      None
  }

  // ----- resolving one candidate ----------------------------------------------------------

  datatype Effect = Effect(world: World, arrivals: seq<Arrival>, dropped: seq<Token>)

  function RemoveAt<T>(s: seq<T>, i: nat): seq<T>
    requires i < |s|
  {
    s[..i] + s[i + 1..]
  }

  /** An enemy guard stands on the cell where the flight lands. */
  predicate Intercepted(w: World, f: Flight) {
    exists g :: 0 <= g < |w.jumps| && w.jumps[g].cell == f.Destination() &&
      f.Destination() in w.board && w.board[f.Destination()].color != f.piece.color
  }

  predicate FriendAhead(w: World, f: Flight) {
    f.Destination() in w.board && w.board[f.Destination()].color == f.piece.color
  }

  function Land(w: World, f: Flight): Effect {
    var cell := f.Destination();
    var captured := if cell in w.board then Some(w.board[cell].AsToken()) else None;
    Effect(w.(board := w.board[cell := f.piece.(cell := cell)]),
           [Arrival(f.piece.AsToken(), f.source, cell, captured)], [])
  }

  function ResolveArrival(w: World, i: nat): Effect
    requires i < |w.flights|
  {
    var f := w.flights[i];
    var w' := w.(flights := RemoveAt(w.flights, i));
    if Intercepted(w', f) then
      Effect(w', [Destroyed(f, f.Destination())], [])
    else if FriendAhead(w', f) then
      if f.stops == [] then
        Effect(w', [], [f.piece.AsToken()])
      else
        Effect(w'.(flights := w'.flights + [f.Cut(|f.stops| - 1)]), [], [])
    else
      Land(w', f)
  }

  function ResolveCollision(w: World, i: nat, j: nat, k: nat, l: nat): Effect
    requires IsCandidate(w, Collide(i, j, k, l))
  {
    var a, b := w.flights[i], w.flights[j];
    var cell := a.stops[k].cell;
    var timeA, timeB := a.stops[k].time, b.stops[l].time;
    if a.piece.color == b.piece.color then
      if timeA == timeB then
        Effect(w.(flights := w.flights[i := a.Cut(k)][j := b.Cut(l)]), [], [])
      else if timeA < timeB then
        Effect(w.(flights := w.flights[j := b.Cut(l)]), [], [])
      else
        Effect(w.(flights := w.flights[i := a.Cut(k)]), [], [])
    else if timeA == timeB then
      Effect(w.(flights := RemoveAt(RemoveAt(w.flights, j), i)), [Destroyed(a, cell), Destroyed(b, cell)], [])
    else
      var (early, late, e) := if timeA < timeB then (a, b, i) else (b, a, j);
      Effect(w.(flights := RemoveAt(w.flights, e)),
             [Arrival(late.piece.AsToken(), late.source, cell, Some(early.piece.AsToken()))], [])
  }

  function ResolveMeeting(w: World, i: nat, k: nat): Effect
    requires IsCandidate(w, Meet(i, k))
  {
    var f := w.flights[i];
    var cell := f.stops[k].cell;
    var other := w.board[cell];
    if other.color == f.piece.color then
      Effect(w.(flights := w.flights[i := f.Cut(k)]), [], [])
    else
      Effect(w.(board := w.board - {cell}), [Arrival(f.piece.AsToken(), f.source, cell, Some(other.AsToken()))], [])
  }

  function Resolve(w: World, o: Outcome): Effect
    requires IsCandidate(w, o)
  {
    match o
    case Arrive(i) => ResolveArrival(w, i)
    case Collide(i, j, k, l) => ResolveCollision(w, i, j, k, l)
    case Meet(i, k) => ResolveMeeting(w, i, k)
  }

  /** `second` happening after `first`. */
  function Then(first: Effect, second: Effect): Effect {
    Effect(second.world, first.arrivals + second.arrivals, first.dropped + second.dropped)
  }

  // ----- running to a time ------------------------------------------------------------------

  function Load(flights: seq<Flight>): nat {
    if flights == [] then 0 else |flights[0].stops| + 2 + Load(flights[1..])
  }

  /** Falls at every resolved outcome, so the loop of `advance_time` ends. */
  function Measure(w: World): nat {
    |w.board| + Load(w.flights)
  }

  lemma {:induction false} LoadUpdate(flights: seq<Flight>, i: nat, f: Flight)
    requires i < |flights|
    ensures Load(flights[i := f]) == Load(flights) - |flights[i].stops| + |f.stops|
  {
    if i > 0 {
      LoadUpdate(flights[1..], i - 1, f);
      assert flights[i := f][1..] == flights[1..][i - 1 := f];
    } else {
      assert flights[i := f][1..] == flights[1..];
    }
  }

  lemma {:induction false} LoadRemove(flights: seq<Flight>, i: nat)
    requires i < |flights|
    ensures Load(RemoveAt(flights, i)) == Load(flights) - |flights[i].stops| - 2
  {
    if i > 0 {
      LoadRemove(flights[1..], i - 1);
      assert RemoveAt(flights, i)[1..] == RemoveAt(flights[1..], i - 1);
    } else {
      assert RemoveAt(flights, 0) == flights[1..];
    }
  }

  lemma {:induction false} LoadAppend(flights: seq<Flight>, f: Flight)
    ensures Load(flights + [f]) == Load(flights) + |f.stops| + 2
  {
    if flights == [] {
      assert flights + [f] == [f];
    } else {
      LoadAppend(flights[1..], f);
      assert (flights + [f])[1..] == flights[1..] + [f];
    }
  }

  lemma ArrivalFalls(w: World, i: nat)
    requires i < |w.flights|
    ensures Measure(ResolveArrival(w, i).world) < Measure(w)
  {
    var f := w.flights[i];
    LoadRemove(w.flights, i);
    if f.stops != [] {
      LoadAppend(RemoveAt(w.flights, i), f.Cut(|f.stops| - 1));
    }
  }

  lemma CollisionFalls(w: World, i: nat, j: nat, k: nat, l: nat)
    requires IsCandidate(w, Collide(i, j, k, l))
    ensures Measure(ResolveCollision(w, i, j, k, l).world) < Measure(w)
  {
    var a, b := w.flights[i].Cut(k), w.flights[j].Cut(l);
    LoadUpdate(w.flights, i, a);
    LoadUpdate(w.flights, j, b);
    LoadUpdate(w.flights[i := a], j, b);
    LoadRemove(w.flights, i);
    LoadRemove(w.flights, j);
    LoadRemove(RemoveAt(w.flights, j), i);
  }

  lemma MeetingFalls(w: World, i: nat, k: nat)
    requires IsCandidate(w, Meet(i, k))
    ensures Measure(ResolveMeeting(w, i, k).world) < Measure(w)
  {
    LoadUpdate(w.flights, i, w.flights[i].Cut(k));
    var cell := w.flights[i].stops[k].cell;
    assert w.board.Keys == (w.board - {cell}).Keys + {cell};
  }

  /** Every resolved outcome makes the measure fall, whatever the state. */
  lemma MeasureFalls(w: World, o: Outcome)
    requires IsCandidate(w, o)
    ensures Measure(Resolve(w, o).world) < Measure(w)
  {
    match o {
      case Arrive(i) => ArrivalFalls(w, i);
      case Collide(i, j, k, l) => CollisionFalls(w, i, j, k, l);
      case Meet(i, k) => MeetingFalls(w, i, k);
    }
  }

  /** The loop of `advance_time`: resolve what is next until nothing is due by `bound`. */
  ghost function Run(w: World, bound: int): Effect
    decreases Measure(w)
  {
    var next := Next(w, bound);
    if next.None? then
      Effect(w, [], [])
    else
      MeasureFalls(w, next.value);
      var first := Resolve(w, next.value);
      var rest := Run(first.world, bound);
      Then(first, rest)
  }
}
