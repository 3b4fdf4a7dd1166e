/** What every resolved outcome and every run of the simulation keeps. */
module SimulationLaws {
  import opened Pieces
  import opened Simulation

  // ----- which candidate is next --------------------------------------------------------------

  ghost function Candidates(w: World): set<Outcome> {
    (set i | 0 <= i < |w.flights| :: Arrive(i)) +
    (set i, j, k, l |
      0 <= i < |w.flights| && 0 <= j < |w.flights| &&
      0 <= k < |w.flights[i].stops| && 0 <= l < |w.flights[j].stops| &&
      IsCandidate(w, Collide(i, j, k, l)) :: Collide(i, j, k, l)) +
    (set i, k | 0 <= i < |w.flights| && 0 <= k < |w.flights[i].stops| && IsCandidate(w, Meet(i, k)) :: Meet(i, k))
  }

  lemma CandidatesComplete(w: World, o: Outcome)
    ensures o in Candidates(w) <==> IsCandidate(w, o)
  {
  }

  lemma {:induction false} LeastExists(w: World, s: set<Outcome>) returns (least: Outcome)
    requires s != {}
    requires forall o :: o in s ==> IsCandidate(w, o)
    ensures least in s
    ensures forall o :: o in s ==> KeyLeq(KeyOf(w, least), KeyOf(w, o))
  {
    var o :| o in s;
    if s == {o} {
      least := o;
    } else {
      var rest := LeastExists(w, s - {o});
      least := if KeyLeq(KeyOf(w, o), KeyOf(w, rest)) then o else rest;
      assert s == (s - {o}) + {o};
    }
  }

  /** The loop stops exactly when nothing is due. */
  lemma NextNoneIffQuiet(w: World, bound: int)
    ensures Next(w, bound).None? <==> Quiet(w, bound)
  {
    if !Quiet(w, bound) {
      var o :| IsCandidate(w, o) && TimeOf(w, o) <= bound;
      CandidatesComplete(w, o);
      forall p ensures p in Candidates(w) <==> IsCandidate(w, p) { CandidatesComplete(w, p); }
      var least := LeastExists(w, Candidates(w));
      assert KeyLeq(KeyOf(w, least), KeyOf(w, o));
      assert IsNext(w, least, bound);
    }
  }

  /** Different candidates have different keys, so what is resolved next never depends on the
      order in which the source lists the motions. */
  lemma KeyDetermines(w: World, o: Outcome, p: Outcome)
    requires w.Valid() && IsCandidate(w, o) && IsCandidate(w, p)
    requires KeyOf(w, o) == KeyOf(w, p)
    ensures o == p
  {
  }

  lemma NextUnique(w: World, o: Outcome, bound: int)
    requires w.Valid() && IsNext(w, o, bound)
    ensures Next(w, bound) == Some(o)
  {
    var p := Next(w, bound).value;
    assert KeyLeq(KeyOf(w, o), KeyOf(w, p)) && KeyLeq(KeyOf(w, p), KeyOf(w, o));
    KeyDetermines(w, o, p);
  }

  /** The piece that comes first in the order of what happens at the same time: the one that
      arrives or passes, and of two that meet in flight the one with the smaller id. */
  function FirstOf(w: World, o: Outcome): Id
    requires IsCandidate(w, o)
  {
    match o
    case Arrive(i) => w.flights[i].piece.id
    case Collide(i, j, k, l) => Min(w.flights[i].piece.id, w.flights[j].piece.id)
    case Meet(i, k) => w.flights[i].piece.id
  }

  function SecondOf(w: World, o: Outcome): Id
    requires IsCandidate(w, o) && !o.Arrive?
  {
    if o.Collide? then Max(w.flights[o.i].piece.id, w.flights[o.j].piece.id)
    else w.board[w.flights[o.i].stops[o.k].cell].id
  }

  function PlaceOf(w: World, o: Outcome): Position
    requires IsCandidate(w, o) && !o.Arrive?
  {
    w.flights[o.i].stops[o.k].cell
  }

  /** What is next is not later than anything else. At the same time it is no arrival unless
      everything then is, and then the pieces decide, smaller ids first. Of two meetings of the
      same pieces the one on the upper row comes first, and on one row the one to the left. */
  lemma NextInOrder(w: World, o: Outcome, bound: int, p: Outcome)
    requires IsNext(w, o, bound) && IsCandidate(w, p)
    ensures TimeOf(w, o) <= TimeOf(w, p)
    ensures TimeOf(w, o) == TimeOf(w, p) && o.Arrive? ==> p.Arrive?
    ensures TimeOf(w, o) == TimeOf(w, p) && o.Arrive? == p.Arrive? ==> FirstOf(w, o) <= FirstOf(w, p)
    ensures TimeOf(w, o) == TimeOf(w, p) && !o.Arrive? && !p.Arrive? && FirstOf(w, o) == FirstOf(w, p) ==>
      && SecondOf(w, o) <= SecondOf(w, p)
      && (SecondOf(w, o) == SecondOf(w, p) ==>
        var here, there := PlaceOf(w, o), PlaceOf(w, p);
        here.row < there.row || (here.row == there.row && here.col <= there.col))
  {
    assert KeyLeq(KeyOf(w, o), KeyOf(w, p));
  }

  // ----- every outcome keeps the world valid ----------------------------------------------------

  lemma ValidUpdate(w: World, i: nat, k: nat)
    requires w.Valid() && i < |w.flights| && k < |w.flights[i].stops|
    ensures w.(flights := w.flights[i := w.flights[i].Cut(k)]).Valid()
  {
  }

  lemma ValidRemove(w: World, i: nat)
    requires w.Valid() && i < |w.flights|
    ensures var w' := w.(flights := RemoveAt(w.flights, i));
      && w'.Valid()
      && (forall j :: 0 <= j < |w'.flights| ==> w'.flights[j].piece.id != w.flights[i].piece.id)
  {
  }

  lemma ValidAppend(w: World, f: Flight)
    requires w.Valid() && f.Valid()
    requires forall j :: 0 <= j < |w.flights| ==> w.flights[j].piece.id != f.piece.id
    requires forall c :: c in w.board ==> w.board[c].id != f.piece.id
    ensures w.(flights := w.flights + [f]).Valid()
  {
  }

  lemma ValidLand(w: World, f: Flight)
    requires w.Valid()
    requires forall j :: 0 <= j < |w.flights| ==> w.flights[j].piece.id != f.piece.id
    requires forall c :: c in w.board ==> w.board[c].id != f.piece.id
    ensures Land(w, f).world.Valid()
  {
  }

  lemma LaunchValid(w: World, source: Position, f: Flight)
    requires w.Valid() && source in w.board && f.Valid() && f.piece == w.board[source]
    ensures w.(board := w.board - {source}, flights := w.flights + [f]).Valid()
  {
  }

  lemma OnlyThere(w: World, cell: Position, other: Position)
    requires w.Valid() && cell in w.board && other in w.board && w.board[other].id == w.board[cell].id
    ensures other == cell
  {
  }

  lemma ArrivalValid(w: World, i: nat)
    requires w.Valid() && i < |w.flights|
    ensures ResolveArrival(w, i).world.Valid()
  {
    var f := w.flights[i];
    var w' := w.(flights := RemoveAt(w.flights, i));
    FlightApart(w, i);
    hide World.Valid, Flight.Valid;
    ValidRemove(w, i);
    if f.stops != [] {
      ValidAppend(w', f.Cut(|f.stops| - 1));
    }
    ValidLand(w', f);
  }

  lemma FlightApart(w: World, i: nat)
    requires w.Valid() && i < |w.flights|
    ensures var f := w.flights[i];
      && f.Valid() && (f.stops != [] ==> f.Cut(|f.stops| - 1).Valid())
      && forall c :: c in w.board ==> w.board[c].id != f.piece.id
  {
  }

  lemma CollisionValid(w: World, i: nat, j: nat, k: nat, l: nat)
    requires w.Valid() && IsCandidate(w, Collide(i, j, k, l))
    ensures ResolveCollision(w, i, j, k, l).world.Valid()
  {
    hide World.Valid;
    ValidUpdate(w, i, k);
    ValidUpdate(w, j, l);
    ValidUpdate(w.(flights := w.flights[i := w.flights[i].Cut(k)]), j, l);
    ValidRemove(w, i);
    ValidRemove(w, j);
    ValidRemove(w.(flights := RemoveAt(w.flights, j)), i);
  }

  lemma ResolveValid(w: World, o: Outcome)
    requires w.Valid() && IsCandidate(w, o)
    ensures Resolve(w, o).world.Valid() && Resolve(w, o).world.jumps == w.jumps
  {
    match o {
      case Arrive(i) => ArrivalValid(w, i);
      case Collide(i, j, k, l) => CollisionValid(w, i, j, k, l);
      case Meet(i, k) => ValidUpdate(w, i, k);
    }
  }

  lemma {:induction false} RunValid(w: World, bound: int)
    requires w.Valid()
    ensures Run(w, bound).world.Valid() && Run(w, bound).world.jumps == w.jumps
    decreases Measure(w)
  {
    var next := Next(w, bound);
    if next.Some? {
      ResolveValid(w, next.value);
      MeasureFalls(w, next.value);
      RunValid(Resolve(w, next.value).world, bound);
    }
  }

  // ----- nothing is left due, and time can be split ----------------------------------------------

  lemma {:induction false} RunQuiet(w: World, bound: int)
    ensures Quiet(Run(w, bound).world, bound)
    decreases Measure(w)
  {
    var next := Next(w, bound);
    if next.Some? {
      MeasureFalls(w, next.value);
      RunQuiet(Resolve(w, next.value).world, bound);
    } else {
      NextNoneIffQuiet(w, bound);
    }
  }

  lemma QuietRunsNothing(w: World, bound: int)
    requires Quiet(w, bound)
    ensures Run(w, bound) == Effect(w, [], [])
  {
    NextNoneIffQuiet(w, bound);
  }

  lemma ThenAssociative(a: Effect, b: Effect, c: Effect)
    ensures Then(Then(a, b), c) == Then(a, Then(b, c))
  {
    assert (a.arrivals + b.arrivals) + c.arrivals == a.arrivals + (b.arrivals + c.arrivals);
    assert (a.dropped + b.dropped) + c.dropped == a.dropped + (b.dropped + c.dropped);
  }

  lemma RunUnfold(w: World, o: Outcome, bound: int)
    requires w.Valid() && IsNext(w, o, bound)
    ensures Resolve(w, o).world.Valid()
    ensures Run(w, bound) == Then(Resolve(w, o), Run(Resolve(w, o).world, bound))
  {
    NextUnique(w, o, bound);
    ResolveValid(w, o);
  }

  /** Running to `early` and then on to `late` is running to `late`. */
  lemma {:induction false} RunSplit(w: World, early: int, late: int)
    requires w.Valid() && early <= late
    ensures Run(w, late) == Then(Run(w, early), Run(Run(w, early).world, late))
    decreases Measure(w)
  {
    hide World.Valid, IsNext, IsCandidate, Resolve, Measure, Run, Next, Quiet;
    var next := Next(w, early);
    if next.Some? {
      var o := next.value;
      NextIsCandidate(w, o, early, late);
      var first := Resolve(w, o);
      RunUnfold(w, o, early);
      RunUnfold(w, o, late);
      MeasureFalls(w, o);
      RunSplit(first.world, early, late);
      ThenAssociative(first, Run(first.world, early), Run(Run(first.world, early).world, late));
    } else {
      NextNoneIffQuiet(w, early);
      QuietRunsNothing(w, early);
      assert Then(Effect(w, [], []), Run(w, late)) == Run(w, late);
    }
  }

  lemma NextIsCandidate(w: World, o: Outcome, early: int, late: int)
    requires IsNext(w, o, early) && early <= late
    ensures IsCandidate(w, o) && IsNext(w, o, late)
  {
    hide KeyLeq, KeyOf;
  }
}
