/** When things happen: motions still in flight after a call were not touched by it, and what
    each step leaves of the front of time, before which nothing is due. */
module Timing {
  import opened Pieces
  import opened Simulation
  import opened SimulationLaws

  // ----- motions in flight are whole -----------------------------------------------------------

  lemma CutArrivesEarlier(f: Flight, k: nat)
    requires f.Valid() && k < |f.stops|
    ensures f.Cut(k).Arrival() < f.stops[k].time
  {
  }

  lemma CollidedFlights(w: World, i: nat, j: nat, k: nat, l: nat)
    requires w.Valid() && IsCandidate(w, Collide(i, j, k, l))
    ensures forall f :: f in ResolveCollision(w, i, j, k, l).world.flights ==>
      f in w.flights || f.Arrival() <= TimeOf(w, Collide(i, j, k, l))
  {
    CutArrivesEarlier(w.flights[i], k);
    CutArrivesEarlier(w.flights[j], l);
    hide World.Valid, Flight.Valid;
  }

  lemma ResolvedFlights(w: World, o: Outcome)
    requires w.Valid() && IsCandidate(w, o)
    ensures forall f :: f in Resolve(w, o).world.flights ==> f in w.flights || f.Arrival() <= TimeOf(w, o)
  {
    match o {
      case Arrive(i) =>
        var f := w.flights[i];
        if f.stops != [] { CutArrivesEarlier(f, |f.stops| - 1); }
        hide World.Valid, Flight.Valid;
      case Collide(i, j, k, l) => CollidedFlights(w, i, j, k, l);
      case Meet(i, k) =>
        CutArrivesEarlier(w.flights[i], k);
        hide World.Valid, Flight.Valid;
    }
  }

  lemma {:induction false} SurvivorsAmong(w: World, bound: int, whole: set<Flight>)
    requires w.Valid()
    requires forall f :: f in w.flights ==> f in whole || f.Arrival() <= bound
    ensures forall f :: f in Run(w, bound).world.flights ==> f in whole
    decreases Measure(w)
  {
    var next := Next(w, bound);
    if next.Some? {
      var o := next.value;
      RunUnfold(w, o, bound);
      MeasureFalls(w, o);
      ResolvedFlights(w, o);
      SurvivorsAmong(Resolve(w, o).world, bound, whole);
    } else {
      NextNoneIffQuiet(w, bound);
      forall f | f in w.flights ensures f in whole {
        var i :| 0 <= i < |w.flights| && w.flights[i] == f;
        assert IsCandidate(w, Arrive(i));
      }
    }
  }

  /** Shortening is never visible between calls: what is in flight after a run was in flight,
      with the same timetable, before it. */
  lemma SurvivorsAreWhole(w: World, bound: int)
    requires w.Valid()
    ensures forall f :: f in Run(w, bound).world.flights ==> f in w.flights && bound < f.Arrival()
  {
    SurvivorsAmong(w, bound, set f | f in w.flights);
    RunQuiet(w, bound);
    var w' := Run(w, bound).world;
    forall f | f in w'.flights ensures bound < f.Arrival() {
      var i :| 0 <= i < |w'.flights| && w'.flights[i] == f;
      assert IsCandidate(w', Arrive(i));
    }
  }

  lemma RemoveKeeps(flights: seq<Flight>, i: nat, n: nat)
    requires i < |flights| && n < |flights| && n != i
    ensures flights[n] in RemoveAt(flights, i)
  {
    assert RemoveAt(flights, i)[if n < i then n else n - 1] == flights[n];
  }

  lemma CollisionKeepsOthers(w: World, i: nat, j: nat, k: nat, l: nat, n: nat)
    requires IsCandidate(w, Collide(i, j, k, l)) && n < |w.flights| && n != i && n != j
    ensures w.flights[n] in ResolveCollision(w, i, j, k, l).world.flights
  {
    RemoveKeeps(w.flights, i, n);
    RemoveKeeps(w.flights, j, n);
    RemoveKeeps(RemoveAt(w.flights, j), i, if n < j then n else n - 1);
    assert w.flights[i := w.flights[i].Cut(k)][n] == w.flights[n];
    assert w.flights[j := w.flights[j].Cut(l)][n] == w.flights[n];
    assert w.flights[i := w.flights[i].Cut(k)][j := w.flights[j].Cut(l)][n] == w.flights[n];
  }

  /** Until the time of its first cell, nothing happens to a motion. */
  lemma ResolveKeepsFuture(w: World, o: Outcome, f: Flight)
    requires w.Valid() && IsCandidate(w, o)
    requires f in w.flights && f.stops != [] && TimeOf(w, o) < f.stops[0].time
    ensures f in Resolve(w, o).world.flights
  {
    var n: nat :| n < |w.flights| && w.flights[n] == f;
    assert forall k :: 0 <= k < |f.stops| ==> f.stops[0].time <= f.stops[k].time;
    match o {
      case Arrive(i) => RemoveKeeps(w.flights, i, n);
      case Collide(i, j, k, l) => CollisionKeepsOthers(w, i, j, k, l, n);
      case Meet(i, k) => assert w.flights[i := w.flights[i].Cut(k)][n] == f;
    }
  }

  lemma {:induction false} RunKeepsFuture(w: World, bound: int, f: Flight)
    requires w.Valid()
    requires f in w.flights && f.stops != [] && bound < f.stops[0].time
    ensures f in Run(w, bound).world.flights
    decreases Measure(w)
  {
    var next := Next(w, bound);
    if next.Some? {
      var o := next.value;
      RunUnfold(w, o, bound);
      MeasureFalls(w, o);
      ResolveKeepsFuture(w, o, f);
      RunKeepsFuture(Resolve(w, o).world, bound, f);
    }
  }

  // ----- the front of time -----------------------------------------------------------------------

  /** Nothing is due before `t`, apart from the arrival of the flights in `late`. */
  ghost predicate Front(w: World, t: int, late: set<nat>) {
    forall p :: IsCandidate(w, p) ==> t <= TimeOf(w, p) || (p.Arrive? && p.i in late)
  }

  lemma CutKeepsFront(w: World, t: int, late: set<nat>, i: nat, k: nat)
    requires Front(w, t, late) && i < |w.flights| && k < |w.flights[i].stops|
    ensures Front(w.(flights := w.flights[i := w.flights[i].Cut(k)]), t, late + {i})
  {
    var w' := w.(flights := w.flights[i := w.flights[i].Cut(k)]);
    forall p | IsCandidate(w', p) ensures t <= TimeOf(w', p) || (p.Arrive? && p.i in late + {i}) {
      assert IsCandidate(w, p);
    }
  }

  function Unshift(n: nat, i: nat): nat {
    if n < i then n else n + 1
  }

  lemma RemoveKeepsFront(w: World, t: int, late: set<nat>, i: nat, left: set<nat>)
    requires Front(w, t, late) && i < |w.flights|
    requires forall n: nat :: Unshift(n, i) in late ==> n in left
    ensures Front(w.(flights := RemoveAt(w.flights, i)), t, left)
  {
    var w' := w.(flights := RemoveAt(w.flights, i));
    forall p | IsCandidate(w', p) ensures t <= TimeOf(w', p) || (p.Arrive? && p.i in left) {
      var q := match p
        case Arrive(n) => Arrive(Unshift(n, i))
        case Collide(m, n, k, l) => Collide(Unshift(m, i), Unshift(n, i), k, l)
        case Meet(n, k) => Meet(Unshift(n, i), k);
      assert IsCandidate(w, q) && TimeOf(w, q) == TimeOf(w', p);
    }
  }

  /** The flight that just landed leaves a piece that no other flight passes before `t`. */
  lemma LandKeepsFront(w: World, t: int, late: set<nat>, f: Flight)
    requires Front(w, t, late)
    requires forall j, l ::
      (0 <= j < |w.flights| && 0 <= l < |w.flights[j].stops| - 1 && w.flights[j].stops[l].cell == f.Destination())
      ==> t <= w.flights[j].stops[l].time
    ensures Front(Land(w, f).world, t, late)
  {
    var w' := Land(w, f).world;
    forall p | IsCandidate(w', p) ensures t <= TimeOf(w', p) || (p.Arrive? && p.i in late) {
      if !p.Meet? || w.flights[p.i].stops[p.k].cell != f.Destination() {
        assert IsCandidate(w, p);
      }
    }
  }

  lemma TakeKeepsFront(w: World, t: int, cell: Position)
    requires Front(w, t, {})
    ensures Front(w.(board := w.board - {cell}), t, {})
  {
    var w' := w.(board := w.board - {cell});
    forall p | IsCandidate(w', p) ensures t <= TimeOf(w', p) {
      assert IsCandidate(w, p);
    }
  }

  /** The candidate of `w` that a candidate was before flight `i` moved to the end of the list. */
  function BeforeRequeue(w: World, i: nat, p: Outcome): Outcome
    requires i < |w.flights|
  {
    var last := |w.flights| - 1;
    match p
    case Arrive(n) => Arrive(if n == last then i else Unshift(n, i))
    case Collide(m, n, k, l) =>
      var a, b := Unshift(m, i), if n == last then i else Unshift(n, i);
      if a < b then Collide(a, b, k, l) else Collide(b, a, l, k)
    case Meet(n, k) => Meet(if n == last then i else Unshift(n, i), k)
  }

  lemma BeforeRequeueIsCandidate(w: World, i: nat, p: Outcome)
    requires i < |w.flights| && w.flights[i].stops != []
    requires IsCandidate(w.(flights := RemoveAt(w.flights, i) + [w.flights[i].Cut(|w.flights[i].stops| - 1)]), p)
    requires !p.Arrive? || p.i != |w.flights| - 1
    ensures var w' := w.(flights := RemoveAt(w.flights, i) + [w.flights[i].Cut(|w.flights[i].stops| - 1)]);
      IsCandidate(w, BeforeRequeue(w, i, p)) && TimeOf(w, BeforeRequeue(w, i, p)) == TimeOf(w', p)
  {
  }

  /** Cutting the last stop of a flight and moving the flight to the end of the list. */
  lemma RequeueKeepsFront(w: World, t: int, i: nat)
    requires Front(w, t, {}) && i < |w.flights| && w.flights[i].stops != []
    ensures var f := w.flights[i];
      Front(w.(flights := RemoveAt(w.flights, i) + [f.Cut(|f.stops| - 1)]), t, {|w.flights| - 1})
  {
    var f, last: nat := w.flights[i], |w.flights| - 1;
    var w' := w.(flights := RemoveAt(w.flights, i) + [f.Cut(|f.stops| - 1)]);
    hide IsCandidate, TimeOf, BeforeRequeue;
    forall p | IsCandidate(w', p) ensures t <= TimeOf(w', p) || (p.Arrive? && p.i in {last}) {
      if !p.Arrive? || p.i != last {
        BeforeRequeueIsCandidate(w, i, p);
      }
    }
  }

  lemma NextIsFront(w: World, o: Outcome, bound: int)
    requires IsNext(w, o, bound)
    ensures Front(w, TimeOf(w, o), {})
  {
    forall p | IsCandidate(w, p) ensures TimeOf(w, o) <= TimeOf(w, p) {
      assert KeyLeq(KeyOf(w, o), KeyOf(w, p));
    }
  }
}
