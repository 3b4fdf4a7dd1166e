/** What the reports of a run say is true of the board it leaves. */
module Reports {
  import opened Pieces
  import opened Simulation
  import opened SimulationLaws

  /** A piece is captured by the enemy, or destroys itself. */
  ghost predicate Fair(e: Arrival) {
    e.captured.Some? ==>
      if e.SelfDestroyed() then e.captured.value == e.mover else e.captured.value.color == e.mover.color.Other()
  }

  ghost predicate LandedBy(arrivals: seq<Arrival>, cell: Position, t: Token) {
    exists n :: 0 <= n < |arrivals| && arrivals[n].mover == t && arrivals[n].destination == cell &&
      !arrivals[n].SelfDestroyed()
  }

  /** Whatever stands on the board afterwards stood there before or is reported landing there. */
  ghost predicate Explained(before: Cells, after: Cells, arrivals: seq<Arrival>) {
    forall c :: c in after ==>
      (c in before && before[c] == after[c]) || LandedBy(arrivals, c, after[c].AsToken())
  }

  lemma ArrivalReports(w: World, i: nat)
    requires w.Valid() && i < |w.flights|
    ensures var e := ResolveArrival(w, i);
      Explained(w.board, e.world.board, e.arrivals) && forall n :: 0 <= n < |e.arrivals| ==> Fair(e.arrivals[n])
  {
    var e, f := ResolveArrival(w, i), w.flights[i];
    forall c | c in e.world.board && !(c in w.board && w.board[c] == e.world.board[c])
      ensures LandedBy(e.arrivals, c, e.world.board[c].AsToken())
    {
      assert e.arrivals[0].mover == f.piece.AsToken();
    }
  }

  lemma ResolveReports(w: World, o: Outcome)
    requires w.Valid() && IsCandidate(w, o)
    ensures var e := Resolve(w, o);
      Explained(w.board, e.world.board, e.arrivals) && forall n :: 0 <= n < |e.arrivals| ==> Fair(e.arrivals[n])
  {
    if o.Arrive? { ArrivalReports(w, o.i); }
  }

  lemma ExplainedTwice(a: Cells, b: Cells, c: Cells, first: seq<Arrival>, second: seq<Arrival>)
    requires Explained(a, b, first) && Explained(b, c, second)
    ensures Explained(a, c, first + second)
  {
    forall cell | cell in c && !(cell in a && a[cell] == c[cell])
      ensures LandedBy(first + second, cell, c[cell].AsToken())
    {
      if cell in b && b[cell] == c[cell] {
        var n :| 0 <= n < |first| && first[n].mover == c[cell].AsToken() && first[n].destination == cell &&
          !first[n].SelfDestroyed();
        assert (first + second)[n] == first[n];
      } else {
        var n :| 0 <= n < |second| && second[n].mover == c[cell].AsToken() && second[n].destination == cell &&
          !second[n].SelfDestroyed();
        assert (first + second)[|first| + n] == second[n];
      }
    }
  }

  lemma {:induction false} RunReports(w: World, bound: int)
    requires w.Valid()
    ensures var e := Run(w, bound);
      Explained(w.board, e.world.board, e.arrivals) && forall n :: 0 <= n < |e.arrivals| ==> Fair(e.arrivals[n])
    decreases Measure(w)
  {
    var next := Next(w, bound);
    if next.Some? {
      var o := next.value;
      var first := Resolve(w, o);
      RunUnfold(w, o, bound);
      MeasureFalls(w, o);
      ResolveReports(w, o);
      RunReports(first.world, bound);
      var second := Run(first.world, bound);
      ExplainedTwice(w.board, first.world.board, second.world.board, first.arrivals, second.arrivals);
    }
  }
}
