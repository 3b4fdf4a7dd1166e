/** A shortened motion stops cleanly: it lands next, on an empty cell, capturing nothing. */
module CleanStops {
  import opened Pieces
  import opened Simulation
  import opened SimulationLaws
  import opened Timing

  /** The flights that `o` cuts, by their index in the world after it. */
  ghost function Shortened(w: World, o: Outcome): set<nat>
    requires IsCandidate(w, o)
  {
    match o
    case Arrive(i) =>
      var f := w.flights[i];
      var w' := w.(flights := RemoveAt(w.flights, i));
      if !Intercepted(w', f) && FriendAhead(w', f) && f.stops != [] then {|w.flights| - 1} else {}
    case Collide(i, j, k, l) =>
      var a, b := w.flights[i], w.flights[j];
      if a.piece.color != b.piece.color then {}
      else if a.stops[k].time == b.stops[l].time then {i, j}
      else if a.stops[k].time < b.stops[l].time then {j} else {i}
    case Meet(i, k) =>
      if w.board[w.flights[i].stops[k].cell].color == w.flights[i].piece.color then {i} else {}
  }

  /** A motion back on its own source, which has no cell left to travel. */
  predicate ReturnsHome(w: World, o: Outcome)
    requires IsCandidate(w, o)
  {
    o.Arrive? && w.flights[o.i].stops == []
  }

  /** No other flight passes the landing cell until after the landing: they would have collided. */
  lemma NoneAhead(w: World, i: nat, bound: int, j: nat, l: nat)
    requires w.Valid() && IsNext(w, Arrive(i), bound) && w.flights[i].stops != []
    requires j < |w.flights| && j != i && l < |w.flights[j].stops|
    requires w.flights[j].stops[l].cell == w.flights[i].Destination()
    ensures w.flights[i].Arrival() < w.flights[j].stops[l].time
  {
    var k := |w.flights[i].stops| - 1;
    var meeting := if i < j then Collide(i, j, k, l) else Collide(j, i, l, k);
    assert IsCandidate(w, meeting);
    assert KeyLeq(KeyOf(w, Arrive(i)), KeyOf(w, meeting));
  }

  lemma ArrivalFront(w: World, i: nat, bound: int)
    requires w.Valid() && IsNext(w, Arrive(i), bound) && w.flights[i].stops != []
    ensures Front(ResolveArrival(w, i).world, w.flights[i].Arrival(), Shortened(w, Arrive(i)))
  {
    var f, t := w.flights[i], w.flights[i].Arrival();
    var w' := w.(flights := RemoveAt(w.flights, i));
    NextIsFront(w, Arrive(i), bound);
    RemoveKeepsFront(w, t, {}, i, {});
    if Intercepted(w', f) {
    } else if FriendAhead(w', f) {
      RequeueKeepsFront(w, t, i);
    } else {
      forall j, l |
        0 <= j < |w'.flights| && 0 <= l < |w'.flights[j].stops| && w'.flights[j].stops[l].cell == f.Destination()
        ensures t <= w'.flights[j].stops[l].time
      {
        NoneAhead(w, i, bound, Unshift(j, i), l);
      }
      LandKeepsFront(w', t, {}, f);
    }
  }

  lemma CollisionFront(w: World, i: nat, j: nat, k: nat, l: nat, bound: int)
    requires w.Valid() && IsNext(w, Collide(i, j, k, l), bound)
    ensures var o := Collide(i, j, k, l);
      Front(ResolveCollision(w, i, j, k, l).world, TimeOf(w, o), Shortened(w, o))
  {
    var t := TimeOf(w, Collide(i, j, k, l));
    NextIsFront(w, Collide(i, j, k, l), bound);
    if w.flights[i].piece.color == w.flights[j].piece.color {
      CutKeepsFront(w, t, {}, i, k);
      CutKeepsFront(w, t, {}, j, l);
      CutKeepsFront(w.(flights := w.flights[i := w.flights[i].Cut(k)]), t, {i}, j, l);
    } else {
      RemoveKeepsFront(w, t, {}, i, {});
      RemoveKeepsFront(w, t, {}, j, {});
      RemoveKeepsFront(w.(flights := RemoveAt(w.flights, j)), t, {}, i, {});
    }
  }

  // ----- coming home ----------------------------------------------------------------------------

  /** Another motion passes the source of flight `n`, on its way further, before `t`. */
  ghost predicate PassedOver(w: World, t: int, n: nat)
    requires n < |w.flights|
  {
    exists m, k :: 0 <= m < |w.flights| && m != n && 0 <= k < |w.flights[m].stops| - 1 &&
      w.flights[m].stops[k].cell == w.flights[n].source && w.flights[m].stops[k].time < t
  }

  /** The piece is destroyed or dropped at home, or nothing had flown over its home. */
  ghost predicate QuietReturn(w: World, t: int, n: nat)
    requires n < |w.flights|
  {
    Intercepted(w, w.flights[n]) || FriendAhead(w, w.flights[n]) || !PassedOver(w, t, n)
  }

  /** When a piece lands back on its own source, the front of time is kept exactly if the
      return is quiet. */
  lemma HomeKeepsFront(w: World, t: int, late: set<nat>, n: nat, left: set<nat>)
    requires Front(w, t, late) && n < |w.flights| && w.flights[n].stops == []
    requires forall m: nat :: Unshift(m, n) in late ==> m in left
    ensures Front(ResolveArrival(w, n).world, t, left) <==> QuietReturn(w, t, n)
  {
    var f := w.flights[n];
    var w' := w.(flights := RemoveAt(w.flights, n));
    RemoveKeepsFront(w, t, late, n, left);
    if !Intercepted(w, f) && !FriendAhead(w, f) {
      if PassedOver(w, t, n) {
        var m, k :| 0 <= m < |w.flights| && m != n && 0 <= k < |w.flights[m].stops| - 1 &&
          w.flights[m].stops[k].cell == f.source && w.flights[m].stops[k].time < t;
        assert IsCandidate(Land(w', f).world, Meet(if m < n then m else m - 1, k));
      } else {
        LandKeepsFront(w', t, left, f);
      }
    }
  }

  /** The loop never works backwards in time: after what is next at time t, nothing is due
      before t except the arrival of a motion that this very step shortened. The one exception
      is a piece landing back on its own source, which may be in the middle of the path of a
      motion that has already flown over it. */
  lemma ResolveKeepsFront(w: World, o: Outcome, bound: int)
    requires w.Valid() && IsNext(w, o, bound)
    ensures Front(Resolve(w, o).world, TimeOf(w, o), Shortened(w, o)) <==>
      (ReturnsHome(w, o) ==> QuietReturn(w, TimeOf(w, o), o.i))
  {
    match o {
      case Arrive(i) =>
        if w.flights[i].stops != [] {
          ArrivalFront(w, i, bound);
        } else {
          NextIsFront(w, o, bound);
          HomeKeepsFront(w, TimeOf(w, o), {}, i, {});
        }
      case Collide(i, j, k, l) => CollisionFront(w, i, j, k, l, bound);
      case Meet(i, k) => MeetingFront(w, i, k, bound);
    }
  }

  lemma MeetingFront(w: World, i: nat, k: nat, bound: int)
    requires w.Valid() && IsNext(w, Meet(i, k), bound)
    ensures Front(ResolveMeeting(w, i, k).world, TimeOf(w, Meet(i, k)), Shortened(w, Meet(i, k)))
  {
    var o := Meet(i, k);
    NextIsFront(w, o, bound);
    CutKeepsFront(w, TimeOf(w, o), {}, i, k);
    TakeKeepsFront(w, TimeOf(w, o), w.flights[i].stops[k].cell);
  }

  /** What `Shortened` names is indeed cut: each such flight is a proper prefix of the one it
      was, arrives before the time of the outcome, and ends on a cell with no piece on it. */
  lemma ShortenedAhead(w: World, o: Outcome, bound: int, n: nat)
    requires w.Valid() && IsNext(w, o, bound) && n in Shortened(w, o)
    ensures n < |Resolve(w, o).world.flights|
    ensures var g := Resolve(w, o).world.flights[n];
      && g.Arrival() < TimeOf(w, o)
      && (g.stops != [] ==> g.Destination() !in Resolve(w, o).world.board)
  {
    assert IsCandidate(w, o);
    hide World.Valid, IsNext;
    match o {
      case Arrive(i) => CutEndsFree(w, o, bound, i, |w.flights[i].stops| - 1);
      case Collide(i, j, k, l) => CollisionAhead(w, i, j, k, l, bound, n);
      case Meet(i, k) => CutEndsFree(w, o, bound, i, k);
    }
  }

  lemma CollisionAhead(w: World, i: nat, j: nat, k: nat, l: nat, bound: int, n: nat)
    requires w.Valid() && IsNext(w, Collide(i, j, k, l), bound) && n in Shortened(w, Collide(i, j, k, l))
    ensures var world := ResolveCollision(w, i, j, k, l).world;
      && n < |world.flights| && world.board == w.board
      && world.flights[n].Arrival() < TimeOf(w, Collide(i, j, k, l))
      && (world.flights[n].stops != [] ==> world.flights[n].Destination() !in world.board)
  {
    var o := Collide(i, j, k, l);
    assert IsCandidate(w, o);
    hide World.Valid, IsNext;
    if n == i { CutEndsFree(w, o, bound, i, k); } else { CutEndsFree(w, o, bound, j, l); }
    assert ResolveCollision(w, i, j, k, l).world.flights[n] ==
      if n == i then w.flights[i].Cut(k) else w.flights[j].Cut(l);
    hide *;
  }

  lemma CutEndsFree(w: World, o: Outcome, bound: int, i: nat, k: nat)
    requires w.Valid() && IsNext(w, o, bound)
    requires i < |w.flights| && k < |w.flights[i].stops| && w.flights[i].stops[k].time <= TimeOf(w, o)
    ensures var g := w.flights[i].Cut(k);
      g.Arrival() < TimeOf(w, o) && (g.stops != [] ==> g.Destination() !in w.board)
  {
    CutArrivesEarlier(w.flights[i], k);
    if k > 0 {
      var before := Meet(i, k - 1);
      assert IsCandidate(w, before) ==> KeyLeq(KeyOf(w, o), KeyOf(w, before));
    }
  }

  /** A flight that is late on an otherwise quiet front, ending on an empty cell, lands next. */
  lemma LateLands(w: World, t: int, late: set<nat>, n: nat, left: set<nat>)
    requires w.Valid() && n in late && n < |w.flights| && Front(w, t, late)
    requires w.flights[n].Arrival() < t
    requires w.flights[n].stops != [] && w.flights[n].Destination() !in w.board
    requires forall m: nat :: Unshift(m, n) in late ==> m in left
    ensures Resolve(w, Arrive(n)) == Land(w.(flights := RemoveAt(w.flights, n)), w.flights[n])
    ensures Front(Resolve(w, Arrive(n)).world, t, left)
  {
    var f := w.flights[n];
    var w' := w.(flights := RemoveAt(w.flights, n));
    RemoveKeepsFront(w, t, late, n, left);
    forall j, l | 0 <= j < |w'.flights| && 0 <= l < |w'.flights[j].stops| &&
      w'.flights[j].stops[l].cell == f.Destination()
      ensures t <= w'.flights[j].stops[l].time
    {
      var m, k := Unshift(j, n), |f.stops| - 1;
      assert IsCandidate(w, if n < m then Collide(n, m, k, l) else Collide(m, n, l, k));
    }
    LandKeepsFront(w', t, left, f);
  }

  lemma LateIsNext(w: World, t: int, late: set<nat>, n: nat, bound: int)
    requires w.Valid() && n in late && n < |w.flights| && Front(w, t, late) && t <= bound
    requires w.flights[n].Arrival() < t
    requires forall m :: m in late && m < |w.flights| ==>
      KeyLeq(KeyOf(w, Arrive(n)), KeyOf(w, Arrive(m)))
    ensures IsNext(w, Arrive(n), bound)
  {
  }

  /** Clean stop, first half. Whatever shortens a single motion, the next thing resolved is
      the arrival of that motion. */
  lemma ShortenedArrivesNext(w: World, o: Outcome, bound: int, n: nat)
    requires w.Valid() && IsNext(w, o, bound) && Shortened(w, o) == {n}
    ensures var e := Resolve(w, o);
      e.arrivals == [] && e.dropped == [] && Next(e.world, bound) == Some(Arrive(n))
  {
    var e, t := Resolve(w, o), TimeOf(w, o);
    ResolveValid(w, o);
    ResolveKeepsFront(w, o, bound);
    ShortenedAhead(w, o, bound, n);
    LateIsNext(e.world, t, {n}, n, bound);
    NextUnique(e.world, Arrive(n), bound);
  }

  lemma LandOnEmpty(w: World, f: Flight)
    requires f.Destination() !in w.board
    ensures var e := Land(w, f);
      && e.arrivals == [Arrival(f.piece.AsToken(), f.source, f.Destination(), None)]
      && e.dropped == []
      && PieceAt(e.world.board, f.Destination()) == Some(f.piece.(cell := f.Destination()))
      && forall c :: c != f.Destination() ==> PieceAt(e.world.board, c) == PieceAt(w.board, c)
  {
  }

  /** Clean stop, second half. A motion stopped on a cell of its path lands there on an empty
      cell, captures nothing and shortens nothing, and everything else is as far ahead in time
      as it was before the stop. */
  lemma CleanStop(w: World, o: Outcome, bound: int, n: nat)
    requires w.Valid() && IsNext(w, o, bound) && Shortened(w, o) == {n}
    requires n < |Resolve(w, o).world.flights| && Resolve(w, o).world.flights[n].stops != []
    ensures var stopped := Resolve(w, o).world;
      var f := stopped.flights[n];
      var landed := Resolve(stopped, Arrive(n));
      && f.Destination() !in stopped.board
      && landed.arrivals == [Arrival(f.piece.AsToken(), f.source, f.Destination(), None)]
      && landed.dropped == []
      && landed.world.flights == RemoveAt(stopped.flights, n)
      && PieceAt(landed.world.board, f.Destination()) == Some(f.piece.(cell := f.Destination()))
      && Front(landed.world, TimeOf(w, o), {})
  {
    var stopped, t := Resolve(w, o).world, TimeOf(w, o);
    ResolveValid(w, o);
    ResolveKeepsFront(w, o, bound);
    ShortenedAhead(w, o, bound, n);
    LateLands(stopped, t, {n}, n, {});
    LandOnEmpty(stopped.(flights := RemoveAt(stopped.flights, n)), stopped.flights[n]);
  }

  /** A motion stopped before its first cell comes home next. Everything else is then as far
      ahead in time as before the stop exactly if it comes home quietly. */
  lemma HomeStop(w: World, o: Outcome, bound: int, n: nat)
    requires w.Valid() && IsNext(w, o, bound) && Shortened(w, o) == {n}
    requires n < |Resolve(w, o).world.flights| && Resolve(w, o).world.flights[n].stops == []
    ensures var stopped, t := Resolve(w, o).world, TimeOf(w, o);
      Front(Resolve(stopped, Arrive(n)).world, t, {}) <==> QuietReturn(stopped, t, n)
  {
    ResolveKeepsFront(w, o, bound);
    HomeKeepsFront(Resolve(w, o).world, TimeOf(w, o), {n}, n, {});
  }

  // ----- ties -----------------------------------------------------------------------------------

  lemma TieApart(w: World, i: nat, j: nat, k: nat, l: nat, bound: int)
    requires w.Valid() && IsNext(w, Collide(i, j, k, l), bound) && k > 0 && l > 0
    requires w.flights[i].stops[k].time == w.flights[j].stops[l].time
    ensures w.flights[i].stops[k - 1].cell != w.flights[j].stops[l - 1].cell
  {
    var before := Collide(i, j, k - 1, l - 1);
    assert IsCandidate(w, before) ==> KeyLeq(KeyOf(w, Collide(i, j, k, l)), KeyOf(w, before));
  }

  function Landing(f: Flight): Arrival {
    Arrival(f.piece.AsToken(), f.source, f.Destination(), None)
  }

  /** Flight `n` is late and has an empty cell to land on. */
  ghost predicate Stopping(w: World, t: int, n: nat) {
    && n < |w.flights|
    && w.flights[n].Arrival() < t
    && w.flights[n].stops != []
    && w.flights[n].Destination() !in w.board
  }

  /** The first of the late flights lands on its empty cell; the run goes on from there. */
  lemma LateFirst(w: World, t: int, late: set<nat>, n: nat, left: set<nat>, bound: int)
    requires w.Valid() && n in late && Front(w, t, late) && t <= bound && Stopping(w, t, n)
    requires forall m :: m in late && m < |w.flights| ==> KeyLeq(KeyOf(w, Arrive(n)), KeyOf(w, Arrive(m)))
    requires forall m: nat :: Unshift(m, n) in late ==> m in left
    ensures var after := Resolve(w, Arrive(n)).world;
      && after.Valid() && Front(after, t, left)
      && after.flights == RemoveAt(w.flights, n)
      && after.board.Keys == w.board.Keys + {w.flights[n].Destination()}
      && Run(w, bound).arrivals == [Landing(w.flights[n])] + Run(after, bound).arrivals
  {
    LateIsNext(w, t, late, n, bound);
    LateLands(w, t, late, n, left);
    RunUnfold(w, Arrive(n), bound);
    LandOnEmpty(w.(flights := RemoveAt(w.flights, n)), w.flights[n]);
  }

  /** `m` lands next once `n` is gone, on a board that gained only the cell of `n`. */
  lemma LateSecond(w: World, one: World, t: int, n: nat, m: nat, bound: int)
    requires n < |w.flights| && n != m && Stopping(w, t, m)
    requires w.flights[n].Destination() != w.flights[m].Destination()
    requires one.flights == RemoveAt(w.flights, n)
    requires one.board.Keys == w.board.Keys + {w.flights[n].Destination()}
    requires one.Valid() && Front(one, t, {if m < n then m else m - 1}) && t <= bound
    ensures [Landing(w.flights[m])] <= Run(one, bound).arrivals
  {
    var second: nat := if m < n then m else m - 1;
    assert one.flights[second] == w.flights[m];
    LateFirst(one, t, {second}, second, {}, bound);
  }

  /** Two late flights on empty, different cells land one right after the other. */
  lemma LateBoth(w: World, t: int, n: nat, m: nat, bound: int)
    requires w.Valid() && n != m && Front(w, t, {n, m}) && t <= bound
    requires Stopping(w, t, n) && Stopping(w, t, m)
    requires w.flights[n].Destination() != w.flights[m].Destination()
    requires KeyLeq(KeyOf(w, Arrive(n)), KeyOf(w, Arrive(m)))
    ensures [Landing(w.flights[n]), Landing(w.flights[m])] <= Run(w, bound).arrivals
  {
    hide World.Valid, Front, Run, Resolve;
    var one := Resolve(w, Arrive(n)).world;
    LateFirst(w, t, {n, m}, n, {if m < n then m else m - 1}, bound);
    LateSecond(w, one, t, n, m, bound);
  }

  lemma TieStopping(w: World, o: Outcome, bound: int, n: nat)
    requires w.Valid() && IsNext(w, o, bound) && n in Shortened(w, o)
    requires n < |Resolve(w, o).world.flights| ==> Resolve(w, o).world.flights[n].stops != []
    ensures Stopping(Resolve(w, o).world, TimeOf(w, o), n)
  {
    ShortenedAhead(w, o, bound, n);
  }

  /** An exact tie of two friends: both stop one cell short and land there, one right after
      the other, on different empty cells. */
  lemma TieStop(w: World, i: nat, j: nat, k: nat, l: nat, bound: int)
    requires w.Valid() && IsNext(w, Collide(i, j, k, l), bound) && k > 0 && l > 0
    requires w.flights[i].stops[k].time == w.flights[j].stops[l].time
    requires w.flights[i].piece.color == w.flights[j].piece.color
    ensures var a, b := w.flights[i].Cut(k), w.flights[j].Cut(l);
      && a.Destination() != b.Destination()
      && a.Destination() !in w.board && b.Destination() !in w.board
      && ([Landing(a), Landing(b)] <= Run(w, bound).arrivals || [Landing(b), Landing(a)] <= Run(w, bound).arrivals)
  {
    var o := Collide(i, j, k, l);
    assert IsCandidate(w, o);
    hide World.Valid, Resolve, Shortened, Front, IsNext, Run, Stopping, TimeOf, Flight.Destination, Landing;
    var stopped, t := Resolve(w, o).world, TimeOf(w, o);
    TieFacts(w, i, j, k, l, bound);
    TieLands(stopped, t, i, j, bound);
  }

  lemma TieLands(w: World, t: int, i: nat, j: nat, bound: int)
    requires w.Valid() && i != j && Front(w, t, {i, j}) && t <= bound && Stopping(w, t, i) && Stopping(w, t, j)
    requires w.flights[i].Destination() != w.flights[j].Destination()
    ensures var a, b := Landing(w.flights[i]), Landing(w.flights[j]);
      [a, b] <= Run(w, bound).arrivals || [b, a] <= Run(w, bound).arrivals
  {
    var x, y := KeyOf(w, Arrive(i)), KeyOf(w, Arrive(j));
    assert {i, j} == {j, i};
    hide World.Valid, Front, Run, KeyOf;
    KeyLeqTotal(x, y);
    if KeyLeq(x, y) {
      LateBoth(w, t, i, j, bound);
    } else {
      LateBoth(w, t, j, i, bound);
    }
  }

  lemma KeyLeqTotal(x: Key, y: Key)
    ensures KeyLeq(x, y) || KeyLeq(y, x)
  {
  }

  /** What an exact tie of friends leaves: both late, each with an empty cell to land on. */
  lemma TieFacts(w: World, i: nat, j: nat, k: nat, l: nat, bound: int)
    requires w.Valid() && IsNext(w, Collide(i, j, k, l), bound) && k > 0 && l > 0
    requires w.flights[i].stops[k].time == w.flights[j].stops[l].time
    requires w.flights[i].piece.color == w.flights[j].piece.color
    ensures var o := Collide(i, j, k, l);
      var stopped, t := Resolve(w, o).world, TimeOf(w, o);
      && stopped.Valid() && Front(stopped, t, {i, j}) && t <= bound
      && Stopping(stopped, t, i) && Stopping(stopped, t, j)
      && stopped.flights[i] == w.flights[i].Cut(k) && stopped.flights[j] == w.flights[j].Cut(l)
      && w.flights[i].Cut(k).Destination() !in w.board && w.flights[j].Cut(l).Destination() !in w.board
      && w.flights[i].Cut(k).Destination() != w.flights[j].Cut(l).Destination()
      && Run(w, bound).arrivals == Run(stopped, bound).arrivals
  {
    var o := Collide(i, j, k, l);
    var stopped := Resolve(w, o).world;
    assert stopped.flights == w.flights[i := w.flights[i].Cut(k)][j := w.flights[j].Cut(l)];
    assert Shortened(w, o) == {i, j};
    RunUnfold(w, o, bound);
    TieApart(w, i, j, k, l, bound);
    hide World.Valid, Front, IsNext, Run, Shortened;
    ResolveKeepsFront(w, o, bound);
    TieStopping(w, o, bound, i);
    TieStopping(w, o, bound, j);
    assert Resolve(w, o).arrivals == [];
  }

  /** What a tie of friends leaves, on whatever cells of their paths they meet. */
  lemma TieLeaves(w: World, i: nat, j: nat, k: nat, l: nat, bound: int)
    requires w.Valid() && IsNext(w, Collide(i, j, k, l), bound)
    requires w.flights[i].stops[k].time == w.flights[j].stops[l].time
    requires w.flights[i].piece.color == w.flights[j].piece.color
    ensures var e, t := Resolve(w, Collide(i, j, k, l)), TimeOf(w, Collide(i, j, k, l));
      && e.arrivals == [] && e.dropped == [] && e.world.Valid() && Front(e.world, t, {i, j}) && t <= bound
      && e.world.flights == w.flights[i := w.flights[i].Cut(k)][j := w.flights[j].Cut(l)]
      && LateFree(e.world, t, i) && LateFree(e.world, t, j)
  {
    var o := Collide(i, j, k, l);
    assert IsCandidate(w, o) && Shortened(w, o) == {i, j};
    hide World.Valid, Front, IsNext, KeyOf;
    ResolveValid(w, o);
    ResolveKeepsFront(w, o, bound);
    ShortenedAhead(w, o, bound, i);
    ShortenedAhead(w, o, bound, j);
  }

  ghost predicate LateFree(w: World, t: int, n: nat) {
    && n < |w.flights| && w.flights[n].Arrival() < t
    && (w.flights[n].stops != [] ==> w.flights[n].Destination() !in w.board)
  }

  /** The arrival of `n` is next, and right after it that of `m`, unless `n` comes home to where
      something has flown over. */
  ghost predicate InTurn(w: World, t: int, n: nat, m: nat, bound: int)
    requires n < |w.flights| && n != m
  {
    && Next(w, bound) == Some(Arrive(n))
    && (w.flights[n].stops != [] || QuietReturn(w, t, n) ==>
      Next(Resolve(w, Arrive(n)).world, bound) == Some(Arrive(if m < n then m else m - 1)))
  }

  /** Of two late flights the first comes next, and the other right after it, unless the first
      comes home to where something has flown over. */
  lemma LateInTurn(w: World, t: int, n: nat, m: nat, bound: int)
    requires w.Valid() && n != m && Front(w, t, {n, m}) && t <= bound && LateFree(w, t, n) && LateFree(w, t, m)
    requires KeyLeq(KeyOf(w, Arrive(n)), KeyOf(w, Arrive(m)))
    ensures InTurn(w, t, n, m, bound)
  {
    LateIsNext(w, t, {n, m}, n, bound);
    NextUnique(w, Arrive(n), bound);
    hide World.Valid, IsNext, Front, KeyOf, KeyLeq, QuietReturn, Resolve;
    if w.flights[n].stops != [] || QuietReturn(w, t, n) {
      OtherInTurn(w, t, n, m, bound);
    }
  }

  lemma OtherInTurn(w: World, t: int, n: nat, m: nat, bound: int)
    requires w.Valid() && n != m && Front(w, t, {n, m}) && t <= bound && LateFree(w, t, n) && LateFree(w, t, m)
    requires w.flights[n].stops != [] || QuietReturn(w, t, n)
    ensures Next(Resolve(w, Arrive(n)).world, bound) == Some(Arrive(if m < n then m else m - 1))
  {
    var second: nat := if m < n then m else m - 1;
    var one := Resolve(w, Arrive(n)).world;
    OneLanded(w, n, m);
    assert Front(one, t, {second}) by {
      if w.flights[n].stops != [] {
        LateLands(w, t, {n, m}, n, {second});
      } else {
        HomeKeepsFront(w, t, {n, m}, n, {second});
      }
    }
    assert one.Valid() by { ResolveValid(w, Arrive(n)); }
    hide Resolve, World.Valid, QuietReturn, Front;
    LateIsNext(one, t, {second}, second, bound);
    NextUnique(one, Arrive(second), bound);
  }

  lemma OneLanded(w: World, n: nat, m: nat)
    requires n < |w.flights| && m < |w.flights| && n != m
    requires w.flights[n].stops == [] || w.flights[n].Destination() !in w.board
    ensures var one, second := Resolve(w, Arrive(n)).world, if m < n then m else m - 1;
      second < |one.flights| && one.flights[second] == w.flights[m]
  {
  }

  /** An exact tie of friends, wherever on their paths: nothing is reported, both are cut, and
      both arrivals come next, in the order of their keys; the second only if the first does
      not come home to where something has flown over. */
  lemma TieNext(w: World, i: nat, j: nat, k: nat, l: nat, bound: int)
    requires w.Valid() && IsNext(w, Collide(i, j, k, l), bound)
    requires w.flights[i].stops[k].time == w.flights[j].stops[l].time
    requires w.flights[i].piece.color == w.flights[j].piece.color
    ensures var e, t := Resolve(w, Collide(i, j, k, l)), TimeOf(w, Collide(i, j, k, l));
      var stopped := e.world;
      && e.arrivals == [] && e.dropped == []
      && stopped.flights == w.flights[i := w.flights[i].Cut(k)][j := w.flights[j].Cut(l)]
      && if KeyLeq(KeyOf(stopped, Arrive(i)), KeyOf(stopped, Arrive(j))) then InTurn(stopped, t, i, j, bound)
         else InTurn(stopped, t, j, i, bound)
  {
    var o := Collide(i, j, k, l);
    assert IsCandidate(w, o);
    TieLeaves(w, i, j, k, l, bound);
    var stopped, t := Resolve(w, o).world, TimeOf(w, o);
    assert IsCandidate(stopped, Arrive(i)) && IsCandidate(stopped, Arrive(j));
    assert {i, j} == {j, i};
    hide World.Valid, Front, IsNext, KeyOf, KeyLeq, Resolve, InTurn, LateFree, TimeOf, Flight.Cut;
    KeyLeqTotal(KeyOf(stopped, Arrive(i)), KeyOf(stopped, Arrive(j)));
    if KeyLeq(KeyOf(stopped, Arrive(i)), KeyOf(stopped, Arrive(j))) {
      LateInTurn(stopped, t, i, j, bound);
    } else {
      LateInTurn(stopped, t, j, i, bound);
    }
  }
}
