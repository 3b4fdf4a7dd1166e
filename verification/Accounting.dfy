/** No piece is lost and none appears: what leaves the game is reported captured or dropped. */
module Accounting {
  import opened Pieces
  import opened Simulation
  import opened SimulationLaws

  function Captured(arrivals: seq<Arrival>): seq<Token> {
    if arrivals == [] then []
    else (if arrivals[0].captured.Some? then [arrivals[0].captured.value] else []) + Captured(arrivals[1..])
  }

  lemma {:induction false} CapturedConcat(a: seq<Arrival>, b: seq<Arrival>)
    ensures Captured(a + b) == Captured(a) + Captured(b)
  {
    if a == [] {
      assert a + b == b;
    } else {
      assert (a + b)[1..] == a[1..] + b;
      CapturedConcat(a[1..], b);
    }
  }

  /** The live pieces before are the live pieces after, those reported captured and those
      dropped, each exactly once. */
  ghost predicate Accounts(w: World, e: Effect) {
    multiset(w.Live()) == multiset(e.world.Live()) + multiset(Captured(e.arrivals)) + multiset(e.dropped)
  }

  // ----- where tokens are --------------------------------------------------------------------

  lemma TokensRemove(w: World, i: nat)
    requires w.Valid() && i < |w.flights|
    ensures FlightTokens(RemoveAt(w.flights, i)) == FlightTokens(w.flights) - {w.flights[i].piece.AsToken()}
  {
    var rest := RemoveAt(w.flights, i);
    forall t | t in FlightTokens(w.flights) && t != w.flights[i].piece.AsToken() ensures t in FlightTokens(rest) {
      var j :| 0 <= j < |w.flights| && w.flights[j].piece.AsToken() == t;
      assert rest[if j < i then j else j - 1] == w.flights[j];
    }
  }

  lemma TokensCut(flights: seq<Flight>, i: nat, k: nat)
    requires i < |flights| && k < |flights[i].stops|
    ensures FlightTokens(flights[i := flights[i].Cut(k)]) == FlightTokens(flights)
  {
    var cut := flights[i := flights[i].Cut(k)];
    assert forall j :: 0 <= j < |flights| ==> cut[j].piece == flights[j].piece;
  }

  lemma TokensAppend(flights: seq<Flight>, f: Flight)
    ensures FlightTokens(flights + [f]) == FlightTokens(flights) + {f.piece.AsToken()}
  {
    assert (flights + [f])[|flights|] == f;
    assert forall j :: 0 <= j < |flights| ==> (flights + [f])[j] == flights[j];
  }

  lemma TokensPut(w: World, cell: Position, p: Piece)
    requires w.Valid()
    ensures BoardTokens(w.board[cell := p]) ==
      BoardTokens(w.board) - (if cell in w.board then {w.board[cell].AsToken()} else {}) + {p.AsToken()}
  {
    var b := w.board[cell := p];
    assert b[cell] == p;
    assert forall c :: c in w.board && c != cell ==> b[c] == w.board[c];
  }

  lemma TokensTake(w: World, cell: Position)
    requires w.Valid() && cell in w.board
    ensures BoardTokens(w.board - {cell}) == BoardTokens(w.board) - {w.board[cell].AsToken()}
  {
    var b := w.board - {cell};
    assert forall c :: c in w.board && c != cell ==> c in b && b[c] == w.board[c];
  }

  lemma TokenPlaces(w: World)
    requires w.Valid()
    ensures BoardTokens(w.board) !! FlightTokens(w.flights)
    ensures forall s, t :: s in w.Live() && t in w.Live() && s.id == t.id ==> s == t
  {
  }

  lemma SetLosesOne(whole: set<Token>, rest: set<Token>, t: Token)
    requires t in whole && rest == whole - {t}
    ensures multiset(whole) == multiset(rest) + multiset{t}
  {
  }

  // ----- every outcome accounts for every piece ---------------------------------------------

  lemma CapturedOne(e: Arrival)
    ensures Captured([e]) == if e.captured.Some? then [e.captured.value] else []
  {
    assert [e][1..] == [];
  }

  lemma LandAccounts(w: World, i: nat)
    requires w.Valid() && i < |w.flights|
    ensures Accounts(w, Land(w.(flights := RemoveAt(w.flights, i)), w.flights[i]))
  {
    var f, w' := w.flights[i], w.(flights := RemoveAt(w.flights, i));
    var cell, t := f.Destination(), f.piece.AsToken();
    TokenPlaces(w);
    TokensRemove(w, i);
    TokensPut(w, cell, f.piece.(cell := cell));
    hide World.Valid, BoardTokens, FlightTokens;
    var after := Land(w', f).world;
    CapturedOne(Land(w', f).arrivals[0]);
    assert t in FlightTokens(w.flights) by { TokenInFlight(w.flights, i); }
    if cell in w.board {
      var target := w.board[cell].AsToken();
      assert target in BoardTokens(w.board) by { TokenOnBoard(w.board, cell); }
      assert after.Live() == w.Live() - {target};
      SetLosesOne(w.Live(), after.Live(), target);
    } else {
      assert after.Live() == w.Live();
    }
  }

  lemma TokenInFlight(flights: seq<Flight>, i: nat)
    requires i < |flights|
    ensures flights[i].piece.AsToken() in FlightTokens(flights)
  {
  }

  lemma TokenOnBoard(board: Cells, cell: Position)
    requires cell in board
    ensures board[cell].AsToken() in BoardTokens(board)
  {
  }

  lemma RequeueAccounts(w: World, i: nat)
    requires w.Valid() && i < |w.flights| && w.flights[i].stops != []
    ensures var f := w.flights[i];
      w.(flights := RemoveAt(w.flights, i) + [f.Cut(|f.stops| - 1)]).Live() == w.Live()
  {
    var f := w.flights[i];
    TokensRemove(w, i);
    TokensAppend(RemoveAt(w.flights, i), f.Cut(|f.stops| - 1));
    TokenInFlight(w.flights, i);
  }

  lemma ArrivalAccounts(w: World, i: nat)
    requires w.Valid() && i < |w.flights|
    ensures Accounts(w, ResolveArrival(w, i))
  {
    var f := w.flights[i];
    var w' := w.(flights := RemoveAt(w.flights, i));
    hide World.Valid, World.Live, Land, Captured;
    OneGone(w, i);
    if Intercepted(w', f) {
      CapturedOne(Destroyed(f, f.Destination()));
    } else if FriendAhead(w', f) {
      if f.stops != [] { RequeueAccounts(w, i); }
      NothingCaptured();
    } else {
      LandAccounts(w, i);
    }
  }

  lemma NothingCaptured()
    ensures Captured([]) == []
  {
  }

  lemma OneGone(w: World, i: nat)
    requires w.Valid() && i < |w.flights|
    ensures multiset(w.Live()) ==
      multiset(w.(flights := RemoveAt(w.flights, i)).Live()) + multiset{w.flights[i].piece.AsToken()}
  {
    TokenPlaces(w);
    TokensRemove(w, i);
    SetLosesOne(w.Live(), w.(flights := RemoveAt(w.flights, i)).Live(), w.flights[i].piece.AsToken());
  }

  lemma FriendsAccount(w: World, i: nat, j: nat, k: nat, l: nat)
    requires w.Valid() && IsCandidate(w, Collide(i, j, k, l))
    requires w.flights[i].piece.color == w.flights[j].piece.color
    ensures Accounts(w, ResolveCollision(w, i, j, k, l))
  {
    TokensCut(w.flights, i, k);
    TokensCut(w.flights, j, l);
    TokensCut(w.flights[i := w.flights[i].Cut(k)], j, l);
  }

  lemma EnemiesAccount(w: World, i: nat, j: nat, k: nat, l: nat)
    requires w.Valid() && IsCandidate(w, Collide(i, j, k, l))
    requires w.flights[i].piece.color != w.flights[j].piece.color
    ensures Accounts(w, ResolveCollision(w, i, j, k, l))
  {
    OneGone(w, i);
    OneGone(w, j);
    if w.flights[i].stops[k].time == w.flights[j].stops[l].time {
      ValidRemove(w, j);
      OneGone(w.(flights := RemoveAt(w.flights, j)), i);
      var cell := w.flights[i].stops[k].cell;
      CapturedConcat([Destroyed(w.flights[i], cell)], [Destroyed(w.flights[j], cell)]);
      assert ResolveCollision(w, i, j, k, l).arrivals ==
        [Destroyed(w.flights[i], cell)] + [Destroyed(w.flights[j], cell)];
    }
  }

  lemma CollisionAccounts(w: World, i: nat, j: nat, k: nat, l: nat)
    requires w.Valid() && IsCandidate(w, Collide(i, j, k, l))
    ensures Accounts(w, ResolveCollision(w, i, j, k, l))
  {
    if w.flights[i].piece.color == w.flights[j].piece.color {
      FriendsAccount(w, i, j, k, l);
    } else {
      EnemiesAccount(w, i, j, k, l);
    }
  }

  lemma MeetingAccounts(w: World, i: nat, k: nat)
    requires w.Valid() && IsCandidate(w, Meet(i, k))
    ensures Accounts(w, ResolveMeeting(w, i, k))
  {
    var cell := w.flights[i].stops[k].cell;
    TokensCut(w.flights, i, k);
    TokensTake(w, cell);
    TokenPlaces(w);
    if w.board[cell].color != w.flights[i].piece.color {
      SetLosesOne(w.Live(), ResolveMeeting(w, i, k).world.Live(), w.board[cell].AsToken());
    }
  }

  lemma ResolveAccounts(w: World, o: Outcome)
    requires w.Valid() && IsCandidate(w, o)
    ensures Accounts(w, Resolve(w, o))
  {
    match o {
      case Arrive(i) => ArrivalAccounts(w, i);
      case Collide(i, j, k, l) => CollisionAccounts(w, i, j, k, l);
      case Meet(i, k) => MeetingAccounts(w, i, k);
    }
  }

  lemma ThenAccounts(w: World, first: Effect, second: Effect)
    requires Accounts(w, first) && Accounts(first.world, second)
    ensures Accounts(w, Then(first, second))
  {
    CapturedConcat(first.arrivals, second.arrivals);
  }

  /** A whole call of `advance_time` loses no piece and invents none. */
  lemma {:induction false} RunAccounts(w: World, bound: int)
    requires w.Valid()
    ensures Accounts(w, Run(w, bound))
    decreases Measure(w)
  {
    var next := Next(w, bound);
    if next.Some? {
      var o := next.value;
      RunUnfold(w, o, bound);
      MeasureFalls(w, o);
      ResolveAccounts(w, o);
      RunAccounts(Resolve(w, o).world, bound);
      ThenAccounts(w, Resolve(w, o), Run(Resolve(w, o).world, bound));
    }
  }
}
