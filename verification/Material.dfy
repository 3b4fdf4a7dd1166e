/** Sums over pieces, and the score table of `events/score_tracker.py`. */
module Material {
  import opened Pieces
  import opened Simulation
  import opened Accounting

  ghost function Sum(tokens: multiset<Token>, f: Token -> int): int
    decreases |tokens|
  {
    if tokens == multiset{} then 0
    else
      var t :| t in tokens;
      f(t) + Sum(tokens - multiset{t}, f)
  }

  lemma {:induction false} SumTake(tokens: multiset<Token>, t: Token, f: Token -> int)
    requires t in tokens
    ensures Sum(tokens, f) == f(t) + Sum(tokens - multiset{t}, f)
    decreases |tokens|
  {
    var first :| first in tokens && Sum(tokens, f) == f(first) + Sum(tokens - multiset{first}, f);
    if first != t {
      SumTake(tokens - multiset{first}, t, f);
      SumTake(tokens - multiset{t}, first, f);
      assert tokens - multiset{first} - multiset{t} == tokens - multiset{t} - multiset{first};
    }
  }

  lemma {:induction false} SumPlus(a: multiset<Token>, b: multiset<Token>, f: Token -> int)
    ensures Sum(a + b, f) == Sum(a, f) + Sum(b, f)
    decreases |a|
  {
    if a == multiset{} {
      assert a + b == b;
    } else {
      var t :| t in a;
      SumTake(a, t, f);
      SumTake(a + b, t, f);
      assert a + b - multiset{t} == (a - multiset{t}) + b;
      SumPlus(a - multiset{t}, b, f);
    }
  }

  lemma SumOne(t: Token, f: Token -> int)
    ensures Sum(multiset{t}, f) == f(t)
  {
    SumTake(multiset{t}, t, f);
    assert multiset{t} - multiset{t} == multiset{};
  }

  /** Whatever is summed over the pieces, a run only moves it between the live, the captured
      and the dropped. */
  lemma EffectSum(w: World, e: Effect, f: Token -> int)
    requires Accounts(w, e)
    ensures Sum(multiset(w.Live()), f) ==
      Sum(multiset(e.world.Live()), f) + Sum(multiset(Captured(e.arrivals)), f) + Sum(multiset(e.dropped), f)
  {
    var live, gone := multiset(e.world.Live()), multiset(Captured(e.arrivals));
    SumPlus(live + gone, multiset(e.dropped), f);
    SumPlus(live, gone, f);
  }

  // ----- points ------------------------------------------------------------------------------------

  /** `SCORE_BY_KIND`. */
  function Points(kind: Kind): nat {
    match kind
    case Pawn => 1
    case Knight => 3
    case Bishop => 3
    case Rook => 5
    case Queen => 9
    case King => 0
  }

  function PointsOf(color: Color): Token -> int {
    (t: Token) => if t.color == color then Points(t.kind) else 0
  }

  /** Points of `color` that the arrivals hand to the enemy. */
  function Taken(arrivals: seq<Arrival>, color: Color): int
    decreases |arrivals|
  {
    if arrivals == [] then 0
    else
      var e := arrivals[|arrivals| - 1];
      Taken(arrivals[..|arrivals| - 1], color) +
      (if e.captured.Some? && !e.SelfDestroyed() then PointsOf(color)(e.captured.value) else 0)
  }

  /** Points of `color` that destroyed themselves. */
  function Lost(arrivals: seq<Arrival>, color: Color): int
    decreases |arrivals|
  {
    if arrivals == [] then 0
    else
      var e := arrivals[|arrivals| - 1];
      Lost(arrivals[..|arrivals| - 1], color) + (if e.SelfDestroyed() then PointsOf(color)(e.captured.value) else 0)
  }

  lemma CapturedByOne(e: Arrival, f: Token -> int)
    ensures Sum(multiset(Captured([e])), f) == if e.captured.Some? then f(e.captured.value) else 0
  {
    assert Captured([e]) == if e.captured.Some? then [e.captured.value] else [];
    if e.captured.Some? {
      SumOne(e.captured.value, f);
    }
  }

  lemma {:induction false} CapturedPoints(arrivals: seq<Arrival>, color: Color)
    ensures Sum(multiset(Captured(arrivals)), PointsOf(color)) == Taken(arrivals, color) + Lost(arrivals, color)
    decreases |arrivals|
  {
    hide Sum, Captured;
    if arrivals == [] {
      assert multiset(Captured([])) == multiset{} &&
        Sum(multiset{}, PointsOf(color)) == 0 by { NoneCaptured(PointsOf(color)); }
    } else {
      var init, e := arrivals[..|arrivals| - 1], arrivals[|arrivals| - 1];
      CapturedPoints(init, color);
      assert arrivals == init + [e];
      CapturedConcat(init, [e]);
      SumPlus(multiset(Captured(init)), multiset(Captured([e])), PointsOf(color));
      assert multiset(Captured(arrivals)) == multiset(Captured(init)) + multiset(Captured([e]));
      CapturedByOne(e, PointsOf(color));
    }
  }

  lemma NoneCaptured(f: Token -> int)
    ensures multiset(Captured([])) == multiset{} && Sum(multiset{}, f) == 0
  {
  }
}
