/** What the balance of every measure means for ids, kings and points. */
module Outcomes {
  import opened Pieces
  import opened Simulation
  import opened Accounting
  import opened Material
  import opened Arbitration
  import opened Rules
  import opened Games
  import opened Invariants
  import opened Ledger

  // ----- reading sums ----------------------------------------------------------------------------------

  ghost predicate NonNegative(f: Token -> int) {
    forall t :: f(t) >= 0
  }

  lemma {:induction false} SumNonNegative(tokens: multiset<Token>, f: Token -> int)
    requires NonNegative(f)
    ensures Sum(tokens, f) >= 0
    decreases |tokens|
  {
    if tokens != multiset{} {
      var t :| t in tokens;
      SumTake(tokens, t, f);
      SumNonNegative(tokens - multiset{t}, f);
      assert f(t) >= 0;
    }
  }

  lemma SumAtLeast(tokens: multiset<Token>, part: multiset<Token>, f: Token -> int)
    requires NonNegative(f) && part <= tokens
    ensures Sum(tokens, f) >= Sum(part, f)
  {
    assert tokens == part + (tokens - part);
    SumPlus(part, tokens - part, f);
    SumNonNegative(tokens - part, f);
  }

  lemma {:induction false} SumZero(tokens: multiset<Token>, f: Token -> int)
    requires forall t :: t in tokens ==> f(t) == 0
    ensures Sum(tokens, f) == 0
    decreases |tokens|
  {
    if tokens != multiset{} {
      var t :| t in tokens;
      SumTake(tokens, t, f);
      SumZero(tokens - multiset{t}, f);
    }
  }

  function IdIs(x: Id): Token -> int {
    (t: Token) => if t.id == x then 1 else 0
  }

  lemma {:induction false} GainedNothing(log: seq<Event>, f: Token -> int)
    requires forall t: Token, k: Kind :: f(t) == f(Token(t.id, t.color, k))
    ensures Gained(log, f) == 0
    decreases |log|
  {
    if log != [] {
      GainedNothing(log[..|log| - 1], f);
      var e := log[|log| - 1];
      if e.Promotion? {
        assert f(Token(e.id, e.color, e.from)) == f(Token(e.id, e.color, e.to));
      }
    }
  }

  // ----- every piece is in one place, once ---------------------------------------------------------------

  function Gone(g: Game): seq<Token> {
    Captured(g.arrivals) + g.dropped
  }

  lemma CountById(cfg: Config, board: Cells, ops: seq<Op>, x: Id)
    requires cfg.Valid() && ProperBoard(board)
    ensures var g := Play(cfg, Start(board), ops);
      Sum(multiset(g.arb.world.Live()), IdIs(x)) + Sum(multiset(Gone(g)), IdIs(x)) ==
        Sum(multiset(Start(board).arb.world.Live()), IdIs(x))
  {
    hide Play, Sum, Captured, World.Live, Gained;
    var g := Play(cfg, Start(board), ops);
    PlayBalanced(cfg, board, ops, IdIs(x));
    GainedNothing(g.log, IdIs(x));
    assert multiset(Gone(g)) == multiset(Captured(g.arrivals)) + multiset(g.dropped);
    SumPlus(multiset(Captured(g.arrivals)), multiset(g.dropped), IdIs(x));
  }

  lemma AtMostOneById(w: World, x: Id)
    requires w.Valid()
    ensures Sum(multiset(w.Live()), IdIs(x)) == if exists t :: t in w.Live() && t.id == x then 1 else 0
  {
    hide Sum, World.Valid, World.Live;
    var live := w.Live();
    TokenPlaces(w);
    if exists t :: t in live && t.id == x {
      var t :| t in live && t.id == x;
      SetLosesOne(live, live - {t}, t);
      SumPlus(multiset(live - {t}), multiset{t}, IdIs(x));
      SumOne(t, IdIs(x));
      SumZero(multiset(live - {t}), IdIs(x));
    } else {
      SumZero(multiset(live), IdIs(x));
    }
  }

  lemma TwoAmong(gone: seq<Token>, m: nat, n: nat)
    requires m < n < |gone|
    ensures multiset{gone[m], gone[n]} <= multiset(gone)
  {
    assert gone == gone[..m] + [gone[m]] + gone[m + 1..n] + [gone[n]] + gone[n + 1..];
  }

  lemma TwiceIsTwo(gone: seq<Token>, m: nat, n: nat)
    requires m < n < |gone| && gone[m].id == gone[n].id
    ensures Sum(multiset(gone), IdIs(gone[m].id)) >= 2
  {
    hide Sum;
    var s, t, f := gone[m], gone[n], IdIs(gone[m].id);
    TwoAmong(gone, m, n);
    SumAtLeast(multiset(gone), multiset{s, t}, f);
    assert multiset{s, t} == multiset{s} + multiset{t};
    SumPlus(multiset{s}, multiset{t}, f);
    SumOne(s, f);
    SumOne(t, f);
  }

  lemma OnceIsOne(tokens: multiset<Token>, t: Token)
    requires t in tokens
    ensures Sum(tokens, IdIs(t.id)) >= 1
  {
    SumAtLeast(tokens, multiset{t}, IdIs(t.id));
    SumOne(t, IdIs(t.id));
  }

  ghost predicate HasId(tokens: set<Token>, x: Id) {
    exists t :: t in tokens && t.id == x
  }

  /** Over a whole game every piece of the start is, at any time, in exactly one of three
      states: live, reported captured once, or dropped once. No other piece ever exists. */
  lemma EachPieceOnce(cfg: Config, board: Cells, ops: seq<Op>, x: Id)
    requires cfg.Valid() && ProperBoard(board)
    ensures var g := Play(cfg, Start(board), ops);
      var live, gone := HasId(g.arb.world.Live(), x), exists n :: 0 <= n < |Gone(g)| && Gone(g)[n].id == x;
      && (HasId(BoardTokens(board), x) <==> live || gone)
      && !(live && gone)
      && (forall m, n :: 0 <= m < n < |Gone(g)| && Gone(g)[m].id == x ==> Gone(g)[n].id != x)
  {
    hide Play, Sum, World.Valid, Gone, World.Live;
    var g := Play(cfg, Start(board), ops);
    var start := Start(board).arb.world;
    PlaySound(cfg, board, ops);
    StartSound(cfg, board);
    CountById(cfg, board, ops, x);
    AtMostOneById(start, x);
    AtMostOneById(g.arb.world, x);
    assert start.Live() == BoardTokens(board) by { StartLive(board); }
    var gone := Gone(g);
    if n :| 0 <= n < |gone| && gone[n].id == x {
      OnceIsOne(multiset(gone), gone[n]);
    } else {
      SumZero(multiset(gone), IdIs(x));
    }
    forall m, n | 0 <= m < n < |gone| && gone[m].id == x ensures gone[n].id != x {
      if gone[n].id == x { TwiceIsTwo(gone, m, n); }
    }
  }

  lemma StartLive(board: Cells)
    ensures Start(board).arb.world.Live() == BoardTokens(board)
  {
  }

  // ----- kings ---------------------------------------------------------------------------------------------

  ghost predicate NoKingTaken(arrivals: seq<Arrival>) {
    forall n :: 0 <= n < |arrivals| ==> !arrivals[n].KingCaptured()
  }

  lemma DoKings(cfg: Config, g: Game, op: Op)
    requires g.arb.world.Valid() && (g.over || NoKingTaken(g.arrivals))
    ensures Do(cfg, g, op).over || NoKingTaken(Do(cfg, g, op).arrivals)
  {
    hide World.Valid, Advance, ApplyArrivals, EndJumps, Launch, Verdict;
    if op.WaitFor? {
      var adv := Advance(g.arb, op.ms);
      var ended := EndJumps(cfg, Moved(g, op.ms), adv.ended);
      EndJumpsShape(cfg, Moved(g, op.ms), adv.ended);
      AdvanceSettles(g.arb, op.ms);
      assert CellsKnown(ended.arb) by { ValidKnows(adv.arb); }
      ApplyShape(cfg, ended, adv.arrivals);
    }
  }

  lemma ValidKnows(a: Arb)
    requires a.world.Valid()
    ensures CellsKnown(a)
  {
  }

  lemma {:induction false} PlayKings(cfg: Config, board: Cells, ops: seq<Op>)
    requires cfg.Valid() && ProperBoard(board)
    ensures var g := Play(cfg, Start(board), ops); g.over || NoKingTaken(g.arrivals)
    decreases |ops|
  {
    hide Do, ProperBoard, World.Valid;
    if ops != [] {
      PlayKings(cfg, board, ops[..|ops| - 1]);
      PlaySound(cfg, board, ops[..|ops| - 1]);
      DoKings(cfg, Play(cfg, Start(board), ops[..|ops| - 1]), ops[|ops| - 1]);
    }
  }

  function TokenIs(t: Token): Token -> int {
    (u: Token) => if u == t then 1 else 0
  }

  lemma {:induction false} CapturedFrom(arrivals: seq<Arrival>, t: Token)
    requires t in Captured(arrivals)
    ensures exists n :: 0 <= n < |arrivals| && arrivals[n].captured == Some(t)
  {
    if arrivals[0].captured == Some(t) {
    } else {
      CapturedFrom(arrivals[1..], t);
      var n :| 0 <= n < |arrivals[1..]| && arrivals[1..][n].captured == Some(t);
      assert arrivals[n + 1].captured == Some(t);
    }
  }

  /** Only a pawn ever becomes something else, and only a queen. */
  ghost predicate PawnsToQueens(log: seq<Event>) {
    forall n :: 0 <= n < |log| && log[n].Promotion? ==> log[n].from == Pawn && log[n].to == Queen
  }

  lemma ApplyOnePromotes(cfg: Config, g: Game, e: Arrival)
    requires PawnsToQueens(g.log)
    ensures PawnsToQueens(ApplyOne(cfg, g, e).log)
  {
  }

  lemma {:induction false} EndJumpsPromotes(cfg: Config, g: Game, ended: seq<JumpEnd>)
    requires PawnsToQueens(g.log)
    ensures PawnsToQueens(EndJumps(cfg, g, ended).log)
    decreases |ended|
  {
    if ended != [] {
      var j := ended[0];
      var rested := g.(arb := g.arb.SetRest(j.piece.id, cfg.shortRest));
      EndJumpsPromotes(cfg, rested.PublishUnlessOver(JumpCompleted(j.piece, j.cell, g.arb.clock)), ended[1..]);
    }
  }

  lemma {:induction false} ApplyPromotes(cfg: Config, g: Game, arrivals: seq<Arrival>)
    requires PawnsToQueens(g.log)
    ensures PawnsToQueens(ApplyArrivals(cfg, g, arrivals).log)
    decreases |arrivals|
  {
    hide ApplyOne;
    if arrivals != [] {
      ApplyOnePromotes(cfg, g, arrivals[0]);
      ApplyPromotes(cfg, ApplyOne(cfg, g, arrivals[0]), arrivals[1..]);
    }
  }

  lemma DoPromotes(cfg: Config, g: Game, op: Op)
    requires PawnsToQueens(g.log)
    ensures PawnsToQueens(Do(cfg, g, op).log)
  {
    hide Advance, ApplyArrivals, EndJumps, Launch, Verdict;
    if op.WaitFor? {
      var adv := Advance(g.arb, op.ms);
      EndJumpsPromotes(cfg, Moved(g, op.ms), adv.ended);
      ApplyPromotes(cfg, EndJumps(cfg, Moved(g, op.ms), adv.ended), adv.arrivals);
    }
  }

  lemma {:induction false} PlayPromotes(cfg: Config, board: Cells, ops: seq<Op>)
    ensures PawnsToQueens(Play(cfg, Start(board), ops).log)
    decreases |ops|
  {
    hide Do;
    if ops != [] {
      PlayPromotes(cfg, board, ops[..|ops| - 1]);
      DoPromotes(cfg, Play(cfg, Start(board), ops[..|ops| - 1]), ops[|ops| - 1]);
    }
  }

  lemma {:induction false} KingsGainNothing(log: seq<Event>, king: Token)
    requires king.kind == King && PawnsToQueens(log)
    ensures Gained(log, TokenIs(king)) == 0
    decreases |log|
  {
    if log != [] {
      assert log[|log| - 1] == log[|log| - 1];
      KingsGainNothing(log[..|log| - 1], king);
    }
  }

  /** While the game is not over every king of the start is live, unless it went through the
      branch that drops a piece unreported: sent back to its source while a friend stands there. */
  lemma KingsAreSafe(cfg: Config, board: Cells, ops: seq<Op>, king: Token)
    requires cfg.Valid() && ProperBoard(board) && king in BoardTokens(board) && king.kind == King
    ensures var g := Play(cfg, Start(board), ops);
      !g.over ==> king in g.arb.world.Live() || king in g.dropped
  {
    hide Play, Sum, World.Live, Gained, Captured;
    var g, f := Play(cfg, Start(board), ops), TokenIs(king);
    PlayBalanced(cfg, board, ops, f);
    PlayPromotes(cfg, board, ops);
    KingsGainNothing(g.log, king);
    PlayKings(cfg, board, ops);
    StartLive(board);
    SumAtLeast(multiset(BoardTokens(board)), multiset{king}, f);
    SumOne(king, f);
    if !g.over {
      if king in Captured(g.arrivals) {
        CapturedFrom(g.arrivals, king);
      } else {
        SumZero(multiset(Captured(g.arrivals)), f);
        if king !in g.arb.world.Live() { SumZero(multiset(g.arb.world.Live()), f); }
        if king !in g.dropped { SumZero(multiset(g.dropped), f); }
      }
    }
  }
}
