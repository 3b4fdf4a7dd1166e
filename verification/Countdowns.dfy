/** The disconnect countdown of `server/session.py`, on values. */
module Countdowns {
  import opened Pieces
  import opened Games
  import opened Finality
  import opened Ledger

  datatype Countdown = Countdown(remaining: int, shown: int)

  /** `PlayerDisconnectedEvent` and `PlayerReconnectedEvent`. */
  datatype Notice = Disconnected(color: Color, seconds: int) | Reconnected(color: Color)

  /** Whole seconds, rounded up: minus the floor of minus ms over 1000. */
  function Displayed(ms: int): int {
    -((-ms) / 1000)
  }

  function Later(c: Countdown, dt: int): Countdown {
    var left := if c.remaining < dt then 0 else c.remaining - dt;
    Countdown(left, Displayed(left))
  }

  function Told(color: Color, before: int, after: int): seq<Notice> {
    if before == after then [] else [Disconnected(color, after)]
  }

  /** The game, the countdowns in the order in which they began, and the notices published. */
  datatype Session = Session(game: Game, countdowns: seq<(Color, Countdown)>, notices: seq<Notice>)

  /** The countdowns of one colour: none, or the one that runs. */
  function Of(list: seq<(Color, Countdown)>, color: Color): seq<Countdown>
    decreases |list|
  {
    if list == [] then [] else (if list[0].0 == color then [list[0].1] else []) + Of(list[1..], color)
  }

  function Begin(s: Session, color: Color, ms: int): Session {
    if Of(s.countdowns, color) != [] then s
    else
      s.(countdowns := s.countdowns + [(color, Countdown(ms, Displayed(ms)))],
         notices := s.notices + Told(color, -1, Displayed(ms)))
  }

  function Without(list: seq<(Color, Countdown)>, color: Color): seq<(Color, Countdown)>
    decreases |list|
  {
    if list == [] then [] else (if list[0].0 == color then [] else [list[0]]) + Without(list[1..], color)
  }

  /** A player who is counted down comes back. */
  function Back(s: Session, color: Color): Session {
    if Of(s.countdowns, color) == [] then s
    else s.(countdowns := Without(s.countdowns, color), notices := s.notices + [Reconnected(color)])
  }

  /** `_advance_countdown` for each countdown in turn; one that runs out resigns its player. */
  function CountDown(s: Session, list: seq<(Color, Countdown)>, dt: int): Session
    decreases |list|
  {
    if list == [] then s
    else
      var (color, c) := list[0];
      var later := Later(c, dt);
      var told := s.(notices := s.notices + Told(color, c.shown, later.shown));
      CountDown(
        if later.remaining <= 0 then told.(game := Resign(told.game, color))
        else told.(countdowns := told.countdowns + [(color, later)]),
        list[1..], dt)
  }

  ghost function Tick(cfg: Config, s: Session, dt: nat): Session {
    var game := Wait(cfg, s.game, dt);
    if game.over then s.(game := game, countdowns := [])
    else CountDown(s.(game := game, countdowns := []), s.countdowns, dt)
  }

  // ----- one tick -------------------------------------------------------------------------------------

  function Survivors(list: seq<(Color, Countdown)>, dt: int): seq<(Color, Countdown)>
    decreases |list|
  {
    if list == [] then []
    else (if list[0].1.remaining > dt then [(list[0].0, Later(list[0].1, dt))] else []) + Survivors(list[1..], dt)
  }

  function FirstExpired(list: seq<(Color, Countdown)>, dt: int): Option<Color>
    decreases |list|
  {
    if list == [] then None
    else if list[0].1.remaining <= dt then Some(list[0].0)
    else FirstExpired(list[1..], dt)
  }

  lemma {:induction false} CountDownExactly(s: Session, list: seq<(Color, Countdown)>, dt: nat)
    ensures var s' := CountDown(s, list, dt);
      && s'.countdowns == s.countdowns + Survivors(list, dt)
      && s'.game == (if FirstExpired(list, dt).Some? then Resign(s.game, FirstExpired(list, dt).value) else s.game)
    decreases |list|
  {
    if list != [] {
      var (color, c) := list[0];
      var later := Later(c, dt);
      var told := s.(notices := s.notices + Told(color, c.shown, later.shown));
      var next :=
        if later.remaining <= 0 then told.(game := Resign(told.game, color))
        else told.(countdowns := told.countdowns + [(color, later)]);
      CountDownExactly(next, list[1..], dt);
    }
  }

  /** A tick that the game survives keeps exactly the countdowns with time left after it, and
      resigns exactly when one has none. Of two that run out in the same tick, the one that
      began first decides the game. */
  lemma TickExactly(cfg: Config, s: Session, dt: nat)
    requires !Wait(cfg, s.game, dt).over
    ensures var s', game := Tick(cfg, s, dt), Wait(cfg, s.game, dt);
      && s'.countdowns == Survivors(s.countdowns, dt)
      && (s'.game.over <==> FirstExpired(s.countdowns, dt).Some?)
      && s'.game ==
        (if FirstExpired(s.countdowns, dt).Some? then Resign(game, FirstExpired(s.countdowns, dt).value) else game)
  {
    hide Wait;
    CountDownExactly(s.(game := Wait(cfg, s.game, dt), countdowns := []), s.countdowns, dt);
  }

  // ----- one colour -------------------------------------------------------------------------------------

  function About(notices: seq<Notice>, color: Color): seq<Notice>
    decreases |notices|
  {
    if notices == [] then []
    else (if notices[0].color == color then [notices[0]] else []) + About(notices[1..], color)
  }

  /** The countdowns that began before that of `color`. */
  function Ahead(list: seq<(Color, Countdown)>, color: Color): seq<(Color, Countdown)>
    decreases |list|
  {
    if list == [] || list[0].0 == color then [] else [list[0]] + Ahead(list[1..], color)
  }

  lemma {:induction false} OfPlus(a: seq<(Color, Countdown)>, b: seq<(Color, Countdown)>, color: Color)
    ensures Of(a + b, color) == Of(a, color) + Of(b, color)
    decreases |a|
  {
    if a != [] {
      OfPlus(a[1..], b, color);
      assert (a + b)[1..] == a[1..] + b;
    } else {
      assert a + b == b;
    }
  }

  lemma {:induction false} AboutPlus(a: seq<Notice>, b: seq<Notice>, color: Color)
    ensures About(a + b, color) == About(a, color) + About(b, color)
    decreases |a|
  {
    if a != [] {
      AboutPlus(a[1..], b, color);
      assert (a + b)[1..] == a[1..] + b;
    } else {
      assert a + b == b;
    }
  }

  lemma {:induction false} OfWithout(list: seq<(Color, Countdown)>, gone: Color, color: Color)
    ensures Of(Without(list, gone), color) == if gone == color then [] else Of(list, color)
    decreases |list|
  {
    if list != [] {
      OfWithout(list[1..], gone, color);
      OfPlus(if list[0].0 == gone then [] else [list[0]], Without(list[1..], gone), color);
    }
  }

  lemma {:induction false} OfSurvivors(list: seq<(Color, Countdown)>, dt: int, color: Color)
    requires |Of(list, color)| <= 1
    ensures var mine := Of(list, color);
      Of(Survivors(list, dt), color) == if mine != [] && mine[0].remaining > dt then [Later(mine[0], dt)] else []
    decreases |list|
  {
    if list != [] {
      OfSurvivors(list[1..], dt, color);
      var first := if list[0].1.remaining > dt then [(list[0].0, Later(list[0].1, dt))] else [];
      OfPlus(first, Survivors(list[1..], dt), color);
    }
  }

  /** Whose countdown runs out: nobody's of `color` early, and at its time only one that began
      before it can decide instead. */
  lemma {:induction false} ExpiredOf(list: seq<(Color, Countdown)>, dt: int, color: Color)
    requires |Of(list, color)| <= 1
    ensures var mine, first := Of(list, color), FirstExpired(list, dt);
      && (mine == [] || mine[0].remaining > dt ==> first != Some(color))
      && (mine != [] && mine[0].remaining <= dt ==>
        first == Some(if FirstExpired(Ahead(list, color), dt).Some? then color.Other() else color))
    decreases |list|
  {
    if list != [] {
      ExpiredOf(list[1..], dt, color);
      if list[0].0 != color {
        assert Ahead(list, color)[1..] == Ahead(list[1..], color);
      }
    }
  }

  lemma TellsAbout(before: seq<Notice>, teller: Color, was: int, now: int, color: Color)
    ensures About(before + Told(teller, was, now), color) ==
      About(before, color) + if teller == color then Told(color, was, now) else []
  {
    AboutPlus(before, Told(teller, was, now), color);
    if was != now {
      assert Told(teller, was, now)[1..] == [];
    }
  }

  lemma {:induction false} CountDownTells(s: Session, list: seq<(Color, Countdown)>, dt: int, color: Color)
    requires |Of(list, color)| <= 1
    ensures var mine := Of(list, color);
      About(CountDown(s, list, dt).notices, color) ==
        About(s.notices, color) + if mine != [] then Told(color, mine[0].shown, Later(mine[0], dt).shown) else []
    decreases |list|
  {
    if list != [] {
      var (teller, c) := list[0];
      var later := Later(c, dt);
      var told := s.(notices := s.notices + Told(teller, c.shown, later.shown));
      var next :=
        if later.remaining <= 0 then told.(game := Resign(told.game, teller))
        else told.(countdowns := told.countdowns + [(teller, later)]);
      TellsAbout(s.notices, teller, c.shown, later.shown, color);
      CountDownTells(next, list[1..], dt, color);
    }
  }

  // ----- a whole countdown ------------------------------------------------------------------------------

  function Elapsed(dts: seq<nat>): nat
    decreases |dts|
  {
    if dts == [] then 0 else Elapsed(dts[..|dts| - 1]) + dts[|dts| - 1]
  }

  /** The seconds published over a countdown of `total` milliseconds cut into these ticks. */
  function Seconds(total: int, dts: seq<nat>): seq<int>
    decreases |dts|
  {
    if dts == [] then [Displayed(total)]
    else
      var init := Seconds(total, dts[..|dts| - 1]);
      var now := Displayed(LeftOf(total, dts));
      if now == Displayed(LeftOf(total, dts[..|dts| - 1])) then init else init + [now]
  }

  function LeftOf(total: int, dts: seq<nat>): (left: int)
    ensures total >= 0 ==> left >= 0
  {
    if total < Elapsed(dts) then 0 else total - Elapsed(dts)
  }

  function NoticesOf(color: Color, seconds: seq<int>): (notices: seq<Notice>)
    ensures |notices| == |seconds|
  {
    seq(|seconds|, n requires 0 <= n < |seconds| => Disconnected(color, seconds[n]))
  }

  /** `n` whole seconds, the last of them begun, are left of `ms` milliseconds. */
  ghost predicate IsCeiling(n: int, ms: int) {
    1000 * (n - 1) < ms <= 1000 * n
  }

  lemma DisplayedIsCeiling(ms: int)
    ensures IsCeiling(Displayed(ms), ms)
  {
    var q, r := (-ms) / 1000, (-ms) % 1000;
    assert -ms == 1000 * q + r && 0 <= r < 1000;
  }

  lemma DisplayedFalls(a: int, b: int)
    requires a <= b
    ensures Displayed(a) <= Displayed(b)
  {
  }

  /** The seconds shown start at the whole countdown, rounded up, strictly fall, and end at the
      time that is left, however the ticks cut the time. */
  lemma {:induction false} SecondsFall(total: int, dts: seq<nat>)
    requires total >= 0
    ensures var seconds := Seconds(total, dts);
      && |seconds| > 0 && seconds[0] == Displayed(total) && IsCeiling(seconds[0], total)
      && seconds[|seconds| - 1] == Displayed(LeftOf(total, dts))
      && IsCeiling(seconds[|seconds| - 1], LeftOf(total, dts))
      && (forall m, n :: 0 <= m < n < |seconds| ==> seconds[m] > seconds[n])
    decreases |dts|
  {
    DisplayedIsCeiling(total);
    DisplayedIsCeiling(LeftOf(total, dts));
    hide IsCeiling;
    if dts != [] {
      SecondsFall(total, dts[..|dts| - 1]);
      DisplayedFalls(LeftOf(total, dts), LeftOf(total, dts[..|dts| - 1]));
    } else {
      assert LeftOf(total, dts) == total;
    }
  }

  lemma NoticesGrow(color: Color, seconds: seq<int>, before: int, after: int)
    ensures NoticesOf(color, seconds) + Told(color, before, after) ==
      NoticesOf(color, if before == after then seconds else seconds + [after])
  {
  }

  // ----- the life of a session --------------------------------------------------------------------------

  /** What happens to a session: a tick, anything asked of the engine, a player who leaves or
      comes back. */
  datatype Act =
    | TickBy(dt: nat)
    | Ask(op: Op)
    | Leaves(color: Color)
    | Returns(color: Color)

  ghost function Step(cfg: Config, full: int, s: Session, act: Act): Session {
    match act
    case TickBy(dt) => Tick(cfg, s, dt)
    case Ask(op) => s.(game := Do(cfg, s.game, op))
    case Leaves(color) => Begin(s, color, full)
    case Returns(color) => Back(s, color)
  }

  ghost function After(cfg: Config, full: int, s: Session, acts: seq<Act>): Session
    decreases |acts|
  {
    if acts == [] then s else Step(cfg, full, After(cfg, full, s, acts[..|acts| - 1]), acts[|acts| - 1])
  }

  /** The ticks among the acts, whose sum is the time that passed. */
  function Ticks(acts: seq<Act>): seq<nat>
    decreases |acts|
  {
    if acts == [] then []
    else Ticks(acts[..|acts| - 1]) + if acts[|acts| - 1].TickBy? then [acts[|acts| - 1].dt] else []
  }

  /** What the acts are to the game alone. */
  function Asked(acts: seq<Act>): seq<Op>
    decreases |acts|
  {
    if acts == [] then []
    else
      var act := acts[|acts| - 1];
      Asked(acts[..|acts| - 1]) + if act.TickBy? then [WaitFor(act.dt)] else if act.Ask? then [act.op] else []
  }

  lemma OverKept(cfg: Config, full: int, s: Session, act: Act)
    requires s.game.over
    ensures Step(cfg, full, s, act).game.over
  {
    hide Do, Wait;
    match act {
      case TickBy(dt) =>
        OverIsFinal(cfg, s.game, WaitFor(dt));
        DoWait(cfg, s.game, dt);
      case Ask(op) => OverIsFinal(cfg, s.game, op);
      case Leaves(color) =>
      case Returns(color) =>
    }
  }

  /** While a session's game goes on it is the game as if nobody had left. */
  lemma {:induction false} OnlyWatching(cfg: Config, full: int, s: Session, acts: seq<Act>)
    requires !After(cfg, full, s, acts).game.over
    ensures After(cfg, full, s, acts).game == Play(cfg, s.game, Asked(acts))
    decreases |acts|
  {
    hide Do, Wait;
    if acts != [] {
      var init, act := acts[..|acts| - 1], acts[|acts| - 1];
      var before := After(cfg, full, s, init);
      if before.game.over { OverKept(cfg, full, before, act); }
      OnlyWatching(cfg, full, s, init);
      if act.TickBy? {
        if !Wait(cfg, before.game, act.dt).over { TickExactly(cfg, before, act.dt); }
        DoWait(cfg, before.game, act.dt);
        assert (Asked(init) + [WaitFor(act.dt)])[..|Asked(init)|] == Asked(init);
      } else if act.Ask? {
        assert (Asked(init) + [act.op])[..|Asked(init)|] == Asked(init);
      } else {
        assert Asked(init) + [] == Asked(init);
      }
    }
  }

  /** A colour never has two countdowns. */
  lemma StepAtMostOne(cfg: Config, full: int, s: Session, act: Act, color: Color)
    requires |Of(s.countdowns, color)| <= 1
    ensures |Of(Step(cfg, full, s, act).countdowns, color)| <= 1
  {
    hide Do, Wait;
    match act {
      case TickBy(dt) =>
        if !Wait(cfg, s.game, dt).over {
          TickExactly(cfg, s, dt);
          OfSurvivors(s.countdowns, dt, color);
        }
      case Ask(op) =>
      case Leaves(leaver) => OfPlus(s.countdowns, [(leaver, Countdown(full, Displayed(full)))], color);
      case Returns(back) => OfWithout(s.countdowns, back, color);
    }
  }

  lemma {:induction false} AtMostOne(cfg: Config, full: int, s: Session, acts: seq<Act>, color: Color)
    requires |Of(s.countdowns, color)| <= 1
    ensures |Of(After(cfg, full, s, acts).countdowns, color)| <= 1
    decreases |acts|
  {
    hide Step;
    if acts != [] {
      AtMostOne(cfg, full, s, acts[..|acts| - 1], color);
      StepAtMostOne(cfg, full, After(cfg, full, s, acts[..|acts| - 1]), acts[|acts| - 1], color);
    }
  }

  // ----- a countdown in the life of a session -------------------------------------------------------------

  /** `color` left `dts` ago, was told about `before` that, and has not come back. */
  ghost predicate Counted(s: Session, color: Color, full: int, dts: seq<nat>, before: seq<Notice>) {
    && (dts == [] || Elapsed(dts) < full)
    && Of(s.countdowns, color) == [Countdown(full - Elapsed(dts), Displayed(full - Elapsed(dts)))]
    && About(s.notices, color) == before + NoticesOf(color, Seconds(full, dts))
  }

  /** The tick in which the time is up: the last second is told, the countdown is gone, and the
      player is resigned, unless another countdown that began before ran out in the same tick. */
  ghost predicate Fired(
    game: Game, s: Session, t: Session, color: Color, full: int, dts: seq<nat>, dt: nat, before: seq<Notice>)
  {
    && t.game == Resign(game, if FirstExpired(Ahead(s.countdowns, color), dt).Some? then color.Other() else color)
    && Of(t.countdowns, color) == []
    && About(t.notices, color) == before + NoticesOf(color, Seconds(full, dts + [dt]))
  }

  lemma BeginCounts(s: Session, color: Color, full: int)
    requires Of(s.countdowns, color) == [] && 0 <= full
    ensures Counted(Begin(s, color, full), color, full, [], About(s.notices, color))
  {
    OfPlus(s.countdowns, [(color, Countdown(full, Displayed(full)))], color);
    TellsAbout(s.notices, color, -1, Displayed(full), color);
  }

  lemma TickTells(cfg: Config, s: Session, color: Color, full: int, dts: seq<nat>, dt: nat, before: seq<Notice>)
    requires Counted(s, color, full, dts, before) && 0 <= full && !Wait(cfg, s.game, dt).over
    ensures About(Tick(cfg, s, dt).notices, color) == before + NoticesOf(color, Seconds(full, dts + [dt]))
  {
    hide Wait;
    var list, left := s.countdowns, full - Elapsed(dts);
    var c := Countdown(left, Displayed(left));
    assert (dts + [dt])[..|dts|] == dts;
    assert LeftOf(full, dts) == left && LeftOf(full, dts + [dt]) == Later(c, dt).remaining;
    CountDownTells(s.(game := Wait(cfg, s.game, dt), countdowns := []), list, dt, color);
    NoticesGrow(color, Seconds(full, dts), c.shown, Later(c, dt).shown);
    hide CountDown, Of, About;
    assert before + NoticesOf(color, Seconds(full, dts)) + Told(color, c.shown, Later(c, dt).shown) ==
      before + (NoticesOf(color, Seconds(full, dts)) + Told(color, c.shown, Later(c, dt).shown));
  }

  lemma TickCounts(cfg: Config, s: Session, color: Color, full: int, dts: seq<nat>, dt: nat, before: seq<Notice>)
    requires Counted(s, color, full, dts, before) && 0 <= full && !Wait(cfg, s.game, dt).over
    ensures var t, game := Tick(cfg, s, dt), Wait(cfg, s.game, dt);
      if Elapsed(dts) + dt < full then
        && Counted(t, color, full, dts + [dt], before)
        && t.game == if FirstExpired(s.countdowns, dt).Some? then Resign(game, color.Other()) else game
      else Fired(game, s, t, color, full, dts, dt, before)
  {
    hide Wait, Tick, Survivors, FirstExpired, Ahead, About, Seconds, NoticesOf;
    assert (dts + [dt])[..|dts|] == dts;
    TickExactly(cfg, s, dt);
    TickTells(cfg, s, color, full, dts, dt, before);
    OfSurvivors(s.countdowns, dt, color);
    ExpiredOf(s.countdowns, dt, color);
  }

  lemma OtherActCounts(cfg: Config, full: int, s: Session, color: Color, dts: seq<nat>, act: Act, before: seq<Notice>)
    requires Counted(s, color, full, dts, before) && !act.TickBy? && act != Returns(color)
    ensures Counted(Step(cfg, full, s, act), color, full, dts, before)
  {
    hide Do;
    match act {
      case Ask(op) =>
      case Leaves(leaver) =>
        OfPlus(s.countdowns, [(leaver, Countdown(full, Displayed(full)))], color);
        TellsAbout(s.notices, leaver, -1, Displayed(full), color);
      case Returns(back) =>
        OfWithout(s.countdowns, back, color);
        AboutPlus(s.notices, [Reconnected(back)], color);
    }
  }

  /** From the moment a player leaves, whatever is asked of the game and whoever else leaves or
      comes back: while the player is away and the game goes on, less than the countdown has
      passed, what is left is the countdown less the time of the ticks, and what was told about
      the player since are the seconds above. */
  lemma {:induction false} CountdownRuns(cfg: Config, full: int, s: Session, color: Color, acts: seq<Act>)
    requires Of(s.countdowns, color) == [] && 0 <= full && Returns(color) !in acts
    requires !After(cfg, full, Begin(s, color, full), acts).game.over
    ensures Counted(After(cfg, full, Begin(s, color, full), acts), color, full, Ticks(acts), About(s.notices, color))
    decreases |acts|
  {
    hide Step, Counted;
    if acts == [] {
      BeginCounts(s, color, full);
    } else {
      var init, act := acts[..|acts| - 1], acts[|acts| - 1];
      var t := After(cfg, full, Begin(s, color, full), init);
      if t.game.over { OverKept(cfg, full, t, act); }
      CountdownRuns(cfg, full, s, color, init);
      StepCounts(cfg, full, t, color, Ticks(init), act, About(s.notices, color));
      assert Ticks(init) + [] == Ticks(init);
    }
  }

  lemma StepCounts(cfg: Config, full: int, s: Session, color: Color, dts: seq<nat>, act: Act, before: seq<Notice>)
    requires Counted(s, color, full, dts, before) && 0 <= full && act != Returns(color)
    requires !Step(cfg, full, s, act).game.over
    ensures Counted(Step(cfg, full, s, act), color, full, if act.TickBy? then dts + [act.dt] else dts, before)
  {
    hide Counted, Wait, Do, CountDown;
    if act.TickBy? {
      assert Wait(cfg, s.game, act.dt).over ==> Step(cfg, full, s, act).game.over;
      TickCounts(cfg, s, color, full, dts, act.dt, before);
    } else {
      OtherActCounts(cfg, full, s, color, dts, act, before);
    }
  }

  /** The player is resigned in exactly the first tick at which the time since leaving reaches
      the countdown, unless the game ends in or before that tick, by itself or by the countdown
      of the other player. */
  lemma CountdownFires(cfg: Config, full: int, s: Session, color: Color, acts: seq<Act>, dt: nat)
    requires Of(s.countdowns, color) == [] && 0 <= full && Returns(color) !in acts
    requires !After(cfg, full, Begin(s, color, full), acts).game.over
    ensures var dts, t := Ticks(acts), After(cfg, full, Begin(s, color, full), acts);
      var u, game := Tick(cfg, t, dt), Wait(cfg, t.game, dt);
      && (dts == [] || Elapsed(dts) < full)
      && (game.over ==> u == t.(game := game, countdowns := []))
      && (!game.over && Elapsed(dts) + dt < full ==>
        && Counted(u, color, full, dts + [dt], About(s.notices, color))
        && u.game == if FirstExpired(t.countdowns, dt).Some? then Resign(game, color.Other()) else game)
      && (!game.over && Elapsed(dts) + dt >= full ==> Fired(game, t, u, color, full, dts, dt, About(s.notices, color)))
  {
    hide Wait;
    var t := After(cfg, full, Begin(s, color, full), acts);
    CountdownRuns(cfg, full, s, color, acts);
    assert Ticks(acts) == [] || Elapsed(Ticks(acts)) < full;
    hide Counted, Fired, CountDown;
    if !Wait(cfg, t.game, dt).over {
      TickCounts(cfg, t, color, full, Ticks(acts), dt, About(s.notices, color));
    }
  }

  /** The notices since leaving: the seconds fall strictly from the whole countdown, rounded
      up, to what is left, rounded up. So 0 is told only when nothing is left. */
  ghost predicate Shows(before: seq<Notice>, after: seq<Notice>, color: Color, full: int, left: int) {
    exists seconds: seq<int> ::
      && About(after, color) == About(before, color) + NoticesOf(color, seconds)
      && |seconds| > 0 && IsCeiling(seconds[0], full) && IsCeiling(seconds[|seconds| - 1], left)
      && (forall m, n :: 0 <= m < n < |seconds| ==> seconds[m] > seconds[n])
      && (forall n :: 0 <= n < |seconds| && seconds[n] <= 0 ==> n == |seconds| - 1 && left == 0)
  }

  lemma SecondsShow(before: seq<Notice>, after: seq<Notice>, color: Color, full: int, dts: seq<nat>)
    requires 0 <= full && About(after, color) == About(before, color) + NoticesOf(color, Seconds(full, dts))
    ensures Shows(before, after, color, full, LeftOf(full, dts))
  {
    hide About, NoticesOf, Seconds, LeftOf, Elapsed;
    var seconds := Seconds(full, dts);
    SecondsFall(full, dts);
    NoneEarlier(seconds, LeftOf(full, dts));
  }

  lemma NoneEarlier(seconds: seq<int>, left: int)
    requires |seconds| > 0 && IsCeiling(seconds[|seconds| - 1], left) && left >= 0
    requires forall m, n :: 0 <= m < n < |seconds| ==> seconds[m] > seconds[n]
    ensures forall n :: 0 <= n < |seconds| && seconds[n] <= 0 ==> n == |seconds| - 1 && left == 0
  {
  }

  lemma TickNotices(cfg: Config, full: int, s: Session, color: Color, acts: seq<Act>, dt: nat)
    requires Of(s.countdowns, color) == [] && 0 <= full && Returns(color) !in acts
    requires !After(cfg, full, Begin(s, color, full), acts).game.over
    ensures var dts, t := Ticks(acts), After(cfg, full, Begin(s, color, full), acts);
      !Wait(cfg, t.game, dt).over ==>
        About(Tick(cfg, t, dt).notices, color) == About(s.notices, color) + NoticesOf(color, Seconds(full, dts + [dt]))
  {
    hide Wait, Tick, Resign, After, Begin, Of, About, NoticesOf, Seconds, FirstExpired, Ahead;
    CountdownFires(cfg, full, s, color, acts, dt);
  }

  lemma LeftAfter(full: int, dts: seq<nat>, dt: nat)
    ensures LeftOf(full, dts + [dt]) == (var left := full - Elapsed(dts) - dt; if left < 0 then 0 else left)
  {
    assert (dts + [dt])[..|dts|] == dts;
  }

  lemma RunShows(cfg: Config, full: int, s: Session, color: Color, acts: seq<Act>)
    requires Of(s.countdowns, color) == [] && 0 <= full && Returns(color) !in acts
    requires !After(cfg, full, Begin(s, color, full), acts).game.over
    ensures var dts, t := Ticks(acts), After(cfg, full, Begin(s, color, full), acts);
      LeftOf(full, dts) == full - Elapsed(dts) && Shows(s.notices, t.notices, color, full, full - Elapsed(dts))
  {
    hide After, Begin, Of, About, NoticesOf, Seconds, Shows, Elapsed, Ticks;
    var dts, t := Ticks(acts), After(cfg, full, Begin(s, color, full), acts);
    CountdownRuns(cfg, full, s, color, acts);
    NoneElapsed();
    SecondsShow(s.notices, t.notices, color, full, dts);
  }

  lemma NoneElapsed()
    ensures Elapsed([]) == 0
  {
  }

  /** While the player is away and the game goes on, the last second told is what is left,
      rounded up. In the tick that ends the countdown it is 0, which was not told before. */
  lemma CountdownShows(cfg: Config, full: int, s: Session, color: Color, acts: seq<Act>, dt: nat)
    requires Of(s.countdowns, color) == [] && 0 <= full && Returns(color) !in acts
    requires !After(cfg, full, Begin(s, color, full), acts).game.over
    ensures var dts, t := Ticks(acts), After(cfg, full, Begin(s, color, full), acts);
      && Shows(s.notices, t.notices, color, full, full - Elapsed(dts))
      && (!Wait(cfg, t.game, dt).over ==>
        var left := full - Elapsed(dts) - dt;
        Shows(s.notices, Tick(cfg, t, dt).notices, color, full, if left < 0 then 0 else left))
  {
    hide Wait, Tick, After, Begin, Of, About, NoticesOf, Seconds, Shows, Elapsed, Ticks, LeftOf;
    var dts, t := Ticks(acts), After(cfg, full, Begin(s, color, full), acts);
    RunShows(cfg, full, s, color, acts);
    TickNotices(cfg, full, s, color, acts, dt);
    LeftAfter(full, dts, dt);
    if !Wait(cfg, t.game, dt).over {
      SecondsShow(s.notices, Tick(cfg, t, dt).notices, color, full, dts + [dt]);
    }
  }

  // ----- coming back ----------------------------------------------------------------------------------------

  lemma PresentStays(cfg: Config, full: int, s: Session, color: Color, act: Act)
    requires Of(s.countdowns, color) == [] && act != Leaves(color)
    ensures Of(Step(cfg, full, s, act).countdowns, color) == []
    ensures About(Step(cfg, full, s, act).notices, color) == About(s.notices, color)
  {
    hide Do, Wait;
    match act {
      case TickBy(dt) =>
        if !Wait(cfg, s.game, dt).over {
          TickExactly(cfg, s, dt);
          OfSurvivors(s.countdowns, dt, color);
          CountDownTells(s.(game := Wait(cfg, s.game, dt), countdowns := []), s.countdowns, dt, color);
        }
      case Ask(op) =>
      case Leaves(leaver) =>
        OfPlus(s.countdowns, [(leaver, Countdown(full, Displayed(full)))], color);
        TellsAbout(s.notices, leaver, -1, Displayed(full), color);
      case Returns(back) =>
        OfWithout(s.countdowns, back, color);
        AboutPlus(s.notices, [Reconnected(back)], color);
    }
  }

  lemma {:induction false} PresentThroughout(cfg: Config, full: int, s: Session, color: Color, acts: seq<Act>)
    requires Of(s.countdowns, color) == [] && Leaves(color) !in acts
    ensures Of(After(cfg, full, s, acts).countdowns, color) == []
    ensures About(After(cfg, full, s, acts).notices, color) == About(s.notices, color)
    decreases |acts|
  {
    hide Step;
    if acts != [] {
      PresentThroughout(cfg, full, s, color, acts[..|acts| - 1]);
      PresentStays(cfg, full, After(cfg, full, s, acts[..|acts| - 1]), color, acts[|acts| - 1]);
    }
  }

  /** A player who is not away, or came back, is never resigned by a tick until leaving again;
      the other player is, exactly when the other's countdown runs out. */
  lemma PresentIsSafe(cfg: Config, full: int, s: Session, color: Color, acts: seq<Act>, dt: nat)
    requires Of(s.countdowns, color) == [] && Leaves(color) !in acts
    ensures var t := After(cfg, full, s, acts);
      var u, game := Tick(cfg, t, dt), Wait(cfg, t.game, dt);
      && About(t.notices, color) == About(s.notices, color)
      && u.game == if !game.over && FirstExpired(t.countdowns, dt).Some? then Resign(game, color.Other()) else game
  {
    hide Wait;
    var t := After(cfg, full, s, acts);
    PresentThroughout(cfg, full, s, color, acts);
    if !Wait(cfg, t.game, dt).over {
      TickExactly(cfg, t, dt);
      ExpiredOf(t.countdowns, dt, color);
    }
  }

  /** A countdown whose player comes back never fires: the player is told about once more, as
      reconnected, the other player's countdown runs on, and no tick resigns the player until
      the player leaves again. */
  lemma ComesBackInTime(cfg: Config, full: int, s: Session, color: Color, acts: seq<Act>, more: seq<Act>, dt: nat)
    requires |Of(s.countdowns, color)| <= 1 && Leaves(color) !in more
    ensures var away := After(cfg, full, Begin(s, color, full), acts);
      var back := Step(cfg, full, away, Returns(color));
      var t := After(cfg, full, back, more);
      var game := Wait(cfg, t.game, dt);
      && Of(back.countdowns, color) == [] && Of(back.countdowns, color.Other()) == Of(away.countdowns, color.Other())
      && About(t.notices, color) ==
        About(away.notices, color) + (if Of(away.countdowns, color) == [] then [] else [Reconnected(color)])
      && Tick(cfg, t, dt).game ==
        if !game.over && FirstExpired(t.countdowns, dt).Some? then Resign(game, color.Other()) else game
  {
    hide Wait, Tick, Do;
    var away := After(cfg, full, Begin(s, color, full), acts);
    OfWithout(away.countdowns, color, color);
    OfWithout(away.countdowns, color, color.Other());
    AboutPlus(away.notices, [Reconnected(color)], color);
    assert [Reconnected(color)][1..] == [];
    PresentIsSafe(cfg, full, Step(cfg, full, away, Returns(color)), color, more, dt);
  }
}
