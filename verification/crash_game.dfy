/** The round state machine of `services/crash_game.rs`. The phase is not
    stored: it is derived from two flags, with betting taking priority over
    the game round. The two timer tasks the engine spawns (the betting
    countdown and the flight loop) are modelled by their loop-local state and
    a step function for one iteration of each loop; a tick of the 1-second
    interval is one step. */
module CrashGame {
  import opened Ints
  import opened Wrappers

  datatype GameState = Idle | BettingInProgress | GameInProgress

  datatype Game = Game(bettingInProgress: bool, gameRoundInProgress: bool, bettingTimeLeft: uint32)

  /** Seconds of betting; also the value the countdown is reset to. */
  const BETTING_TIMER_MAX_VAL: uint32 := 5

  /** Largest `u32`, which the countdown wraps to after passing 0. */
  const U32_MAX: uint32 := TWO_TO_THE_32 - 1

  datatype RoundResult = RoundResult(multiplier: uint64, animationDuration: uint64)

  /** The loop-local state of a spawned timer task. */
  datatype Timer =
    | BettingCountdown(timeLeft: uint32)
    | Flight(currentSecond: uint64, round: RoundResult)

  /** An engine state together with the timer task an operation spawned, if any. */
  datatype Spawned = Spawned(next: Game, timer: Option<Timer>)

  /** `CrashGame::new`: no flag set, countdown 0. */
  function New(): (g: Game)
    ensures GetGameState(g) == Idle
  {
    Game(false, false, 0)
  }

  /** `get_game_state`: betting first, then game, otherwise idle. */
  function GetGameState(g: Game): (s: GameState)
    ensures s == BettingInProgress <==> g.bettingInProgress
    ensures s == GameInProgress <==> !g.bettingInProgress && g.gameRoundInProgress
    ensures s == Idle <==> !g.bettingInProgress && !g.gameRoundInProgress
  {
    if g.bettingInProgress then BettingInProgress
    else if g.gameRoundInProgress then GameInProgress
    else Idle
  }

  /** `reset_betting_time_left`. */
  function ResetBettingTimeLeft(g: Game): (r: Game)
    ensures r.bettingTimeLeft == BETTING_TIMER_MAX_VAL
    ensures r.bettingInProgress == g.bettingInProgress && r.gameRoundInProgress == g.gameRoundInProgress
    ensures GetGameState(r) == GetGameState(g)
  {
    g.(bettingTimeLeft := BETTING_TIMER_MAX_VAL)
  }

  /** `decrement_betting_time_left`: `fetch_sub(1)` returns the value BEFORE
      the decrement, and the counter wraps from 0 to `U32_MAX`. */
  function DecrementBettingTimeLeft(g: Game): (r: (uint32, Game))
    ensures r.0 == g.bettingTimeLeft
    ensures r.0 > 0 ==> r.1.bettingTimeLeft + 1 == r.0
    ensures r.0 == 0 ==> r.1.bettingTimeLeft == U32_MAX
    ensures r.1.bettingInProgress == g.bettingInProgress && r.1.gameRoundInProgress == g.gameRoundInProgress
    ensures GetGameState(r.1) == GetGameState(g)
  {
    (g.bettingTimeLeft, g.(bettingTimeLeft := WrappingSub32(g.bettingTimeLeft, 1)))
  }

  /** `start_betting_timer`: only from `Idle`, where it resets the countdown,
      raises the betting flag and spawns the countdown task. */
  function StartBettingTimer(g: Game): (r: Spawned)
    ensures GetGameState(g) != Idle ==> r == Spawned(g, None)
    ensures GetGameState(g) == Idle ==>
      && r.next == Game(true, false, BETTING_TIMER_MAX_VAL)
      && r.timer == Some(BettingCountdown(BETTING_TIMER_MAX_VAL))
      && GetGameState(r.next) == BettingInProgress
  {
    if GetGameState(g) == Idle then
      Spawned(ResetBettingTimeLeft(g).(bettingInProgress := true),
              Some(BettingCountdown(BETTING_TIMER_MAX_VAL)))
    else
      Spawned(g, None)
  }

  /** `get_round_result`: a fixed outcome in this revision. */
  function GetRoundResult(): (r: RoundResult)
    ensures r.multiplier == 142 && r.animationDuration == 10
  {
    RoundResult(142, 10)
  }

  /** `start_game`: proceeds only when the state is already
      `GameInProgress`; raising the game flag again changes nothing, and the
      flight task is spawned from second 0. */
  function StartGame(g: Game): (r: Spawned)
    ensures GetGameState(g) != GameInProgress ==> r == Spawned(g, None)
    ensures GetGameState(g) == GameInProgress ==>
      r == Spawned(g, Some(Flight(0, GetRoundResult())))
  {
    if GetGameState(g) == GameInProgress then
      Spawned(g.(gameRoundInProgress := true), Some(Flight(0, GetRoundResult())))
    else
      Spawned(g, None)
  }

  /** `on_betting_timer_finished`: betting flag down, game flag up. */
  function OnBettingTimerFinished(g: Game): (r: Game)
    ensures GetGameState(r) == GameInProgress
    ensures r.bettingTimeLeft == g.bettingTimeLeft
  {
    g.(bettingInProgress := false, gameRoundInProgress := true)
  }

  /** `on_game_finished`: game flag down and the countdown reset; from a
      game round this is back to `Idle`. */
  function OnGameFinished(g: Game): (r: Game)
    ensures !r.gameRoundInProgress && r.bettingInProgress == g.bettingInProgress
    ensures r.bettingTimeLeft == BETTING_TIMER_MAX_VAL
    ensures GetGameState(g) == GameInProgress ==> GetGameState(r) == Idle
  {
    ResetBettingTimeLeft(g.(gameRoundInProgress := false))
  }

  /** One iteration of a spawned loop. The countdown loop finishes (and
      starts the game) when its local counter is 0, and otherwise waits a
      tick and takes the value `fetch_sub` returns. The flight loop finishes
      once `current_second` reaches the animation duration, and otherwise
      waits a tick and advances one second. */
  function TimerStep(g: Game, t: Timer): (r: Spawned)
    ensures t.BettingCountdown? && t.timeLeft > 0 ==>
      && r.timer == Some(BettingCountdown(g.bettingTimeLeft))
      && GetGameState(r.next) == GetGameState(g)
    ensures t.BettingCountdown? && t.timeLeft == 0 ==>
      && GetGameState(r.next) == GameInProgress
      && r.timer == Some(Flight(0, GetRoundResult()))
    ensures t.Flight? && t.currentSecond < t.round.animationDuration ==>
      r == Spawned(g, Some(Flight(t.currentSecond + 1, t.round)))
    ensures t.Flight? && t.currentSecond >= t.round.animationDuration ==>
      && r.timer == None
      && !r.next.gameRoundInProgress
      && r.next.bettingTimeLeft == BETTING_TIMER_MAX_VAL
  {
    match t
    case BettingCountdown(timeLeft) =>
      if timeLeft == 0 then
        StartGame(OnBettingTimerFinished(g))
      else
        var (was, g') := DecrementBettingTimeLeft(g);
        Spawned(g', Some(BettingCountdown(was)))
    case Flight(second, round) =>
      if second >= round.animationDuration then
        Spawned(OnGameFinished(g), None)
      else
        Spawned(g, Some(Flight(second + 1, round)))
  }

  /** `n` loop iterations; a finished task stays finished. */
  function Run(g: Game, t: Option<Timer>, n: nat): (r: Spawned)
    ensures n == 0 || t.None? ==> r == Spawned(g, t)
    ensures r.timer.Some? ==> t.Some?
    decreases n
  {
    if n == 0 || t.None? then Spawned(g, t)
    else
      var s := TimerStep(g, t.value);
      Run(s.next, s.timer, n - 1)
  }

  /** Running `a` iterations and then `b` is running `a + b`. */
  lemma {:induction false} RunAdditive(g: Game, t: Option<Timer>, a: nat, b: nat)
    ensures Run(g, t, a + b) == Run(Run(g, t, a).next, Run(g, t, a).timer, b)
    decreases a
  {
    if a > 0 && t.Some? {
      var s := TimerStep(g, t.value);
      RunAdditive(s.next, s.timer, a - 1, b);
    }
  }

  /** While the local counter is one ahead of the shared one, each tick
      hands the shared value down, so after `timeLeft` ticks the local
      counter is 0 and the shared one has wrapped to `U32_MAX`. */
  lemma {:induction false} CountdownReachesZero(g: Game, timeLeft: uint32)
    requires g.bettingTimeLeft == WrappingSub32(timeLeft, 1)
    ensures Run(g, Some(BettingCountdown(timeLeft)), timeLeft)
            == Spawned(g.(bettingTimeLeft := U32_MAX), Some(BettingCountdown(0)))
    decreases timeLeft
  {
    if timeLeft > 0 {
      var s := TimerStep(g, BettingCountdown(timeLeft));
      assert s == Spawned(g.(bettingTimeLeft := WrappingSub32(timeLeft - 1, 1)),
                          Some(BettingCountdown(timeLeft - 1)));
      CountdownReachesZero(s.next, timeLeft - 1);
    }
  }

  /** The betting phase started from `Idle` takes six ticks: the loop only
      exits after the decrement that returns 0, by which time the shared
      counter has wrapped. The seventh iteration ends betting and starts the
      flight at second 0. */
  lemma BettingPhaseRuns(g: Game)
    requires GetGameState(g) == Idle
    ensures
      var s := StartBettingTimer(g);
      && Run(s.next, s.timer, 6) == Spawned(Game(true, false, U32_MAX), Some(BettingCountdown(0)))
      && Run(s.next, s.timer, 7) == Spawned(Game(false, true, U32_MAX), Some(Flight(0, GetRoundResult())))
  {
    var s := StartBettingTimer(g);
    var first := TimerStep(s.next, s.timer.value);
    assert first == Spawned(Game(true, false, 4), Some(BettingCountdown(5)));
    CountdownReachesZero(first.next, 5);
    RunAdditive(s.next, s.timer, 6, 1);
  }

  /** The flight loop advances one second per tick until it reaches the
      animation duration, changing nothing else. */
  lemma {:induction false} FlightReachesDuration(g: Game, second: uint64, round: RoundResult)
    requires second <= round.animationDuration
    ensures Run(g, Some(Flight(second, round)), round.animationDuration - second)
            == Spawned(g, Some(Flight(round.animationDuration, round)))
    decreases round.animationDuration - second
  {
    if second < round.animationDuration {
      FlightReachesDuration(g, second + 1, round);
    }
  }

  /** A whole round closes: from `Idle`, betting (7 iterations) and the
      10-second flight (11 iterations) bring the engine back to `Idle` with
      the countdown reset and no task left running. */
  lemma RoundCycleCloses(g: Game)
    requires GetGameState(g) == Idle
    ensures
      var s := StartBettingTimer(g);
      && GetGameState(s.next) == BettingInProgress
      && GetGameState(Run(s.next, s.timer, 7).next) == GameInProgress
      && GetGameState(Run(s.next, s.timer, 17).next) == GameInProgress
      && Run(s.next, s.timer, 18) == Spawned(Game(false, false, BETTING_TIMER_MAX_VAL), None)
      && GetGameState(Run(s.next, s.timer, 18).next) == Idle
  {
    var s := StartBettingTimer(g);
    BettingPhaseRuns(g);
    var flying := Game(false, true, U32_MAX);
    FlightReachesDuration(flying, 0, GetRoundResult());
    RunAdditive(s.next, s.timer, 7, 10);
    RunAdditive(s.next, s.timer, 17, 1);
  }
}
