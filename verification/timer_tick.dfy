/**
 * The once-a-second tick of the Pomodoro timer: it counts the current session
 * down, or, when the time is up, counts the session as completed and switches
 * to the next one. The tick only decides which actions to dispatch (and
 * whether to play the end sound); the reducer applies them. As the hook
 * schedules it, the tick at zero never happens (`CountdownStallsAtZero`).
 */
module TimerTick {
  import opened TimerReducer

  /** The actions one tick dispatches, in order, and whether it asks for the end sound. */
  datatype TickResult = TickResult(actions: seq<TimerAction>, playEndSound: bool)

  /** After work comes a short break; after either break, work. */
  function NextSession(current: SessionType): (next: SessionType)
    ensures next != LongBreak
    ensures next == Work <==> current != Work
  {
    if current == Work then ShortBreak else Work
  }

  /** The `tick` callback's decision for the state it sees. */
  function Tick(s: TimerState): TickResult {
    if s.isRunning && s.timeLeft > 0 then TickResult([SetTimeLeft(s.timeLeft - 1)], false)
    else if s.isRunning && s.timeLeft == 0 then TickResult([IncrementSessions, SetSessionType(NextSession(s.currentSession))], s.audioEnabled)
    else TickResult([], false)
  }

  /** The state after the tick's actions have been dispatched. */
  function AfterTick(s: TimerState): TimerState {
    ReduceAll(s, Tick(s).actions)
  }

  /** The interval is set only while the timer runs with time left. */
  predicate ShouldSchedule(s: TimerState) {
    s.isRunning && s.timeLeft > 0
  }

  /**
   * A stopped timer dispatches nothing; a running one with time left
   * dispatches exactly one decrement; at zero it dispatches the session count
   * then the switch, and asks for the sound exactly when audio is on.
   */
  lemma TickCases(s: TimerState)
    ensures !s.isRunning ==> Tick(s) == TickResult([], false)
    ensures s.isRunning && s.timeLeft > 0 ==> Tick(s).actions == [SetTimeLeft(s.timeLeft - 1)] && !Tick(s).playEndSound
    ensures s.isRunning && s.timeLeft == 0 ==>
      && Tick(s).actions == [IncrementSessions, SetSessionType(NextSession(s.currentSession))]
      && Tick(s).playEndSound == s.audioEnabled
    ensures Tick(s).playEndSound ==> s.audioEnabled
    ensures forall a :: a in Tick(s).actions ==> a != SetSessionType(LongBreak)
  {
  }

  /** The interval is scheduled exactly when the tick would count down. */
  lemma ScheduleIffCountdown(s: TimerState)
    ensures ShouldSchedule(s) <==> |Tick(s).actions| == 1 && Tick(s).actions[0].SetTimeLeft?
  {
  }

  /** Counting down never makes the time negative, with non-negative durations. */
  lemma TickKeepsTimeNonNegative(s: TimerState)
    requires s.timeLeft >= 0 && s.workDuration >= 0 && s.shortBreakDuration >= 0
    ensures AfterTick(s).timeLeft >= 0
  {
    if s.isRunning && s.timeLeft > 0 {
      ReduceAllOne(s, SetTimeLeft(s.timeLeft - 1));
    } else if s.isRunning && s.timeLeft == 0 {
      ReduceAllTwo(s, IncrementSessions, SetSessionType(NextSession(s.currentSession)));
    }
  }

  /**
   * What the tick at zero does after work: one more session counted, a
   * stopped short break with its full time; nothing else changes. Only the
   * intended schedule below ever reaches this tick.
   */
  lemma WorkSessionCompletes(s: TimerState)
    requires s.isRunning && s.timeLeft == 0 && s.currentSession == Work
    ensures AfterTick(s) == s.(sessionsCompleted := s.sessionsCompleted + 1, currentSession := ShortBreak,
                               timeLeft := s.shortBreakDuration, isRunning := false, isPaused := false)
  {
    ReduceAllTwo(s, IncrementSessions, SetSessionType(ShortBreak));
  }

  /** What the tick at zero does after either break: one more session counted, a stopped work session with its full time. */
  lemma BreakCompletes(s: TimerState)
    requires s.isRunning && s.timeLeft == 0 && s.currentSession != Work
    ensures AfterTick(s) == s.(sessionsCompleted := s.sessionsCompleted + 1, currentSession := Work,
                               timeLeft := s.workDuration, isRunning := false, isPaused := false)
  {
    ReduceAllTwo(s, IncrementSessions, SetSessionType(Work));
  }

  // ---------------------------------------------------------------------
  // The interval as the hook schedules it
  // ---------------------------------------------------------------------

  /**
   * `n` seconds of the interval as the hook sets it up: the effect re-runs on
   * every change of `timeLeft`, clears the old interval, and sets a new one
   * only while `ShouldSchedule` holds; once it fails, nothing ticks any more
   * (the hook does not hand `tick` to anyone else).
   */
  function IntervalRun(s: TimerState, n: nat): TimerState
    decreases n
  {
    if n == 0 || !ShouldSchedule(s) then s else IntervalRun(AfterTick(s), n - 1)
  }

  /**
   * A running session with `t` seconds left reaches zero within `t` seconds
   * and then stays there, still running, with nothing else changed: the tick
   * at zero is never scheduled, so the session is never counted or switched.
   */
  lemma {:induction false} CountdownStallsAtZero(s: TimerState, n: nat)
    requires s.isRunning && 0 <= s.timeLeft <= n
    ensures IntervalRun(s, n) == s.(timeLeft := 0)
    decreases n
  {
    if s.timeLeft > 0 {
      ReduceAllOne(s, SetTimeLeft(s.timeLeft - 1));
      CountdownStallsAtZero(AfterTick(s), n - 1);
    }
  }

  /**
   * A work session started with one second left shows 00:00 a minute later,
   * still running, with no session completed.
   */
  lemma StallExample()
    ensures var after := IntervalRun(InitialState.(isRunning := true, timeLeft := 1), 60);
      after.isRunning && after.timeLeft == 0 && after.sessionsCompleted == 0 && after.currentSession == Work
  {
    CountdownStallsAtZero(InitialState.(isRunning := true, timeLeft := 1), 60);
  }

  // ---------------------------------------------------------------------
  // The evidently intended schedule
  // ---------------------------------------------------------------------

  /** The interval runs as long as the timer runs, so the tick at zero takes place. */
  predicate IntendedSchedule(s: TimerState) {
    s.isRunning
  }

  /** `n` seconds of an interval kept while the timer runs. */
  function IntendedRun(s: TimerState, n: nat): TimerState
    decreases n
  {
    if n == 0 || !IntendedSchedule(s) then s else IntendedRun(AfterTick(s), n - 1)
  }

  /** Counting down under the intended schedule: `t` seconds bring the session to zero, still running. */
  lemma {:induction false} IntendedCountdown(s: TimerState, extra: nat)
    requires s.isRunning && s.timeLeft >= 0
    ensures IntendedRun(s, s.timeLeft + extra) == IntendedRun(s.(timeLeft := 0), extra)
    decreases s.timeLeft
  {
    if s.timeLeft > 0 {
      ReduceAllOne(s, SetTimeLeft(s.timeLeft - 1));
      IntendedCountdown(AfterTick(s), extra);
    }
  }

  /**
   * Under the intended schedule a running session with `t` seconds left is
   * completed after `t + 1` seconds: one more session counted, and the next
   * session stopped with its full time.
   */
  lemma IntendedRunCompletesSession(s: TimerState)
    requires s.isRunning && s.timeLeft >= 0
    ensures var done := IntendedRun(s, s.timeLeft + 1);
      && done.sessionsCompleted == s.sessionsCompleted + 1
      && done.currentSession == NextSession(s.currentSession)
      && !done.isRunning && !done.isPaused
      && done.timeLeft == (if s.currentSession == Work then s.shortBreakDuration else s.workDuration)
  {
    IntendedCountdown(s, 1);
    var zero := s.(timeLeft := 0);
    if s.currentSession == Work {
      WorkSessionCompletes(zero);
    } else {
      BreakCompletes(zero);
    }
  }
}
