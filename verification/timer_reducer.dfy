/**
 * The Pomodoro timer's state and its reducer: a pure function from a state and
 * an action to the next state. Times are whole seconds, durations are stored in
 * seconds and set in minutes.
 */
module TimerReducer {
  import opened Wrappers

  datatype SessionType = Work | ShortBreak | LongBreak

  datatype TimerState = TimerState(
    isRunning: bool,
    isPaused: bool,
    currentSession: SessionType,
    timeLeft: int,
    workDuration: int,
    shortBreakDuration: int,
    longBreakDuration: int,
    sessionsCompleted: int,
    audioEnabled: bool)

  /** `Partial<TimerState>`: a field is `None` when the payload does not have it. */
  datatype Patch = Patch(
    isRunning: Option<bool>,
    isPaused: Option<bool>,
    currentSession: Option<SessionType>,
    timeLeft: Option<int>,
    workDuration: Option<int>,
    shortBreakDuration: Option<int>,
    longBreakDuration: Option<int>,
    sessionsCompleted: Option<int>,
    audioEnabled: Option<bool>)

  datatype TimerAction =
    | Start
    | Pause
    | Reset
    | SetSessionType(session: SessionType)
    | SetTimeLeft(seconds: int)
    | SetDuration(kind: SessionType, minutes: int)
    | IncrementSessions
    | ResetSessions
    | ToggleAudio
    | SetAudio(enabled: bool)
    | LoadSettings(patch: Patch)
    | Unrecognised(tag: string)   // any other `type`: the `default` branch

  /** Stopped, unpaused, a 25-minute work session ready; breaks of 5 and 15 minutes; sound on. */
  const InitialState: TimerState := TimerState(false, false, Work, 25 * 60, 25 * 60, 5 * 60, 15 * 60, 0, true)

  /** The configured length of a session, in seconds. */
  function Duration(s: TimerState, session: SessionType): int {
    match session
    case Work => s.workDuration
    case ShortBreak => s.shortBreakDuration
    case LongBreak => s.longBreakDuration
  }

  /** The state with the duration of `kind` set to `seconds`. */
  function WithDuration(s: TimerState, kind: SessionType, seconds: int): TimerState {
    match kind
    case Work => s.(workDuration := seconds)
    case ShortBreak => s.(shortBreakDuration := seconds)
    case LongBreak => s.(longBreakDuration := seconds)
  }

  /** `{ ...state, ...patch }` */
  function Apply(s: TimerState, p: Patch): TimerState {
    TimerState(
      p.isRunning.GetOr(s.isRunning),
      p.isPaused.GetOr(s.isPaused),
      p.currentSession.GetOr(s.currentSession),
      p.timeLeft.GetOr(s.timeLeft),
      p.workDuration.GetOr(s.workDuration),
      p.shortBreakDuration.GetOr(s.shortBreakDuration),
      p.longBreakDuration.GetOr(s.longBreakDuration),
      p.sessionsCompleted.GetOr(s.sessionsCompleted),
      p.audioEnabled.GetOr(s.audioEnabled))
  }

  /** `timerReducer(state, action)` */
  function Reduce(s: TimerState, a: TimerAction): TimerState {
    match a
    case Start => s.(isRunning := true, isPaused := false)
    case Pause => s.(isRunning := false, isPaused := true)
    case Reset => s.(isRunning := false, isPaused := false, timeLeft := Duration(s, s.currentSession))
    case SetSessionType(t) => s.(currentSession := t, timeLeft := Duration(s, t), isRunning := false, isPaused := false)
    case SetTimeLeft(n) => s.(timeLeft := n)
    case SetDuration(kind, minutes) =>
      var updated := WithDuration(s, kind, minutes * 60);
      if s.currentSession == kind then updated.(timeLeft := minutes * 60) else updated
    case IncrementSessions => s.(sessionsCompleted := s.sessionsCompleted + 1)
    case ResetSessions => s.(sessionsCompleted := 0)
    case ToggleAudio => s.(audioEnabled := !s.audioEnabled)
    case SetAudio(on) => s.(audioEnabled := on)
    case LoadSettings(p) => Apply(s, p)
    case Unrecognised(_) => s
  }

  /** Dispatching a sequence of actions, first to last. */
  function ReduceAll(s: TimerState, actions: seq<TimerAction>): TimerState
    decreases |actions|
  {
    if actions == [] then s else ReduceAll(Reduce(s, actions[0]), actions[1..])
  }

  lemma ReduceAllOne(s: TimerState, a: TimerAction)
    ensures ReduceAll(s, [a]) == Reduce(s, a)
  {
    assert [a][1..] == [];
  }

  lemma ReduceAllTwo(s: TimerState, a: TimerAction, b: TimerAction)
    ensures ReduceAll(s, [a, b]) == Reduce(Reduce(s, a), b)
  {
    assert [a, b][1..] == [b];
    ReduceAllOne(Reduce(s, a), b);
  }

  // ---------------------------------------------------------------------
  // What each action promises
  // ---------------------------------------------------------------------

  /** Everything but the running and paused flags. */
  predicate SameExceptFlags(s: TimerState, r: TimerState) {
    && r.currentSession == s.currentSession && r.timeLeft == s.timeLeft
    && r.workDuration == s.workDuration && r.shortBreakDuration == s.shortBreakDuration
    && r.longBreakDuration == s.longBreakDuration
    && r.sessionsCompleted == s.sessionsCompleted && r.audioEnabled == s.audioEnabled
  }

  /** The three configured durations. */
  predicate SameDurations(s: TimerState, r: TimerState) {
    r.workDuration == s.workDuration && r.shortBreakDuration == s.shortBreakDuration && r.longBreakDuration == s.longBreakDuration
  }

  /** The initial state is a stopped work session with its full time left. */
  lemma InitialStateReady()
    ensures !InitialState.isRunning && !InitialState.isPaused
    ensures InitialState.timeLeft == Duration(InitialState, InitialState.currentSession) == 1500
    ensures Duration(InitialState, ShortBreak) == 300 && Duration(InitialState, LongBreak) == 900
    ensures InitialState.sessionsCompleted == 0 && InitialState.audioEnabled
  {
  }

  /** START runs and unpauses, PAUSE stops and pauses; nothing else changes. */
  lemma StartPauseFlags(s: TimerState)
    ensures var r := Reduce(s, Start); r.isRunning && !r.isPaused && SameExceptFlags(s, r)
    ensures var r := Reduce(s, Pause); !r.isRunning && r.isPaused && SameExceptFlags(s, r)
  {
  }

  /** RESET stops and refills the current session; session, durations and count stay. */
  lemma ResetRefills(s: TimerState)
    ensures var r := Reduce(s, Reset);
      && !r.isRunning && !r.isPaused
      && r.timeLeft == Duration(s, s.currentSession)
      && r.currentSession == s.currentSession && SameDurations(s, r)
      && r.sessionsCompleted == s.sessionsCompleted && r.audioEnabled == s.audioEnabled
  {
  }

  /** SET_SESSION_TYPE switches to the session with its full time left, stopped. */
  lemma SetSessionTypeSwitches(s: TimerState, t: SessionType)
    ensures var r := Reduce(s, SetSessionType(t));
      && r.currentSession == t && r.timeLeft == Duration(s, t) && !r.isRunning && !r.isPaused
      && SameDurations(s, r) && r.sessionsCompleted == s.sessionsCompleted && r.audioEnabled == s.audioEnabled
  {
  }

  /**
   * SET_DURATION sets that session's duration to `minutes * 60`, leaves the
   * other two, and touches `timeLeft` only when that session is the current one.
   */
  lemma SetDurationUpdates(s: TimerState, kind: SessionType, minutes: int)
    ensures var r := Reduce(s, SetDuration(kind, minutes));
      && Duration(r, kind) == minutes * 60
      && (forall other :: other != kind ==> Duration(r, other) == Duration(s, other))
      && r.timeLeft == (if kind == s.currentSession then minutes * 60 else s.timeLeft)
      && r.currentSession == s.currentSession && r.isRunning == s.isRunning && r.isPaused == s.isPaused
      && r.sessionsCompleted == s.sessionsCompleted && r.audioEnabled == s.audioEnabled
  {
  }

  /** The session counter and the sound switch. */
  lemma CounterAndAudio(s: TimerState)
    ensures Reduce(s, IncrementSessions).sessionsCompleted == s.sessionsCompleted + 1
    ensures Reduce(s, ResetSessions).sessionsCompleted == 0
    ensures Reduce(Reduce(s, ToggleAudio), ToggleAudio) == s
    ensures Reduce(s, ToggleAudio).audioEnabled != s.audioEnabled
  {
  }

  /** LOAD_SETTINGS overwrites exactly the fields its payload has; other actions' default leaves the state as it is. */
  lemma LoadSettingsOverwrites(s: TimerState, p: Patch, tag: string)
    ensures var r := Reduce(s, LoadSettings(p));
      && (p.isRunning.Some? ==> r.isRunning == p.isRunning.value) && (p.isRunning.None? ==> r.isRunning == s.isRunning)
      && (p.isPaused.Some? ==> r.isPaused == p.isPaused.value) && (p.isPaused.None? ==> r.isPaused == s.isPaused)
      && (p.currentSession.Some? ==> r.currentSession == p.currentSession.value) && (p.currentSession.None? ==> r.currentSession == s.currentSession)
      && (p.timeLeft.Some? ==> r.timeLeft == p.timeLeft.value) && (p.timeLeft.None? ==> r.timeLeft == s.timeLeft)
      && (p.workDuration.Some? ==> r.workDuration == p.workDuration.value) && (p.workDuration.None? ==> r.workDuration == s.workDuration)
      && (p.shortBreakDuration.Some? ==> r.shortBreakDuration == p.shortBreakDuration.value) && (p.shortBreakDuration.None? ==> r.shortBreakDuration == s.shortBreakDuration)
      && (p.longBreakDuration.Some? ==> r.longBreakDuration == p.longBreakDuration.value) && (p.longBreakDuration.None? ==> r.longBreakDuration == s.longBreakDuration)
      && (p.sessionsCompleted.Some? ==> r.sessionsCompleted == p.sessionsCompleted.value) && (p.sessionsCompleted.None? ==> r.sessionsCompleted == s.sessionsCompleted)
      && (p.audioEnabled.Some? ==> r.audioEnabled == p.audioEnabled.value) && (p.audioEnabled.None? ==> r.audioEnabled == s.audioEnabled)
    ensures Reduce(s, Unrecognised(tag)) == s
  {
  }

  // ---------------------------------------------------------------------
  // The running/paused invariant
  // ---------------------------------------------------------------------

  /** The timer is never running and paused at once. */
  predicate Coherent(s: TimerState) {
    !(s.isRunning && s.isPaused)
  }

  /** Every action but LOAD_SETTINGS keeps the timer coherent; LOAD_SETTINGS does too when it sets neither flag. */
  lemma ReducePreservesCoherent(s: TimerState, a: TimerAction)
    requires Coherent(s)
    requires a.LoadSettings? ==> a.patch.isRunning.None? && a.patch.isPaused.None?
    ensures Coherent(Reduce(s, a))
  {
  }

  /** LOAD_SETTINGS can break coherence: a payload setting both flags. */
  lemma LoadSettingsMayBreakCoherent(s: TimerState)
    ensures !Coherent(Reduce(s, LoadSettings(Patch(Some(true), Some(true), None, None, None, None, None, None, None))))
  {
  }

  /** Coherence survives any run of actions without a flag-setting LOAD_SETTINGS. */
  lemma {:induction false} ReduceAllPreservesCoherent(s: TimerState, actions: seq<TimerAction>)
    requires Coherent(s)
    requires forall i :: 0 <= i < |actions| && actions[i].LoadSettings? ==>
               actions[i].patch.isRunning.None? && actions[i].patch.isPaused.None?
    ensures Coherent(ReduceAll(s, actions))
    decreases |actions|
  {
    if actions != [] {
      ReducePreservesCoherent(s, actions[0]);
      ReduceAllPreservesCoherent(Reduce(s, actions[0]), actions[1..]);
    }
  }
}
