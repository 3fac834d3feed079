/**
 The Pomodoro window of `main.py` with the widget calls taken out: what each
 handler of `MainWindow` does to the window's counters, its two one-second
 timers, the start button and the texts it shows.

 The window's state lives in Qt objects; here it is one immutable `State`
 value and each handler is a function from the state before to the state
 after. Arming or stopping a `QTimer` becomes a boolean; a label's text and
 colour become strings; the row of checkmark glyphs becomes its length.

 The break that follows a work session is looked up in a table that the
 source fills in only for the remainders 0 and 1 of the session count; every
 other remainder gets a zero-minute "Unknown" break. `BreakTable` lets the
 same machine run on the table as written or on the evidently intended one
 (every remainder other than 0 gives a short break).
 */
module Pomodoro {
  import opened Clock

  const WORK_MIN: nat := 30
  const SHORT_BREAK_MIN: nat := 5
  const LONG_BREAK_MIN: nat := 30
  const LONG_BREAK_INTERVAL: nat := 4

  /** `timeRemainingSec` at the start of a work phase. */
  const WORK_SECONDS: nat := WORK_MIN * 60

  const IDLE_LABEL := "Let's get working"
  const IDLE_COLOUR := "#f0f0f0"
  const WORK_LABEL := "Work"
  const WORK_COLOUR := "red"

  /** The entries of `break_info` and its `get` default. */
  datatype BreakKind = LongBreak | ShortBreak | UnknownBreak {

    function Label(): string {
      match this
      case LongBreak => "Long Break"
      case ShortBreak => "Short Break"
      case UnknownBreak => "Unknown"
    }

    function Minutes(): nat {
      match this
      case LongBreak => LONG_BREAK_MIN
      case ShortBreak => SHORT_BREAK_MIN
      case UnknownBreak => 0
    }

    function Colour(): string {
      match this
      case LongBreak => "#80c342"
      case ShortBreak => "#53baff"
      case UnknownBreak => "#000000"
    }

    /** `timeRemainingSec` at the start of this break. */
    function Seconds(): nat {
      Minutes() * 60
    }
  }

  /** Which break table the machine consults: the one `startBreak` has, or
      the one it evidently meant. */
  datatype BreakTable = AsWritten | Intended

  /** The break chosen after a work session, from the session count modulo
      the long-break interval. */
  function BreakFor(table: BreakTable, workSessions: nat): (k: BreakKind)
    ensures k == LongBreak <==> workSessions % LONG_BREAK_INTERVAL == 0
    ensures k == ShortBreak <==> workSessions % LONG_BREAK_INTERVAL != 0 && (table == Intended || workSessions % LONG_BREAK_INTERVAL == 1)
    ensures k.Seconds() == 0 <==> k == UnknownBreak
  {
    var r := workSessions % LONG_BREAK_INTERVAL;
    if r == 0 then LongBreak
    else if r == 1 then ShortBreak
    else if table == Intended then ShortBreak
    else UnknownBreak
  }

  /** What `MainWindow` holds between two events. `remaining` is
      `timeRemainingSec`, a Python int that nothing keeps non-negative;
      `checkmarks` counts the glyphs in `self.checkmarks`; `shown` is the
      count of seconds whose `MM:SS` rendering the LCD displays (every text
      the source puts on the LCD is such a rendering, see the `…Text`
      lemmas below). */
  datatype State = State(
    workSessions: nat,
    checkmarks: nat,
    remaining: int,
    workTimerActive: bool,
    breakTimerActive: bool,
    startEnabled: bool,
    modeLabel: string,
    modeColour: string,
    shown: int)

  /** The text on the LCD. */
  function LcdText(s: State): string {
    Format(s.shown)
  }

  datatype Phase = Idle | Working | OnBreak

  /** The phase is read off the timers: the window has no mode field. */
  function PhaseOf(s: State): Phase {
    if s.workTimerActive then Working
    else if s.breakTimerActive then OnBreak
    else Idle
  }

  /** `startWork`: a fresh work phase of `WORK_MIN` minutes, counted in
      `workSessions` as it begins. */
  function StartWork(s: State): (r: State)
    ensures r.remaining == WORK_SECONDS && r.shown == r.remaining
    ensures r.workSessions == s.workSessions + 1
    ensures r.checkmarks == s.checkmarks
    ensures r.workTimerActive
    ensures r.breakTimerActive == s.breakTimerActive && r.startEnabled == s.startEnabled
  {
    s.(modeLabel := WORK_LABEL, modeColour := WORK_COLOUR, shown := WORK_MIN * 60,
       workSessions := s.workSessions + 1, remaining := WORK_SECONDS, workTimerActive := true)
  }

  /** `startTimer`, the start button's handler: begins work and disables
      the button. */
  function StartTimer(s: State): (r: State)
    ensures PhaseOf(r) == Working && !r.startEnabled
    ensures r.remaining == WORK_SECONDS && r.workSessions == s.workSessions + 1
    ensures r.checkmarks == s.checkmarks
  {
    StartWork(s).(startEnabled := false)
  }

  /** `updateTimeDisplay`: one second passes and the LCD shows what is left. */
  function UpdateTimeDisplay(s: State): (r: State)
    ensures r.remaining == s.remaining - 1 && r.shown == r.remaining
    ensures r.(remaining := s.remaining, shown := s.shown) == s
  {
    s.(remaining := s.remaining - 1, shown := s.remaining - 1)
  }

  /** `startBreak`: the break the table gives for the session count. */
  function StartBreak(table: BreakTable, s: State): (r: State)
    ensures r.remaining == BreakFor(table, s.workSessions).Seconds() && r.shown == r.remaining
    ensures r.remaining == 0 <==> table == AsWritten && s.workSessions % LONG_BREAK_INTERVAL >= 2
    ensures r.modeLabel == BreakFor(table, s.workSessions).Label()
    ensures r.breakTimerActive
    ensures r.workTimerActive == s.workTimerActive && r.startEnabled == s.startEnabled
    ensures r.workSessions == s.workSessions && r.checkmarks == s.checkmarks
  {
    var k := BreakFor(table, s.workSessions);
    s.(modeLabel := k.Label(), modeColour := k.Colour(), shown := k.Minutes() * 60,
       remaining := k.Minutes() * 60, breakTimerActive := true)
  }

  /** `updateWork`, the work timer's handler: count down; when the count
      hits zero, add a checkmark, stop the work timer and start a break. */
  function UpdateWork(table: BreakTable, s: State): (r: State)
    ensures r.workSessions == s.workSessions && r.startEnabled == s.startEnabled
    ensures s.remaining == 1 ==>
      && r.checkmarks == s.checkmarks + 1
      && !r.workTimerActive && r.breakTimerActive
      && r.remaining == BreakFor(table, s.workSessions).Seconds()
    ensures s.remaining != 1 ==> r == s.(remaining := s.remaining - 1, shown := s.remaining - 1)
  {
    var t := UpdateTimeDisplay(s);
    if t.remaining == 0 then
      StartBreak(table, t.(checkmarks := t.checkmarks + 1, workTimerActive := false))
    else t
  }

  /** `updateBreak`, the break timer's handler: count down; when the count
      hits zero, stop the break timer and start the next work session. */
  function UpdateBreak(s: State): (r: State)
    ensures r.checkmarks == s.checkmarks && r.startEnabled == s.startEnabled
    ensures s.remaining == 1 ==>
      && r.workSessions == s.workSessions + 1
      && r.workTimerActive && !r.breakTimerActive
      && r.remaining == WORK_SECONDS
    ensures s.remaining != 1 ==> r == s.(remaining := s.remaining - 1, shown := s.remaining - 1)
  {
    var t := UpdateTimeDisplay(s);
    if t.remaining == 0 then StartWork(t.(breakTimerActive := false))
    else t
  }

  /** `_setDefaults`, run when the window is built and by the reset button:
      counters cleared, both timers stopped, start re-enabled, `30:00`
      shown. `timeRemainingSec` is left as it was. */
  function SetDefaults(s: State): (r: State)
    ensures r.workSessions == 0 && r.checkmarks == 0
    ensures PhaseOf(r) == Idle && r.startEnabled
    ensures r.remaining == s.remaining
    ensures r.shown == WORK_SECONDS
  {
    s.(workSessions := 0, checkmarks := 0, startEnabled := true,
       modeLabel := IDLE_LABEL, modeColour := IDLE_COLOUR,
       workTimerActive := false, breakTimerActive := false,
       shown := WORK_MIN * 60)
  }

  /** `startWork` writes `f"{WORK_MIN:02d}:00"`, which is the rendering of
      the full work phase and reads back as `WORK_SECONDS`. */
  lemma StartWorkText(s: State)
    ensures LcdText(StartWork(s)) == Pad2(WORK_MIN) + ":00"
    ensures ParseClock(LcdText(StartWork(s))) == Some(WORK_SECONDS)
  {
    MinutesDisplay(WORK_MIN);
    FormatRoundTrip(WORK_SECONDS);
  }

  /** `startBreak` writes `f"{duration:02d}:00"`, which is the rendering of
      the break's full length and reads back as that many seconds. */
  lemma StartBreakText(table: BreakTable, s: State)
    ensures var k := BreakFor(table, s.workSessions);
      && LcdText(StartBreak(table, s)) == Pad2(k.Minutes()) + ":00"
      && ParseClock(LcdText(StartBreak(table, s))) == Some(k.Seconds())
  {
    var k := BreakFor(table, s.workSessions);
    MinutesDisplay(k.Minutes());
    FormatRoundTrip(k.Seconds());
  }

  /** `updateTimeDisplay` writes the new count in `MM:SS`: it reads back as
      the count while that is not negative, and starts with a minus sign
      once it is. */
  lemma UpdateTimeDisplayText(s: State)
    ensures var r := UpdateTimeDisplay(s);
      && LcdText(r) == Pad2(r.remaining / 60) + ":" + Pad2(r.remaining % 60)
      && (r.remaining >= 0 ==> ParseClock(LcdText(r)) == Some(r.remaining))
      && (r.remaining < 0 ==> LcdText(r)[0] == '-' && ParseClock(LcdText(r)) == None)
  {
    var r := UpdateTimeDisplay(s);
    var left := s.remaining - 1;
    assert r.remaining == left && LcdText(r) == Format(left);
    if left >= 0 {
      FormatRoundTrip(left);
    } else {
      FormatNegative(left);
    }
  }

  /** `_setDefaults` writes `f"{WORK_MIN:02d}" + ":" + f"{0:02d}"`, that is
      `30:00`. */
  lemma SetDefaultsText(s: State)
    ensures LcdText(SetDefaults(s)) == Pad2(WORK_MIN) + ":" + Pad2(0)
    ensures LcdText(SetDefaults(s)) == "30:00"
  {
    MinutesDisplay(WORK_MIN);
  }

  /** The window as `__init__` leaves it: two stopped timers, then
      `_setDefaults`. `timeRemainingSec` does not exist yet in the source;
      0 stands in for it, and no handler reads it before `startWork` sets it. */
  function Initial(): (s: State)
    ensures PhaseOf(s) == Idle && s.startEnabled
    ensures s.workSessions == 0 && s.checkmarks == 0
  {
    SetDefaults(State(0, 0, 0, false, false, true, "", "", 0))
  }

  /** What can happen to the window: a click on one of its two buttons, or
      the timeout of one of its two timers. */
  datatype Event = StartClicked | ResetClicked | WorkTimeout | BreakTimeout

  /** One event. A disabled button sends no click and a stopped timer no
      timeout, so those events leave the window as it is; every event that
      is delivered changes it. */
  function Step(table: BreakTable, s: State, e: Event): (r: State)
    ensures e == StartClicked ==> (r != s <==> s.startEnabled)
    ensures e == WorkTimeout ==> (r != s <==> s.workTimerActive)
    ensures e == BreakTimeout ==> (r != s <==> s.breakTimerActive)
    ensures e == ResetClicked ==> PhaseOf(r) == Idle && r.startEnabled && r.workSessions == 0
    ensures e == WorkTimeout || e == BreakTimeout ==> r.startEnabled == s.startEnabled
  {
    match e
    case StartClicked => if s.startEnabled then StartTimer(s) else s
    case ResetClicked => SetDefaults(s)
    case WorkTimeout => if s.workTimerActive then UpdateWork(table, s) else s
    case BreakTimeout => if s.breakTimerActive then UpdateBreak(s) else s
  }

  /** One second of wall-clock time: the timeout of whichever timer runs.
      With no timer running nothing happens, and a second never touches the
      start button. */
  function Tick(table: BreakTable, s: State): (r: State)
    ensures r == s <==> PhaseOf(s) == Idle
    ensures r.startEnabled == s.startEnabled
  {
    Step(table, s, if s.workTimerActive then WorkTimeout else BreakTimeout)
  }

  /** `n` seconds of wall-clock time with no button pressed. */
  function Ticks(table: BreakTable, s: State, n: nat): State {
    if n == 0 then s else Tick(table, Ticks(table, s, n - 1))
  }

  /** A sequence of events, in order. */
  function Run(table: BreakTable, s: State, events: seq<Event>): State {
    if |events| == 0 then s
    else Step(table, Run(table, s, events[..|events| - 1]), events[|events| - 1])
  }
}
