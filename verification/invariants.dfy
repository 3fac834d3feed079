/**
 What holds of every state the window can reach from the moment it is
 built: which timer runs in which phase, how the checkmark row tracks the
 session count, what the LCD and the mode label show, and how much time a
 phase can have left.
 */
module Invariants {
  import opened Clock
  import opened Pomodoro

  /** Kept by every event, whichever break table is consulted.
      Idle: start enabled, nothing counted, `30:00` shown.
      Working: only the work timer runs, the session under way is counted
      but not yet checked off, between 1 and `WORK_SECONDS` seconds left.
      On a break: only the break timer runs, every counted session is
      checked off, at most the break's full length left.
      Outside idle the LCD shows exactly the seconds left. */
  predicate Wellformed(table: BreakTable, s: State) {
    match PhaseOf(s)
    case Idle =>
      && s.startEnabled
      && s.workSessions == 0 && s.checkmarks == 0
      && s.modeLabel == IDLE_LABEL && s.modeColour == IDLE_COLOUR
      && s.shown == WORK_SECONDS
    case Working =>
      && !s.startEnabled && !s.breakTimerActive
      && s.workSessions >= 1 && s.checkmarks == s.workSessions - 1
      && 1 <= s.remaining <= WORK_SECONDS
      && s.modeLabel == WORK_LABEL && s.modeColour == WORK_COLOUR
      && s.shown == s.remaining
    case OnBreak =>
      var k := BreakFor(table, s.workSessions);
      && !s.startEnabled
      && s.workSessions >= 1 && s.checkmarks == s.workSessions
      && s.remaining <= k.Seconds()
      && s.modeLabel == k.Label() && s.modeColour == k.Colour()
      && s.shown == s.remaining
  }

  /** The count of a running phase is never negative. */
  predicate TimeOk(s: State) {
    PhaseOf(s) != Idle ==> s.remaining >= 0
  }

  /** `Wellformed` plus: a break always has at least one second left, so
      the `== 0` test of its handler fires when it runs out. */
  predicate Inv(table: BreakTable, s: State) {
    && Wellformed(table, s)
    && (PhaseOf(s) == OnBreak ==> s.remaining >= 1)
  }

  /** `Inv` rules out a negative running count. */
  lemma InvImpliesTimeOk(table: BreakTable, s: State)
    requires Inv(table, s)
    ensures TimeOk(s)
  {
  }

  lemma InitialWellformed(table: BreakTable)
    ensures Inv(table, Initial())
  {
  }

  /** The start button is enabled exactly when no timer runs, and outside
      idle exactly one of the two timers runs. */
  lemma PhaseAlternation(table: BreakTable, s: State)
    requires Wellformed(table, s)
    ensures s.startEnabled <==> PhaseOf(s) == Idle
    ensures PhaseOf(s) != Idle <==> s.workTimerActive != s.breakTimerActive
  {
  }

  /** Start does something only from idle, where the button is enabled. */
  lemma StartOnlyFromIdle(table: BreakTable, s: State)
    requires Wellformed(table, s)
    requires PhaseOf(s) != Idle
    ensures Step(table, s, StartClicked) == s
  {
  }

  /** Reset from any state whatsoever: idle, counters cleared, both timers
      stopped, `30:00` shown, the remaining count untouched. */
  lemma ResetFromAnywhere(table: BreakTable, s: State)
    ensures var r := Step(table, s, ResetClicked);
      && Inv(table, r)
      && r.workSessions == 0 && r.checkmarks == 0
      && !r.workTimerActive && !r.breakTimerActive && r.startEnabled
      && r.remaining == s.remaining
      && LcdText(r) == "30:00"
  {
    SetDefaultsText(s);
  }

  /** Each phase end stops one timer and starts the other: work to break
      on the work timer's last second, break to work on the break timer's. */
  lemma PhaseEndSwitches(table: BreakTable, s: State, e: Event)
    requires Wellformed(table, s)
    requires PhaseOf(s) != Idle && s.remaining == 1
    requires e == (if PhaseOf(s) == Working then WorkTimeout else BreakTimeout)
    ensures PhaseOf(s) == Working ==> PhaseOf(Step(table, s, e)) == OnBreak
    ensures PhaseOf(s) == OnBreak ==> PhaseOf(Step(table, s, e)) == Working
  {
  }

  /** The work timer's timeout keeps `Wellformed`: either one second less
      of the same work phase, or the break the table gives. */
  lemma WorkTimeoutKeepsWellformed(table: BreakTable, s: State)
    requires Wellformed(table, s) && PhaseOf(s) == Working
    ensures Wellformed(table, UpdateWork(table, s))
  {
  }

  /** The break timer's timeout keeps `Wellformed`: either one second less
      of the same break, or the next work session. */
  lemma BreakTimeoutKeepsWellformed(table: BreakTable, s: State)
    requires Wellformed(table, s) && PhaseOf(s) == OnBreak
    ensures Wellformed(table, UpdateBreak(s))
  {
  }

  /** Every event keeps `Wellformed`, for either break table. */
  lemma StepKeepsWellformed(table: BreakTable, s: State, e: Event)
    requires Wellformed(table, s)
    ensures Wellformed(table, Step(table, s, e))
  {
    match e
    case StartClicked =>
    case ResetClicked =>
    case WorkTimeout =>
      if s.workTimerActive {
        WorkTimeoutKeepsWellformed(table, s);
      }
    case BreakTimeout =>
      if s.breakTimerActive {
        BreakTimeoutKeepsWellformed(table, s);
      }
  }

  /** `Inv` is kept by every event except the one that ends a work session
      whose count leaves a remainder the table has no break for: with the
      intended table no such event exists, and with the table as written it
      is the last second of sessions whose count modulo the long-break
      interval is 2 or 3 (`AsWrittenUnknownBreak` shows that one does break
      `Inv`). */
  lemma StepKeepsInv(table: BreakTable, s: State, e: Event)
    requires Inv(table, s)
    requires !(e == WorkTimeout && s.workTimerActive && s.remaining == 1
               && BreakFor(table, s.workSessions) == UnknownBreak)
    ensures Inv(table, Step(table, s, e))
  {
    StepKeepsWellformed(table, s, e);
    if e == WorkTimeout && s.workTimerActive && s.remaining == 1 {
      assert BreakFor(table, s.workSessions).Seconds() >= 1;
    }
  }

  /** With the table as written, ending a work session whose count leaves
      remainder 2 or 3 enters a break that already shows zero; the next
      second makes the count negative. */
  lemma AsWrittenUnknownBreak(s: State)
    requires Inv(AsWritten, s)
    requires PhaseOf(s) == Working && s.remaining == 1
    requires s.workSessions % LONG_BREAK_INTERVAL >= 2
    ensures var b := Step(AsWritten, s, WorkTimeout);
      && Wellformed(AsWritten, b) && !Inv(AsWritten, b)
      && PhaseOf(b) == OnBreak && b.remaining == 0
      && !TimeOk(Step(AsWritten, b, BreakTimeout))
  {
    StepKeepsWellformed(AsWritten, s, WorkTimeout);
  }

  /** Whatever the user and the timers do, the window stays `Wellformed`. */
  lemma {:induction false} RunKeepsWellformed(table: BreakTable, events: seq<Event>)
    ensures Wellformed(table, Run(table, Initial(), events))
  {
    if |events| == 0 {
      InitialWellformed(table);
    } else {
      RunKeepsWellformed(table, events[..|events| - 1]);
      StepKeepsWellformed(table, Run(table, Initial(), events[..|events| - 1]), events[|events| - 1]);
    }
  }

  /** With the intended table no running count is ever negative. */
  lemma {:induction false} IntendedRunKeepsInv(events: seq<Event>)
    ensures Inv(Intended, Run(Intended, Initial(), events))
    ensures TimeOk(Run(Intended, Initial(), events))
  {
    if |events| == 0 {
      InitialWellformed(Intended);
    } else {
      var before := Run(Intended, Initial(), events[..|events| - 1]);
      IntendedRunKeepsInv(events[..|events| - 1]);
      StepKeepsInv(Intended, before, events[|events| - 1]);
    }
    InvImpliesTimeOk(Intended, Run(Intended, Initial(), events));
  }
}
