/**
 The window over time: how many seconds each phase lasts, which break follows
 which session, and where the table as written leaves the timer for good.

 `Ticks(table, s, n)` is `n` seconds with no button pressed. The lemmas here
 follow a session from the moment it starts to the moment the next one does.
 */
module Schedule {
  import opened Clock
  import opened Pomodoro
  import opened Invariants

  /** The window at the start of session `n`: what `startWork` leaves. */
  function WorkingState(n: nat): (s: State)
    requires n >= 1
    ensures PhaseOf(s) == Working && s.workSessions == n && s.checkmarks == n - 1
  {
    State(n, n - 1, WORK_SECONDS, true, false, false, WORK_LABEL, WORK_COLOUR, WORK_SECONDS)
  }

  /** The window at the start of the break after session `n`: what
      `startBreak` leaves. */
  function BreakingState(table: BreakTable, n: nat): (s: State)
    requires n >= 1
    ensures PhaseOf(s) == OnBreak && s.workSessions == n && s.checkmarks == n
  {
    var k := BreakFor(table, n);
    State(n, n, k.Seconds(), false, true, false, k.Label(), k.Colour(), k.Seconds())
  }

  /** Both are states the invariants allow; the break keeps `Inv` exactly
      when the table has a break of non-zero length for session `n`. */
  lemma PhaseStartsWellformed(table: BreakTable, n: nat)
    requires n >= 1
    ensures Inv(table, WorkingState(n))
    ensures Wellformed(table, BreakingState(table, n))
    ensures Inv(table, BreakingState(table, n)) <==> BreakFor(table, n) != UnknownBreak
  {
  }

  /** Ticking `a` then `b` seconds is ticking `a + b` seconds. */
  lemma {:induction false} TicksAdd(table: BreakTable, s: State, a: nat, b: nat)
    ensures Ticks(table, Ticks(table, s, a), b) == Ticks(table, s, a + b)
  {
    if b > 0 {
      TicksAdd(table, s, a, b - 1);
    }
  }

  /** Seconds passing keep `Wellformed`: each is one timer event. */
  lemma {:induction false} TicksKeepWellformed(table: BreakTable, s: State, n: nat)
    requires Wellformed(table, s)
    ensures Wellformed(table, Ticks(table, s, n))
  {
    if n > 0 {
      TicksKeepWellformed(table, s, n - 1);
      var p := Ticks(table, s, n - 1);
      StepKeepsWellformed(table, p, if p.workTimerActive then WorkTimeout else BreakTimeout);
    }
  }

  /** One second of a running phase whose count is not about to reach zero
      takes one off the count and changes nothing but the LCD. */
  lemma TickCountsDown(table: BreakTable, p: State)
    requires PhaseOf(p) != Idle && p.remaining != 1
    ensures Tick(table, p) == p.(remaining := p.remaining - 1, shown := p.remaining - 1)
  {
    if p.workTimerActive {
      assert Tick(table, p) == UpdateWork(table, p);
    } else {
      assert Tick(table, p) == UpdateBreak(p);
    }
  }

  /** While the count does not reach zero, each second takes exactly one off
      it and changes nothing but the LCD. A count already at or below zero
      never reaches zero again. */
  lemma {:induction false} CountDown(table: BreakTable, s: State, k: nat)
    requires PhaseOf(s) != Idle
    requires k < s.remaining || s.remaining <= 0
    ensures Ticks(table, s, k)
         == if k == 0 then s else s.(remaining := s.remaining - k, shown := s.remaining - k)
  {
    if k > 0 {
      CountDown(table, s, k - 1);
      var p := Ticks(table, s, k - 1);
      TickCountsDown(table, p);
    }
  }

  /** Start from idle always opens session 1, whatever count was left over. */
  lemma StartFromIdle(table: BreakTable, s: State)
    requires Wellformed(table, s) && PhaseOf(s) == Idle
    ensures Step(table, s, StartClicked) == WorkingState(1)
  {
  }

  /** Reset twice is reset once, and reset then start always opens session
      1, from any state whatsoever. */
  lemma ResetThenStart(table: BreakTable, s: State)
    ensures SetDefaults(SetDefaults(s)) == SetDefaults(s)
    ensures Step(table, Step(table, s, ResetClicked), StartClicked) == WorkingState(1)
  {
    ResetFromAnywhere(table, s);
    StartFromIdle(table, SetDefaults(s));
  }

  /** Before its last second a work phase only counts down: `k` seconds in,
      `WORK_SECONDS - k` are left and nothing else has changed. */
  lemma WorkCountdown(table: BreakTable, n: nat, k: nat)
    requires n >= 1 && 0 < k < WORK_SECONDS
    ensures Ticks(table, WorkingState(n), k) == WorkingState(n).(remaining := WORK_SECONDS - k, shown := WORK_SECONDS - k)
  {
    CountDown(table, WorkingState(n), k);
  }

  /** A work phase lasts exactly `WORK_SECONDS` seconds and ends with one
      more checkmark, the work timer stopped and the table's break begun. */
  lemma WorkPhase(table: BreakTable, n: nat)
    requires n >= 1
    ensures Ticks(table, WorkingState(n), WORK_SECONDS) == BreakingState(table, n)
  {
    var w := WorkingState(n);
    WorkCountdown(table, n, WORK_SECONDS - 1);
    var p := Ticks(table, w, WORK_SECONDS - 1);
    var t := UpdateTimeDisplay(p);
    assert t.remaining == 0;
    assert Tick(table, p) == UpdateWork(table, p)
        == StartBreak(table, t.(checkmarks := t.checkmarks + 1, workTimerActive := false));
  }

  /** A break the table knows lasts exactly its length in seconds and ends
      with the break timer stopped and session `n + 1` begun. */
  lemma BreakPhase(table: BreakTable, n: nat)
    requires n >= 1
    requires BreakFor(table, n) != UnknownBreak
    ensures Ticks(table, BreakingState(table, n), BreakFor(table, n).Seconds()) == WorkingState(n + 1)
  {
    var b := BreakingState(table, n);
    var len := BreakFor(table, n).Seconds();
    CountDown(table, b, len - 1);
    var p := Ticks(table, b, len - 1);
    var t := UpdateTimeDisplay(p);
    assert t.remaining == 0;
    assert Tick(table, p) == UpdateBreak(p) == StartWork(t.(breakTimerActive := false));
  }

  /** One whole session with the break the table gives after it. */
  lemma SessionCycle(table: BreakTable, n: nat)
    requires n >= 1
    requires BreakFor(table, n) != UnknownBreak
    ensures Ticks(table, WorkingState(n), WORK_SECONDS + BreakFor(table, n).Seconds()) == WorkingState(n + 1)
  {
    WorkPhase(table, n);
    BreakPhase(table, n);
    TicksAdd(table, WorkingState(n), WORK_SECONDS, BreakFor(table, n).Seconds());
  }

  /** Seconds from the start of session 1 to the start of session `n + 1`
      with the intended table. */
  function Elapsed(n: nat): nat {
    if n == 0 then 0 else Elapsed(n - 1) + WORK_SECONDS + BreakFor(Intended, n).Seconds()
  }

  /** Those seconds are `n` work phases, a long break after every
      `LONG_BREAK_INTERVAL`-th session and a short one after the rest. */
  lemma {:induction false} ElapsedClosedForm(n: nat)
    ensures Elapsed(n) == n * WORK_SECONDS
                          + (n / LONG_BREAK_INTERVAL) * (LONG_BREAK_MIN * 60)
                          + (n - n / LONG_BREAK_INTERVAL) * (SHORT_BREAK_MIN * 60)
  {
    if n > 0 {
      ElapsedClosedForm(n - 1);
      if n % 4 == 0 {
        assert n / 4 == (n - 1) / 4 + 1;
      } else {
        assert n / 4 == (n - 1) / 4;
      }
    }
  }

  /** With the intended table the window cycles for ever: session `n + 1`
      starts exactly `Elapsed(n)` seconds after session 1 does. */
  lemma {:induction false} IntendedSchedule(n: nat)
    ensures Ticks(Intended, WorkingState(1), Elapsed(n)) == WorkingState(n + 1)
  {
    if n > 0 {
      var w1 := WorkingState(1);
      var before, cycle := Elapsed(n - 1), WORK_SECONDS + BreakFor(Intended, n).Seconds();
      IntendedSchedule(n - 1);
      SessionCycle(Intended, n);
      TicksAdd(Intended, w1, before, cycle);
      calc {
        Ticks(Intended, w1, Elapsed(n));
        Ticks(Intended, w1, before + cycle);
        Ticks(Intended, Ticks(Intended, w1, before), cycle);
        Ticks(Intended, WorkingState(n), cycle);
        WorkingState(n + 1);
      }
    }
  }

  /** With the intended table, `WORK_SECONDS` into session `n` the break
      after it begins. */
  lemma IntendedBreakAfter(n: nat)
    requires n >= 1
    ensures Ticks(Intended, WorkingState(1), Elapsed(n - 1) + WORK_SECONDS) == BreakingState(Intended, n)
  {
    var before := Elapsed(n - 1);
    IntendedSchedule(n - 1);
    WorkPhase(Intended, n);
    TicksAdd(Intended, WorkingState(1), before, WORK_SECONDS);
  }

  /** With the intended table, the break after session `n` is long exactly
      when `n` is a multiple of `LONG_BREAK_INTERVAL`, and short otherwise. */
  lemma IntendedBreakCadence(n: nat)
    requires n >= 1
    ensures var b := Ticks(Intended, WorkingState(1), Elapsed(n - 1) + WORK_SECONDS);
      && PhaseOf(b) == OnBreak && b.checkmarks == n
      && (n % LONG_BREAK_INTERVAL == 0 ==> b.modeLabel == "Long Break" && b.remaining == LONG_BREAK_MIN * 60)
      && (n % LONG_BREAK_INTERVAL != 0 ==> b.modeLabel == "Short Break" && b.remaining == SHORT_BREAK_MIN * 60)
  {
    IntendedBreakAfter(n);
    var b := BreakingState(Intended, n);
    var k := BreakFor(Intended, n);
    assert b.modeLabel == k.Label() && b.remaining == k.Seconds();
  }

  /** With either table the first session is followed by a five-minute short
      break and the second session starts on time. */
  lemma FirstSession(table: BreakTable)
    ensures Step(table, Initial(), StartClicked) == WorkingState(1)
    ensures var b := Ticks(table, WorkingState(1), WORK_SECONDS);
      && b.checkmarks == 1 && b.workSessions == 1
      && PhaseOf(b) == OnBreak && b.modeLabel == "Short Break"
      && b.remaining == SHORT_BREAK_MIN * 60
    ensures Ticks(table, WorkingState(1), WORK_SECONDS + SHORT_BREAK_MIN * 60) == WorkingState(2)
  {
    InitialWellformed(table);
    StartFromIdle(table, Initial());
    WorkPhase(table, 1);
    SessionCycle(table, 1);
  }

  /** With the table as written, a break after a session whose count leaves
      remainder 2 or 3 never ends: it starts at zero, every second takes the
      count one further below zero, and `updateBreak`'s `== 0` test never
      holds again. */
  lemma UnknownBreakNeverEnds(n: nat, k: nat)
    requires n >= 1 && BreakFor(AsWritten, n) == UnknownBreak
    requires k >= 1
    ensures Wellformed(AsWritten, BreakingState(AsWritten, n)) && !Inv(AsWritten, BreakingState(AsWritten, n))
    ensures var s := Ticks(AsWritten, BreakingState(AsWritten, n), k);
      && PhaseOf(s) == OnBreak && s.workSessions == n && s.checkmarks == n
      && s.modeLabel == "Unknown"
      && s.remaining + k == 0
      && !TimeOk(s)
  {
    PhaseStartsWellformed(AsWritten, n);
    CountDown(AsWritten, BreakingState(AsWritten, n), k);
  }

  /** With the table as written, the second session ends on time and the
      break it enters is the zero-second "Unknown" one. */
  lemma AsWrittenSecondBreak()
    ensures Ticks(AsWritten, WorkingState(1), 2 * WORK_SECONDS + SHORT_BREAK_MIN * 60) == BreakingState(AsWritten, 2)
    ensures BreakingState(AsWritten, 2).remaining == 0
  {
    var w1 := WorkingState(1);
    var first := WORK_SECONDS + SHORT_BREAK_MIN * 60;
    SessionCycle(AsWritten, 1);
    WorkPhase(AsWritten, 2);
    TicksAdd(AsWritten, w1, first, WORK_SECONDS);
    calc {
      Ticks(AsWritten, w1, 2 * WORK_SECONDS + SHORT_BREAK_MIN * 60);
      Ticks(AsWritten, w1, first + WORK_SECONDS);
      Ticks(AsWritten, Ticks(AsWritten, w1, first), WORK_SECONDS);
      Ticks(AsWritten, WorkingState(2), WORK_SECONDS);
    }
  }

  /** With the table as written the second session is the last: `j`
      seconds into its break the count stands at `-j`, and from the first
      of those seconds on it is negative. */
  lemma AsWrittenSecondBreakStalls(j: nat)
    ensures var s := Ticks(AsWritten, WorkingState(1), 2 * WORK_SECONDS + SHORT_BREAK_MIN * 60 + j);
      && PhaseOf(s) == OnBreak && s.workSessions == 2 && s.checkmarks == 2
      && s.modeLabel == "Unknown"
      && s.remaining + j == 0
      && (j >= 1 ==> !TimeOk(s))
  {
    var w1 := WorkingState(1);
    var upToBreak := 2 * WORK_SECONDS + SHORT_BREAK_MIN * 60;
    var b := BreakingState(AsWritten, 2);
    AsWrittenSecondBreak();
    TicksAdd(AsWritten, w1, upToBreak, j);
    assert Ticks(AsWritten, w1, upToBreak + j) == Ticks(AsWritten, b, j);
    if j >= 1 {
      UnknownBreakNeverEnds(2, j);
    }
  }
}
