# Pomodoro timer state machine, in Dafny

This project models the Pomodoro timer window of `main.py` ("Pomo!"). The
window counts down a 30-minute work phase, then a break, then the next work
phase, and so on. Every fourth break is meant to be a long 30-minute break and
the others short 5-minute ones; as written, the second break lasts 0 minutes
and never ends (see Findings). The window also keeps a row of checkmarks, one per
finished work session. A start button begins the cycle and disables itself.
A reset button clears everything.

The model drops the widget calls and keeps what the handlers do to the
window's state. That state is one immutable `State` value:

- the session counter `workSessions`;
- the number of checkmarks;
- `timeRemainingSec`, as `remaining`;
- whether each of the two `QTimer`s is running;
- whether the start button is enabled;
- the mode label's text and colour;
- the count the LCD currently renders, as `shown`.

Each handler (`startTimer`, `startWork`, `updateWork`, `startBreak`,
`updateBreak`, `updateTimeDisplay`, `_setDefaults`) is a pure function from
the state before to the state after. `Step` applies one event to a state: a
button click or a timer timeout. `Tick` is one second, the timeout of the
running timer; `Ticks` applies `n` seconds with no button pressed, and `Run`
applies a sequence of events in order. Both are `Step` iterated, and what
they satisfy is stated by the lemmas in `Invariants` and `Schedule`.

Files:

- `clock.dfy` (module `Clock`): `{:02d}` formatting, the `MM:SS` text, and a
  reader `ParseClock` that the text is proved against.
- `pomodoro.dfy` (module `Pomodoro`): constants, the break table, `State`,
  and the handlers.
- `invariants.dfy` (module `Invariants`): what every reachable state
  satisfies.
- `schedule.dfy` (module `Schedule`): phase lengths, the break cadence, and
  the stalled break.

`startBreak` looks the break up in a table with entries for only the
remainders 0 and 1 of `workSessions % 4`. Remainders 2 and 3 get a 0-minute
"Unknown" break (see Findings). So the model takes a `BreakTable` parameter:

- `AsWritten` is the source's table;
- `Intended` gives a short break for every remainder other than 0.

Every transition is defined once and runs on either table. Each lemma says
which table it holds for.

`MainWindow` has no mode field; `PhaseOf` reads the phase off the running
timer.

## Model

| member | source | states |
|---|---|---|
| Clock.Digits | main.py:76-77 | Python's `str` of a non-negative int: at least one digit, reads back as the number, one digit exactly below 10, two for 10..99, no leading zero except for 0 itself |
| Clock.Pad2 | main.py:76-77 | `{:02d}`: a non-negative number is at least two digits and reads back as itself; below 100 it is exactly two digits; a negative one is a minus sign followed by the digits of its magnitude; no leading zero from 10 on, and none after a minus sign |
| Clock.Format | main.py:75-78 | `updateTimeDisplay`'s rendering: `divmod` by 60, each part through `{:02d}`, joined by a colon; always at least five characters with the colon third from the end (its round trip and shape are the lemmas below) |
| Clock.FormatRoundTrip | main.py:73-79 | every non-negative count's `MM:SS` text reads back as that count |
| Clock.FormatInjective | main.py:73-79 | two different non-negative counts never show the same text |
| Clock.FormatShape | main.py:75-78 | for 0 <= s < 6000 the text is 5 characters: two zero-padded minute digits, a colon, and two second digits SS < 60, with MM*60 + SS == s |
| Clock.FormatNegative | main.py:74-78 | a negative count is shown with a leading minus sign and is not a clock reading |
| Clock.MinutesDisplay | main.py:63 | `f"{m:02d}:00"`, written when a phase of m minutes begins, is the text the countdown shows for m*60 seconds |
| Pomodoro.BreakFor | main.py:55-60 | a long break exactly when `workSessions % 4 == 0`; a short one for remainder 1, and for every non-zero remainder with the intended table; "Unknown" (0 seconds) exactly for remainders 2 and 3 of the table as written |
| Pomodoro.StartWork | main.py:38-44 | remaining time becomes exactly WORK_MIN*60, `workSessions` goes up by exactly 1, the checkmarks, the break timer and the start button are untouched, and the work timer runs |
| Pomodoro.StartTimer | main.py:31-33 | start begins work with the work timer running and leaves the start button disabled |
| Pomodoro.UpdateTimeDisplay | main.py:73-79 | each call takes exactly one second off the count, and the LCD shows the new count; nothing else changes |
| Pomodoro.StartBreak | main.py:54-65 | the break's remaining time is its minutes times 60; it is zero exactly for remainders 2 and 3 with the table as written; the label is the break's; the break timer runs; the counters are untouched |
| Pomodoro.UpdateWork | main.py:46-52 | on the work phase's last second: exactly one more checkmark, the work timer stopped, the break timer started, and the table's break length loaded; otherwise one second less, shown on the LCD, and nothing else changes |
| Pomodoro.UpdateBreak | main.py:67-71 | on the break's last second: the break timer stopped, the work timer started, and the next session counted with a full work phase; otherwise one second less, shown on the LCD, and nothing else changes |
| Pomodoro.SetDefaults | main.py:81-93 | session counter and checkmarks zero, both timers stopped, start enabled, LCD at WORK_SECONDS; `timeRemainingSec` untouched |
| Pomodoro.Initial | main.py:18-29 | the window as built is idle, with start enabled and nothing counted |
| Pomodoro.StartWorkText | main.py:41 | the literal text `startWork` writes is the rendering of the full work phase and reads back as 1800 |
| Pomodoro.StartBreakText | main.py:63 | the literal text `startBreak` writes is the rendering of the break's full length and reads back as it |
| Pomodoro.UpdateTimeDisplayText | main.py:74-79 | the LCD text is `mins:secs` from floor division by 60; it reads back as the count while that is not negative, and starts with '-' once it is |
| Pomodoro.SetDefaultsText | main.py:90-93 | reset writes exactly `30:00` |
| Pomodoro.Step | main.py:21-28 | the signal wiring: a start click changes the window exactly when the button is enabled (it is disabled at main.py:33 and re-enabled at main.py:85), and a timeout exactly when its timer runs (stopped at main.py:51, 70, 88-89); an event the widgets would not deliver leaves the state unchanged; reset always leaves the window idle with start enabled and nothing counted; a timeout never touches the start button |
| Pomodoro.Tick | main.py:21-28 | one second is the timeout of whichever timer runs: it changes the window exactly when a timer runs, and never touches the start button |
| Invariants.InitialWellformed | main.py:18-29 | the freshly built window satisfies the invariant |
| Invariants.PhaseAlternation | main.py:31-89 | in every invariant state the start button is enabled exactly when idle, and outside idle exactly one of the two timers runs |
| Invariants.StartOnlyFromIdle | main.py:31-33 | outside idle a start click changes nothing, because the button is disabled |
| Invariants.ResetFromAnywhere | main.py:81-93 | reset from any state gives idle, zero counters, both timers stopped, `30:00` shown and the remaining count untouched, and the result satisfies the invariant |
| Invariants.PhaseEndSwitches | main.py:46-71 | on a phase's last second, work turns into a break and a break into work |
| Invariants.WorkTimeoutKeepsWellformed | main.py:46-52 | the work timer's timeout keeps the invariant, with either table |
| Invariants.BreakTimeoutKeepsWellformed | main.py:67-71 | the break timer's timeout keeps the invariant, with either table |
| Invariants.StepKeepsWellformed | main.py:38-93 | every event keeps the phase/counter invariant: checkmarks are `workSessions - 1` while working, `workSessions` on a break and 0 = `workSessions` when idle; the LCD shows the count outside idle; a work phase has 1..1800 seconds left |
| Invariants.InvImpliesTimeOk | main.py:54-74 | a state satisfying the invariant has no negative running count |
| Invariants.StepKeepsInv | main.py:54-74 | the invariant plus "a break has at least one second left" is kept by every event except the last second of a work session whose remainder has no break in the table: no such event exists with the intended table; with the table as written it is the end of sessions with remainder 2 or 3 |
| Invariants.AsWrittenUnknownBreak | main.py:55-74 | with the table as written, a work session ending on remainder 2 or 3 enters a break already at 0, and its next second makes the count negative |
| Invariants.RunKeepsWellformed | main.py:18-93 | every sequence of clicks and timeouts from the built window keeps the phase/counter invariant, with either table |
| Invariants.IntendedRunKeepsInv | main.py:54-74 | with the intended table, no sequence of events ever makes a running count negative |
| Schedule.PhaseStartsWellformed | main.py:38-64 | the state at the start of a session and at the start of its break satisfy the invariant; the break also has time left exactly when the table has a break for that session |
| Schedule.TicksKeepWellformed | main.py:46-71 | seconds passing keep the invariant |
| Schedule.TickCountsDown | main.py:46-79 | a second that does not end the phase only takes one off the count and updates the LCD |
| Schedule.CountDown | main.py:67-74 | k seconds before the end take exactly k off the count; a count at or below zero never reaches zero again |
| Schedule.StartFromIdle | main.py:31-44 | start from any idle state opens session 1 with 1800 seconds, whatever count was left over |
| Schedule.ResetThenStart | main.py:31-44 | reset is idempotent, and reset followed by start opens session 1 from any state |
| Schedule.WorkCountdown | main.py:43-48 | k seconds into a work phase (0 < k < 1800), 1800 - k seconds are left and nothing else has changed |
| Schedule.WorkPhase | main.py:43-52 | a work phase ends after exactly 1800 seconds with one more checkmark, the work timer stopped, and the table's break started |
| Schedule.BreakPhase | main.py:64-71 | a break of non-zero length ends after exactly its length in seconds, with the next session started |
| Schedule.SessionCycle | main.py:38-71 | a session plus its break takes exactly 1800 seconds plus the break's length, then the next session starts |
| Schedule.ElapsedClosedForm | main.py:12-15 | with the intended table, n sessions and their breaks take n*1800 seconds, plus n/4 long breaks and n - n/4 short breaks |
| Schedule.IntendedSchedule | main.py:38-71 | with the intended table, session n+1 starts exactly `Elapsed(n)` seconds after session 1 |
| Schedule.IntendedBreakAfter | main.py:46-64 | with the intended table, 1800 seconds into session n the break after it begins |
| Schedule.IntendedBreakCadence | main.py:55-64 | with the intended table, the break after session n is long (1800 s) exactly when 4 divides n, and short (300 s) otherwise |
| Schedule.FirstSession | main.py:31-71 | start gives session 1; 1800 seconds later there is one checkmark and a 300-second short break; 300 seconds after that session 2 starts |
| Schedule.UnknownBreakNeverEnds | main.py:60-74 | with the table as written, a break after remainder 2 or 3 starts in a state that keeps the phase/counter invariant but has no time left, and never ends: k seconds in, the count is -k and the window is still on that break |
| Schedule.AsWrittenSecondBreak | main.py:55-64 | with the table as written, the second session ends on time into the 0-second "Unknown" break |
| Schedule.AsWrittenSecondBreakStalls | main.py:60-74 | with the table as written, j seconds into the second break the count is -j, so from the first of those seconds the invariant fails |

## Left out

- Widget side effects are not modelled: `setText`, `setStyleSheet`,
  `timeLCD.display` and `setEnabled` have no effect beyond the state fields
  they stand for. The label and colour are plain strings. The colour is the
  value after `color: ` in the style sheet.
- The LCD text is not a separate field. It is kept as the count it renders
  (`shown`), and the text is `Format(shown)`. The `...Text` lemmas prove that
  each literal text the source writes is that rendering.
- `updateTimeDisplay` briefly renders `00:00` at a phase end, and the same
  handler overwrites it at once. That brief render is not a separate state,
  because a handler runs as one step.
- `QTimer` scheduling and the 1000 ms interval are not modelled. A second is
  one timeout event. There is no real time and no concurrency. A stopped
  timer sends no timeout and a disabled button sends no click, so those
  events change nothing. `Tick` fires the work timer if both are running,
  which the invariant shows never happens.
- `run()` (the Windows app-ID call through `ctypes`, `QApplication`, the
  icon, reading `styles.qss`) and the constants `APP_NAME` and `APP_ID` are
  left out. They are platform and file I/O plumbing.
- The generated `Ui_MainWindow` module (`mainWindow`) is not part of this
  model. `Initial` starts from empty label texts; `_setDefaults` overwrites
  them at once.
- The checkmark glyph is left out. The row of glyphs is modelled by its
  length.
- `timeRemainingSec` does not exist before the first start. `Initial` sets
  it to 0, and `Schedule.StartFromIdle` shows that start does not depend on
  its value.
- `resetTimer` only calls `_setDefaults`, so it is modelled by
  `SetDefaults`.

## Findings

| source | as written | input that shows it | evidently intended | confidence | as-written member | corrected member |
|---|---|---|---|---|---|---|
| main.py:55-60 | `break_info` has entries only for `workSessions % 4` equal to 0 and 1. `get` falls back to `("Unknown", 0, "#000000")`, so remainders 2 and 3 start a break with `timeRemainingSec = 0`. The next tick makes it -1, and the `== 0` test at main.py:69 never holds again. | start, then wait 1800 + 300 + 1800 seconds: session 2 ends, and the "Unknown" break counts -1, -2, … for ever | every non-zero remainder gives the short break, so the cycle goes on indefinitely | high; not executed | Schedule.AsWrittenSecondBreakStalls | Invariants.IntendedRunKeepsInv |

The corrected table is `BreakTable.Intended` in `Pomodoro.BreakFor`. The
whole machine runs on it unchanged. With it, `Schedule.IntendedSchedule`
proves that the cycle never stops, and `Schedule.IntendedBreakCadence` proves
that every fourth break is long.
