# Timer app: reducer, timer card display and create-timer form

A Dafny model of the logic of a React Native timer app. Users create named
countdown timers grouped by category. They start, pause and reset timers one
at a time or a whole category at once. A one-second ticker counts running
timers down. The model covers three parts:

- `TimerReducer` (`timer_reducer.dfy`) is the store's pure `(state, action) -> state`
  function (`reducer` in `context/AppContext.js`). The state is a map from
  category name to an ordered list of timers, plus a history list. Every
  action case is modelled: `LOAD_STATE`, `ADD_TIMER`, `START_TIMER`,
  `PAUSE_TIMER`, `RESET_TIMER`, `TICK`, the three `*_ALL_IN_CATEGORY` bulk
  actions, and the default case. A category slot is `Option<seq<Timer>>`.
  `None` stands for a key whose value is `undefined`, which a bulk action
  on a missing category stores. The reducer's result is `Reduced`:
  `Next(state)` or `TypeError`. A `TypeError` is what `TICK` throws when it
  calls `.map` on such an `undefined` slot. It is also what every action
  that looks up a category throws when the name is missing from the map but
  inherited by every JavaScript object (`constructor`, `toString`,
  `__proto__`, ...): the lookup finds a method, not a list (see Findings).
  `ReduceOwnKeys` is the reducer with own-key lookup only, and `Reduce` is
  the reducer as written on top of it.
- `TimerCard` (`timer_card.dfy`) is the card's display logic: `formatTime`
  and `pad` (whole seconds as `MM:SS`), a reading-back function `ParseTime`
  as their inverse, and the status line and start/pause button label.
- `CreateTimer` (`create_timer.dfy`) is the create-timer screen's submit
  handler. It has JavaScript's `trim` (with ECMAScript's exact whitespace
  set), the category default `'Uncategorized'`, and the name-then-duration
  validation. The class `CreateTimerForm` holds the three text fields, the
  payloads dispatched and the alerts shown. Its `Submit` method performs the
  handler's effects in order.
- `Common` (`common.dfy`) holds the `Option` type.

The code is modelled as written. The code has no halfway events, no
`completed` status, no history entry on completion and no commands that
clear events:

Nothing ever appends to `history`; only `LOAD_STATE` changes it. There is
no `completed` status. A running timer at 0 stays running for one
more tick and is then paused. Start actions also start timers at 0.
Single-timer actions change every timer whose id matches. A single-timer
action on a missing category stores `[]`, and a bulk action stores
`undefined`.

The invariants proved are:

- `Valid`: every timer has a positive duration and `0 <= remaining <= duration`.
  Every action preserves it, given a positive ADD_TIMER duration (which
  the create-timer form guarantees) and in-range timers in a LOAD_STATE
  payload (which comes from storage, not from the form).
- `Defined`: no category holds `undefined`. Every action preserves it as
  long as bulk actions name existing categories, which is what the home
  screen does, and no action names a missing inherited name. Under it,
  `TICK` never throws.

## Model

| member | source | states |
|---|---|---|
| `TimerReducer.Apply` | context/AppContext.js:53-62 | START sets running, PAUSE sets paused, RESET sets `remaining := duration` and paused whatever the prior state; id, name, duration and createdAt never change |
| `TimerReducer.UpdateMatching` | context/AppContext.js:49-63 | the single-timer map keeps the list's length and order, changes every timer whose id matches and leaves the others identical |
| `TimerReducer.UpdateAll` | context/AppContext.js:98-107 | the bulk map keeps length and order and applies the same change to every timer, those at 0 remaining included |
| `TimerReducer.TickTimer` | context/AppContext.js:78-85 | per timer: not running is unchanged; running above 0 loses one second and stays running; running at exactly 0 becomes paused at 0; identity fields kept |
| `TimerReducer.TickList` | context/AppContext.js:77-86 | a category's list keeps its length and order and each timer is ticked on its own |
| `TimerReducer.InitialStateOk` | context/AppContext.js:9-12 | the initial state (no categories, empty history) satisfies both invariants |
| `TimerReducer.LoadStateReplaces` | context/AppContext.js:17-23 | LOAD_STATE replaces timers and history with the payload, defaulting to `{}` and `[]` |
| `TimerReducer.ReloadRestores` | context/AppContext.js:17-22 | loading a saved state's timers and history gives that state back, whatever the current state |
| `TimerReducer.UnrecognizedKeepsState` | context/AppContext.js:118-119 | an action whose type string is none of the nine known ones returns the state unchanged |
| `TimerReducer.OnlyLoadStateChangesHistory` | context/AppContext.js:14-121 | every action other than LOAD_STATE leaves `history` unchanged |
| `TimerReducer.AddTimerAppends` | context/AppContext.js:25-43 | for a category that is present or not an inherited name, ADD_TIMER appends exactly one timer `{remaining = duration, paused}` at the end of its category's list, creating the category if absent; other categories and history unchanged |
| `TimerReducer.SingleTimerActionFrame` | context/AppContext.js:45-72 | for a category that is present or not an inherited name, START/PAUSE/RESET_TIMER change only matching-id timers of the named category, keep length and order, turn a missing category into `[]`, keep other categories and history |
| `TimerReducer.ResetTimerRestores` | context/AppContext.js:58-59 | for a category that is present or not an inherited name, after RESET_TIMER each matching timer has `remaining == duration` and is paused, whatever it was before |
| `TimerReducer.BulkActionFrame` | context/AppContext.js:93-116 | for a category that is present or not an inherited name, a bulk action applies the same change to every timer of an existing category, stores `undefined` for a missing one, and keeps other categories and history |
| `TimerReducer.TickFrame` | context/AppContext.js:75-91 | TICK succeeds exactly when no category is `undefined`; then keys, list lengths, timer identities and history are kept and each timer is ticked |
| `TimerReducer.NotRunningIsFrozen` | context/AppContext.js:79-84 | a timer that is not running is unchanged by any number of ticks |
| `TimerReducer.Countdown` | context/AppContext.js:79-83 | a running timer with n seconds left is running at 0 after n ticks, paused at 0 after one more, and stays so |
| `TimerReducer.StepPreservesValid` | context/AppContext.js:14-121 | every action with a positive ADD_TIMER duration and in-range loaded timers keeps `0 <= remaining <= duration`, `duration > 0` for every timer |
| `TimerReducer.StepPreservesDefined` | context/AppContext.js:14-121 | with no `undefined` slot, bulk actions on existing categories and no missing inherited name, the reducer never throws and no slot becomes `undefined` |
| `TimerReducer.BulkOnMissingThenTickThrows` | context/AppContext.js:77-113 | a bulk action on a missing category that is not an inherited name makes the next TICK throw |
| `TimerReducer.ThrowsExactly` | context/AppContext.js:36-113 | the reducer as written throws exactly on TICK over an `undefined` slot or on an action whose category is a missing inherited name, and otherwise agrees with `ReduceOwnKeys` |
| `TimerReducer.OwnKeysThrowOnlyOnUndefined` | context/AppContext.js:14-121 | with own-key lookup, any category name works and only TICK over an `undefined` slot throws |
| `TimerReducer.ConstructorCategoryThrows` | context/AppContext.js:25-43 | ADD_TIMER under `constructor` throws in the initial state as written, and with own-key lookup creates that category holding the one new timer |
| `TimerReducer.RunTicks` | context/AppContext.js:75-91 | k TICK actions on a one-timer state tick that timer k times |
| `TimerReducer.StudyScenario` | context/AppContext.js:25-90 | add a 4-second timer and start it: 4 ticks leave it running at 0, the fifth pauses it, and history stays empty |
| `TimerCard.DecimalString` | components/TimerCard.js:86-87 | `${n}` of a non-negative integer is a non-empty digit string, one digit exactly below 10, starting with `0` only for 0 |
| `TimerCard.JsRemainder` | components/TimerCard.js:82 | JavaScript `%` by a positive divisor: `a == b * q + r` for the quotient `q` truncated toward zero, with `r` in `[0, b)` for a non-negative dividend and in `(-b, 0]` for a negative one |
| `TimerCard.DecimalRoundTrip` | components/TimerCard.js:86-87 | the decimal string of n reads back as n |
| `TimerCard.PadSmall` | components/TimerCard.js:86-87 | for `0 <= n < 10`, `pad(n)` is `0` then the digit, length 2 |
| `TimerCard.PadLarge` | components/TimerCard.js:87 | for `n >= 10`, `pad(n)` is the plain decimal string of n, at least 2 characters, exactly 2 below 100 |
| `TimerCard.PadRoundTrip` | components/TimerCard.js:86-88 | `pad` of a non-negative n is at least two digits and reads back as n |
| `TimerCard.TwoDigitValue` | components/TimerCard.js:86-88 | below 100, `pad(n)` is two digits whose value is n |
| `TimerCard.FormatTimeFields` | components/TimerCard.js:80-84 | for `s >= 0`, `formatTime(s) == pad(s div 60) + ":" + pad(s mod 60)` with the seconds field in [0, 59] and 2 characters wide |
| `TimerCard.FormatTimeRoundTrip` | components/TimerCard.js:80-84 | reading back `formatTime(s)` gives s for every `s >= 0` |
| `TimerCard.FormatTimeInjective` | components/TimerCard.js:80-84 | distinct non-negative second counts are displayed differently |
| `TimerCard.FormatTimeFiveChars` | components/TimerCard.js:80-84 | for `0 <= s < 6000` the text is 5 characters `MM:SS` and `MM * 60 + SS == s` |
| `TimerCard.FormatTimeNegative` | components/TimerCard.js:80-88 | a negative remaining prints with `pad`'s 0 before the minus sign: -5 shows as `0-1:0-5` |
| `TimerCard.StatusTextCases` | components/TimerCard.js:12-30 | the status line is "Completed" iff remaining is 0, whatever the status; otherwise "Running", "Paused" or "Idle" exactly by status |
| `TimerCard.ButtonLabelCases` | components/TimerCard.js:51 | the button reads "Pause" exactly when the status is running, "Start" otherwise |
| `TimerCard.LastTicksOfACountdown` | components/TimerCard.js:12-51 | a running timer at 1 second shows "Completed" with a "Pause" button after one tick, and "Completed" with a "Start" button after two |
| `TimerCard.ResetShowsPaused` | components/TimerCard.js:24-30 | after a reset, a timer with positive duration shows "Paused" and offers "Start" |
| `CreateTimer.Trim` | app/createTimer.jsx:63-65 | `trim` gives the empty string exactly when the input is all whitespace (ECMAScript's whitespace and line terminators), and otherwise a string that neither starts nor ends with whitespace |
| `CreateTimer.TrimIsSlice` | app/createTimer.jsx:63-65 | what `trim` keeps is one contiguous slice of the input, with only whitespace cut off before and after it |
| `CreateTimer.TrimIdempotent` | app/createTimer.jsx:63-64 | trimming twice is trimming once |
| `CreateTimer.TrimKeeps` | app/createTimer.jsx:63-64 | text that neither starts nor ends with whitespace comes through `trim` unchanged |
| `CreateTimer.NormalizeCategory` | app/createTimer.jsx:64 | the category is trimmed, and an empty or whitespace-only one becomes `Uncategorized`; never empty |
| `CreateTimer.Validate` | app/createTimer.jsx:63-84 | a blank name is rejected first, even with a bad duration; otherwise NaN or `<= 0` is rejected; otherwise the payload is the trimmed name, the parsed duration and the normalised category, all well formed |
| `CreateTimer.AcceptedTimerIsInRange` | app/createTimer.jsx:77-84 | an accepted payload whose category is present or not an inherited name is an ADD_TIMER the reducer can trust: the resulting state stays in range and ends the category with a paused timer at its full positive duration |
| `CreateTimer.ConstructorCategoryAccepted` | app/createTimer.jsx:62-84 | with any valid name and duration the form accepts the category `constructor` unchanged, and the ADD_TIMER it dispatches makes the reducer as written throw |
| `CreateTimer.CreateTimerForm.constructor` | app/createTimer.jsx:58-60 | the form starts with three empty fields, nothing dispatched and no alert |
| `CreateTimer.CreateTimerForm.Edit` | app/createTimer.jsx:99-121 | typing into the inputs sets the three fields and nothing else |
| `CreateTimer.CreateTimerForm.Submit` | app/createTimer.jsx:62-89 | on a rejection one alert and no dispatch, fields kept; on acceptance exactly one ADD_TIMER payload dispatched, then all three fields reset to `''`; every dispatched payload is well formed |

## Findings

| source | as written | input that shows it | evidently intended | confidence | as-written member | corrected member |
|---|---|---|---|---|---|---|
| context/AppContext.js:40-98 | `state.timers[category]` also finds the members every object inherits, so a missing category named `constructor`, `toString`, `__proto__` and the like yields a method: `[...fn]`, `fn.map` and `fn?.map(...)` throw a `TypeError` | create a timer with any valid name and duration under the category `constructor` (app/createTimer.jsx:64 accepts it) | the category is looked up among the map's own keys, so every category name the form accepts works | high, not executed | `TimerReducer.Reduce`, with `TimerReducer.ConstructorCategoryThrows` and `CreateTimer.ConstructorCategoryAccepted` | `TimerReducer.ReduceOwnKeys`, with `TimerReducer.OwnKeysThrowOnlyOnUndefined` |

## Left out

- `TimerProvider` (context/AppContext.js:123-162) is not modelled. It covers the storage load and save, JSON parsing and printing, the one-second `setInterval` ticker and the React context. These are I/O, timing and framework lifecycle. `ReloadRestores` states the reducer's side of the reload.
- `uuid.v4()` and `Date.now()` inside ADD_TIMER are foreign calls. The fresh id and the stamp are fields of the `AddTimer` action instead.
- `console.log` calls have no effect on state and are left out.
- Key order of the category map (JavaScript object insertion order) is not modelled. Dafny maps are unordered; the order only affects the order in which categories are drawn.
- Durations and remaining times are whole numbers. JavaScript's `Number()` also yields fractions and `Infinity`, which the validator accepts. A fractional duration would tick past 0 to a negative value and never be paused. The model does not cover that case.
- `CreateTimer.Validate`: `Number(duration.trim())` is the parameter `numberOf`, with results `NaN` or a whole number. Its parsing of exponents, signs and whitespace is not modelled.
- Alerts are recorded as `Rejection` values; the title and message texts of `Alert.alert` are UI.
- The progress percentage and `Math.round` (components/TimerCard.js:32-33,46) use floating point and are left out. The completion modal, its `useState`/`useEffect` and the styles are UI.
- Status strings other than `running` and `paused` (from loaded data) are all one value, `Other`. The reducer and the card only compare against those two strings.
- History entries are kept as values; the reducer never builds or inspects one.
- app/index.jsx is not part of this model: it is a UI screen, and its only decision is `PAUSE_TIMER` versus `START_TIMER` by status. app/history.jsx (JSON export and share) and app/_layout.jsx (navigation) are I/O and UI.
- `TimerReducer.TickTimer` and `TimerReducer.Countdown` count down exactly for every whole number. JavaScript numbers are doubles, and the validator accepts durations such as `1e16`; above 2^53, `timer.remaining - 1` (context/AppContext.js:80) no longer lowers the value by exactly one. The model does not cover durations above 2^53.
- `TimerCard.DecimalString`, `TimerCard.DecimalRoundTrip`, `TimerCard.FormatTimeFields` and `TimerCard.FormatTimeRoundTrip` compute exactly on whole numbers. The display members therefore match the program only for durations and remaining times up to 2^53, the same bound as for the countdown. Above it, `Math.floor(totalSeconds / 60)` (components/TimerCard.js:81) is rounded to a double. `${n}` (components/TimerCard.js:87) then prints the shortest decimal that reads back as that double, so `${2**64}` is `18446744073709552000`, not `18446744073709551616`. From 10^21 up, `${n}` uses exponent form such as `1e+21`. The model does not cover durations or remaining times above 2^53.
- A category named `__proto__` that arrives as an own key of a LOAD_STATE payload is not modelled: TICK's assignment `newTimers[cat] = ...` (context/AppContext.js:78) sets the new object's prototype instead of a key. No action of the reducer can create such a key, since the lookup of a missing `__proto__` throws first.
