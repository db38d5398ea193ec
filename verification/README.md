# Countdown engine — a Dafny model

This project models the core of a single-timer countdown app for Android. The
core is the countdown state engine of the view model, together with the pieces
around it:

- the persisted state record and the state store that saves, loads and publishes it;
- the background auto-pause of the application;
- the notification manager's start/stop state machine for the foreground service;
- the time conversions and clock-face formatting;
- the index arithmetic of the wheel time picker;
- the input filters of the minutes/seconds dialog.

The model is functional. The record is an immutable datatype (`CountdownState.State`),
and every verb is a pure function of the published record. So is one iteration of the
tick loop (`Engine.Tick`). The wall clock is the parameter `now`. The daily-total
call `addCompletedTime` is abstract: a transition returns a `Step` that says how many
seconds it banked, and the next record's `todayCompletedSeconds` has grown by exactly
that. Kotlin's truncating `/` and `%` are modelled explicitly (`KotlinMath`).
Integers are unbounded.

Modules follow the source files:

| module | models |
|---|---|
| `CountdownState` | the state record, its defaults, the numeric invariant |
| `Engine` | the view model's verbs, one tick iteration, the screen projections |
| `Repository` | the preference file as a map, `loadState` / `saveState` / `updateState` |
| `Application` | `onStop` auto-pause, `onStart`, the two repository objects the process builds |
| `Notification` | `handleStateChange`, de-duplication, `forceStopService`, `onDestroy` |
| `TimeUtils` | `toTotalSeconds`, `fromTotalSeconds`, `formatTime` |
| `WheelPicker` | list index ↔ value arithmetic of the wheel |
| `TimeSettingDialog` | the text-field filters and the confirm button |
| `EngineProperties` | lemmas spanning several transitions or components |
| `KotlinMath`, `Decimal`, `Wrappers` | truncating division, digit strings, Option/Result |

Behaviour of the code that the model keeps, and that a reader might not expect:

- A natural completion banks `(totalSeconds*1000 − currentMillis)/1000`, using the
  remaining time of the *last persisted* iteration. After any progress iteration that
  is less than the full duration, so a 5-second run whose last iteration left 40 ms
  adds 4 seconds to today's total, not 5 (`EngineProperties.FiveSecondRunBanksFour`).
- `setCurrentAsMax` with less than one second left sets the duration to 0 and leaves a
  record that is "running" with no time left. The loop stops and toggling does nothing
  (`EngineProperties.SetCurrentAsMaxUnderOneSecond`). So `totalSeconds ≥ 1` does not
  hold of every reachable record. The invariant proved over all runs
  is `0 ≤ currentMillis ≤ totalSeconds*1000` (`EngineProperties.RunKeepsConsistent`).
- The wheel picker compares a scroll offset in pixels with half the item height in dp
  (28). The model states the comparison as written: `offset > 28`.
- `startTime == 0` means "not anchored". An anchor `now − pausedTime` that happens to
  be 0 would be anchored again on the next iteration. The continuity lemmas exclude it.

## Model

| member | source | states |
|---|---|---|
| `CountdownState.Default` | app/src/main/java/com/example/countdown/data/CountdownState.kt:6-12 | the declared defaults: 60 s duration, no time left, stopped, unanchored, nothing paused |
| `CountdownState.CopyWithSameValues` | app/src/main/java/com/example/countdown/data/CountdownState.kt:6-12 | records compare by value: copying fields onto themselves gives an equal record |
| `Engine.Bank` | app/src/main/java/com/example/countdown/viewmodel/CountdownViewModel.kt:164-166 | banking `d` seconds grows today's total by exactly `d` and changes nothing else |
| `Engine.SessionBank` | app/src/main/java/com/example/countdown/viewmodel/CountdownViewModel.kt:195-203 | banks only during an active session and only a positive elapsed count, never more than the duration of a valid record |
| `Engine.Suspend` | app/src/main/java/com/example/countdown/viewmodel/CountdownViewModel.kt:118-125 | a pause stops the run, drops the anchor and keeps the elapsed time as resume offset; duration, remaining time and daily figures unchanged; keeps the invariant |
| `Engine.Pause` | app/src/main/java/com/example/countdown/viewmodel/CountdownViewModel.kt:114-126 | the user's pause: stopped, unanchored, not flagged automatic, the offset is the elapsed time before the pause; every other field unchanged |
| `Engine.Start` | app/src/main/java/com/example/countdown/viewmodel/CountdownViewModel.kt:129-136 | a start sets running, forces re-anchoring and clears the auto flag; every other field, including the offset and remaining time, is untouched |
| `Engine.Toggle` | app/src/main/java/com/example/countdown/viewmodel/CountdownViewModel.kt:110-138 | no-op without time left; otherwise flips running, a pause keeping the elapsed time as offset and a start keeping the offset; never changes duration, remaining time or daily figures; keeps the invariant |
| `Engine.Tick` | app/src/main/java/com/example/countdown/viewmodel/CountdownViewModel.kt:146-179 | one loop iteration: anchoring so that `now − startTime = pausedTime` and nothing else; progress sets remaining = duration − elapsed and nothing else; completion stops, leaves no time, no anchor and no paused time, keeps duration, offset and auto flag, and banks the positive whole elapsed seconds |
| `Engine.Rearm` | app/src/main/java/com/example/countdown/viewmodel/CountdownViewModel.kt:195-212 | banks the active session, then arms a full, stopped, unanchored countdown of the given duration with no paused time; offset and auto flag unchanged |
| `Engine.Reset` | app/src/main/java/com/example/countdown/viewmodel/CountdownViewModel.kt:189-213 | banks the session, refills the same duration, stopped, unanchored, no paused time; today's total grows by exactly what was banked, offset and auto flag unchanged; valid whenever the duration is non-negative |
| `Engine.SetNewTotalTime` | app/src/main/java/com/example/countdown/viewmodel/CountdownViewModel.kt:218-246 | no-op (nothing banked) for a non-positive duration; otherwise banks the session and arms the new duration, stopped, unanchored, no paused time and valid, with today's total grown by exactly what was banked and offset and auto flag unchanged |
| `Engine.SetCurrentAsMax` | app/src/main/java/com/example/countdown/viewmodel/CountdownViewModel.kt:251-264 | no-op unless running with time left; otherwise the new duration is the whole remaining seconds, the remaining time is refilled to it (within 1 s below the old), still running, re-anchored with no paused time, nothing banked, auto flag unchanged |
| `Engine.SaveCurrentState` | app/src/main/java/com/example/countdown/viewmodel/CountdownViewModel.kt:277-291 | only the remaining time may change, and only for an anchored running countdown with time left by the clock |
| `Engine.TodayTotal` | app/src/main/java/com/example/countdown/viewmodel/CountdownViewModel.kt:59-82 | the shown daily total is never negative and is the raw total (banked + live session − offset) unless that is negative |
| `Engine.ShouldShowTimePicker` | app/src/main/java/com/example/countdown/viewmodel/CountdownViewModel.kt:85-90 | the picker shows exactly when no session is active (not running and no paused time) |
| `Engine.Project` | app/src/main/java/com/example/countdown/viewmodel/CountdownViewModel.kt:53-105 | the screen state: duration, remaining time, running and auto flags copied; shown seconds are the remaining time truncated to whole seconds; its clock face reads back as those seconds and its total face as the daily total |
| `Repository.GetInt` | app/src/main/java/com/example/countdown/data/CountdownRepository.kt:32 | a missing key gives the default, an int gives its value, a value of another kind fails |
| `Repository.GetLong` | app/src/main/java/com/example/countdown/data/CountdownRepository.kt:33-36 | a missing key gives the default, a long gives its value, a value of another kind fails |
| `Repository.GetBoolean` | app/src/main/java/com/example/countdown/data/CountdownRepository.kt:34 | a missing key gives the default, a boolean gives its value, a value of another kind fails |
| `Repository.LoadState` | app/src/main/java/com/example/countdown/data/CountdownRepository.kt:31-40 | each of the five fields is read from its own key with its default, the remaining time defaulting to the loaded duration; the load fails exactly when one of those keys holds a value of the wrong kind; an empty file loads a stopped full 60-second countdown |
| `Repository.Write` | app/src/main/java/com/example/countdown/data/CountdownRepository.kt:46-53 | saving adds the five keys and leaves every other key as it was |
| `Repository.Open` | app/src/main/java/com/example/countdown/data/CountdownRepository.kt:14-17 | the store starts publishing what the file loads, and fails exactly when the load fails |
| `Repository.SaveState` | app/src/main/java/com/example/countdown/data/CountdownRepository.kt:45-56 | after a save the published value is the record, the file changes only in the five keys, and loading it gives back the five stored fields |
| `Repository.UpdateState` | app/src/main/java/com/example/countdown/data/CountdownRepository.kt:61-64 | an update publishes exactly the function applied to the current value, changes the file only in the five keys, and the file loads that value back |
| `Repository.UpdateKeepsInSync` | app/src/main/java/com/example/countdown/data/CountdownRepository.kt:45-64 | file and published value agree on the stored fields after opening and after every update |
| `Repository.UpdateIdentity` | app/src/main/java/com/example/countdown/data/CountdownRepository.kt:61-64 | the identity update leaves the published value unchanged |
| `Repository.SaveThenOpen` | app/src/main/java/com/example/countdown/data/CountdownRepository.kt:31-56 | reopening a saved file publishes the five fields last saved |
| `Application.OnStop` | app/src/main/java/com/example/countdown/CountdownApplication.kt:30-41 | no change unless running; a running countdown gets the user's pause with the auto flag set; duration, remaining time and daily figures unchanged |
| `Application.OnStopAsWired` | app/src/main/java/com/example/countdown/CountdownApplication.kt:18-38 | as wired, the hook updates the application's own record and writes its auto-paused copy to the file; the screen's record is never changed |
| `Application.AutoPauseMissesLiveCountdown` | app/src/main/java/com/example/countdown/CountdownApplication.kt:18-38 | launched from an empty file and then started, the screen's countdown is still running after the app goes to the background |
| `Application.OnStopShared` | app/src/main/java/com/example/countdown/CountdownApplication.kt:30-38 | over the single shared repository, the published record is the auto-paused one, nothing is left running, and the file holds what is published |
| `Application.OnStart` | app/src/main/java/com/example/countdown/CountdownApplication.kt:44-47 | returning to the foreground changes nothing |
| `Application.OnStopIdempotent` | app/src/main/java/com/example/countdown/CountdownApplication.kt:31-38 | going to the background twice equals going once |
| `Application.ResumeAfterAutoPause` | app/src/main/java/com/example/countdown/CountdownApplication.kt:32-38 | after an auto-pause the ordinary toggle resumes and clears the flag; the offset is the elapsed time |
| `Notification.KeyOf` | app/src/main/java/com/example/countdown/service/NotificationManager.kt:26-28 | the de-duplication key is (running, paused time > 0, no time left) |
| `Notification.HandleStateChange` | app/src/main/java/com/example/countdown/service/NotificationManager.kt:35-47 | start iff wanted and the flag is down; stop iff not wanted, flag up and finished; otherwise the flag is unchanged; the flag afterwards records the command |
| `Notification.Observe` | app/src/main/java/com/example/countdown/service/NotificationManager.kt:24-31 | a record whose key equals the last handled one, or one arriving after cancellation, has no effect; any other record gets exactly `handleStateChange`'s command and flag, and its key is remembered |
| `Notification.ForceStop` | app/src/main/java/com/example/countdown/service/NotificationManager.kt:57-62 | stops only when the flag is up, and always leaves it down |
| `Notification.OnDestroy` | app/src/main/java/com/example/countdown/service/NotificationManager.kt:49-55 | cancels the manager and stops a running service; the flag and the last key are kept |
| `Notification.NoDoubleStart` | app/src/main/java/com/example/countdown/service/NotificationManager.kt:35-62 | along any events, no two service starts occur without a stop between them |
| `Notification.FreshManagerNeverDoubleStarts` | app/src/main/java/com/example/countdown/service/NotificationManager.kt:20-62 | the same from a newly created manager |
| `TimeUtils.ToTotalSeconds` | app/src/main/java/com/example/countdown/utils/TimeUtils.kt:31-33 | a clock reading is recovered from its count: hours are count/3600, minutes the remainder's /60, seconds count mod 60 |
| `TimeUtils.FromTotalSeconds` | app/src/main/java/com/example/countdown/utils/TimeUtils.kt:38-43 | the split recombines to the input for every integer; for non-negative input minutes and seconds are in 0..59 and hours are input/3600; for negative input minutes and seconds are in (−60, 0] and hours ≤ 0 |
| `TimeUtils.FromTotalSecondsOfClockReading` | app/src/main/java/com/example/countdown/utils/TimeUtils.kt:31-43 | a reading with hours ≥ 0 and minutes, seconds in 0..59 survives conversion to seconds and back |
| `TimeUtils.FormatTime` | app/src/main/java/com/example/countdown/utils/TimeUtils.kt:10-19 | under an hour the text is `MM:SS` (5 characters); from an hour on it is `H…:MM:SS`; the last two fields are the zero-padded minutes and seconds of the `fromTotalSeconds` split |
| `TimeUtils.ParseClockOfFormatTime` | app/src/main/java/com/example/countdown/utils/TimeUtils.kt:10-19 | the text of any non-negative count reads back as that count by a reader that takes minute and second fields only below 60 and an hours field only when positive and without a superfluous leading zero, so the text is the `fromTotalSeconds` split, each field zero-padded decimal |
| `TimeUtils.FormatTimeOfMinuteAndZero` | app/src/main/java/com/example/countdown/utils/TimeUtils.kt:10-19 | one minute shows as `01:00` and zero as `00:00` |
| `Decimal.Digits` | app/src/main/java/com/example/countdown/utils/TimeUtils.kt:15-17 | the decimal spelling is all digits, has no leading zero and is exactly as long as the number needs |
| `Decimal.IntToString` | app/src/main/java/com/example/countdown/ui/components/TimeSettingDialog.kt:32-33 | `toString`: never empty, all digits exactly for non-negative numbers, a leading minus exactly for negative ones |
| `Decimal.Pad2` | app/src/main/java/com/example/countdown/utils/TimeUtils.kt:15-17 | `%02d`: at least two characters, exactly two digits iff 0..99, a leading sign iff negative |
| `Decimal.ValueOfPad2` | app/src/main/java/com/example/countdown/utils/TimeUtils.kt:15-17 | a padded non-negative number reads back as itself |
| `Decimal.ToIntOrNull` | app/src/main/java/com/example/countdown/ui/components/TimeSettingDialog.kt:67 | empty text is null; all-digit text is its value, `+` followed by digits the digits' value and `-` followed by digits its negation; the result is non-null exactly for digits, or a sign followed by digits |
| `Decimal.ToIntOrNullOfIntToString` | app/src/main/java/com/example/countdown/ui/components/TimeSettingDialog.kt:32-33 | parsing undoes `toString` for every integer |
| `WheelPicker.TotalItems` | app/src/main/java/com/example/countdown/ui/components/TimePicker.kt:123 | the list is never empty for a non-empty range |
| `WheelPicker.ValueAt` | app/src/main/java/com/example/countdown/ui/components/TimePicker.kt:220-221 | every index shows a value inside the range, offset from its first value by the index modulo the count |
| `WheelPicker.StartIndex` | app/src/main/java/com/example/countdown/ui/components/TimePicker.kt:123-124 | for a selected value in range the opening index is inside the list and shows that value |
| `WheelPicker.InitialFirstVisible` | app/src/main/java/com/example/countdown/ui/components/TimePicker.kt:126-128 | the opening position puts the start index at the centre (two below the first visible) |
| `WheelPicker.CenterIndex` | app/src/main/java/com/example/countdown/ui/components/TimePicker.kt:140-144 | the centre is three past the first visible item when the offset exceeds 28, else two |
| `WheelPicker.NormalizedValue` | app/src/main/java/com/example/countdown/ui/components/TimePicker.kt:147-149 | for every index, negative ones included, the normalised value is in range and agrees with the index modulo the count |
| `WheelPicker.CenterValue` | app/src/main/java/com/example/countdown/ui/components/TimePicker.kt:134-152 | the selected value always lies in the range |
| `WheelPicker.NormalizedAgreesWithList` | app/src/main/java/com/example/countdown/ui/components/TimePicker.kt:147-149 | on non-negative indices the centre's value and the list's own value agree |
| `WheelPicker.SnapTarget` | app/src/main/java/com/example/countdown/ui/components/TimePicker.kt:173-177 | the snap goes one item on when the offset exceeds 28, else stays; the centre after snapping is the centre before |
| `WheelPicker.ScrollToCenterTarget` | app/src/main/java/com/example/countdown/ui/components/TimePicker.kt:186-197 | scrolling to the computed index puts the tapped in-range value at the centre |
| `TimeSettingDialog.FilterMinutes` | app/src/main/java/com/example/countdown/ui/components/TimeSettingDialog.kt:51-55 | an edit is taken iff it is all digits and at most three long; otherwise the field keeps its text |
| `TimeSettingDialog.ParseOrZero` | app/src/main/java/com/example/countdown/ui/components/TimeSettingDialog.kt:67 | all-digit text reads as its decimal value |
| `TimeSettingDialog.FilterSeconds` | app/src/main/java/com/example/countdown/ui/components/TimeSettingDialog.kt:65-72 | an edit is taken iff it is all digits, at most two long and below 60 (empty reads as 0) |
| `TimeSettingDialog.EmptyTextAccepted` | app/src/main/java/com/example/countdown/ui/components/TimeSettingDialog.kt:51-71 | both fields take the empty text, which reads as zero |
| `TimeSettingDialog.FiltersKeepFieldsValid` | app/src/main/java/com/example/countdown/ui/components/TimeSettingDialog.kt:51-72 | from valid fields, every edit leaves valid fields: minutes parse below 1000 and seconds below 60 |
| `TimeSettingDialog.InitialSecondsText` | app/src/main/java/com/example/countdown/ui/components/TimeSettingDialog.kt:33 | an initial value in 0..59 gives text the seconds filter admits and that reads back as the value |
| `TimeSettingDialog.Confirm` | app/src/main/java/com/example/countdown/ui/components/TimeSettingDialog.kt:82-90 | the dialog always dismisses, and confirms the parsed pair exactly when it makes a positive duration |
| `EngineProperties.Apply` | app/src/main/java/com/example/countdown/viewmodel/CountdownViewModel.kt:110-291 | every event changes today's total only by what it banks and never the offset |
| `EngineProperties.ApplyKeepsConsistent` | app/src/main/java/com/example/countdown/viewmodel/CountdownViewModel.kt:110-291 | each verb, loop iteration and lifecycle hook keeps the invariant when the clock does not go back |
| `EngineProperties.RunKeepsConsistent` | app/src/main/java/com/example/countdown/viewmodel/CountdownViewModel.kt:110-291 | after any run of events with a forward clock, `0 ≤ currentMillis ≤ totalSeconds*1000` and today's total grew by exactly the seconds banked |
| `EngineProperties.LoadedDefaultConsistent` | app/src/main/java/com/example/countdown/data/CountdownRepository.kt:31-40 | the record an empty file loads satisfies the invariant |
| `EngineProperties.TickWithinDuration` | app/src/main/java/com/example/countdown/viewmodel/CountdownViewModel.kt:157-178 | with the clock at or past the anchor, a progress iteration leaves `0 < currentMillis ≤ totalSeconds*1000` |
| `EngineProperties.ToggleTwice` | app/src/main/java/com/example/countdown/viewmodel/CountdownViewModel.kt:110-138 | toggling twice restores the running flag and leaves remaining time and duration alone |
| `EngineProperties.ToggleDefaultDoesNothing` | app/src/main/java/com/example/countdown/data/CountdownState.kt:8 | a default-built record has no time left, so toggling it is a no-op |
| `EngineProperties.ResumeCountsDown` | app/src/main/java/com/example/countdown/viewmodel/CountdownViewModel.kt:152-158 | after resume and anchoring, `d` ms later the remaining time is exactly `d` less |
| `EngineProperties.PauseResumeCountsDown` | app/src/main/java/com/example/countdown/viewmodel/CountdownViewModel.kt:114-158 | pausing and resuming lose no time |
| `EngineProperties.ResumeRunsOut` | app/src/main/java/com/example/countdown/viewmodel/CountdownViewModel.kt:160-176 | once the whole remaining time has passed the run finishes and the session ends |
| `EngineProperties.ResetKeepsTodayTotal` | app/src/main/java/com/example/countdown/viewmodel/CountdownViewModel.kt:189-213 | reset banks what the screen already counted: the shown total does not move |
| `EngineProperties.SetNewTotalTimeKeepsTodayTotal` | app/src/main/java/com/example/countdown/viewmodel/CountdownViewModel.kt:218-246 | the same for a new duration |
| `EngineProperties.ToggleKeepsTodayTotal` | app/src/main/java/com/example/countdown/viewmodel/CountdownViewModel.kt:114-136 | pause and resume leave the shown total where it was |
| `EngineProperties.CompletionKeepsTodayTotal` | app/src/main/java/com/example/countdown/viewmodel/CountdownViewModel.kt:160-176 | natural completion leaves the shown total where it was |
| `EngineProperties.SetCurrentAsMaxDropsSessionFromTotal` | app/src/main/java/com/example/countdown/viewmodel/CountdownViewModel.kt:251-264 | rebasing banks nothing, so the session's elapsed seconds vanish from the shown total |
| `EngineProperties.CompletionBanksLessThanDuration` | app/src/main/java/com/example/countdown/viewmodel/CountdownViewModel.kt:162-166 | a completion after a progress iteration banks less than the configured duration |
| `EngineProperties.FiveSecondRunBanksFour` | app/src/main/java/com/example/countdown/viewmodel/CountdownViewModel.kt:160-176 | a 5-second run whose last iteration left 40 ms banks 4 seconds |
| `EngineProperties.SetCurrentAsMaxUnderOneSecond` | app/src/main/java/com/example/countdown/viewmodel/CountdownViewModel.kt:253-263 | under one second left, rebasing gives duration 0, still running, no time left, loop stopped, toggle a no-op, picker hidden |
| `EngineProperties.NotificationWantedIffPickerHidden` | app/src/main/java/com/example/countdown/service/NotificationManager.kt:35-36 | the notification is wanted exactly when the screen hides the picker |
| `EngineProperties.ResetKeepsServiceFlag` | app/src/main/java/com/example/countdown/service/NotificationManager.kt:42-46 | a reset that refills time is not a finish: no stop, the flag stays up |
| `EngineProperties.CompletionStopsService` | app/src/main/java/com/example/countdown/service/NotificationManager.kt:42-46 | natural completion stops a running service and lowers the flag |
| `EngineProperties.FirstScreenMatchesDefaults` | app/src/main/java/com/example/countdown/viewmodel/CountdownViewModel.kt:302-312 | the screen state derived from an empty file equals the screen state's declared defaults |
| `EngineProperties.PickedTimeRoundTrips` | app/src/main/java/com/example/countdown/ui/components/TimePicker.kt:61-105 | any hour (0..23), minute and second (0..59) the wheels show form a reading that survives conversion to seconds and back |
| `EngineProperties.PickedTimeArmsCountdown` | app/src/main/java/com/example/countdown/viewmodel/CountdownViewModel.kt:218-246 | a picked non-zero time arms a stopped countdown of exactly that many seconds, whose split is the picked time |

## Findings

| source | as written | input that shows it | evidently intended | confidence | as-written member | corrected member |
|---|---|---|---|---|---|---|
| app/src/main/java/com/example/countdown/CountdownApplication.kt:18 | the application builds its own repository object; the activity builds a second one (MainActivity.kt:46) for the view model and the notification manager, and each publishes its own record, so `onStop` reads and pauses the record the file held at process start | empty file; the user starts the countdown; the app goes to the background: the running countdown is not paused, and when the file said running at launch a stale paused record is written to it | the background hook auto-pauses the countdown the screen shows, through the one repository the screen uses | high; not executed | `Application.OnStopAsWired`, `Application.AutoPauseMissesLiveCountdown` | `Application.OnStopShared` |

The engine's event model (`EngineProperties.Apply`) uses the corrected hook.

## Left out

- The tick loop's scheduling: the 50 ms `delay`, job launch and cancellation, and a stale iteration racing a verb. Only single iterations are modelled. The pause writes its record before it cancels the loop (CountdownViewModel.kt:118-126).
- `System.currentTimeMillis()`: it is the parameter `now`.
- SharedPreferences storage: it is a map from keys to typed values. The asynchronous disk write of `apply()` and all `Log` calls are left out.
- `addCompletedTime`, `clearTodayCompletedTime` (and so `clearTodayTotal`), and the day-rollover reset: their bodies are not part of this model. Banking is the abstract `Engine.Bank`. The `lastDate` and `lastClearTime` fields, which only those bodies use, are not in the record.
- The fields the record's declaration lacks (daily total, offset, auto flag) are not stored by `saveState`. A save and a load therefore return them at their defaults (`Repository.Persisted`).
- `calculateProgress`, the `progress` field of the screen state, the progress ring, and the picker's alpha/scale animations: these are floating-point presentation.
- `CountdownService`, `MainActivity`, `CountdownScreen`, `CountdownProgress` and `ConfirmDialog`: UI and platform plumbing. Starting and stopping the service are the `Notification.Command` values.
- The view model factory, the collection started in `init`, and `onCleared`: wiring with no state logic.
- Kotlin `Int`/`Long` overflow and the `.toInt()` narrowing: integers are unbounded.
- Notification.Observe: every published record is offered to the manager. A state flow may skip intermediate values for a slow collector; that conflation is not modelled.
- WheelPicker.ScrollToCenterTarget: the list's clamping of out-of-bounds scroll targets, the animated scroll, and the time-based scroll debounce (`isScrolling`, `lastScrollTime`) are not modelled.
- TimeSettingDialog.FilterMinutes: digits are ASCII `0`–`9`. Kotlin's `isDigit` also admits other Unicode decimal digits, and those are not modelled.
- TimeSettingDialog.FilterSeconds: the same ASCII-only restriction.
- Decimal.ToIntOrNull: overflow to null on very long digit strings is not modelled, and only ASCII digits are read. Kotlin's `toIntOrNull` also parses other Unicode decimal digits.
- Decimal.Pad2: always writes ASCII digits. `String.format` uses the default locale, whose digits need not be ASCII; locale-dependent digits are not modelled, and so neither are they in `TimeUtils.FormatTime`.
- TimeSettingDialog.Confirm: the two-argument `toTotalSeconds` it calls is not part of this model, so it is the parameter `toTotalSeconds`.
