# Android Wave Recorder sample activity, modelled in Dafny

This project models the self-contained logic of the sample app's `MainActivity`,
the screen that drives the `WaveRecorder` library:

- **`formatTimeUnit`**: it turns the elapsed time the recorder reports, in
  milliseconds, into the `MM:SS:mmm` label. Minutes are `toMinutes` (truncated).
  Seconds are the whole seconds less sixty times the minutes. Milliseconds are
  `ms % 1000`. The fields are rendered with `"%02d:%02d:%03d"`. Module
  `TimeFormat` (`time_format.dfy`) holds these as functions. Its partner is an
  inverse, `ParseTime`, which reads a label back into milliseconds. The lemmas
  prove the field ranges, that the decomposition is unique and adds back up, the
  exact shape of the label, the parse round trip, injectivity, and that the
  fallback text `"00:00:000"` is the label of zero.
- **The recording flags**: these are `isRecording` and `isPaused`, which the
  state-change listener rewrites for each reported `RecorderState`. The start/stop
  and pause/resume buttons read the flags to choose a recorder call. Module
  `ActivityState` (`activity_state.dfy`) holds a class `MainActivity` with the two
  fields, one method per handler, the listener's dispatch, and the two click
  listeners. Each handler is specified by the pure function `Apply`. Each click
  listener is specified by `StartStopCommand` or `PauseResumeCommand`. Lemmas
  about `Apply` and its fold `Replay` cover several things:
  - what each report does to the flags;
  - that the flags mirror the last report, except for a PAUSE that arrives while
    the flags say the recorder is stopped;
  - that after any run of reports the flags depend only on the last non-PAUSE
    report;
  - what each button asks for after each report.

`wrappers.dfy` holds the `Option` type used by both modules.

The recorder library itself (`WaveRecorder`, `RecorderState`) is not part of this
model. Its states enter only as the four values the listener receives.

## Model

| member | source | states |
|---|---|---|
| `TimeFormat.Seconds` | sample/src/main/java/com/github/squti/androidwaverecordersample/MainActivity.kt:228-230 | the seconds field, whole seconds minus 60 times whole minutes, is below 60 and equals the whole seconds modulo 60 |
| `TimeFormat.MinutesOfSeconds` | sample/src/main/java/com/github/squti/androidwaverecordersample/MainActivity.kt:227-229 | truncating milliseconds to minutes equals truncating whole seconds to minutes, so the subtraction in the seconds field never goes negative |
| `TimeFormat.Recompose` | sample/src/main/java/com/github/squti/androidwaverecordersample/MainActivity.kt:226-231 | seconds < 60, millis < 1000, and minutes·60000 + seconds·1000 + millis equals the elapsed time |
| `TimeFormat.DecompositionUnique` | sample/src/main/java/com/github/squti/androidwaverecordersample/MainActivity.kt:226-231 | any minutes/seconds/millis with seconds < 60 and millis < 1000 that add up to the elapsed time are exactly the three fields the label shows |
| `TimeFormat.ValueOfDigits` | sample/src/main/java/com/github/squti/androidwaverecordersample/MainActivity.kt:226 | the decimal rendering of a number denotes that number |
| `TimeFormat.ValueIgnoresZeros` | sample/src/main/java/com/github/squti/androidwaverecordersample/MainActivity.kt:226 | zero padding keeps a field all digits and does not change the number it denotes |
| `TimeFormat.DigitsLength` | sample/src/main/java/com/github/squti/androidwaverecordersample/MainActivity.kt:226 | a number renders in at most k digits exactly when it is below 10^k |
| `TimeFormat.FieldProperties` | sample/src/main/java/com/github/squti/androidwaverecordersample/MainActivity.kt:226 | a `%0wd` field is all digits, denotes its number, and is w wide unless the number needs more digits |
| `TimeFormat.FieldWidth` | sample/src/main/java/com/github/squti/androidwaverecordersample/MainActivity.kt:226 | a `%0wd` field is at least w wide, and exactly w wide iff the number is below 10^w |
| `TimeFormat.FormatShape` | sample/src/main/java/com/github/squti/androidwaverecordersample/MainActivity.kt:224-232 | the label is digits, a colon, exactly two digits, a colon, exactly three digits; it is 9 characters long iff fewer than 100 minutes have passed, and the minutes grow past two digits otherwise |
| `TimeFormat.ParseFormat` | sample/src/main/java/com/github/squti/androidwaverecordersample/MainActivity.kt:222-236 | reading the label back as minutes, seconds and milliseconds gives the elapsed time |
| `TimeFormat.FormatInjective` | sample/src/main/java/com/github/squti/androidwaverecordersample/MainActivity.kt:222-236 | two different elapsed times never get the same label |
| `TimeFormat.FallbackIsZero` | sample/src/main/java/com/github/squti/androidwaverecordersample/MainActivity.kt:233-234 | the text shown when formatting throws, `"00:00:000"`, is the label of 0 ms |
| `ActivityState.ApplyEffect` | sample/src/main/java/com/github/squti/androidwaverecordersample/MainActivity.kt:149-205 | RECORDING and SKIPPING_SILENCE leave recording set and paused clear, whatever the prior flags; STOP clears both; PAUSE sets paused and keeps recording |
| `ActivityState.ApplyMirrors` | sample/src/main/java/com/github/squti/androidwaverecordersample/MainActivity.kt:149-205 | after a report the flags mirror it (recording iff not STOP, paused iff PAUSE) exactly unless it is a PAUSE while not recording |
| `ActivityState.ApplyIdempotent` | sample/src/main/java/com/github/squti/androidwaverecordersample/MainActivity.kt:149-205 | a state reported twice in a row leaves the same flags as reporting it once |
| `ActivityState.ReplaySettled` | sample/src/main/java/com/github/squti/androidwaverecordersample/MainActivity.kt:149-205 | after any run of reports whose last non-PAUSE report is at i, recording is set iff that report is not STOP and paused is set iff a PAUSE followed it |
| `ActivityState.ReplayOnlyPauses` | sample/src/main/java/com/github/squti/androidwaverecordersample/MainActivity.kt:200-205 | a run of PAUSE reports alone keeps the recording flag and sets paused when the run is non-empty |
| `ActivityState.ReplayMirrorsLast` | sample/src/main/java/com/github/squti/androidwaverecordersample/MainActivity.kt:56-205 | from both flags false, the flags mirror the last report whenever it is not PAUSE |
| `ActivityState.StartStopCommand` | sample/src/main/java/com/github/squti/androidwaverecordersample/MainActivity.kt:75-102 | the start/stop button issues stop iff recording (whatever the permission), start iff not recording with permission, and no recorder call iff not recording without permission |
| `ActivityState.PauseResumeCommand` | sample/src/main/java/com/github/squti/androidwaverecordersample/MainActivity.kt:104-110 | the pause/resume button issues pause iff not paused and resume iff paused |
| `ActivityState.ButtonsFollowState` | sample/src/main/java/com/github/squti/androidwaverecordersample/MainActivity.kt:75-110 | when the flags mirror the recorder's state, start is only asked of a stopped recorder, stop is asked iff it is not stopped, and resume is asked iff it is paused |
| `ActivityState.ButtonsAfterReport` | sample/src/main/java/com/github/squti/androidwaverecordersample/MainActivity.kt:75-205 | after RECORDING or SKIPPING_SILENCE the buttons issue stop and pause; after STOP start/stop issues start with permission and nothing without; after PAUSE pause/resume issues resume |
| `ActivityState.MainActivity.constructor` | sample/src/main/java/com/github/squti/androidwaverecordersample/MainActivity.kt:56-57 | both flags start false |
| `ActivityState.MainActivity.StartRecording` | sample/src/main/java/com/github/squti/androidwaverecordersample/MainActivity.kt:162-173 | sets recording, clears paused: the flags become `Apply` of RECORDING |
| `ActivityState.MainActivity.SkipRecording` | sample/src/main/java/com/github/squti/androidwaverecordersample/MainActivity.kt:175-185 | sets recording, clears paused: the flags become `Apply` of SKIPPING_SILENCE |
| `ActivityState.MainActivity.StopRecording` | sample/src/main/java/com/github/squti/androidwaverecordersample/MainActivity.kt:187-198 | clears both flags: the flags become `Apply` of STOP |
| `ActivityState.MainActivity.PauseRecording` | sample/src/main/java/com/github/squti/androidwaverecordersample/MainActivity.kt:200-205 | sets paused and leaves recording as it was: the flags become `Apply` of PAUSE |
| `ActivityState.MainActivity.OnStateChange` | sample/src/main/java/com/github/squti/androidwaverecordersample/MainActivity.kt:146-155 | dispatching any reported state leaves the flags at `Apply` of the old flags and that state |
| `ActivityState.MainActivity.OnStartStopClick` | sample/src/main/java/com/github/squti/androidwaverecordersample/MainActivity.kt:75-102 | the click listener reads the recording flag and returns the command `StartStopCommand` specifies, changing nothing |
| `ActivityState.MainActivity.OnPauseResumeClick` | sample/src/main/java/com/github/squti/androidwaverecordersample/MainActivity.kt:104-110 | the click listener reads the paused flag and returns the command `PauseResumeCommand` specifies, changing nothing |

## Left out

- Negative elapsed times: the recorder never reports them. Kotlin's truncating `/` and `%` would differ from Dafny's there, so the elapsed time is a `nat`.
- The 64-bit `Long` range of the elapsed time is not bounded. The label only divides the value, so nothing can overflow.
- `Locale.getDefault()` digit shapes: digits are ASCII `0`–`9`.
- The `catch` path of `formatTimeUnit`: no exception can occur for a non-negative time. `FallbackIsZero` only relates its text to the label of zero.
- Widget updates, `Toast`, `Log`, and the amplitude, silence-detection and noise-suppressor switches: UI side effects with no state the model keeps.
- The permission request, the rationale branch, the settings dialog and `onRequestPermissionsResult`: these are operating-system interactions. The permission is a boolean input, and "no recorder call" covers both the request and the dialog.
- `initRecorder`, `initWithExternalStorage` and `initWithInternalStorage`: MediaStore and file-path I/O, plus the construction and configuration of the recorder library. That library's source is not part of this model.
- The recorder's own state transitions: the listener is modelled for any sequence of reported states, not only the ones the library would emit.
