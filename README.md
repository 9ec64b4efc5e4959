# CopyPaste typing engine, modelled in Dafny

CopyPaste is a small desktop utility. On a global hotkey it reads the clipboard and types the
text into the focused application as simulated key presses, at a chosen speed, with a
human-like rhythm. This project models the core of that utility and proves properties of
the model:

- **Character classifier** (`keyboard.dfy`): which robotjs call reproduces each character.
  The choices are a named key tap (with or without shift) or a literal `typeString`. The
  two lookup tables are checked against an independently written US keyboard layout.
- **Delay model** (`delay.dfy`): the pause after each character. It is built from the
  words-per-minute rate, a boundary multiplier chosen from the previous character, the
  temperature jitter, and a 10 ms floor. Arithmetic is exact (`real`). `Math.random()` is a
  parameter `r` in [0, 1).
- **Typing engine** (`engine.dfy`):
  - The module-level state (`Host`) and the `TypingSimulator` job (`Simulator`).
  - The asynchronous `start()` loop as a step machine: `Start` runs up to the first
    `await`, and each `Advance` is one resumption.
  - `stop`, `pause`, `resume` and `notifyState`.
  - The start/stop and pause/resume hotkey handlers, the range-checked setters,
    `get-typing-state`, and the loading and updating of shortcuts.
  - Every effect on the outside world is appended to `Host.trace`: robotjs calls with their
    outcome, sleeps, and notifications. Whether robotjs accepts a call is an oracle
    (`Oracle`), so any pattern of failures is covered.
- **Shortcut merge** (`shortcuts.dfy`): the default bindings, and the right-biased merge.
- **Window moves** (`window.dfy`): the clamped moves and the centring resize.
- **Platform adapter** (`platform.dfy`):
  - macOS versus other platforms: window options, content protection, platform name,
    icon path.
  - `formatShortcut`, with JavaScript's first-occurrence `String.prototype.replace`.
- **Control bar** (`app.dfy`):
  - The words-per-minute field, with JavaScript's `parseInt`.
  - The status light, and the state shown before the first notification.
- **Shortcut recorder** (`settings.dfy`): the settings panel's state machine, which turns
  a key combination into an Electron accelerator.

On these points the model follows `src/main.js`:

- The simulator keeps the rate, temperature and pause values it was constructed with
  (`src/main.js:45-49`, `src/main.js:323`). Later setter calls do not reach a running job.
- The boundary pause multiplies the base delay; it is not added to it.
- A word is five characters (`12000 / wpm`).
- The jitter interval is half-open, because `Math.random()` is below 1.
- The floor is exactly 10 ms.

## Model

| member | source | states |
|---|---|---|
| Keyboard.Classify | src/main.js:104-120 | definition; properties proved in `Keyboard.ClassifyShape`, `Keyboard.ClassifyTypesItself` and `Keyboard.TablesDisjoint` |
| Keyboard.ClassifyShape | src/main.js:104-120 | a character is typed as a literal string exactly when it has no key of its own; shift is used exactly for upper-case letters and the shifted punctuation; no key is ever toggled |
| Keyboard.TablesDisjoint | src/main.js:30-41 | the two lookup tables have disjoint domains and hold no whitespace, letter or digit, so no table entry is shadowed by an earlier branch |
| Keyboard.ShiftTableMatchesLayout | src/main.js:30-35 | every shifted-punctuation entry names the US key whose shifted character is that punctuation |
| Keyboard.RegularTableMatchesLayout | src/main.js:37-41 | every named-key entry names the US key that types that character unshifted |
| Keyboard.ClassifyTypesItself | src/main.js:102-120 | round trip: on a US layout, the call chosen for any character types exactly that character |
| Keyboard.NamesDistinct | src/main.js:104-117 | no two keys are passed to robotjs under the same name |
| Keyboard.ClassifyHiBang | src/main.js:104-116 | "Hi!" is typed as shift+h, i, shift+1 |
| Delay.BaseDelay | src/main.js:135 | the base delay is positive and is 12000 ms divided by the rate |
| Delay.BoundaryMultiplier | src/main.js:141-158 | definition; properties proved in `Delay.BoundaryMultiplierOrder` and `Delay.BoundaryMultiplierMonotone` |
| Delay.BoundaryMultiplierOrder | src/main.js:143-158 | the multiplier is at least 1; it exceeds 1 exactly after a space, sentence end or comma with a positive pause setting; sentence end > space > comma > 1 |
| Delay.BoundaryMultiplierMonotone | src/main.js:141-158 | a larger pause setting never shortens the multiplier, and lengthens it strictly at a boundary |
| Delay.Jittered | src/main.js:160-166 | definition; properties proved in `Delay.JitterBounds` and `Delay.JitterFactorBounds` |
| Delay.UnflooredDelay | src/main.js:135-166 | definition; properties proved in `Delay.FloorInactiveInRange` and `Delay.PauseLengthensBoundaryDelay` |
| Delay.CalculateDelay | src/main.js:130-168 | the delay is at least 10 ms, and equals the unfloored value whenever that reaches 10 |
| Delay.JitterFactorBounds | src/main.js:163-166 | the jitter factor lies in [1 - t/400, 1 + t/400), and is exactly 1 at temperature 0 whatever the random draw |
| Delay.JitterBounds | src/main.js:161-166 | the jittered delay lies in [d(1 - t/400), d(1 + t/400)), and equals d at temperature 0 |
| Delay.FloorInactiveInRange | src/main.js:130-168 | for rates 10 to 900 and temperatures 0 to 100 the floor never changes the delay |
| Delay.PauseLengthensBoundaryDelay | src/main.js:141-166 | at a boundary, a larger pause setting gives a strictly longer delay for the same rate, temperature and draw |
| Engine.ReleaseStopsAtFailure | src/main.js:61-68 | the modifiers are released up, in order, one call each; the release stops right after the first failing call |
| Engine.BoundaryFollowsPrevChar | src/main.js:81-87 | the first character never gets a boundary pause; a later one gets one exactly when the pause setting is positive and the character before it is a space, `.`, `!`, `?` or `,` |
| Engine.CharacterEvents | src/main.js:102-127 | definition; properties proved in `Engine.CharacterShown` and `Engine.CharacterFallbackOnce` |
| Engine.CharacterShown | src/main.js:102-127 | a character appears on screen exactly when its tap or its one fallback succeeds, and then it is the character itself |
| Engine.CharacterFallbackOnce | src/main.js:121-127 | a failed tap is retried once as `typeString(char)`; a successful tap makes one call; nothing else is emitted |
| Engine.RunDelays | src/main.js:81-89 | one delay per character, each at least the floor |
| Engine.QuietRunShowsText | src/main.js:73-90 | an uninterrupted run shows a subsequence of the rest of the text, in order, each character at most once |
| Engine.QuietRunTypesText | src/main.js:73-90 | if robotjs accepts every call, an uninterrupted run shows exactly the rest of the text |
| Engine.EndedTrace | src/main.js:92-99 | a 'ready' or 'error' notification leaves the trace idle |
| Engine.RunTraceStarts | src/main.js:56-71 | 'typing', then events without notifications, opens a run that is still going |
| Engine.Host.constructor | src/main.js:9-24 | idle start with rate 80, temperature 50, pause 50 and the six default bindings |
| Engine.Host.Inject | src/main.js:104-126 | a robotjs call is recorded with its outcome, which is what the oracle says for that position in the trace; nothing else changes |
| Engine.Host.Notify | src/main.js:191-199 | a notification is recorded and changes nothing else; send failures are swallowed |
| Engine.Host.Sleep | src/main.js:171-173 | a sleep is recorded with its length |
| Engine.Host.ReleaseModifiers | src/main.js:61-68 | the trace grows by exactly the release events: command, control, alt, shift, up to the first failure |
| Engine.Host.Announce | src/main.js:57-71 | the trace grows by 'typing', the modifier release and a 1000 ms sleep, and the run it opens is still going |
| Engine.Host.BeginRun | src/main.js:55-71 | from idle, the module is marked typing with the job as its run, the invariant holds, and the trace grows as `Announce` says |
| Engine.Host.Finish | src/main.js:95-99 | the `finally` block clears isTyping, isPaused and the current process |
| Engine.Host.StartStopHotkey | src/main.js:314-326 | while typing, it stops the current job and forgets it, with no new job and no notification; otherwise it starts a job with the current settings on non-empty clipboard text, and does nothing on empty text |
| Engine.Host.PauseResumeHotkey | src/main.js:334-342 | it acts only when a current process exists and typing is on, and then toggles the module pause flag with a 'paused' or 'typing' notification |
| Engine.Host.UpdateWpm | src/main.js:424-428 | the rate changes exactly for values 10 to 900; other values leave it unchanged |
| Engine.Host.UpdateTemperature | src/main.js:430-434 | the temperature changes exactly for values 0 to 100 |
| Engine.Host.UpdatePause | src/main.js:436-440 | the pause setting changes exactly for values 0 to 100 |
| Engine.Host.UpdateShortcuts | src/main.js:442-446 | the received bindings override the current ones, and every default action stays bound |
| Engine.Host.LoadSettings | src/main.js:286-298 | saved bindings, when present, override the current ones; a missing file changes nothing |
| Engine.Host.GetTypingState | src/main.js:416-418 | the flags agree with the last notification: paused exactly after 'paused', typing exactly after 'typing' or 'paused', idle after 'ready', 'error' or none |
| Engine.Simulator.constructor | src/main.js:45-53 | the job keeps the text and the settings it was given, not stopped, not paused, index 0 |
| Engine.Simulator.Start | src/main.js:55-71 | 'typing' is sent first, then the modifier release, then a 1000 ms sleep before any character |
| Engine.Simulator.Advance | src/main.js:73-99 | a fault ends with one 'error'; while paused and not stopped it only sleeps 100 ms; when stopped or done it ends with one 'ready'; otherwise it types `text[i]` and sleeps its delay; every ending clears the flags |
| Engine.Simulator.TypeCharacter | src/main.js:102-128 | the trace grows by exactly the tap and its one fallback |
| Engine.Simulator.Stop | src/main.js:175-177 | stop only raises the flag, with no notification |
| Engine.Simulator.Pause | src/main.js:179-183 | both pause flags are set, and 'paused' is sent |
| Engine.Simulator.Resume | src/main.js:185-189 | both pause flags are cleared, and 'typing' is sent |
| Engine.Simulator.TypeNext | src/main.js:79-88 | with text left and no pause, stop or fault, one pass of the loop types `text[i]`, sleeps its delay and moves to the next index, the run still going |
| Engine.Simulator.EndQuietly | src/main.js:73-99 | with the text done, the loop exits, sends one 'ready' and the `finally` block clears the flags |
| Engine.Simulator.RunQuietly | src/main.js:55-100 | without interruptions the loop types the rest of the text in order, each character followed by its delay, and ends with exactly one 'ready' and the flags cleared |
| Shortcuts.Merge | src/main.js:292 | every action of either side is bound, and the update wins where both bind it |
| Shortcuts.MergeKeepsActions | src/main.js:442-443 | merging never unbinds a default action |
| Shortcuts.MergeIdempotent | src/main.js:443 | sending the same update twice is the same as sending it once |
| Window.MoveUp | src/main.js:351-360 | 10 px up, never above the top edge |
| Window.MoveDown | src/main.js:366-377 | 10 px down, the bottom edge never below the work area's |
| Window.MoveLeft | src/main.js:383-392 | 10 px left, never past the left edge |
| Window.MoveRight | src/main.js:398-409 | 10 px right, the right edge never past the work area's |
| Window.MovesKeepOnScreen | src/main.js:351-409 | a window inside the work area stays inside after any move |
| Window.MovesUndo | src/main.js:351-409 | away from the edges, up then down and left then right return the window to where it was |
| Window.Resize | src/main.js:448-463 | the new size is centred horizontally, within one pixel, keeping the vertical position |
| Platform.IndexFrom | src/platform/PlatformAdapter.js:55-65 | the first occurrence of the pattern at or after a position, or none |
| Platform.ReplaceFirst | src/platform/PlatformAdapter.js:55-65 | definition of `String.prototype.replace` with a string pattern; properties proved in `Platform.FirstOccurrence`, `Platform.NoOccurrence` and `Platform.ReplaceBySelf` |
| Platform.FirstOccurrence | src/platform/PlatformAdapter.js:55-65 | replace acts on the first occurrence only: the text before it is kept, the occurrence is replaced, and later occurrences are kept |
| Platform.NoOccurrence | src/platform/PlatformAdapter.js:55-65 | a string without the pattern is returned unchanged |
| Platform.ReplaceBySelf | src/platform/PlatformAdapter.js:64-65 | replacing a pattern by itself changes nothing |
| Platform.Adapter.FormatShortcut | src/platform/PlatformAdapter.js:53-67 | definition as written; properties proved in `Platform.OtherPlatformsOnlyRenameCommand`, `Platform.OtherPlatformsFormatDefault`, `Platform.MacFormatKeepsSecondPlus` and `Platform.MacFormatKeepsLaterPlus` |
| Platform.Adapter.FormatShortcutIntended | src/platform/PlatformAdapter.js:50-60 | the corrected definition, every `+` removed on macOS; properties proved in `Platform.MacFormatIntended` |
| Platform.OtherPlatformsOnlyRenameCommand | src/platform/PlatformAdapter.js:61-66 | off macOS only the first `CommandOrControl` changes, to `Ctrl` |
| Platform.OtherPlatformsFormatDefault | src/platform/PlatformAdapter.js:61-66 | off macOS `CommandOrControl+Alt+V` is shown as `Ctrl+Alt+V` |
| Platform.MacSymbolsOfDefault | src/platform/PlatformAdapter.js:54-59 | the symbol step turns `CommandOrControl+Alt+V` into `⌘+⌥+V` |
| Platform.MacFormatKeepsSecondPlus | src/platform/PlatformAdapter.js:53-60 | as written, macOS shows `CommandOrControl+Alt+V` as `⌘⌥+V` |
| Platform.MacFormatKeepsLaterPlus | src/platform/PlatformAdapter.js:53-60 | any shortcut with two `+` left after the symbol step keeps a `+` on macOS |
| Platform.MacFormatIntended | src/platform/PlatformAdapter.js:49-51 | the corrected formatting leaves no `+` on macOS and shows `⌘⌥V`; elsewhere it is unchanged |
| Platform.RemoveAll | src/platform/PlatformAdapter.js:60 | the corrected `+` removal: no `+` is left, and exactly the other characters occur |
| Platform.RemoveAllAppend | src/platform/PlatformAdapter.js:60 | removal from a concatenation is the concatenation of the removals, so characters keep their order |
| Platform.RemoveAllSingle | src/platform/PlatformAdapter.js:60 | a character other than `+` is kept and `+` itself is dropped; with RemoveAllAppend every other character stays in place, as often as it occurs |
| Platform.Adapter.IsMacOS | src/platform/PlatformAdapter.js:97-99 | definition; properties proved in `Platform.PlatformSelectors` |
| Platform.Adapter.IsLinux | src/platform/PlatformAdapter.js:104-106 | definition; properties proved in `Platform.PlatformSelectors` |
| Platform.Adapter.HasContentProtection | src/platform/PlatformAdapter.js:79-81 | definition; properties proved in `Platform.PlatformSelectors` |
| Platform.Adapter.PlatformName | src/platform/PlatformAdapter.js:72-74 | definition; properties proved in `Platform.PlatformSelectors` |
| Platform.PlatformSelectors | src/platform/PlatformAdapter.js:72-106 | never both macOS and Linux; content protection exactly on macOS; "macOS" exactly on macOS, "Linux" for every other platform |
| Platform.Adapter.GetWindowOptions | src/platform/PlatformAdapter.js:14-29 | always transparent; vibrancy only on macOS; `frame: false` only elsewhere |
| Platform.Adapter.SetContentProtection | src/platform/PlatformAdapter.js:35-46 | true exactly on macOS when the window call does not throw |
| Platform.Adapter.GetIconPath | src/platform/PlatformAdapter.js:86-92 | the build path followed by `/icon.icns` on macOS and `/icon.png` elsewhere |
| App.ParseInt | src/App.jsx:31 | definition of `parseInt` without a radix; properties proved in `App.ParseIntShow`, `App.ParseIntNoDigits` and `App.NumeralInRangeAccepted` |
| App.TrimStart | src/App.jsx:31 | `parseInt` skips exactly the leading white space |
| App.DigitRun | src/App.jsx:31 | the number is the longest run of digits |
| App.ParseIntShow | src/App.jsx:31 | `parseInt` reads back the numeral of any whole number, signed or not, when followed by nothing or by a character that is neither a digit nor `x`/`X` (after a lone `0`, `x` selects base 16) |
| App.ParseIntNoDigits | src/App.jsx:31-32 | text without a digit is NaN |
| App.NumeralInRangeAccepted | src/App.jsx:31-34 | typing a numeral from 10 to 300 sets and sends exactly that value |
| App.WpmControl.constructor | src/App.jsx:7 | the field starts at 80, with nothing sent |
| App.WpmControl.HandleWpmChange | src/App.jsx:22-36 | empty input blanks the field and sends nothing; a parsed value from 10 to 300 is set and sent; anything else changes nothing; the field stays blank or within 10 to 300 |
| App.WpmControl.HandleWpmBlur | src/App.jsx:38-44 | a blank or out-of-range field resets to 80, which is sent; while the field is valid this happens exactly when it is blank |
| App.SentValuesAccepted | src/App.jsx:32-34 | every value the field sends is within the 10 to 900 the main process accepts |
| App.StatusLightClass | src/App.jsx:46-57 | every state other than typing, paused and error shows the ready light |
| App.StatusLightPerNotice | src/App.jsx:46-57 | each notification lights its own class, and no two share one |
| App.InitialState | src/App.jsx:17-19 | not typing shows 'ready' whatever the pause flag; typing shows 'paused' or 'typing' |
| App.InitialStateFollowsNotices | src/App.jsx:17-19 | the initial state agrees with the main process's last notification, except that a run ended by 'error' shows as ready |
| Settings.KeysFor | src/components/Settings.jsx:27-36 | definition; properties proved in `Settings.KeysForOrder` and `Settings.UpperKeyRank` |
| Settings.Join | src/components/Settings.jsx:48 | definition of `Array.prototype.join`; properties proved in `Settings.SplitJoin`, `Settings.SplitJoinExactly` and `Settings.RecordedAcceleratorReadsBack` |
| Settings.UpperKeyRank | src/components/Settings.jsx:33-36 | an upper-cased key never reads as a modifier part |
| Settings.KeysForOrder | src/components/Settings.jsx:27-36 | the parts come in the fixed order CommandOrControl, Alt, Shift, key, each at most once; a modifier exactly when held; the key exactly when it is not a modifier key |
| Settings.SplitJoin | src/components/Settings.jsx:48 | splitting a joined accelerator gives back its parts when no part holds `+` |
| Settings.SplitJoinExactly | src/components/Settings.jsx:48 | splitting gives back the parts exactly when no part holds the separator |
| Settings.RecordedAcceleratorReadsBack | src/components/Settings.jsx:47-48 | the accelerator recorded for any key other than `+` reads back as the recorded parts |
| Settings.PlusKeyDoesNotReadBack | src/components/Settings.jsx:33-48 | the `+` key is recorded as the part `+`, and its accelerator does not read back |
| Settings.Commit | src/components/Settings.jsx:49 | the edited action gets the new accelerator, and every other action keeps its own |
| Settings.ResetMatchesMain | src/components/Settings.jsx:68-77 | the panel's defaults are exactly the six bindings the main process starts with |
| Settings.Recorder.constructor | src/components/Settings.jsx:6-8 | the recorder starts idle, editing nothing, with no keys |
| Settings.Recorder.HandleKeyDown | src/components/Settings.jsx:21-39 | while recording, the held combination replaces the recorded parts; otherwise the event is ignored |
| Settings.Recorder.HandleKeyUp | src/components/Settings.jsx:41-54 | while recording with parts held, the joined accelerator is committed to the edited entry only, and recording ends; otherwise nothing changes |
| Settings.Recorder.StartRecording | src/components/Settings.jsx:56-60 | the edited entry is chosen, recording starts, and no keys are held |
| Settings.Recorder.CancelRecording | src/components/Settings.jsx:62-66 | back to idle, with nothing handed to the main process |
| Settings.Recorder.ResetToDefaults | src/components/Settings.jsx:68-78 | the six defaults are handed over as they are |

## Left out

- Electron plumbing: window creation, menus, the dev-server probe, app lifecycle,
  `get-shortcuts` and process-wide error handlers (`src/main.js:202-284`, `src/main.js:420-422`, `src/main.js:466-496`). These are foreign API calls without decision logic.
- The clipboard, global shortcut registration and the IPC transport. The handlers take the
  clipboard text and the message values as parameters. Re-registering shortcuts after an
  update is not modelled.
- Settings file I/O and JSON parsing (`src/main.js:286-307`). `LoadSettings` takes the
  parsed `shortcuts` object, or none; `saveSettings` is not modelled.
- robotjs itself. Its calls are recorded in the trace, and the `Oracle` says which throw.
  - Engine.Host.Inject: a call that throws is taken to have no effect on screen. `Shown`
    relies on this.
  - Keyboard.Output: what a call types is given by a US layout. Other layouts are not
    modelled.
- Real time, timers and the event loop. A sleep is a recorded event, and a hotkey or
  setter is a method called between two `Advance` steps.
- Engine.Simulator.Advance: the fault that leads to 'error' is an abstract input. Every call
  inside the loop already catches its own exceptions, so the source gives no concrete way
  to raise one.
- Floating point. Delays are exact reals, and the random draw is the parameter `r`.
- Engine.Simulator.RunQuietly: it takes one random draw per character of the text, up front.
- Text outside the Basic Multilingual Plane. Dafny characters are Unicode scalar values, so
  the single UTF-16 surrogate halves that `this.text[i]` yields for such text cannot be
  represented.
- App.ParseInt: integers are exact, with no rounding above 2^53. Rounding would not change
  any accept or reject decision, because those compare with 10 and 300.
- Settings.ToUpper: only ASCII letters are upper-cased. Other characters, whose
  `toUpperCase` may change them or their length, are kept as they are.
- Platform.Adapter.SetContentProtection: the `enabled` flag is passed to the window and does
  not affect the result, so it is not a parameter.
- The sliders, the Electron window behind the status light, `GlassSurface`, and all JSX
  rendering. React's batching of state updates is also left out; the recorder and the
  field are sequential state machines.

## Findings

| source | as written | input that shows it | evidently intended | confidence | as-written member | corrected member |
|---|---|---|---|---|---|---|
| src/platform/PlatformAdapter.js:60 | `.replace('+', '')` removes only the first `+` | `CommandOrControl+Alt+V` on macOS is shown as `⌘⌥+V` | every `+` removed, giving `⌘⌥V` as the comment at src/platform/PlatformAdapter.js:50 says | not executed | Platform.MacFormatKeepsSecondPlus | Platform.MacFormatIntended |
