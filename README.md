# Study Buddy: decision and storage rules, modelled in Dafny

Study Buddy is a browser extension with a small hardware side. The popup
keeps a three-entry allow-list of websites and shows the minutes left on the
study/break timer. The settings page validates and stores the study and break
durations. The background script warns when a finished page load is outside
the allow-list. An ultrasonic sensor decides whether the phone is in its
holder. A Flask bridge forwards "on task / off task" states to an Arduino
over a serial port.

This project models those rules and proves what they promise:

| file | module | models |
|---|---|---|
| `wrappers.dfy` | `Wrappers` | `Option`, standing for `undefined`, `None` and caught exceptions |
| `text.dfy` | `Text` | substring containment (`includes`, Python `in`), `startsWith`, JavaScript `trim`, decimal numerals |
| `chrome.dfy` | `Chrome` | stored values and their JavaScript truthiness; `chrome.storage.local` as a class over a `map`; runtime requests |
| `popup.dfy` | `Popup` | `extension/pages/popup.js`: the inputs, saving, loading, clear, reset, the timer read-out, the start request |
| `settings.dfy` | `Settings` | `extension/pages/settings.js`: validation, submit, presets, reset |
| `background.dfy` | `Background` | `extension/background.js`: `isUrlAllowed` and the `tabs.onUpdated` warning |
| `ultrasonic.dfy` | `Ultrasonic` | `StudyBuddyHardware/ultrasonic.h`: the raw reading, the median filter, `phoneIn` |
| `bridge.dfy` | `Bridge` | `bridge.py`: port selection, newline framing, `/status` with CORS headers |
| `extension_bridge.dfy` | `ExtensionBridge` | `extension/bridge.py`: the two-state `/status` |

Modelling choices:

- The pages' state is imperative, so it is modelled with classes.
  - `Popup.Page` holds the three inputs as an `array` (`None` for a missing element), the status line and the two timer texts.
  - `Settings.Page` holds both inputs and the message line.
  - `Chrome.LocalStore` is the storage. Its `Set` merges a map into it and its `Remove` deletes keys.
  - A storage callback is modelled as running right after the change it follows.
- Requests sent with `chrome.runtime.sendMessage` are returned as `Chrome.Action` values. Replies are method parameters.
- The current time (`Date.now()`) is a parameter.
- URL parsing (`new URL(u).hostname`) is a parameter of type `string -> Option<string>`. `None` means the constructor threw. Every result about `isUrlAllowed` holds for any such parser.
- JavaScript numbers are exact reals.
- A settings input is represented by what `Number()` gives for its text: `Finite(x)` or `NonFinite` (NaN or an infinity). An emptied input is `Finite(0.0)`, since `Number('')` is 0.
- The sensor's three pulse durations are inputs. Readings are exact reals.
- The serial port is a `Bridge.SerialLink` that records everything written to it.
- `find_arduino_port` and `send_to_arduino` are identical in the two bridge scripts. They are defined once, in `Bridge`, and `ExtensionBridge` reuses them.

What the modelled files do, and do not do:

- None of the modelled files holds a study/break state machine or deadline recovery. The pages only send `startTimer`, `resetTimer` and `updateSettings` requests to a handler outside this model.
- `background.js` reads no break flag, so it warns during breaks too. It keeps no per-tab state, so there is no debounce: every qualifying load warns again.
- An allow-list entry without a scheme, such as `example.com`, makes `new URL` throw. It therefore never matches, and in particular it does not allow `sub.example.com`.
- The extension's copy of the bridge rejects `break_time` with 400.

## Model

| member | source | states |
|---|---|---|
| `Popup.ReadInputs` | extension/pages/popup.js:52-54 | one string per input: a present input gives its trimmed text, a missing one `""`; every value is trimmed and empties are kept |
| `Popup.NonEmptySpec` | extension/pages/popup.js:65 | the filter keeps every non-empty value as often as it occurs, drops every `""`, and keeps the original order |
| `Popup.NonEmptyCounts` | extension/pages/popup.js:65 | each non-empty value is kept as often as it occurs and every `""` is dropped |
| `Popup.NonEmptyKeepsOrder` | extension/pages/popup.js:65 | the kept values appear in the order the inputs hold them |
| `Popup.NonEmpty` | extension/pages/popup.js:65 | no kept value is empty |
| `Popup.SavedListShape` | extension/pages/popup.js:63-66 | a saved allow-list holds only non-empty, trimmed entries |
| `Popup.Page.SaveAllowed` | extension/pages/popup.js:63-74 | storage afterwards is the old storage with `allowedWebsites` set to the filtered inputs, and the status reads "Saved!" |
| `Popup.Loaded` | extension/pages/popup.js:93-96 | input `i` of the three shows `urls[i]`, or `""` when the list is shorter |
| `Popup.Page.LoadSaved` | extension/pages/popup.js:91-98 | each present input receives its slot of the stored list (or the empty list when the key is missing); missing inputs stay missing |
| `Popup.Slot` | extension/pages/popup.js:94-96 | `urls[i] \|\| ''` is the entry at `i`, and `""` past the end of the list |
| `Popup.LoadThenSave` | extension/pages/popup.js:93-96 | loading a saved list and saving again stores its first three entries unchanged; entries beyond the third are lost |
| `Popup.LoadedReadsBack` | extension/pages/popup.js:93-96 | the values loaded from a saved list read back, after trimming, exactly as they were shown |
| `Popup.NonEmptyOfLoaded` | extension/pages/popup.js:93-96 | filtering the three shown values drops exactly the blank slots and leaves the first three saved entries |
| `Popup.ReadTrimmedInputs` | extension/pages/popup.js:54 | inputs that already hold trimmed text read back unchanged |
| `Popup.AfterClear` | extension/pages/popup.js:124 | clear removes `allowedWebsites` and leaves every other key as it was |
| `Popup.Page.Clear` | extension/pages/popup.js:123-128 | storage loses only `allowedWebsites`, every present input is emptied, the status reads "Cleared!" |
| `Popup.ClearThenLoad` | extension/pages/popup.js:93-96 | after a clear the popup loads three empty inputs |
| `Popup.AfterReset` | extension/pages/popup.js:193 | reset removes `timerEndTime` and `isBreak` and leaves every other key as it was |
| `Popup.Page.ResetTimer` | extension/pages/popup.js:192-195 | storage loses exactly those two keys and a `resetTimer` request is sent |
| `Popup.Page.OnResetReply` | extension/pages/popup.js:195-201 | a successful reply shows "Timer reset!" and refreshes the read-out; any other reply changes nothing |
| `Popup.ResetShowsNoTimer` | extension/pages/popup.js:193 | after a reset the read-out is "No Timer"/"Timer Not Started", a start would be requested, and the allow-list is untouched |
| `Popup.TimeLeft` | extension/pages/popup.js:156-157 | the minutes left are never negative; they are 0 exactly when the end time has been reached; otherwise they are the end time's distance rounded up to whole minutes |
| `Popup.TimeLeftPositiveBeforeEnd` | extension/pages/popup.js:157 | while the end time is in the future at least one minute is shown |
| `Popup.TimeLeftNonIncreasing` | extension/pages/popup.js:157 | for a fixed end time the minutes left never increase as time passes |
| `Popup.Ceil` | extension/pages/popup.js:157 | `Math.ceil`: the least integer at or above its argument |
| `Popup.Pad2` | extension/pages/popup.js:167 | `padStart(2, '0')` gives two digits that read back as the minutes |
| `Popup.Countdown` | extension/pages/popup.js:161-167 | "Time Up!" exactly at zero minutes; below an hour a numeral followed by `m`; from one hour on a numeral, `:` and two digits |
| `Popup.CountdownRoundTrip` | extension/pages/popup.js:161-167 | the read-out text ("Time Up!", `H:MM` or `Mm`) reads back as the minutes left, that is `hours * 60 + minutes` |
| `Popup.ParseCountdownCanonical` | extension/pages/popup.js:161-167 | every text that reads back as some minutes is the read-out for them: `Mm` only for 1 to 59 minutes, `H:MM` only from one hour on, with the minutes as two digits below 60 and no leading zero in the hours |
| `Popup.MinutesTextCanonical` | extension/pages/popup.js:165-167 | an `Mm` text that reads back is the read-out for its minutes |
| `Popup.HoursTextCanonical` | extension/pages/popup.js:165-167 | an `H:MM` text that reads back is the read-out for its minutes |
| `Popup.HoursReadoutRoundTrip` | extension/pages/popup.js:165-167 | an `H:MM` read-out, with minutes padded to two digits, reads back as `hours * 60 + minutes` |
| `Popup.MinutesReadoutRoundTrip` | extension/pages/popup.js:165-167 | an `Mm` read-out below one hour reads back as its minutes |
| `Popup.CountdownInjective` | extension/pages/popup.js:161-167 | different minute counts never show the same text |
| `Popup.PeriodLabel` | extension/pages/popup.js:163-168 | "Break Period" exactly when `isBreak` is truthy, "Study Period" otherwise |
| `Popup.EndTimeNumber` | extension/pages/popup.js:157 | the number `endTime - now` uses: a number as itself, `null` and booleans as 0 or 1 by truthiness, strings and lists as NaN (see "Left out") |
| `Popup.TimerReadout` | extension/pages/popup.js:146-169 | with no truthy `timerEndTime` both "No Timer" texts; otherwise the period label follows `isBreak` |
| `Popup.NoTimerIff` | extension/pages/popup.js:146-153 | "No Timer"/"Timer Not Started" is shown exactly when `timerEndTime` is missing or falsy |
| `Popup.ReadoutOfNumericEnd` | extension/pages/popup.js:156-169 | with a numeric end time, "Time Up!" is shown exactly when it has been reached; before that the text reads back as the minutes left (at least one); the period follows `isBreak` |
| `Popup.Page.UpdateTimerDisplay` | extension/pages/popup.js:143-170 | the two timer texts become the read-out for the stored end time, the stored break flag and the current time |
| `Popup.StartRequest` | extension/pages/popup.js:211-214 | the only request it can make is `startTimer` |
| `Popup.StartRequestIffNoTimer` | extension/pages/popup.js:211-212 | a start is requested exactly when the read-out says "No Timer" |
| `Popup.Page.StartIfAbsent` | extension/pages/popup.js:211-214 | `startTimer` is requested exactly when `timerEndTime` is missing or falsy, and nothing otherwise |
| `Popup.Page.OnStartReply` | extension/pages/popup.js:214-218 | a successful reply to `startTimer` refreshes the read-out; any other reply changes nothing |
| `Chrome.AllowedWebsites` | extension/background.js:6 | `data.allowedWebsites \|\| []`: the stored list, and the empty list when the key is missing |
| `Text.NatToString` | extension/pages/popup.js:167 | a count renders as a non-empty numeral of digits without leading zeros, one digit exactly below ten |
| `Text.TrimOfTrimmed` | extension/pages/popup.js:54 | text with no white space at either end is left as it is by `trim` |
| `Text.Trim` | extension/pages/popup.js:54 | `trim` leaves no leading or trailing ECMAScript white space or line terminator |
| `Text.TrimSpec` | extension/pages/popup.js:54 | the result is a slice of the input with only white space cut off either side |
| `Text.TrimIdempotent` | extension/pages/popup.js:54 | trimming twice is trimming once |
| `Text.ParseNatToString` | extension/pages/popup.js:167 | a rendered minute or hour count reads back as itself |
| `Text.Contains` | extension/background.js:12 | `includes` holds exactly when the substring occurs at some index |
| `Settings.Validate` | extension/pages/settings.js:44-66 | validation succeeds exactly when study is finite and positive, break is finite and not negative, and break is at most half of study |
| `Settings.FirstFailureDecides` | extension/pages/settings.js:48-61 | the study check is reported first whatever the break is, then the break check, then the 50% limit |
| `Settings.HalfIsTheLimit` | extension/pages/settings.js:58 | a break of exactly half the study time (10 and 5) is accepted; anything above (10 and 6) is rejected by the 50% check |
| `Settings.MessageFor` | extension/pages/settings.js:48-64 | every failure shows a non-empty error text, success shows an empty, non-error message |
| `Settings.Page.ValidateValues` | extension/pages/settings.js:44-66 | returns whether the inputs pass and shows the message of the first failing check |
| `Settings.SaveIfValid` | extension/pages/settings.js:77-87 | if validation passes, both numbers are stored, the stored pair is acceptable, and other keys are unchanged; otherwise storage is unchanged |
| `Settings.SaveKeepsSettingsAcceptable` | extension/pages/settings.js:77-87 | once stored settings are acceptable, no submit or preset can make them unacceptable |
| `Settings.SaveStoredIsIdempotent` | extension/pages/settings.js:87 | submitting the stored pair again leaves storage as it is |
| `Settings.Page.Submit` | extension/pages/settings.js:73-99 | storage follows the save-if-valid rule; `updateSettings` is sent and "Settings saved." shown exactly when validation passed; otherwise the error stays |
| `Settings.AfterReset` | extension/pages/settings.js:104 | reset removes exactly `studyMinutes` and `breakMinutes` |
| `Settings.Page.Reset` | extension/pages/settings.js:102-108 | storage loses exactly the two keys, both inputs are emptied, "Settings reset." is shown |
| `Settings.PresetNum` | extension/pages/settings.js:116-117 | a preset value is finite exactly when `parseInt` found a number, and then it is that integer |
| `Settings.PresetMessage` | extension/pages/settings.js:128 | the confirmation starts with "Preset applied: " and ends with "min break" |
| `Settings.PresetMessageDeterminesPreset` | extension/pages/settings.js:128 | the confirmation names the preset: two presets with the same text have the same study and break minutes |
| `Settings.Page.ApplyPreset` | extension/pages/settings.js:115-137 | the inputs take the preset; storage follows the same save-if-valid rule; on success the confirmation names the two whole numbers |
| `Background.AnyEntryMatches` | extension/background.js:8-16 | `some` holds exactly when some entry matches |
| `Background.EntryMatches` | extension/background.js:9-15 | a match needs both hostnames to parse, the entry's no longer than the URL's; an entry with the URL's own hostname always matches |
| `Background.IsUrlAllowed` | extension/background.js:4-17 | a URL is allowed exactly when some entry of the stored list matches it |
| `Background.AllowedIff` | extension/background.js:4-16 | a URL is allowed exactly when it parses and some stored entry parses to a hostname contained in the URL's hostname |
| `Background.EmptyListAllowsNothing` | extension/background.js:6-8 | a missing or empty allow-list allows no URL |
| `Background.UnparsableUrlNeverAllowed` | extension/background.js:9-15 | a URL that does not parse is allowed by no list |
| `Background.UnparsableEntryIsInert` | extension/background.js:9-15 | an entry that does not parse (such as `example.com` without a scheme) changes no decision wherever it sits in the list |
| `Background.EmptyHostnameAllowsAll` | extension/background.js:12 | an entry whose hostname is empty allows every URL that parses |
| `Background.LooseContainment` | extension/background.js:12 | the entry `https://example.com` allows both `sub.example.com` and `notexample.com` |
| `Background.IsWebUrl` | extension/background.js:22 | the test holds exactly when the URL starts with `http`: the `https` test adds nothing |
| `Background.ShouldWarn` | extension/background.js:21-24 | the guard holds exactly when the load is complete, the URL is present and starts with `http`, and it is not allowed (the empty-URL test is covered by the prefix test) |
| `Background.OnTabUpdated` | extension/background.js:20-33 | at most one notification, always the warning, created exactly when the load is complete, the URL starts with `http`, and it is not allowed |
| `Background.OnTabUpdatesAppend` | extension/background.js:20-33 | the listener keeps no history: a run of events warns as its parts do |
| `Background.RepeatedEventsWarnEachTime` | extension/background.js:20-33 | the same qualifying event for one tab, delivered n times, creates n warnings (no debounce) |
| `Background.OnlyTheAllowListMatters` | extension/background.js:20-26 | the decision reads nothing from storage but the allow-list, so no break flag affects it |
| `Ultrasonic.ReadRawCM` | StudyBuddyHardware/ultrasonic.h:20-22 | a timed-out echo reads 999; any echo within the timeout reads positive and below 999 |
| `Ultrasonic.Median3` | StudyBuddyHardware/ultrasonic.h:30 | the filter's result is one of the three readings, with at least two readings at or below it and at least two at or above it |
| `Ultrasonic.MedianIsUnique` | StudyBuddyHardware/ultrasonic.h:30 | any value with those properties is the filter's result |
| `Ultrasonic.Median3Symmetric` | StudyBuddyHardware/ultrasonic.h:27-30 | all six orders of the three readings give the same result |
| `Ultrasonic.MedianMajority` | StudyBuddyHardware/ultrasonic.h:30 | the filtered reading reaches a threshold exactly when at least two readings do |
| `Ultrasonic.Sensor.constructor` | StudyBuddyHardware/ultrasonic.h:35-36 | pins and threshold are set once; the threshold is 1.0 unless given |
| `Ultrasonic.Sensor.FilteredDistance` | StudyBuddyHardware/ultrasonic.h:26-32 | the median of the three raw readings |
| `Ultrasonic.Sensor.DistanceCM` | StudyBuddyHardware/ultrasonic.h:50-52 | the median of the three raw readings: one of them, with at least two readings at or below it and two at or above it (the value `filteredDistance` returns) |
| `Ultrasonic.Sensor.PhoneIn` | StudyBuddyHardware/ultrasonic.h:44-47 | the inverted test: true exactly when at least two readings are at or beyond the threshold |
| `Ultrasonic.Sensor.MissedEchoesReadAsPhoneIn` | StudyBuddyHardware/ultrasonic.h:21 | two timed-out echoes make `phoneIn` true whenever the threshold is at most 999 |
| `Bridge.FindArduinoPort` | bridge.py:11-18 | the device of the first port whose description names "Arduino", "CH340" or "USB Serial"; else the first port's device; `None` exactly when there is no port |
| `Bridge.LooksLikeArduino` | bridge.py:14 | a port qualifies exactly when its description contains one of "Arduino", "CH340", "USB Serial", so only descriptions of five characters or more do |
| `Bridge.Frame` | bridge.py:35 | a command is written as its text followed by one newline |
| `Bridge.FirstNewline` | bridge.py:36 | where a line reader such as `ser.readline()` cuts the stream: at the first newline |
| `Bridge.LinesOfFrame` | bridge.py:35 | a reader takes one framed command off the front of the stream |
| `Bridge.FramingRoundTrip` | bridge.py:34-35 | splitting the stream at newlines gives back exactly the commands written, in order, when none holds a newline |
| `Bridge.ForwardedStatesFrameCleanly` | bridge.py:45-46 | every accepted state arrives as its own line |
| `Bridge.AcceptedStateIsOneLine` | bridge.py:45 | no accepted state contains a newline |
| `Bridge.SendToArduino` | bridge.py:34-35 | the serial stream grows by exactly the command's frame |
| `Bridge.StatusOutcome` | bridge.py:44-49 | 200 exactly for `on_task`, `off_task` and `break_time`, and then the state is forwarded; 400 with nothing forwarded for any other or missing state |
| `Bridge.BodyFor` | bridge.py:47-49 | the body is "OK" exactly for code 200 |
| `Bridge.Status` | bridge.py:42-55 | the response code and body follow that decision, both branches carry the three CORS headers, and the serial stream grows by the frame exactly when the state is forwarded |
| `ExtensionBridge.StatusOutcome` | extension/bridge.py:44-49 | 200 exactly for `on_task` and `off_task`, and then the state is forwarded; 400 with nothing forwarded otherwise, `break_time` included |
| `ExtensionBridge.CopiesDifferOnlyOnBreakTime` | extension/bridge.py:45 | the two bridge copies decide alike on every state except `break_time`, and this copy accepts nothing the other rejects |
| `ExtensionBridge.Status` | extension/bridge.py:42-49 | code and body follow this copy's decision, no headers are added, and the serial stream grows by the frame exactly when the state is forwarded |

## Left out

- DOM lookup, the fallback creation of the timer elements, listener wiring and the unload handler in both pages: UI glue. The read-out assumes both timer elements exist.
- The timers: the 350 ms save debounce in `scheduleSave`, the 50 ms paste delay, the 1100/1600 ms status clearing and the one-second read-out refresh. These are wall-clock scheduling.
- The `startTimer`, `resetTimer` and `updateSettings` handlers. They live in a background script that is not part of this model, so the requests are only emitted.
- The settings page's loading of stored values into its inputs (settings.js:31-35). This is form filling outside the validation and save rules.
- Conversion of input text by `Number()` and of preset attributes by `parseInt`. Their results are the inputs of the model.
- Popup.EndTimeNumber: every `timerEndTime` that is a non-empty string or a list is read as NaN (display `NaNm`). JavaScript coerces it with `Number` instead: an empty list and an all-space string give 0 (display "Time Up!"), a numeral string gives its number, a one-element list gives the number of its element, and only other strings and lists give NaN.
- Chrome.AllowedWebsites: a stored `allowedWebsites` that is neither missing nor a list of strings is read as the empty list.
- Stored values are limited to null, booleans, numbers, strings and string lists. Objects and NaN stored by other code are not modelled.
- `new URL(...).hostname` is a parameter. The real WHATWG URL parser is not modelled.
- Floating point throughout. Numbers in the pages, the sensor distance `duration * 0.0343 / 2` and the 50% comparison are exact reals, so rounding is not modelled.
- IEEE_Embedded_Workshop/Smile.h and StudyBuddyHardware/Sad.h. They are drawing calls on a display.
- Pin setup (`begin`), the trigger pulse, `pulseIn` and the delays in ultrasonic.h. These are hardware I/O; the pulse durations are inputs.
- Listing serial ports, opening the port, reading and printing the Arduino's reply line, the Flask routing, and the start-up exit when no port is found, in both bridge scripts. These are I/O. The `.encode()` of the frame is modelled as the characters themselves; the states written are ASCII.
- Bridge.Status, ExtensionBridge.Status: the serial link never fails. In the scripts, a failing `ser.write` or a reply that does not decode (bridge.py:35-36) raises inside `status`, and Flask answers 500 without the CORS headers; the contracts promise 200 for every accepted state.
- Concurrency: every callback is modelled as running to completion in order.
