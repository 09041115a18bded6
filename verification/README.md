# MBCord presence core, modelled in Dafny

MBCord shows what a user is playing on an Emby or Jellyfin media server as their Discord
"Rich Presence". Every poll it lists the server's sessions, picks the one that belongs to the
configured user, turns its now-playing item into a presence payload (details, state, images,
predicted end time), and either sets that activity, clears it, or leaves it alone. A handful of
handlers keep the settings store: the server type, the configuration form, the
"Display as Status" toggle, reset and start-up.

This project models that core of `main.js` as immutable datatypes and pure functions:

- `wrappers.dfy` — `Option` (JavaScript's absent/`undefined`) and `Result` (a settled promise).
- `js.dfy` — JavaScript truthiness over a small `JsValue` type, and `Math.round(n / d)` on
  integers (`RoundDiv`), characterised as the nearest integer with halves rounded up.
- `sessions.dfy` — the session records of the `/Sessions` reply and the selector
  (`filter(...)[0]`).
- `end_time.dfy` — the predicted end timestamp and the refresh delay, from 100 ns ticks and the
  millisecond clock.
- `presence.dfy` — the four-way `Type` switch that builds the payload.
- `poll.dfy` — one poll: show, clear or leave unchanged, and what Discord then displays.
- `settings.dfy` — the settings store as a JSON object and the handlers that read and write it.

The clock (`Date.getTime()`), the `/Sessions` reply, the login result, whether a Discord client
or a refresh timer exists, and the zero-padding helper `toZero` are parameters.

## Notes on the code's behaviour

- The remaining time is rounded once, `Math.round(((RunTimeTicks - PositionTicks) / 10000) / 1000)`;
  it is not rounded to milliseconds first. `EndTime.SingleRounding` names an input (4999500 ticks)
  where rounding twice would give a different answer.
- A 7200 s movie half watched at 1000 s ends at 4600, since 3600 s remain
  (`Presence.ArrivalExample`).
- The predicted end is not monotonic across polls of steady playback: it can move one second
  earlier (`EndTime.EndCanMoveEarlier`). What holds is a drift of at most one second
  (`EndTime.EndDriftAtMostOneSecond`).
- The own-device filter compares only `DeviceName`.
- An Audio item whose `AlbumArtist` is the empty string gets the empty string as state, because
  `&&` passes the falsy value through. Only a missing artist leaves the state absent.
- With the clock on exactly half a second, the refresh delay is one second longer than the
  remaining time (`EndTime.EndsIn`).

## Model

| member | source | states |
|---|---|---|
| Js.RoundDiv | main.js:281 | `Math.round(n / d)` is the integer r with r - 1/2 <= n/d < r + 1/2 |
| Js.RoundDivUnique | main.js:281 | no other integer meets that bound, so the rounding is determined by it |
| Sessions.Filter | main.js:273-276 | the filtered list holds only qualifying sessions (user matches, not the app's own device, an item is playing) and every qualifying session of the input |
| Sessions.FilterAppend | main.js:273-276 | filtering distributes over concatenation of the session list, so qualifying sessions keep server order |
| Sessions.Select | main.js:273-276 | the selected session is in the list and qualifies; nothing is selected exactly when no session qualifies |
| Sessions.SelectIsFirstMatch | main.js:273-276 | the selected session sits at a position before which every session fails the filter |
| Sessions.FirstMatchIsSelected | main.js:273-276 | conversely, the first qualifying session is the one selected |
| Sessions.SelectIgnoresLaterSessions | main.js:273-276 | sessions listed after a qualifying one never change the selection |
| EndTime.RemainingSeconds | main.js:281 | the remaining seconds are the tick difference divided by 10^7, rounded to nearest, halves up |
| EndTime.CalcEndTimestamp | main.js:368-370 | the end timestamp is the rounded clock in seconds plus the remaining seconds; with a whole-second clock it is now + remaining |
| EndTime.EndsIn | main.js:282 | the refresh delay equals the remaining seconds, plus one when the clock is on exactly half a second |
| EndTime.EndBracket | main.js:281 | the predicted end is within one second of the exact end (clock plus remaining ticks) |
| EndTime.EndDriftAtMostOneSecond | main.js:281 | two polls of playback that advanced with the clock predict ends at most one second apart |
| EndTime.EndCanMoveEarlier | main.js:281 | a concrete pair of such polls where the predicted end moves from 11 to 10 |
| EndTime.SingleRounding | main.js:281 | 4999500 ticks rounds to 0 s, whereas rounding to ms first would give 1 s |
| Presence.MapPresence | main.js:286-334 | every payload has largeImageKey "large", instance false, the same verb in details and largeImageText; paused gives "pause"/"Paused" and no end timestamp, playing gives "play"/"Playing" and the computed end; only Audio without an artist lacks a state |
| Presence.StateNamesItem | main.js:286-334 | outside Audio the state is present and ends with the item name |
| Presence.EpisodeFormatting | main.js:288-290 | Episode details use the series name when non-empty, else "a TV Show"; the SxxEyy prefix appears exactly when season and episode are both present and non-zero |
| Presence.AudioFormatting | main.js:311-316 | Audio shows "Listening to" the name and "Listening on" the client; state is "By" a non-empty artist, absent exactly when the artist is missing |
| Presence.MovieAndOtherFormatting | main.js:299-328 | Movie shows "Watching a Movie", any unknown type "Watching Other Content", both with the name as state and "Watching on" the client |
| Presence.PauseChangesOnlyPlaybackFields | main.js:286-334 | flipping the paused flag changes only the small image fields and whether there is an end timestamp |
| Presence.ClockChangesOnlyEndTimestamp | main.js:279-296 | polls of the same session at different times differ only in the end timestamp |
| Presence.ArrivalExample | main.js:299-309 | a half-watched 7200 s movie at 1000 s ends at 4600; paused it has no end and the pause image |
| Poll.PollOnce | main.js:269-337 | a failed request or non-200 status changes nothing; a payload is shown exactly when some session qualifies, built from a qualifying session; the presence is cleared exactly when none qualifies and a client exists |
| Poll.ShowsFirstQualifyingSession | main.js:273-286 | the shown payload comes from the first qualifying session and the refresh is scheduled after its remaining time |
| Poll.ReplyDecidesDisplay | main.js:269-337 | a 200 reply polled while a client exists leaves the same display whatever was shown before |
| Poll.RefreshIgnoresDisplayOff | main.js:131-145 | as written: after display is turned off, the pending refresh (main.js:284) still sets a qualifying session |
| Poll.GatedPollSilentWhenOff | main.js:131-158 | with the gate, no refresh after display off or reset changes the presence |
| Poll.NoSessionNeverShows | main.js:335-337 | with no qualifying session nothing is set: the presence is cleared if a client exists, else kept |
| Settings.DisplayOffRefusesConnect | main.js:131-145 | once display is turned off, the `connectRPC` guard (main.js:237) refuses, so the reconnect from the `close` handler does nothing |
| Settings.ThemeChangeKeepsGuard | main.js:62-71 | a server type change never opens or closes the `connectRPC` guard |
| Settings.SavedFormConnects | main.js:192-195 | after a successful save the `connectRPC` guard passes, with the stored server type |
| Settings.ThemeChange | main.js:62-71 | only "emby" or "jellyfin" is ever written as server type; any other message leaves the store unchanged; no other key changes |
| Settings.ThemeChangeKeepsKnownServerType | main.js:62-71 | a known server type stays known |
| Settings.ToggleDisplay | main.js:131-145 | the display flag's truthiness flips and nothing else changes; turning off clears the presence and stops the 15 s interval (not a pending refresh timeout); turning on issues a single connection attempt, exactly when configured |
| Settings.ToggleTwice | main.js:131-145 | toggling twice restores the flag as a boolean |
| Settings.EmptyFields | main.js:179-181 | a key is reported exactly when some entry with that key has a falsy value |
| Settings.EmptyFieldsAppend | main.js:179-181 | the report distributes over concatenation of entries, so it keeps entry order |
| Settings.EmptyFieldsNoneIffAllTruthy | main.js:179-183 | nothing is reported exactly when every value is truthy |
| Settings.ObjectOf | main.js:192 | the spread object has exactly the entries' keys and the last value given for each |
| Settings.SaveForm | main.js:192 | the form fields are stored, both flags become true, and no other key changes |
| Settings.ConfigSave | main.js:178-199 | the save is rejected with the empty fields exactly when some field is falsy; a failed login stores nothing; a successful one stores the form and starts the Discord connection |
| Settings.ValidationPrecedesLogin | main.js:183-190 | an incomplete form is rejected whatever the login would have returned |
| Settings.Reset | main.js:151-158 | reset marks the app unconfigured, forgets the token, stops the 15 s interval and clears the presence when they exist, and the connection guard then refuses |
| Settings.Startup | main.js:51-59 | a configured install writes doDisplayStatus true only when it is missing (otherwise the store is untouched) and connects with the stored server type unless display is off, in which case it issues no effect, and never changes the server type; an unconfigured one writes "emby" exactly when the server type is falsy and does not connect |

## Findings

| source | as written | input that shows it | evidently intended | confidence | as-written member | corrected member |
|---|---|---|---|---|---|---|
| main.js:131-145, 284 | turning display off (or `resetApp`, 151-158) clears only the 15 s interval; the `setTimeout(setPresence, endsIn * 1000)` of the last poll stays pending, and `setPresence` never reads `doDisplayStatus`, so the presence is set again when it fires and the refresh chain continues | display on, a paused qualifying session (it keeps qualifying, and its remaining time is still scheduled at main.js:281-284); toggle display off; when the timeout fires `setActivity` runs for that session | no presence is set while display is off or the app is unconfigured | medium, not executed | Poll.RefreshIgnoresDisplayOff | Poll.GatedPoll |

## Left out

- HTTP: `getToken`, the device-icon registration, the `/Sessions` request and `checkUpdates` are network I/O; the reply of `/Sessions` and the settled login are parameters, and a transport error or non-200 status is the `RequestError`/status case of `Poll.Response`.
- The token refresh inside `setPresence` (main.js:261) is not modelled; a missing token shows up only as a failed `/Sessions` reply.
- Discord RPC: client creation, login, the `close` handler and the reconnect `setTimeout`, the `setInterval` poll timer and the `setTimeout` refresh are timer and callback concurrency against a foreign library; the model records them as `Settings.Effect` values and the refresh delay of `Poll.Action`.
- Electron: windows, tray, menus, dialogs, `loadPage`, `moveToTray`, the single-instance lock and dock handling are UI side effects.
- JsonDB, the logger and the start-up handler are not part of this model; the store is taken to merge written keys into its object.
- `toZero` (utils/utils.js) is not part of this model; it is a parameter, and no claim is made about its padding.
- Floating point: `now / 1000` and the tick divisions are exact rationals; ticks and the clock are integers, and a missing `RunTimeTicks` or `PlayState.PositionTicks` (either gives a NaN end time and an immediate refresh in the JavaScript) is not modelled.
- Discord's side of `setActivity`/`clearActivity` is assumed, not modelled from code: `Poll.Apply` takes a set to replace the shown activity and a clear to remove it.
- `toggleDisplay` calls `rpc.clearActivity()` without checking that a client exists; the model records the effect and does not model the exception a missing client would raise.
