# Veelo — a verified model of the video trimmer's core

Veelo is a desktop video trimmer. A user drops a video or opens it from a
`veelo://file?path=…` deep link. They pick a trim range with a two-thumb
slider and press "Cut". The host process then transcodes the range into a
numbered `… - chopped` file in the Downloads folder, streaming progress back
to the window. The window restores the last video and range when the app
starts again.

This project models that core in Dafny, one module per source file (`index.js` has two):

| module | source | flavour |
|---|---|---|
| `TimeFormat` | `src/renderer/lib/utils.ts` | functions: `formatTime`, `parseTime` |
| `RangeSlider` | `src/renderer/components/MultiRangeSlider.tsx` | functions for the mapping and clamping; class `Slider` for the drag flags, focus and value pair |
| `Timeline` | `src/renderer/components/TimelineControls.tsx` | functions for progress and seek targets; methods acting on the player |
| `Player` | `src/renderer/components/VideoPlayer.tsx` | class `Player`: the media element and its event handlers |
| `DropZone` | `src/renderer/components/VideoDropZone.tsx` | functions for acceptance; class for the drag highlight |
| `Session` | `src/renderer/App.tsx` | functions for status, restore, save and shortcut rules; class `AppSession` for the React state and refs |
| `Host` | `src/main/main.ts` | functions for link resolution and loading state; class `HostProcess` for the window, pending slot and state file |
| `CutService` | `src/main/services/ffmpeg-service.ts` | functions for output naming and callbacks; method `CutVideo` |
| `LegacyCut` | `index.js` | the older host's cut and its split-based naming |
| `LegacyHost` | `index.js` | functions: the older host's messages set beside the newer host's for the same engine event |
| `LegacyPlayer` | `video-player.js` | the older Vue player: its self-calling `setCurrentTime` |
| `Types`, `Strings`, `Wrappers` | `src/shared/types.ts`, `src/preload/index.ts` | shared records and channel messages; JavaScript string primitives; `Option`/`Result` |

**How the model represents time.** Times are exact `real`s. `Math.round(x)`
is `floor(x + 0.5)`. JavaScript's `%` is the truncated remainder.

**How it represents the outside world.**
- Events such as IPC callbacks, media-element events, timers and key
  presses are methods that the caller invokes at the moment the event
  happens.
- Foreign calls are parameters:
  - URL parsing and `fs.existsSync` for deep links;
  - `encodeURIComponent`;
  - the Downloads listing (`readdirSync`, or `None` for a missing folder);
  - whether `video.play()` is allowed;
  - whether a state-file write succeeds.
- What the host sends to the window is appended to a sequence of effects.
- What the renderer sends to the host is appended to an outbox.

## Model

| member | source | states |
|---|---|---|
| TimeFormat.FormatTime | src/renderer/lib/utils.ts:8-16 | `formatTime`: hours, minutes and seconds, each `toString` padded to two with `0`, joined by `:`. The lemmas below state its shape, ranges and round trip. |
| TimeFormat.FieldHasNoColon | src/renderer/lib/utils.ts:14 | A padded field is at least two characters long and never contains `:`. |
| TimeFormat.FormatTimeShape | src/renderer/lib/utils.ts:8-16 | Every formatted time splits on `:` into exactly three fields, each at least two characters. |
| TimeFormat.JsRemNonNegative | src/renderer/lib/utils.ts:10-11 | For a non-negative time, `%` by 60 or 3600 is the Euclidean remainder and lies in [0, divisor). |
| TimeFormat.FormatTimeRanges | src/renderer/lib/utils.ts:9-11 | For a non-negative time, hours are ≥ 0 and minutes and seconds lie in [0, 59]. |
| TimeFormat.FormatTimeTruncates | src/renderer/lib/utils.ts:9-11 | Fractions are dropped: a non-negative time prints the same as its whole seconds. |
| TimeFormat.FormatTimeHoursUncapped | src/renderer/lib/utils.ts:9-14 | From 100 hours on, the hour field is the full decimal hour count, three or more digits; padding never truncates. |
| TimeFormat.NumberOfPadded | src/renderer/lib/utils.ts:19 | `Number` of a padded field gives back the field's value. |
| TimeFormat.ParseTime | src/renderer/lib/utils.ts:18-25 | `parseTime`: `Number` of each `:`-field. Three numeric fields give h·3600 + m·60 + s, a non-numeric field gives NaN, and any other field count gives 0. `ParseTimeOfFields` and `ParseTimeNotThreeFields` state this. |
| TimeFormat.ParseTimeOfFields | src/renderer/lib/utils.ts:18-23 | Three digit fields parse to h·3600 + m·60 + s. |
| TimeFormat.ParseTimeNotThreeFields | src/renderer/lib/utils.ts:19-24 | A string that does not split into exactly three fields parses to 0. |
| TimeFormat.WholeSecondsSplit | src/renderer/lib/utils.ts:9-11 | The hours, minutes and seconds of a whole number of seconds add back up to it. |
| TimeFormat.ParseFormatRoundTrip | src/renderer/lib/utils.ts:8-25 | Parsing the printed form of a whole number of seconds returns that number. |
| Strings.IndexOf | src/main/services/ffmpeg-service.ts:19 | The result is the first index where the substring occurs, or −1 exactly when it occurs nowhere. |
| Strings.Split | src/renderer/lib/utils.ts:19 | There is at least one piece; joining the pieces gives back the string; no piece holds the separator. |
| Strings.SplitOfJoin | src/renderer/lib/utils.ts:13-19 | Splitting undoes joining when no part holds the separator. |
| Strings.SplitAroundLast | index.js:54-57 | The last piece of a split is what follows the last separator, and the pieces before it join to what precedes that separator. |
| Strings.NatToString | src/renderer/lib/utils.ts:14 | `toString` of a natural number is a digit string of that value: one digit below 10, three or more from 100. |
| Strings.PadStart | src/renderer/lib/utils.ts:14 | The result has at least the width, ends with the input, and is fill characters before it. |
| Strings.PaddedValue | src/renderer/lib/utils.ts:14 | Zero padding keeps a digit string's value. |
| Strings.LowerAscii | src/renderer/components/VideoDropZone.tsx:42 | Case-insensitive matching: each character is lowered, ASCII letters only. |
| RangeSlider.Round | src/renderer/components/MultiRangeSlider.tsx:49 | `Math.round` lands within half a unit: x − 0.5 < r ≤ x + 0.5. |
| RangeSlider.GetPercent | src/renderer/components/MultiRangeSlider.tsx:34-37 | A value on the track maps into [0, 100], with `min` at 0 and `max` at 100. |
| RangeSlider.PointerPercent | src/renderer/components/MultiRangeSlider.tsx:45 | The pointer position is clamped into [0, 100] percent. |
| RangeSlider.PointerValueOnTrack | src/renderer/components/MultiRangeSlider.tsx:45-46 | Before snapping, the value under the pointer lies in [min, max]. |
| RangeSlider.PercentOfPointerValue | src/renderer/components/MultiRangeSlider.tsx:34-46 | `getPercent` inverts the pointer-to-value mapping. |
| RangeSlider.ValueFromPointer | src/renderer/components/MultiRangeSlider.tsx:40-50 | `getValueFromMouseEvent`: `min` without a track, otherwise the clamped pointer position mapped onto [min, max] and snapped. |
| RangeSlider.Snap | src/renderer/components/MultiRangeSlider.tsx:48-49 | `Math.round(value / step) * step`, the nearest step multiple (`SnapWithinHalfStep`, `SnapIsNearest`). |
| RangeSlider.SnapWithinHalfStep | src/renderer/components/MultiRangeSlider.tsx:49 | Snapping moves a value by at most half a step. |
| RangeSlider.SnapIsNearest | src/renderer/components/MultiRangeSlider.tsx:48-49 | The snapped value is a multiple of the step at least as near as every other multiple. |
| RangeSlider.DragStart | src/renderer/components/MultiRangeSlider.tsx:77-79 | A start drag never moves the end thumb. |
| RangeSlider.DragEnd | src/renderer/components/MultiRangeSlider.tsx:80-82 | An end drag never moves the start thumb. |
| RangeSlider.DragStartKeepsRange | src/renderer/components/MultiRangeSlider.tsx:77-79 | A start drag keeps `min ≤ start`, `start + step ≤ end ≤ max`. It follows the pointer between the bounds and stops at `min` and at `end − step`. |
| RangeSlider.DragEndKeepsRange | src/renderer/components/MultiRangeSlider.tsx:80-82 | The mirror image for the end thumb, stopping at `start + step` and `max`. |
| RangeSlider.ClickAsWritten | src/renderer/components/MultiRangeSlider.tsx:55-68 | `handleTrackClick` as written: the strictly closer thumb moves to the value, capped only against the other thumb; a tie moves the end thumb. |
| RangeSlider.Click | src/renderer/components/MultiRangeSlider.tsx:55-68 | The corrected click: the same choice of thumb, clamped as a drag is (`DragStart`, `DragEnd`). |
| RangeSlider.ClickAsWrittenKeepsGap | src/renderer/components/MultiRangeSlider.tsx:55-68 | The click as written keeps the minimum gap, and keeps the range valid when the clicked value is on the track. |
| RangeSlider.ClickAsWrittenLeavesTrack | src/renderer/components/MultiRangeSlider.tsx:40-68 | A counterexample: with max 10.05 and step 0.1, a click at the right edge puts the end thumb at 10.1, past `max`. |
| RangeSlider.ClickKeepsRange | src/renderer/components/MultiRangeSlider.tsx:55-68 | The corrected click keeps the range valid for every value. It moves only the strictly closer thumb, the end thumb on a tie, and equals the written click whenever the value is on the track. |
| RangeSlider.KeyMove | src/renderer/components/MultiRangeSlider.tsx:104-155 | `handleKeyDown` for the focused thumb. Arrows move by a step and PageUp/PageDown by ten, clamped as the source clamps them. Home and End jump to `min` and `max`. Any other key is `None`, so the default action is left alone. |
| RangeSlider.KeyMoveKeepsRange | src/renderer/components/MultiRangeSlider.tsx:104-155 | Each handled key keeps the range valid and moves only the focused thumb. Arrows move it by at most one step, and page keys by at most ten, exactly so when there is room. Home and End go to the track's ends. A key is unhandled exactly when it does not apply to that thumb. |
| RangeSlider.Slider.constructor | src/renderer/components/MultiRangeSlider.tsx:16-31 | The slider starts with the given bounds, step and value pair, no drag and no focus. |
| RangeSlider.Slider.SetRange | src/renderer/components/MultiRangeSlider.tsx:19-20 | New `startValue`/`endValue` props replace the value pair. |
| RangeSlider.Slider.MouseDown | src/renderer/components/MultiRangeSlider.tsx:187-221 | A mouse-down on a thumb sets that thumb's drag flag. |
| RangeSlider.Slider.MouseUp | src/renderer/components/MultiRangeSlider.tsx:86-89 | A mouse-up clears both drag flags. |
| RangeSlider.Slider.MouseMove | src/renderer/components/MultiRangeSlider.tsx:72-84 | A move drags the start thumb if its flag is set, else the end thumb, and keeps the range invariant. |
| RangeSlider.Slider.TrackClick | src/renderer/components/MultiRangeSlider.tsx:55-68 | A click during a drag does nothing. Otherwise the click applies as written: the minimum gap is always kept, and the range stays valid when the clicked value lies on the track. |
| RangeSlider.Slider.SetFocus | src/renderer/components/MultiRangeSlider.tsx:107-111 | Focus moves to a thumb or away from both. |
| RangeSlider.Slider.KeyDown | src/renderer/components/MultiRangeSlider.tsx:104-155 | A key is handled exactly when a thumb has focus and the key applies to it; the range then becomes that thumb's move and stays valid. |
| Player.VideoSrc | src/renderer/components/VideoPlayer.tsx:140-142 | Paths starting with `local-video://`, `blob:` or `http` are used verbatim; any other path is encoded behind `local-video://`. |
| Player.VideoSrcIdempotent | src/renderer/components/VideoPlayer.tsx:140-142 | Deriving the source of a source changes nothing. |
| Player.Player.constructor | src/renderer/App.tsx:57-59 | Playback starts paused at 0 with looping on (`useState(true)`), an empty range and no file. |
| Player.Player.RequestPlay | src/renderer/components/VideoPlayer.tsx:81-83 | `play()` starts playback unless refused; a refusal leaves the state as it was. |
| Player.Player.Pause | src/renderer/components/VideoPlayer.tsx:52 | `pause()` stops playback. |
| Player.Player.Seek | src/renderer/components/VideoPlayer.tsx:20 | Setting `currentTime` moves the position. |
| Player.Player.OnPlay | src/renderer/components/VideoPlayer.tsx:28 | The `play` event sets `isPlaying`. |
| Player.Player.OnPause | src/renderer/components/VideoPlayer.tsx:29 | The `pause` event clears `isPlaying`. |
| Player.Player.TimeUpdate | src/renderer/components/VideoPlayer.tsx:13-26 | The position is recorded. At or past the trim end, loop mode jumps to the start and otherwise playback pauses, so a non-empty range is never played past its end. |
| Player.Player.Ended | src/renderer/components/VideoPlayer.tsx:43-54 | At `ended`, loop mode restarts from the trim start and asks to play; otherwise it pauses. |
| Player.Player.FileChanged | src/renderer/components/VideoPlayer.tsx:74-91 | A new file installs a `loadeddata` handler that captures the current trim start. |
| Player.Player.LoadedData | src/renderer/components/VideoPlayer.tsx:78-84 | With a file loaded, the player seeks to the captured start and asks to play; without one, nothing happens. |
| Player.Player.RangeChanged | src/renderer/components/VideoPlayer.tsx:94-122 | A position inside the new range is kept, one outside jumps to its start; either way playback resumes if it was playing. |
| Player.Player.TogglePlay | src/renderer/components/VideoPlayer.tsx:124-133 | A player that was playing pauses; one that was not asks to play. |
| Player.Player.ToggleLoop | src/renderer/components/TimelineControls.tsx:187 | The loop button flips loop mode. |
| Timeline.ProgressPercent | src/renderer/components/TimelineControls.tsx:58-59 | The progress lies in [0, 100]. It is NaN exactly for a position at the start of an empty range, and `getPercent` inside a non-empty range. |
| Timeline.HoverTime | src/renderer/components/TimelineControls.tsx:43-52 | The hovered time: the pointer's fraction of the bar times the range length. |
| Timeline.ClickSeekTarget | src/renderer/components/TimelineControls.tsx:31-41 | The click target: the range start plus the pointer's fraction of the range, clamped into the range. |
| Timeline.ClickSeekInRange | src/renderer/components/TimelineControls.tsx:31-52 | A bar click seeks into the trim range, to the hover time after its start (exactly, for a click on the bar). |
| Timeline.Elapsed | src/renderer/components/TimelineControls.tsx:76 | The elapsed readout is never negative, and is the time since the range start once past it. |
| Timeline.CutDisabled | src/renderer/components/TimelineControls.tsx:54-55 | The cut button is disabled while a cut runs or when the range is not positive (its `disabled` attribute is at line 206). |
| Timeline.Render | src/renderer/components/TimelineControls.tsx:12-206 | Nothing renders without a video. Otherwise the view holds the title, the cut button's state and the formatted elapsed time. |
| Timeline.MountSlider | src/renderer/components/TimelineControls.tsx:156-163 | The trim slider spans 0 to the duration in 0.1 s steps and shows the current range. |
| Timeline.ProgressBarClick | src/renderer/components/TimelineControls.tsx:31-41 | Without the bar nothing moves. Otherwise the player seeks to the click target inside the range, still playing or paused as before. Nothing else of the player changes: not its play events, loop mode, range, file or captured start. |
| Timeline.TogglePlay | src/renderer/components/TimelineControls.tsx:20-29 | A player that was playing pauses; one that was not asks to play. The position and the rest of the player stay as they were. |
| DropZone.IsAcceptedVideo | src/renderer/components/VideoDropZone.tsx:41-42 | A listed MIME type, or a name ending, in any ASCII case, in one of the five extensions. |
| DropZone.ExtensionMustEndName | src/renderer/components/VideoDropZone.tsx:41-42 | A name ending in `.txt` (any case) is accepted only through its MIME type. |
| DropZone.ClipTxtRejected | src/renderer/components/VideoDropZone.tsx:42 | `clip.mp4.txt` with MIME type `text/plain` is rejected. |
| DropZone.UpperCaseExtensionAccepted | src/renderer/components/VideoDropZone.tsx:42 | `HOLIDAY.MP4` is accepted whatever its MIME type. |
| DropZone.ExtensionIgnoresCase | src/renderer/components/VideoDropZone.tsx:42 | For every name, lower-casing it never changes whether it has a video extension. Any name ending in an upper-case extension is accepted whatever its MIME type. |
| DropZone.RecordedPath | src/renderer/components/VideoDropZone.tsx:52 | Electron's non-empty `file.path` is used, else the file name. |
| DropZone.HandleFile | src/renderer/components/VideoDropZone.tsx:39-74 | A file is rejected exactly when it is not a video. A metadata error happens exactly for an accepted file whose metadata fails. A selection records path, name and duration. |
| DropZone.FirstFile | src/renderer/components/VideoDropZone.tsx:27 | Only the first file of a list counts, and an empty list gives none. |
| DropZone.HandleFiles | src/renderer/components/VideoDropZone.tsx:26-36 | An empty list does nothing; otherwise the first file is handled. |
| DropZone.OnlyFirstFileMatters | src/renderer/components/VideoDropZone.tsx:27-28 | Files after the first never change the outcome. |
| DropZone.DropZone.constructor | src/renderer/components/VideoDropZone.tsx:7 | The zone starts without the highlight. |
| DropZone.DropZone.DragOver | src/renderer/components/VideoDropZone.tsx:9-13 | Dragging over shows the highlight. |
| DropZone.DropZone.DragLeave | src/renderer/components/VideoDropZone.tsx:15-19 | Leaving hides it. |
| DropZone.DropZone.Drop | src/renderer/components/VideoDropZone.tsx:21-30 | A drop hides the highlight, and the first file, if any, decides the outcome. |
| DropZone.DropZone.Select | src/renderer/components/VideoDropZone.tsx:32-37 | The picker's first file, if any, decides the outcome. |
| Session.NextStatusAsWritten | src/renderer/App.tsx:175-207 | The status transitions as written: a cut start shows processing at 0 and leaves the reset timer as it is. Progress sets the percent, `cut-done` saves and arms the reset, `cut-error` shows the error, and an armed expiry returns to idle. |
| Session.NextStatus | src/renderer/App.tsx:175-207 | The corrected processing-status transitions: starting a cut also cancels a pending "Saved" reset. Every other event behaves as written (`NextStatusAsWritten`, which the session class uses), and progress changes only the percentage. |
| Session.RunStatus | src/renderer/App.tsx:175-207 | A sequence of status events under the corrected transitions, one after the other. |
| Session.RunStatusAsWritten | src/renderer/App.tsx:175-207 | A sequence of status events under the transitions as written, one after the other. |
| Session.NextStatusKeepsResetSafe | src/renderer/App.tsx:182-198 | Under the corrected transitions, a pending reset never coexists with a running cut. |
| Session.CutInFlightStaysProcessing | src/renderer/App.tsx:175-198 | Under the corrected transitions, a running cut stays shown as processing through any progress events and reset expiries. |
| Session.CutStartedThenProcessing | src/renderer/App.tsx:291-294 | Under the corrected transitions, after a cut starts it is shown as processing until `cut-done` or `cut-error`. |
| Session.ResetInterruptsCutAsWritten | src/renderer/App.tsx:182-198 | A counterexample: as written, a cut started within three seconds of `cut-done` is shown as finished when the old reset fires. |
| Session.ResetFiresDuringCutAsWritten | src/renderer/App.tsx:278-297 | As written, from any state: after `cut-done`, a new cut and any progress events, the reset is still armed beside the running cut, and its expiry shows idle. |
| Session.ProgressKeepsArmedProcessing | src/renderer/App.tsx:175-198 | As written, progress events keep an armed reset and a running cut together, and the expiry then returns to idle. |
| Session.DoneThenReset | src/renderer/App.tsx:182-198 | As written, `cut-done` shows "saved", and one expiry returns to idle. A second `cut-done` re-arms the same single timer, and later expiries change nothing. |
| Session.ProgressStaysPercent | src/renderer/App.tsx:175-180 | The shown progress stays in [0, 100] when every reported percentage does. |
| Session.RestoreOutcome | src/renderer/App.tsx:158-173 | A snapshot with a video restores it together with its range, or the whole video when it has no range. A snapshot without a video changes nothing. |
| Session.SaveRequest | src/renderer/App.tsx:233-248 | Nothing is saved before restore. Afterwards the snapshot carries the video, and a range exactly when there is a video. |
| Session.RestoreOfSave | src/renderer/App.tsx:158-248 | Restoring a saved snapshot gives back the video and range it was taken from. |
| Session.NewVideoEffect | src/renderer/App.tsx:251-276 | It records the new path. It resets to the whole video for an unset range on a video with a duration, or after restore for a different path; otherwise the range stays. |
| Session.NewVideoEffectIdempotent | src/renderer/App.tsx:251-276 | Running the effect again on its own result changes nothing. |
| Session.RestoredTrimKept | src/renderer/App.tsx:266-273 | A restored video with a set range keeps it: the first video of the session is not "new". |
| Session.OtherVideoResets | src/renderer/App.tsx:267-273 | After restore, a video with another path starts from its whole range. |
| Session.LinkKey | src/renderer/App.tsx:80 | The key is `veelo://file?path=` followed by the raw path. |
| Session.LinkKeyInjective | src/renderer/App.tsx:80-86 | Different paths have different keys, so deduplication is per path. |
| Session.NameFromPath | src/renderer/App.tsx:105 | The name is empty only for the empty path: `|| filePath` replaces an empty last segment. |
| Session.NameFromPathAfterLast | src/renderer/App.tsx:105 | The name is the last `/`-segment, or the whole path when that segment is empty. |
| Session.NameIsLastSegment | src/renderer/App.tsx:105 | For a path not ending in `/`, the name is non-empty, free of `/`, and a suffix of the path. |
| Session.ShortcutFor | src/renderer/App.tsx:396-476 | The key-to-shortcut table: seeks need no Shift, start moves need Shift without Alt, end moves need Shift with Alt, and only the five codes are bound. |
| Session.ShortcutTrim | src/renderer/App.tsx:438-476 | The Shift crop moves: the start or the end by 0.5 s, clamped to 0, the duration, and a 0.1 s gap. |
| Session.ShortcutSeek | src/renderer/App.tsx:408-434 | Restart goes to the range start. Back is 1 s back but not before the range start; forward is 1 s forward but not past the range end. Each seek clamps on one side only. |
| Session.ShortcutTrimKeepsRange | src/renderer/App.tsx:436-476 | The crop moves keep `0 ≤ start`, `start + 0.1 ≤ end ≤ duration`. Each moves only one bound, by at most 0.5 s, and by exactly 0.5 s when there is room. |
| Session.ShortcutSeekInRange | src/renderer/App.tsx:407-434 | Restart goes to the range start; the seeks move by at most 1 s and stay in the range. |
| Session.ShortcutSeekClamps | src/renderer/App.tsx:421-433 | From any position, back never lands before the range start and forward never past the end. Each moves by at most 1 s, and by exactly 1 s when its side leaves room. From more than 1 s past the end, back stays past the end; from more than 1 s before the start, forward stays before the start. |
| Session.CutButtonFollowsStatus | src/renderer/App.tsx:175-207 | With the cut button's rule, for the status transitions as written: a started cut disables the button. For a non-empty range, `cut-done`, `cut-error` and an armed reset enable it again. Progress, and a reset that is not armed, leave it as it was. An empty or inverted range keeps it disabled whatever the status. |
| Session.AppSession.constructor | src/renderer/App.tsx:45-65 | The session starts with no video, the range (0, 0), idle status, not restored, and no errored links. |
| Session.AppSession.SetVideoFile | src/renderer/App.tsx:46 | `setVideoFile` replaces the video. |
| Session.AppSession.SliderChange | src/renderer/components/TimelineControls.tsx:16-18 | The slider's pair becomes the range as reported. |
| Session.AppSession.OpenFromLink | src/renderer/App.tsx:78-86 | Metadata loading starts exactly when the link's key has not failed before. |
| Session.AppSession.LinkMetadataLoaded | src/renderer/App.tsx:104-120 | The link's path becomes the video, named after its last segment. |
| Session.AppSession.LinkMetadataFailed | src/renderer/App.tsx:122-145 | The alert is shown exactly when the key had not failed before. The key is remembered, and each errored key is alerted exactly once. |
| Session.AppSession.OnRestoreState | src/renderer/App.tsx:158-173 | The video and range become the restore outcome, and the session counts as restored. |
| Session.AppSession.RestoreTimeout | src/renderer/App.tsx:209-212 | After one second the session counts as restored even without a snapshot. |
| Session.AppSession.OnCutProgress | src/renderer/App.tsx:175-180 | Only the percentage changes. |
| Session.AppSession.OnCutDone | src/renderer/App.tsx:182-199 | The status becomes "saved" at 100 with the output path, and the reset is armed. The cut button is enabled again for a non-empty range. |
| Session.AppSession.OnCutError | src/renderer/App.tsx:201-207 | The status becomes idle at 0 carrying the error. The cut button is enabled again for a non-empty range. |
| Session.AppSession.ResetTimerFired | src/renderer/App.tsx:193-198 | A pending reset returns the status to idle; otherwise nothing changes. |
| Session.AppSession.SaveEffect | src/renderer/App.tsx:233-248 | Exactly the save request, if any, is sent. |
| Session.AppSession.RunNewVideoEffect | src/renderer/App.tsx:251-276 | The range and last path become the new-video effect's result. |
| Session.AppSession.HandleCutVideo | src/renderer/App.tsx:278-297 | Without a video nothing happens. Otherwise the player is paused at the range start, the status shows a running cut and the cut button is disabled, and the host is asked to cut that stretch of the range's length. A pending "Saved" reset stays armed, as written. Nothing else of the player changes. |
| Session.AppSession.KeyDown | src/renderer/App.tsx:386-481 | Nothing happens in a text field, without the player or without a video. Crop moves set the range, seeks and restart move the player, and Space toggles playback. Enter starts the cut: the player is paused at the old range start, and the request is sent. No key touches a pending reset, and no key changes the player's play events, loop mode, range, file or captured start. |
| Host.Accepts | src/main/main.ts:38-48 | The link is opened when all of these hold: the protocol is `veelo:`, the host is `file` or the path starts with `//file`, the `path` parameter is present and non-empty, and that file exists. |
| Host.ResolveDeepLink | src/main/main.ts:32-66 | A link is opened exactly when it parses, uses `veelo:`, names host `file` or a `//file` path, and carries a non-empty existing path; that path is opened. Every other link is ignored. |
| Host.FirstVeeloArg | src/main/main.ts:203 | The first argument starting with `veelo://`, or none exactly when there is none. |
| Host.FirstVeeloArgIgnoresRest | src/main/main.ts:203-206 | Arguments after the first deep link never matter. |
| Host.LoadState | src/main/main.ts:83-93 | A stored snapshot loads; a missing or unreadable file gives `null`. |
| Host.Forward | src/main/main.ts:276-304 | Progress, success and error callbacks become `cut-progress`, `cut-done` and `cut-error`, one for one. |
| Host.ForwardAll | src/main/main.ts:272-305 | Every callback is forwarded, in order. |
| Host.ForwardedCutTrace | src/main/main.ts:268-310 | The window gets `cut-progress 0`, then the forwarded callback of each event in order. A single `cut-done` carrying the command's output, or a `cut-error`, comes last exactly when the engine finishes. |
| Host.StartCut | src/main/main.ts:271-305 | A missing Downloads folder sends the folder error. Otherwise the command cuts the requested stretch into the numbered default output, and `cut-progress 0` is sent, followed by `cut-error` when the engine throws while starting. |
| Host.HostProcess.constructor | src/main/main.ts:11-12 | The host starts with no window, an empty pending slot and no effects. |
| Host.HostProcess.HandleDeepLink | src/main/main.ts:32-66 | An accepted path goes to the window after a focus request, or without a window replaces the pending slot. A rejected link changes nothing. |
| Host.HostProcess.DidFinishLoad | src/main/main.ts:147-159 | It sends `restore-state` when a snapshot loads, then the pending path; the slot is emptied, so a parked path is delivered at most once. |
| Host.HostProcess.WindowCreated | src/main/main.ts:103-104 | The window exists. |
| Host.HostProcess.WindowClosed | src/main/main.ts:142-144 | The window is gone. |
| Host.HostProcess.SecondInstance | src/main/main.ts:195-207 | In production the window is focused and the first deep link of the command line is handled; in development nothing happens. |
| Host.HostProcess.OpenUrl | src/main/main.ts:210-213 | In production the link is handled; in development nothing happens. |
| Host.HostProcess.AppReady | src/main/main.ts:217-237 | The window is created first, so a first-launch deep link is sent straight to it rather than parked. |
| Host.HostProcess.SaveState | src/main/main.ts:95-101 | A successful write stores the snapshot, which then loads back. A failed write leaves the file as it was. |
| Host.HostProcess.OnCutVideo | src/main/main.ts:268-310 | Ignored without a window; otherwise as `StartCut`, with the sent messages appended to the effects, including a start failure's `cut-error`. |
| Host.HostProcess.EngineEvent | src/main/main.ts:276-304 | An engine event's callback reaches the window only while the window exists. |
| CutService.MatchCount | src/main/services/ffmpeg-service.ts:17-21 | The count is at most the number of entries. It is 0 exactly when none contains the filter, and all exactly when all do. |
| CutService.MatchCountSnoc | src/main/services/ffmpeg-service.ts:18-21 | Adding an entry adds one exactly when it matches. |
| CutService.MatchingFilesInDir | src/main/services/ffmpeg-service.ts:10-23 | A missing folder is rejected with `Folder: … not found!`; otherwise the result is the match count. |
| CutService.BaseName | src/main/services/ffmpeg-service.ts:38 | The base name is free of `/` and ends the path. |
| CutService.ExtName | src/main/services/ffmpeg-service.ts:37 | The extension ends the base name. |
| CutService.ExtNameShape | src/main/services/ffmpeg-service.ts:37 | The extension is empty, or a `.` that is not the name's first character followed by no further `.`. |
| CutService.Stem | src/main/services/ffmpeg-service.ts:38 | The stem followed by the extension is the base name, and it holds no `/`. |
| CutService.CountSuffix | src/main/services/ffmpeg-service.ts:44-46 | The suffix is empty exactly when nothing matched. |
| CutService.DefaultOutputNameHasNoSlash | src/main/services/ffmpeg-service.ts:36-48 | The default output name holds no `/`. |
| CutService.DefaultOutputPath | src/main/services/ffmpeg-service.ts:37-48 | Downloads, `/`, the stem plus ` - chopped`, the count suffix, then the extension. |
| CutService.DefaultOutputInDownloads | src/main/services/ffmpeg-service.ts:41-48 | The default output lies directly in the Downloads folder, under the default name. |
| CutService.DefaultOutputKeepsExtension | src/main/services/ffmpeg-service.ts:37-48 | The output keeps the input's extension. |
| CutService.DefaultOutputMatchesScan | src/main/services/ffmpeg-service.ts:39-48 | The output's name contains the name the scan looks for, so a later scan counts it. |
| CutService.RepeatedCutCountsUp | src/main/services/ffmpeg-service.ts:39-48 | Cutting the same file again, with nothing else changed, counts one more match and so takes the next suffix. |
| CutService.RoundPercent | src/main/services/ffmpeg-service.ts:84-85 | A missing percent gives 0; otherwise the nearest integer, and a percentage stays in [0, 100]. |
| CutService.EngineCallback | src/main/services/ffmpeg-service.ts:79-91 | Only `end` and `error` are terminal; `end` reports the command's output. |
| CutService.EngineCallbacks | src/main/services/ffmpeg-service.ts:79-91 | The callbacks of an engine run, one per event, up to and including the first `end` or `error`. |
| CutService.EngineCallbacksOrdered | src/main/services/ffmpeg-service.ts:72-92 | Each callback is its own event's callback, with rounded progress. The callbacks are progress only with at most one terminal callback, last. It comes exactly when the engine finishes, and success carries the output. |
| CutService.CutVideo | src/main/services/ffmpeg-service.ts:25-96 | An explicit output is used as given. Otherwise the numbered default is used, and a missing folder gives only the folder error. A started cut fires `onProgress(0)` and runs the fixed 900k, 750x? command on the requested stretch. An engine that throws while starting adds `onError` with its message after `onProgress(0)`. |
| CutService.CutTrace | src/main/services/ffmpeg-service.ts:51-92 | The whole trace is `onProgress(0)`, then each event's own callback with rounded progress. One terminal callback comes last, exactly when the engine finishes. |
| LegacyCut.LegacyExtension | index.js:54 | `.` plus what follows the last `.` of the whole path. |
| LegacyCut.LegacySegment | index.js:55-57 | The last `/`-segment of what precedes the path's last `.`; empty when there is no `.`. |
| LegacyCut.LegacyOutputPath | index.js:57-60 | Downloads, `/`, the segment plus ` - chopped`, the count suffix, then the legacy extension. |
| LegacyCut.SplitExtension | index.js:54 | `'.' + split('.').pop()` is the legacy extension: a dot and what follows the path's last dot. |
| LegacyCut.SplitSegment | index.js:55-57 | Popping, rejoining and taking the last `/`-piece gives the segment before the path's last dot. |
| LegacyCut.LegacyOfDotFree | index.js:54-57 | For a path with no dot, the segment is empty and the "extension" is a dot followed by the whole path. |
| LegacyCut.LegacyOfDotted | index.js:54-57 | For a path `dir/seg.tail`, the segment is `seg` and the extension `.tail`. |
| LegacyCut.LegacyExtensionFromFolder | index.js:54 | When the file name has no dot but the path has a folder, the legacy extension contains a `/`, while `extname` is empty. |
| LegacyCut.LegacyLeavesDownloads | index.js:54-60 | In that case the legacy output name contains a `/`, so the output is not directly in Downloads; the service's name has none. |
| LegacyCut.LegacyExtensionAgrees | index.js:54 | When the file name has an interior dot, the legacy extension equals `extname`. |
| LegacyCut.LegacySegmentAgrees | index.js:55-57 | In that case the legacy segment equals the service's stem. |
| LegacyCut.LegacyOutputAgrees | index.js:52-61 | In that case legacy and service outputs and scan names are the same. |
| LegacyCut.LegacyMessageFor | index.js:70-108 | Progress for progress. `cut-done` with the output exactly for an `end` whose argument is absent or empty. Every error is tagged `Failed`, and an `end` error carries its non-empty argument. |
| LegacyHost.LegacyMessagesAgainstService | index.js:70-108 | Compared with the service forwarded by the host, for every event: the messages agree, once the percent is rounded and the `Failed` tag dropped, except for an `end` with a non-empty argument, which the legacy host reports as a failure and the service as a success. Legacy progress is the raw percent; the service's is `RoundPercent`. |
| LegacyCut.SplitNames | index.js:54-57 | The split-and-pop steps compute the legacy extension and chopped name. |
| LegacyCut.CutVideo | index.js:52-122 | The legacy naming with a count suffix. A missing folder sends nothing, and a started cut sends `cut-progress 0` and runs the fixed command. |
| LegacyPlayer.ParseInt | video-player.js:39 | `parseInt` of a number is an integer, with the number truncated toward zero. |
| LegacyPlayer.ParseIntOfInteger | video-player.js:39 | An integer is its own `parseInt`. |
| LegacyPlayer.Settle | video-player.js:37-56 | The self-calling `setCurrentTime` chain, with a bound on the number of calls: where it ends, or `None` past the bound. |
| LegacyPlayer.Landing | video-player.js:37-56 | Where a settling chain ends: the end, the start, or the whole seconds of the request. |
| LegacyPlayer.Settles | video-player.js:37-56 | With whole-second bounds, a start not after the end, and in loop mode a start before it, the chain ends within two calls at the landing time inside the range. |
| LegacyPlayer.FractionalStartNeverSettles | video-player.js:39-45 | With a fractional start, a call at the start never ends: each call truncates below the start and goes back to it. |
| LegacyPlayer.FractionalStartLoopDiverges | video-player.js:39-53 | With loop on and a fractional start, a request at or past the end never ends. |
| LegacyPlayer.EmptyLoopNeverSettles | video-player.js:44-53 | In loop mode with start equal to end, no request ends, whatever the requested time. |
| LegacyPlayer.FractionalBoundsCanSettle | video-player.js:37-55 | Fractional bounds do not always diverge. A fractional end lands a late request on the end's whole seconds, in loop mode a late request lands on the start, and a fractional start keeps a request inside the range. |
| LegacyPlayer.InvertedRangeNeverSettles | video-player.js:39-45 | Without loop and with the start after the end, no request ever ends. |
| LegacyPlayer.Player.constructor | video-player.js:3-22 | The props as given, with time and position at 0, paused. |
| LegacyPlayer.Player.SetCurrentTime | video-player.js:37-56 | Under settling bounds the component time becomes the landing time, inside the range. The element follows when asked to or redirected, pauses past the end without loop, and asks to play when looping back to the start while paused. |
| LegacyPlayer.Player.StartTimeChanged | video-player.js:25-29 | A position before the new start jumps to it. |
| LegacyPlayer.Player.EndTimeChanged | video-player.js:30-34 | A position after the new end jumps to it. |
| LegacyPlayer.Player.TogglePlay | video-player.js:57-68 | Paused at the end, or ended, restarts from the start and asks to play. Otherwise, paused asks to play and playing pauses. |

## Left out

**Numbers**
- IEEE-754 arithmetic is not modelled: times are exact reals. Rounding differences of binary fractions, such as 0.1 steps, are not captured. NaN appears only where the model returns it explicitly (`ProgressPercent`, `ParseTime`).
- Infinite durations are not modelled.
- A zero-width track or bar has no pointer mapping, and the functions require a positive width. The source would divide by zero there.
- `parseTime`: `Number(field)` is modelled only for optionally signed decimal integers and the empty string. Every other field gives NaN in the model, including fractions (`1.5`), exponents (`1e2`), hexadecimal (`0x10`) and fields with surrounding whitespace (` 5`). JavaScript's `Number` turns those into numbers, so on such inputs the model returns NaN where the source returns a time.
- `Number.prototype.toString` of the cut arguments is not modelled: the request carries the numbers themselves.

**Node paths**
- `path.basename`, `path.extname` and `path.join` are modelled for POSIX paths without a trailing `/`.
- `path.join`'s normalisation of `.` and `..` segments is not modelled.
- CutService.DefaultOutputKeepsExtension: it excludes the base name `..`, for which `path.extname` has its own rule.

**Host process**
- Reading and writing the state file is reduced to its outcome: stored, missing or unreadable, and whether a write succeeds. JSON parsing and serialisation are not modelled.
- An exception thrown while the engine is set up and started is caught by `cutVideo`'s own `catch` (`src/main/services/ffmpeg-service.ts:93-95`). It reaches `onError` after `onProgress(0)`, so the window gets `cut-progress 0` and then `cut-error`. `CutService.CutVideo` and `Host.StartCut` model it through their `startError` parameter.
- The outer `catch` of the `cut-video` handler (`src/main/main.ts:306-309`) fires only if one of the window callbacks throws, for instance in the notification code. That failure is not modelled: the model's callbacks do not throw.
- The older host has no `catch`: a throw while its engine starts rejects a promise nobody handles, after `cut-progress 0`. `LegacyCut.CutVideo` does not model that failure.
- Protocol registration, the single-instance lock, `window-all-closed`, `activate`, the content security policy, the `local-video` file protocol and `setupFfmpeg` are not modelled. They are platform set-up, not decisions of the core.
- Notifications and `shell.showItemInFolder` are not modelled: they are outside the window's state.

**Media engine**
- The transcoder itself is not modelled. It is a stream of engine events that the caller supplies.
- `CutService.EngineCallbacks` stops at the first `end` or `error`. The handlers at `src/main/services/ffmpeg-service.ts:79-91` have no guard of their own. So the "one terminal callback, last" properties of `EngineCallbacksOrdered`, `CutTrace` and `Host.ForwardedCutTrace` assume the engine emits nothing after its terminal event.
- The `progress.percent || 0` fallback treats a reported 0 and a missing percent alike. The model's `None` stands for both.

**Browser behaviour**
- Clamping by the media element (`currentTime` beyond the duration) is not modelled. Playback is `Player.Advance`, so the position can be any real.
- The `loadeddata` handler keeps the trim start from when the file changed. The model records that as `loadStart` rather than judging it.
- Tooltip visibility timers (`showTooltipTemporarily`) are not modelled: they affect only display.
- `preventDefault` and event propagation are not modelled.
- `alert` dialogs are not modelled, except where their count matters: the errored-link alert, as the ghost `alerted` sequence.
- The 10-second cleanup timer of the deep-link probe is not modelled.
- The Enter shortcut calls `handleCutVideo` even while the cut button is disabled. The model keeps that behaviour rather than calling it a defect.
- React rendering is not modelled beyond the `Timeline.Render` view record. Effect scheduling is not modelled either: the caller runs each effect method when its dependencies change.

**Older Vue player**
- LegacyPlayer.Player.SetCurrentTime: it requires whole-second bounds (`SettlingBounds`). Some bounds that this excludes do make the source recurse without end. The lemmas show each case through the fuel-bounded `Settle`:
  - a chain that reaches a fractional start (`FractionalStartNeverSettles`, `FractionalStartLoopDiverges`);
  - start equal to end with loop on (`EmptyLoopNeverSettles`);
  - inverted bounds without loop (`InvertedRangeNeverSettles`).
- LegacyPlayer.Player.SetCurrentTime: `SettlingBounds` also excludes fractional bounds whose chains do end. Examples are a fractional end (`Settle(5, 7.0, 0.0, 5.5, false)` lands on 5) or a fractional start with a request inside the range. The method is not specified for those bounds. `Settle` still describes them, as `FractionalBoundsCanSettle` shows.
- `Settle` counts calls with a fuel bound rather than modelling a stack overflow.
- LegacyPlayer.ParseInt: it truncates every real. The source's `parseInt` on a number parses `String(time)`, which uses exponent notation below 1e-6 and from 1e21 on. So `parseInt(5e-7)` is 5 and `parseInt(1e21)` is 1. The model agrees with the source only for 0 and for 1e-6 <= |time| < 1e21.
- The older player's `formatTime`, its duration probe (`_getVideoDuration`) and the template are not modelled. Only `setCurrentTime`, the watchers and `togglePlay` are part of the model.

**Files outside the model**
- The preload bridge functions are not modelled; only their message shapes are, in `Types`.
- `ProcessingProgress.tsx` and the Raycast and Script Kit plugins are not part of this model.

## Findings

| source | as written | input that shows it | evidently intended | confidence | as-written member | corrected member |
|---|---|---|---|---|---|---|
| src/renderer/components/MultiRangeSlider.tsx:63-67 | A track click clamps the moved thumb only against the other thumb, never against `min`/`max`. | Duration 10.05, step 0.1, range (0, 5): a click at the right edge snaps to round(100.5)·0.1 = 10.1 and sets the end to 10.1 > 10.05. | Clamp a click the way a drag is clamped, keeping `end ≤ max` and `start ≥ min`. | not executed | RangeSlider.ClickAsWrittenLeavesTrack | RangeSlider.ClickKeepsRange |
| src/renderer/App.tsx:189-198, 291-294 | `handleCutVideo` does not cancel the pending 3-second "Saved" reset. | `cut-done`, a new cut within 3 s, then the reset fires: the status shows idle while the new cut runs, and the cut button is enabled again. | Starting a cut cancels the pending reset, so a running cut stays shown as processing until its own `cut-done`/`cut-error`. | not executed | Session.ResetInterruptsCutAsWritten | Session.CutStartedThenProcessing |
| index.js:54-57 | The extension is what follows the path's last `.` and the stem is what precedes it, even when that dot is in a folder name or absent. | `/v/clip` gives extension `./v/clip` and output `<downloads>/ - chopped./v/clip`. `/tmp/a.b/clip` gives `<downloads>/a - chopped.b/clip`. | Take the extension and stem from the file's base name, as `path.extname`/`path.basename` do, so the output lies directly in Downloads. | not executed | LegacyCut.LegacyLeavesDownloads | CutService.DefaultOutputInDownloads |

The classes model the code as written. `RangeSlider.Slider.TrackClick` applies `ClickAsWritten`, and `Session.AppSession` applies `NextStatusAsWritten`. The corrected definitions (`Click`, `NextStatus` with `RunStatus`) stand beside them, and the corrected-member lemmas prove the intended properties about them.
