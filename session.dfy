/** The renderer's session state (src/renderer/App.tsx): the loaded video, the
    trim range, the processing status with its delayed reset, the
    restore-before-save gate, the trim reset for a new video, the per-link
    failure deduplication of deep links, the cut trigger and the global
    keyboard shortcuts. React state cells and refs are fields of
    `AppSession`; every IPC callback, effect run and timer expiry is a method
    the caller invokes at the point the event happens. */
module Session {
  import opened Wrappers
  import opened Strings
  import opened Types
  import Player
  import Timeline

  function Min(a: real, b: real): real { if a <= b then a else b }
  function Max(a: real, b: real): real { if a >= b then a else b }

  // ---------------------------------------------------------------------------
  // Processing status and its delayed reset

  /** The status cell together with whether the 3-second "Saved" reset timer
      is pending (`savedStatusTimeoutRef`). */
  datatype StatusCell = StatusCell(status: ProcessingStatus, resetArmed: bool)

  datatype StatusEvent =
    | CutStarted              // handleCutVideo
    | Progress(percent: int)  // cut-progress
    | Done(outputPath: string) // cut-done
    | Failed(message: string) // cut-error
    | ResetFired              // the pending reset timer expires

  /** The status transitions as the source writes them: starting a cut leaves
      a pending reset armed. */
  function NextStatusAsWritten(c: StatusCell, e: StatusEvent): StatusCell {
    match e
    case CutStarted => StatusCell(ProcessingStatus(true, 0, None, None), c.resetArmed)
    case Progress(p) => StatusCell(c.status.(progress := p), c.resetArmed)
    case Done(path) => StatusCell(ProcessingStatus(false, 100, Some(path), None), true)
    case Failed(message) => StatusCell(ProcessingStatus(false, 0, None, Some(message)), c.resetArmed)
    case ResetFired => if c.resetArmed then StatusCell(Idle, false) else c
  }

  /** The status transitions with the pending reset cancelled when a new cut
      starts; otherwise the same as `NextStatusAsWritten`. */
  function NextStatus(c: StatusCell, e: StatusEvent): (r: StatusCell)
    ensures !e.CutStarted? ==> r == NextStatusAsWritten(c, e)
    ensures e.CutStarted? ==> r.status == NextStatusAsWritten(c, e).status && !r.resetArmed
    ensures e.Progress? ==>
      (r.status.isProcessing == c.status.isProcessing && r.status.outputPath == c.status.outputPath
       && r.status.error == c.status.error && r.status.progress == e.percent)
  {
    match e
    case CutStarted => StatusCell(ProcessingStatus(true, 0, None, None), false)
    case _ => NextStatusAsWritten(c, e)
  }

  /** A run of events under the corrected transitions. */
  function RunStatus(c: StatusCell, es: seq<StatusEvent>): StatusCell
    decreases |es|
  {
    if |es| == 0 then c else RunStatus(NextStatus(c, es[0]), es[1..])
  }

  /** A run of events under the transitions as written. */
  function RunStatusAsWritten(c: StatusCell, es: seq<StatusEvent>): StatusCell
    decreases |es|
  {
    if |es| == 0 then c else RunStatusAsWritten(NextStatusAsWritten(c, es[0]), es[1..])
  }

  /** A pending reset never coexists with a running cut. */
  predicate ResetSafe(c: StatusCell) {
    c.resetArmed ==> !c.status.isProcessing
  }

  /** Every corrected transition keeps `ResetSafe`. */
  lemma NextStatusKeepsResetSafe(c: StatusCell, e: StatusEvent)
    requires ResetSafe(c)
    ensures ResetSafe(NextStatus(c, e))
  {
  }

  /** A cut that has started and seen no `cut-done` or `cut-error` yet is still
      shown as processing, whatever progress events and timer expiries come
      in between. */
  lemma {:induction false} CutInFlightStaysProcessing(c: StatusCell, es: seq<StatusEvent>)
    requires ResetSafe(c) && c.status.isProcessing
    requires forall i :: 0 <= i < |es| ==> es[i].Progress? || es[i].ResetFired?
    ensures RunStatus(c, es).status.isProcessing
    ensures ResetSafe(RunStatus(c, es))
    decreases |es|
  {
    if |es| > 0 {
      var next := NextStatus(c, es[0]);
      assert next.status.isProcessing;
      NextStatusKeepsResetSafe(c, es[0]);
      CutInFlightStaysProcessing(next, es[1..]);
    }
  }

  /** Once a cut starts it is shown as processing until a terminal event. */
  lemma CutStartedThenProcessing(c: StatusCell, es: seq<StatusEvent>)
    requires forall i :: 0 <= i < |es| ==> es[i].Progress? || es[i].ResetFired?
    ensures RunStatus(c, [CutStarted] + es).status.isProcessing
  {
    assert ([CutStarted] + es)[1..] == es;
    CutInFlightStaysProcessing(NextStatus(c, CutStarted), es);
  }

  /** As written, a cut started within three seconds of the previous
      `cut-done` is shown as finished when that reset expires: the button is
      enabled again while the new cut runs. */
  lemma ResetInterruptsCutAsWritten()
    ensures var done := NextStatusAsWritten(StatusCell(Idle, false), Done("/Downloads/clip - chopped.mp4"));
      var started := NextStatusAsWritten(done, CutStarted);
      var fired := NextStatusAsWritten(started, ResetFired);
      ResetSafe(done) && started.status.isProcessing && !fired.status.isProcessing
  {
  }

  /** As written, from any state: after `cut-done`, a new cut and any number
      of progress events, the old reset still expires and shows idle. */
  lemma {:induction false} ResetFiresDuringCutAsWritten(c: StatusCell, path: string, ps: seq<StatusEvent>)
    requires forall i :: 0 <= i < |ps| ==> ps[i].Progress?
    ensures RunStatusAsWritten(c, [Done(path), CutStarted] + ps).resetArmed
    ensures RunStatusAsWritten(c, [Done(path), CutStarted] + ps).status.isProcessing
    ensures RunStatusAsWritten(c, [Done(path), CutStarted] + ps + [ResetFired]).status == Idle
  {
    var started := NextStatusAsWritten(NextStatusAsWritten(c, Done(path)), CutStarted);
    assert ([Done(path), CutStarted] + ps)[1..] == [CutStarted] + ps;
    assert ([CutStarted] + ps)[1..] == ps;
    assert ([Done(path), CutStarted] + ps + [ResetFired])[1..] == [CutStarted] + (ps + [ResetFired]);
    assert ([CutStarted] + (ps + [ResetFired]))[1..] == ps + [ResetFired];
    ProgressKeepsArmedProcessing(started, ps);
  }

  /** As written, progress events keep an armed reset beside a running cut,
      and the reset then fires to idle. */
  lemma {:induction false} ProgressKeepsArmedProcessing(c: StatusCell, ps: seq<StatusEvent>)
    requires c.resetArmed && c.status.isProcessing
    requires forall i :: 0 <= i < |ps| ==> ps[i].Progress?
    ensures RunStatusAsWritten(c, ps).resetArmed && RunStatusAsWritten(c, ps).status.isProcessing
    ensures RunStatusAsWritten(c, ps + [ResetFired]).status == Idle
    decreases |ps|
  {
    if |ps| == 0 {
      assert ps + [ResetFired] == [ResetFired];
    } else {
      assert (ps + [ResetFired])[1..] == ps[1..] + [ResetFired];
      ProgressKeepsArmedProcessing(NextStatusAsWritten(c, ps[0]), ps[1..]);
    }
  }

  /** `cut-done` arms the reset and a later `cut-done` re-arms the same single
      timer: one expiry returns the status to idle, and later expiries change
      nothing. */
  lemma DoneThenReset(c: StatusCell, first: string, second: string)
    ensures RunStatusAsWritten(c, [Done(first), ResetFired]) == StatusCell(Idle, false)
    ensures RunStatusAsWritten(c, [Done(first), Done(second), ResetFired, ResetFired]) == StatusCell(Idle, false)
    ensures NextStatusAsWritten(c, Done(second)).status == ProcessingStatus(false, 100, Some(second), None)
  {
    var armed := NextStatusAsWritten(c, Done(first));
    assert [Done(first), ResetFired][1..] == [ResetFired];
    assert RunStatusAsWritten(c, [Done(first), ResetFired]) == RunStatusAsWritten(armed, [ResetFired]);
    var rearmed := NextStatusAsWritten(armed, Done(second));
    var idle := NextStatusAsWritten(rearmed, ResetFired);
    assert [Done(first), Done(second), ResetFired, ResetFired][1..] == [Done(second), ResetFired, ResetFired];
    assert [Done(second), ResetFired, ResetFired][1..] == [ResetFired, ResetFired];
    assert [ResetFired, ResetFired][1..] == [ResetFired];
    assert RunStatusAsWritten(c, [Done(first), Done(second), ResetFired, ResetFired])
        == RunStatusAsWritten(rearmed, [ResetFired, ResetFired]);
    assert RunStatusAsWritten(rearmed, [ResetFired, ResetFired]) == RunStatusAsWritten(idle, [ResetFired]);
  }

  /** The progress shown stays a percentage when every reported percentage is one. */
  lemma {:induction false} ProgressStaysPercent(c: StatusCell, es: seq<StatusEvent>)
    requires 0 <= c.status.progress <= 100
    requires forall i :: 0 <= i < |es| ==> es[i].Progress? ==> 0 <= es[i].percent <= 100
    ensures 0 <= RunStatusAsWritten(c, es).status.progress <= 100
    decreases |es|
  {
    if |es| > 0 {
      ProgressStaysPercent(NextStatusAsWritten(c, es[0]), es[1..]);
    }
  }

  // ---------------------------------------------------------------------------
  // Restore, save and the new-video effect

  /** The `restore-state` handler's new video file and trim range: a snapshot
      with a video file replaces both (its trim, or the whole video when it
      has none); a snapshot without one changes neither. */
  function RestoreOutcome(snap: Snapshot, videoFile: Option<VideoFile>, trim: TrimSettings): (r: (Option<VideoFile>, TrimSettings))
    ensures snap.videoFile.None? ==> r == (videoFile, trim)
    ensures snap.videoFile.Some? ==> r.0 == snap.videoFile
    ensures snap.videoFile.Some? && snap.trimSettings.Some? ==> r.1 == snap.trimSettings.value
    ensures snap.videoFile.Some? && snap.trimSettings.None? ==>
      r.1 == TrimSettings(0.0, snap.videoFile.value.duration)
  {
    match snap.videoFile
    case None => (videoFile, trim)
    case Some(f) => (snap.videoFile, snap.trimSettings.GetOr(TrimSettings(0.0, f.duration)))
  }

  /** The save effect: nothing before the session is restored; afterwards a
      snapshot that carries the trim range only with a video file. */
  function SaveRequest(restored: bool, videoFile: Option<VideoFile>, trim: TrimSettings): (r: Option<Snapshot>)
    ensures r.None? <==> !restored
    ensures r.Some? ==> r.value.videoFile == videoFile
    ensures r.Some? ==> (r.value.trimSettings.Some? <==> videoFile.Some?)
    ensures r.Some? && videoFile.Some? ==> r.value.trimSettings == Some(trim)
  {
    if !restored then None
    else Some(Snapshot(videoFile, if videoFile.Some? then Some(trim) else None))
  }

  /** Restoring a snapshot the save effect produced gives back the video file
      and the trim range it was taken from. */
  lemma RestoreOfSave(videoFile: Option<VideoFile>, trim: TrimSettings, other: Option<VideoFile>, otherTrim: TrimSettings)
    requires videoFile.Some?
    ensures RestoreOutcome(SaveRequest(true, videoFile, trim).value, other, otherTrim) == (videoFile, trim)
  {
  }

  /** The whole range of a video. */
  function FullRange(f: VideoFile): TrimSettings {
    TrimSettings(0.0, f.duration)
  }

  /** The new-video effect: the new trim range and `lastVideoPath`. */
  function NewVideoEffect(videoFile: Option<VideoFile>, trim: TrimSettings, restored: bool, lastVideoPath: Option<string>)
    : (r: (TrimSettings, Option<string>))
    ensures videoFile.None? ==> r == (trim, None)
    ensures videoFile.Some? ==> r.1 == Some(videoFile.value.path)
    ensures videoFile.Some? ==>
      var f := videoFile.value;
      var reset := (trim.endTime == 0.0 && f.duration > 0.0)
                || (restored && lastVideoPath.Some? && lastVideoPath.value != f.path);
      r.0 == (if reset then FullRange(f) else trim)
  {
    match videoFile
    case None => (trim, None)
    case Some(f) =>
      var initial := if trim.endTime == 0.0 && f.duration > 0.0 then FullRange(f) else trim;
      var changed := if restored && lastVideoPath.Some? && lastVideoPath.value != f.path then FullRange(f) else initial;
      (changed, Some(f.path))
  }

  /** Running the effect again on its own result changes nothing. */
  lemma NewVideoEffectIdempotent(videoFile: Option<VideoFile>, trim: TrimSettings, restored: bool, lastVideoPath: Option<string>)
    ensures var (t, last) := NewVideoEffect(videoFile, trim, restored, lastVideoPath);
      NewVideoEffect(videoFile, t, restored, last) == (t, last)
  {
  }

  /** A restored video keeps its restored, non-empty trim range: the first
      video of the session does not count as a new one. */
  lemma RestoredTrimKept(f: VideoFile, trim: TrimSettings)
    requires trim.endTime != 0.0
    ensures NewVideoEffect(Some(f), trim, true, None).0 == trim
    ensures NewVideoEffect(Some(f), trim, true, Some(f.path)).0 == trim
  {
  }

  /** After the restore, a video with a different path starts from its whole range. */
  lemma OtherVideoResets(f: VideoFile, trim: TrimSettings, last: string)
    requires last != f.path
    ensures NewVideoEffect(Some(f), trim, true, Some(last)).0 == FullRange(f)
  {
  }

  // ---------------------------------------------------------------------------
  // Deep links

  const LinkPrefix: string := "veelo://file?path="

  /** The per-link key, built from the raw path. */
  function LinkKey(path: string): (k: string)
    ensures StartsWith(k, LinkPrefix)
    ensures k[|LinkPrefix|..] == path
  {
    LinkPrefix + path
  }

  /** Different paths have different keys, so the deduplication is per path. */
  lemma LinkKeyInjective(a: string, b: string)
    requires LinkKey(a) == LinkKey(b)
    ensures a == b
  {
    assert a == LinkKey(a)[|LinkPrefix|..];
  }

  /** `filePath.split('/').pop() || filePath`. */
  function NameFromPath(path: string): (name: string)
    ensures name == "" ==> path == ""
  {
    var last := Last(Split(path, '/'));
    if last == "" then path else last
  }

  /** The name is what follows the last `/`, or the whole path when that is empty. */
  lemma NameFromPathAfterLast(path: string)
    ensures NameFromPath(path) == (if AfterLast(path, '/') == "" then path else AfterLast(path, '/'))
  {
    assert Last(Split(path, '/')) == AfterLast(path, '/') by {
      SplitAroundLast(path, '/');
    }
  }

  /** For a path that does not end in `/` the name is its last segment: not
      empty, free of `/`, and a suffix of the path. */
  lemma NameIsLastSegment(path: string)
    requires path != [] && Last(path) != '/'
    ensures var name := NameFromPath(path);
      name != [] && '/' !in name && EndsWith(path, name)
  {
    var k := LastIndexOf(path, '/');
    assert k < |path| - 1;
    assert AfterLast(path, '/') == path[k + 1..];
    NameFromPathAfterLast(path);
  }

  // ---------------------------------------------------------------------------
  // Global keyboard shortcuts

  datatype Shortcut =
    | PlayPause | Restart | CutShortcut | SeekBack | SeekForward
    | StartEarlier | StartLater | EndEarlier | EndLater | Unbound

  /** Which shortcut a key (`e.code`) with the given modifiers triggers. */
  function ShortcutFor(code: string, shift: bool, alt: bool): (s: Shortcut)
    ensures s in {SeekBack, SeekForward} ==> !shift
    ensures s in {StartEarlier, StartLater} ==> shift && !alt
    ensures s in {EndEarlier, EndLater} ==> shift && alt
    ensures s == Unbound <==> code !in ["Space", "KeyR", "Enter", "ArrowLeft", "ArrowRight"]
  {
    if code == "Space" then PlayPause
    else if code == "KeyR" then Restart
    else if code == "Enter" then CutShortcut
    else if code == "ArrowLeft" && !shift then SeekBack
    else if code == "ArrowRight" && !shift then SeekForward
    else if shift && code == "ArrowLeft" then (if alt then EndEarlier else StartEarlier)
    else if shift && code == "ArrowRight" then (if alt then EndLater else StartLater)
    else Unbound
  }

  /** The trim range after a shortcut (only the four crop moves change it). */
  function ShortcutTrim(s: Shortcut, trim: TrimSettings, duration: real): TrimSettings {
    match s
    case StartEarlier => TrimSettings(Max(0.0, trim.startTime - 0.5), trim.endTime)
    case StartLater => TrimSettings(Min(trim.endTime - 0.1, trim.startTime + 0.5), trim.endTime)
    case EndEarlier => TrimSettings(trim.startTime, Max(trim.startTime + 0.1, trim.endTime - 0.5))
    case EndLater => TrimSettings(trim.startTime, Min(duration, trim.endTime + 0.5))
    case _ => trim
  }

  /** The media position after a shortcut (restart and the two seeks). */
  function ShortcutSeek(s: Shortcut, position: real, trim: TrimSettings): real {
    match s
    case Restart => trim.startTime
    case SeekBack => Max(trim.startTime, position - 1.0)
    case SeekForward => Min(trim.endTime, position + 1.0)
    case _ => position
  }

  /** The crop moves keep `0 <= start`, `start + 0.1 <= end <= duration`, move
      one bound only, by at most 0.5 s, and by exactly 0.5 s when there is
      room. */
  lemma ShortcutTrimKeepsRange(s: Shortcut, trim: TrimSettings, duration: real)
    requires RangeOk(0.0, duration, 0.1, trim.startTime, trim.endTime)
    ensures var t := ShortcutTrim(s, trim, duration);
      && RangeOk(0.0, duration, 0.1, t.startTime, t.endTime)
      && (s in {StartEarlier, StartLater} ==> t.endTime == trim.endTime)
      && (s in {EndEarlier, EndLater} ==> t.startTime == trim.startTime)
      && (s !in {StartEarlier, StartLater, EndEarlier, EndLater} ==> t == trim)
      && -0.5 <= t.startTime - trim.startTime <= 0.5
      && -0.5 <= t.endTime - trim.endTime <= 0.5
      && (s == StartEarlier && trim.startTime >= 0.5 ==> t.startTime == trim.startTime - 0.5)
      && (s == StartLater && trim.startTime + 0.6 <= trim.endTime ==> t.startTime == trim.startTime + 0.5)
      && (s == EndEarlier && trim.startTime + 0.6 <= trim.endTime ==> t.endTime == trim.endTime - 0.5)
      && (s == EndLater && trim.endTime + 0.5 <= duration ==> t.endTime == trim.endTime + 0.5)
  {
  }

  /** The seeks move by at most one second and keep a position inside the trim
      range inside it; restart goes to the range start. */
  lemma ShortcutSeekInRange(s: Shortcut, position: real, trim: TrimSettings)
    requires trim.startTime <= position <= trim.endTime
    ensures var p := ShortcutSeek(s, position, trim);
      trim.startTime <= p <= trim.endTime
      && (s != Restart ==> -1.0 <= p - position <= 1.0)
  {
  }

  /** The seeks clamp on one side only: back never goes before the range
      start, forward never past the range end, each moves by at most one
      second, and by exactly one second when that side leaves room. From more
      than a second past the end, back stays past the end; from more than a
      second before the start, forward stays before the start. */
  lemma ShortcutSeekClamps(s: Shortcut, position: real, trim: TrimSettings)
    ensures var p := ShortcutSeek(s, position, trim);
      && (s == SeekBack ==> p >= trim.startTime && p >= position - 1.0
                            && (position - 1.0 >= trim.startTime ==> p == position - 1.0))
      && (s == SeekForward ==> p <= trim.endTime && p <= position + 1.0
                               && (position + 1.0 <= trim.endTime ==> p == position + 1.0))
      && (s == SeekBack && position > trim.endTime + 1.0 && trim.startTime <= trim.endTime ==> p > trim.endTime)
      && (s == SeekForward && position < trim.startTime - 1.0 && trim.startTime <= trim.endTime ==> p < trim.startTime)
  {
  }

  /** The cut button (`Timeline.CutDisabled`) over the status transitions as
      written: a started cut disables it; `cut-done`, `cut-error` and an armed
      reset enable it again for a non-empty range; progress leaves it as it
      was; and an empty or inverted range keeps it disabled whatever the
      status. */
  lemma CutButtonFollowsStatus(c: StatusCell, trim: TrimSettings, e: StatusEvent)
    ensures var next := NextStatusAsWritten(c, e).status;
      && (e.CutStarted? ==> Timeline.CutDisabled(next, trim))
      && ((e.Done? || e.Failed? || (e.ResetFired? && c.resetArmed)) && trim.startTime < trim.endTime ==>
            !Timeline.CutDisabled(next, trim))
      && (e.Progress? ==> Timeline.CutDisabled(next, trim) == Timeline.CutDisabled(c.status, trim))
      && (e.ResetFired? && !c.resetArmed ==> Timeline.CutDisabled(next, trim) == Timeline.CutDisabled(c.status, trim))
      && (trim.endTime <= trim.startTime ==> Timeline.CutDisabled(next, trim))
  {
  }

  // ---------------------------------------------------------------------------
  // The session

  class AppSession {
    var videoFile: Option<VideoFile>
    var trim: TrimSettings
    var status: ProcessingStatus
    /** A "Saved" reset timer is pending. */
    var resetArmed: bool
    /** `stateRestored` */
    var restored: bool
    /** `lastVideoPath` */
    var lastVideoPath: Option<string>
    /** `erroredDeepLinks` */
    var erroredDeepLinks: set<string>
    /** The keys for which the failure alert was shown, in order. */
    ghost var alerted: seq<string>
    /** Messages sent to the host process, in order. */
    var outbox: seq<RendererMessage>

    /** Each errored key was alerted exactly once. */
    ghost predicate Valid()
      reads this
    {
      && (forall i, j :: 0 <= i < j < |alerted| ==> alerted[i] != alerted[j])
      && (set k | k in alerted) == erroredDeepLinks
    }

    function Cell(): StatusCell
      reads this
    {
      StatusCell(status, resetArmed)
    }

    constructor ()
      ensures Valid()
      ensures videoFile == None && trim == TrimSettings(0.0, 0.0) && status == Idle
      ensures !resetArmed && !restored && lastVideoPath == None
      ensures erroredDeepLinks == {} && alerted == [] && outbox == []
    {
      videoFile, trim, status := None, TrimSettings(0.0, 0.0), Idle;
      resetArmed, restored, lastVideoPath := false, false, None;
      erroredDeepLinks, alerted, outbox := {}, [], [];
    }

    method SetVideoFile(f: Option<VideoFile>)
      modifies this`videoFile
      ensures videoFile == f
    {
      videoFile := f;
    }

    /** `handleSliderChange`: both bounds exactly as the slider reports them. */
    method SliderChange(start: real, end: real)
      modifies this`trim
      ensures trim.startTime == start && trim.endTime == end
    {
      trim := TrimSettings(start, end);
    }

    /** `open-file-from-link`: whether metadata loading starts; a path whose
        key has already failed is skipped. */
    method OpenFromLink(path: string) returns (loads: bool)
      ensures loads <==> LinkKey(path) !in erroredDeepLinks
    {
      loads := LinkKey(path) !in erroredDeepLinks;
    }

    /** The link's metadata loaded: the video becomes the path with the name
        of its last segment. */
    method LinkMetadataLoaded(path: string, duration: real)
      modifies this`videoFile
      ensures videoFile == Some(VideoFile(path, NameFromPath(path), duration))
    {
      videoFile := Some(VideoFile(path, NameFromPath(path), duration));
    }

    /** The link's metadata failed: the alert is shown unless the key already
        failed, and the key is remembered. */
    method LinkMetadataFailed(path: string) returns (alert: bool)
      requires Valid()
      modifies this`erroredDeepLinks, this`alerted
      ensures Valid()
      ensures alert <==> LinkKey(path) !in old(erroredDeepLinks)
      ensures erroredDeepLinks == old(erroredDeepLinks) + {LinkKey(path)}
      ensures alerted == old(alerted) + (if alert then [LinkKey(path)] else [])
    {
      var key := LinkKey(path);
      if key in erroredDeepLinks {
        return false;
      }
      erroredDeepLinks := erroredDeepLinks + {key};
      alerted := alerted + [key];
      alert := true;
    }

    /** `restore-state` */
    method OnRestoreState(snap: Snapshot)
      modifies this`videoFile, this`trim, this`restored
      ensures (videoFile, trim) == RestoreOutcome(snap, old(videoFile), old(trim))
      ensures restored
    {
      videoFile, trim := RestoreOutcome(snap, videoFile, trim).0, RestoreOutcome(snap, videoFile, trim).1;
      restored := true;
    }

    /** The one-second fallback timer: the session counts as restored even
        when no snapshot came. */
    method RestoreTimeout()
      modifies this`restored
      ensures restored
    {
      restored := true;
    }

    /** A status event, with the transitions as the source writes them. */
    method Apply(e: StatusEvent)
      modifies this`status, this`resetArmed
      ensures Cell() == NextStatusAsWritten(old(Cell()), e)
    {
      var next := NextStatusAsWritten(Cell(), e);
      status, resetArmed := next.status, next.resetArmed;
    }

    /** `cut-progress` */
    method OnCutProgress(percent: int)
      modifies this`status, this`resetArmed
      ensures status == old(status).(progress := percent) && resetArmed == old(resetArmed)
    {
      Apply(Progress(percent));
    }

    /** `cut-done`: saved, and the reset timer (re-)armed. */
    method OnCutDone(outputPath: string)
      modifies this`status, this`resetArmed
      ensures status == ProcessingStatus(false, 100, Some(outputPath), None) && resetArmed
      ensures trim.startTime < trim.endTime ==> !Timeline.CutDisabled(status, trim)
    {
      Apply(Done(outputPath));
    }

    /** `cut-error` */
    method OnCutError(message: string)
      modifies this`status, this`resetArmed
      ensures status == ProcessingStatus(false, 0, None, Some(message)) && resetArmed == old(resetArmed)
      ensures trim.startTime < trim.endTime ==> !Timeline.CutDisabled(status, trim)
    {
      Apply(Failed(message));
    }

    /** The "Saved" reset timer expires. */
    method ResetTimerFired()
      modifies this`status, this`resetArmed
      ensures old(resetArmed) ==> status == Idle && !resetArmed
      ensures !old(resetArmed) ==> status == old(status) && !resetArmed
    {
      Apply(ResetFired);
    }

    /** The save effect, run after a change of the video file, the trim range
        or the restored flag. */
    method SaveEffect()
      modifies this`outbox
      ensures outbox == old(outbox) + (match SaveRequest(restored, videoFile, trim)
                                        case None => []
                                        case Some(snap) => [SaveState(snap)])
    {
      var request := SaveRequest(restored, videoFile, trim);
      if request.Some? {
        outbox := outbox + [SaveState(request.value)];
      }
    }

    /** The new-video effect, run after a change of the video's path or
        duration, the restored flag or the trim end. */
    method RunNewVideoEffect()
      modifies this`trim, this`lastVideoPath
      ensures (trim, lastVideoPath) == NewVideoEffect(videoFile, old(trim), restored, old(lastVideoPath))
    {
      var r := NewVideoEffect(videoFile, trim, restored, lastVideoPath);
      trim, lastVideoPath := r.0, r.1;
    }

    /** `handleCutVideo`: nothing without a video file; otherwise the player
        is paused at the trim start, the status shows a running cut and the
        host is asked to cut from the start for the range's length. A pending
        "Saved" reset is left armed. */
    method HandleCutVideo(video: Player.Player?)
      modifies this`status, this`resetArmed, this`outbox, video
      ensures old(videoFile).None? ==> status == old(status) && resetArmed == old(resetArmed) && outbox == old(outbox)
      ensures old(videoFile).None? && video != null ==> video.position == old(video.position) && video.playing == old(video.playing)
      ensures old(videoFile).Some? ==>
        && Cell() == NextStatusAsWritten(old(Cell()), CutStarted)
        && status == ProcessingStatus(true, 0, None, None) && resetArmed == old(resetArmed)
        && outbox == old(outbox) + [CutVideo(CutRequest(videoFile.value.path, trim.startTime, trim.endTime - trim.startTime))]
      ensures old(videoFile).Some? && video != null ==> video.position == trim.startTime && !video.playing
      ensures old(videoFile).Some? ==> Timeline.CutDisabled(status, trim)
      ensures video != null ==> video.OnlyElementChanged()
    {
      if videoFile.None? {
        return;
      }
      if video != null {
        video.Pause();
        video.Seek(trim.startTime);
      }
      Apply(CutStarted);
      outbox := outbox + [CutVideo(CutRequest(videoFile.value.path, trim.startTime, trim.endTime - trim.startTime))];
    }

    /** The global `keydown` listener. Nothing happens while typing in a text
        field, without the player or without a video file. The crop moves
        write the trim range, the seeks and restart move the player, Space
        toggles playback and Enter triggers the cut (whether or not the cut
        button is enabled). No key touches a pending "Saved" reset. */
    method KeyDown(code: string, shift: bool, alt: bool, inTextField: bool, video: Player.Player?, playAllowed: bool)
      modifies this`trim, this`status, this`resetArmed, this`outbox, video
      ensures var s := ShortcutFor(code, shift, alt);
        var active := !inTextField && video != null && old(videoFile).Some?;
        && (active && s != CutShortcut ==> trim == ShortcutTrim(s, old(trim), old(videoFile).value.duration))
        && resetArmed == old(resetArmed)
        && (!active || s != CutShortcut ==> status == old(status) && outbox == old(outbox))
        && (!active ==> trim == old(trim))
        && (active && s == CutShortcut ==>
              (trim == old(trim) && status == ProcessingStatus(true, 0, None, None)
               && video.position == old(trim).startTime && !video.playing
               && outbox == old(outbox) + [CutVideo(CutRequest(old(videoFile).value.path, old(trim).startTime, old(trim).endTime - old(trim).startTime))]))
        && (active && s in {Restart, SeekBack, SeekForward} ==> video.position == ShortcutSeek(s, old(video.position), old(trim)))
        && (active && s == PlayPause && old(video.isPlaying) ==> !video.playing)
        && (active && s == PlayPause && !old(video.isPlaying) ==> video.playing == (old(video.playing) || playAllowed))
        && (video != null && !active ==> video.position == old(video.position) && video.playing == old(video.playing))
        && (active && s !in {Restart, SeekBack, SeekForward, CutShortcut} ==> video.position == old(video.position))
        && (active && s != PlayPause && s != CutShortcut ==> video.playing == old(video.playing))
        && (video != null ==> video.OnlyElementChanged())
    {
      if inTextField || video == null || videoFile.None? {
        return;
      }
      var s := ShortcutFor(code, shift, alt);
      match s {
        case PlayPause =>
          video.TogglePlay(playAllowed);
        case CutShortcut =>
          HandleCutVideo(video);
        case Restart =>
          video.Seek(ShortcutSeek(s, video.position, trim));
        case SeekBack =>
          video.Seek(ShortcutSeek(s, video.position, trim));
        case SeekForward =>
          video.Seek(ShortcutSeek(s, video.position, trim));
        case _ =>
          trim := ShortcutTrim(s, trim, videoFile.value.duration);
      }
    }
  }
}
