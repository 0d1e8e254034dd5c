/** The footer under the player (src/renderer/components/TimelineControls.tsx):
    the progress bar with click-to-seek and hover time, the elapsed readout,
    the trim slider's configuration and the cut button's enable rule. */
module Timeline {
  import opened Wrappers
  import opened Types
  import TimeFormat
  import RangeSlider
  import Player

  /** The step of the trim slider, in seconds. */
  const SliderStep: real := 0.1

  /** Where the pointer is along the progress bar, as a fraction of its width
      (not clamped: the bar's padding lets it fall slightly outside). */
  function Fraction(clientX: real, bar: RangeSlider.Rect): real
    requires bar.width > 0.0
  {
    (clientX - bar.left) / bar.width
  }

  /** `progressPercent`: how far the position is through the trim range, in
      percent. `None` is JavaScript's NaN (0/0, position at the start of an
      empty range); a division by zero otherwise gives ±Infinity, which the
      clamp turns into 100 or 0. */
  function ProgressPercent(currentTime: real, trim: TrimSettings): (p: Option<real>)
    ensures p.None? <==> trim.endTime == trim.startTime && currentTime == trim.startTime
    ensures p.Some? ==> 0.0 <= p.value <= 100.0
    ensures trim.startTime < trim.endTime && trim.startTime <= currentTime <= trim.endTime ==>
      p == Some(RangeSlider.GetPercent(currentTime, trim.startTime, trim.endTime))
  {
    var d := trim.endTime - trim.startTime;
    var offset := currentTime - trim.startTime;
    if d == 0.0 then
      if offset == 0.0 then None
      else if offset > 0.0 then Some(100.0)
      else Some(0.0)
    else
      Some(RangeSlider.Max(0.0, RangeSlider.Min(100.0, offset / d * 100.0)))
  }

  /** `handleProgressBarClick`'s target: the point at that fraction of the
      trim range, clamped into it. */
  function ClickSeekTarget(clientX: real, bar: RangeSlider.Rect, trim: TrimSettings): real
    requires bar.width > 0.0
  {
    var newTime := trim.startTime + Fraction(clientX, bar) * (trim.endTime - trim.startTime);
    RangeSlider.Max(trim.startTime, RangeSlider.Min(trim.endTime, newTime))
  }

  /** `handleProgressBarMouseMove`'s time: the same fraction of the trim
      range, measured from the range start. */
  function HoverTime(clientX: real, bar: RangeSlider.Rect, trim: TrimSettings): real
    requires bar.width > 0.0
  {
    Fraction(clientX, bar) * (trim.endTime - trim.startTime)
  }

  /** A click seeks into the trim range, to the hover time past the range
      start; inside the bar it is exactly that point. */
  lemma ClickSeekInRange(clientX: real, bar: RangeSlider.Rect, trim: TrimSettings)
    requires bar.width > 0.0 && trim.startTime <= trim.endTime
    ensures trim.startTime <= ClickSeekTarget(clientX, bar, trim) <= trim.endTime
    ensures ClickSeekTarget(clientX, bar, trim)
         == RangeSlider.Max(trim.startTime, RangeSlider.Min(trim.endTime, trim.startTime + HoverTime(clientX, bar, trim)))
    ensures 0.0 <= Fraction(clientX, bar) <= 1.0 ==>
      ClickSeekTarget(clientX, bar, trim) == trim.startTime + HoverTime(clientX, bar, trim)
  {
    if 0.0 <= Fraction(clientX, bar) <= 1.0 {
      RangeSlider.ScaleInto(Fraction(clientX, bar), trim.startTime, trim.endTime);
    }
  }

  /** The elapsed readout `max(0, currentTime - startTime)`: never negative,
      and the time past the range start once the position is past it. */
  function Elapsed(currentTime: real, trim: TrimSettings): (e: real)
    ensures e >= 0.0
    ensures currentTime >= trim.startTime ==> e + trim.startTime == currentTime
    ensures currentTime < trim.startTime ==> e == 0.0
  {
    RangeSlider.Max(0.0, currentTime - trim.startTime)
  }

  /** The cut button's `disabled` rule. */
  predicate CutDisabled(status: ProcessingStatus, trim: TrimSettings) {
    status.isProcessing || trim.endTime - trim.startTime <= 0.0
  }

  /** What the footer shows: `None` without a video file. */
  datatype View = View(
    title: string,
    elapsed: string,
    trimmedDuration: string,
    progress: Option<real>,
    startLabel: string,
    endLabel: string,
    cutDisabled: bool)

  function Render(videoFile: Option<VideoFile>, trim: TrimSettings, status: ProcessingStatus, currentTime: real): (v: Option<View>)
    ensures v.None? <==> videoFile.None?
    ensures v.Some? ==> v.value.title == videoFile.value.name
    ensures v.Some? ==> (v.value.cutDisabled <==> CutDisabled(status, trim))
    ensures v.Some? ==> v.value.elapsed == TimeFormat.FormatTime(Elapsed(currentTime, trim))
  {
    match videoFile
    case None => None
    case Some(f) =>
      Some(View(
        f.name,
        TimeFormat.FormatTime(Elapsed(currentTime, trim)),
        TimeFormat.FormatTime(trim.endTime - trim.startTime),
        ProgressPercent(currentTime, trim),
        TimeFormat.FormatTime(trim.startTime),
        TimeFormat.FormatTime(trim.endTime) + " / " + TimeFormat.FormatTime(f.duration),
        CutDisabled(status, trim)))
  }

  /** The trim slider for a loaded video: from 0 to the video's duration in
      steps of 0.1 s, showing the current trim range. */
  method MountSlider(video: VideoFile, trim: TrimSettings) returns (slider: RangeSlider.Slider)
    ensures fresh(slider)
    ensures slider.min == 0.0 && slider.max == video.duration && slider.step == SliderStep
    ensures slider.range == trim
    ensures !slider.draggingStart && !slider.draggingEnd && slider.focus == None
  {
    slider := new RangeSlider.Slider(0.0, video.duration, SliderStep, trim);
  }

  /** `handleProgressBarClick`: without the bar or the player nothing
      happens; otherwise the player seeks to the click target. */
  method ProgressBarClick(clientX: real, bar: Option<RangeSlider.Rect>, video: Player.Player?, trim: TrimSettings)
    requires bar.Some? ==> bar.value.width > 0.0
    modifies video
    ensures video != null && bar.Some? ==> video.position == ClickSeekTarget(clientX, bar.value, trim)
    ensures video != null && bar.Some? && trim.startTime <= trim.endTime ==>
      trim.startTime <= video.position <= trim.endTime
    ensures video != null ==> video.playing == old(video.playing) && video.OnlyElementChanged()
    ensures video != null && bar.None? ==> video.position == old(video.position)
  {
    if bar.None? || video == null {
      return;
    }
    var target := ClickSeekTarget(clientX, bar.value, trim);
    if trim.startTime <= trim.endTime {
      ClickSeekInRange(clientX, bar.value, trim);
    }
    video.Seek(target);
  }

  /** The footer's play button (the same rule as the player's own). */
  method TogglePlay(video: Player.Player?, allowed: bool)
    modifies video
    ensures video != null && old(video.isPlaying) ==> !video.playing
    ensures video != null && !old(video.isPlaying) ==> video.playing == (old(video.playing) || allowed)
    ensures video != null ==> video.position == old(video.position) && video.OnlyElementChanged()
  {
    if video == null {
      return;
    }
    video.TogglePlay(allowed);
  }
}
