/** The two-thumb range slider (src/renderer/components/MultiRangeSlider.tsx):
    pointer-to-value mapping with snapping, dragging either thumb, clicking the
    track, and keyboard moves of the focused thumb. Every change is reported
    as a new `(start, end)` pair, modelled as a `TrimSettings` value. */
module RangeSlider {
  import opened Wrappers
  import opened Types

  function Min(a: real, b: real): real { if a <= b then a else b }
  function Max(a: real, b: real): real { if a >= b then a else b }
  function Abs(a: real): real { if a >= 0.0 then a else -a }

  /** `Math.round`: the nearest integer, halves rounded up. */
  function Round(x: real): (r: int)
    ensures x - 0.5 < r as real <= x + 0.5
  {
    (x + 0.5).Floor
  }

  /** The bounding box of the track, horizontally. */
  datatype Rect = Rect(left: real, width: real)

  datatype Thumb = StartThumb | EndThumb

  datatype Key = ArrowLeft | ArrowRight | PageUp | PageDown | Home | End | OtherKey

  /** `getPercent`: where a value sits along the track, in percent. */
  function GetPercent(value: real, min: real, max: real): (p: real)
    requires min < max
    ensures min <= value <= max ==> 0.0 <= p <= 100.0
    ensures value == min ==> p == 0.0
    ensures value == max ==> p == 100.0
  {
    var d := max - min;
    assert min <= value <= max ==> 0.0 <= (value - min) / d <= 1.0 by {
      if min <= value <= max {
        DivBounds(value - min, d);
      }
    }
    (value - min) / d * 100.0
  }

  lemma DivBounds(a: real, d: real)
    requires 0.0 <= a <= d && d > 0.0
    ensures 0.0 <= a / d <= 1.0
  {
  }

  lemma ScaleInto(f: real, lo: real, hi: real)
    requires 0.0 <= f <= 1.0 && lo <= hi
    ensures lo <= f * (hi - lo) + lo <= hi
  {
    var d := hi - lo;
    assert f * d <= d by {
      assert d - f * d == (1.0 - f) * d;
      assert (1.0 - f) * d >= 0.0;
    }
    assert f * d >= 0.0;
  }

  /** The pointer's position along the track in percent, clamped to [0, 100]. */
  function PointerPercent(clientX: real, track: Rect): (p: real)
    requires track.width > 0.0
    ensures 0.0 <= p <= 100.0
  {
    Max(0.0, Min(100.0, (clientX - track.left) / track.width * 100.0))
  }

  /** The value under the pointer before snapping. */
  function PointerValue(clientX: real, track: Rect, min: real, max: real): real
    requires track.width > 0.0
  {
    PointerPercent(clientX, track) / 100.0 * (max - min) + min
  }

  /** `Math.round(value / step) * step`: the multiple of `step` nearest to `value`. */
  function Snap(value: real, step: real): real
    requires step > 0.0
  {
    Round(value / step) as real * step
  }

  /** `getValueFromMouseEvent`: `min` when the track is not mounted, otherwise
      the pointer's value snapped to the step. */
  function ValueFromPointer(clientX: real, track: Option<Rect>, min: real, max: real, step: real): real
    requires track.Some? ==> track.value.width > 0.0
    requires step > 0.0
  {
    match track
    case None => min
    case Some(rect) => Snap(PointerValue(clientX, rect, min, max), step)
  }

  /** Before snapping, the pointer's value lies on the track: in [min, max]. */
  lemma PointerValueOnTrack(clientX: real, track: Rect, min: real, max: real)
    requires track.width > 0.0 && min <= max
    ensures min <= PointerValue(clientX, track, min, max) <= max
  {
    ScaleInto(PointerPercent(clientX, track) / 100.0, min, max);
  }

  /** `getPercent` undoes the pointer-to-value mapping: the value under the
      pointer is drawn where the pointer is. */
  lemma PercentOfPointerValue(clientX: real, track: Rect, min: real, max: real)
    requires track.width > 0.0 && min < max
    ensures GetPercent(PointerValue(clientX, track, min, max), min, max) == PointerPercent(clientX, track)
  {
    var p := PointerPercent(clientX, track);
    var d := max - min;
    assert (p / 100.0 * d) / d == p / 100.0;
  }

  lemma MulNonNegative(a: real, c: real)
    requires a >= 0.0 && c > 0.0
    ensures a * c >= 0.0
  {
  }
  lemma MulPositive(a: real, c: real)
    requires a > 0.0 && c > 0.0
    ensures a * c > 0.0
  {
  }
  lemma MulMono(a: real, b: real, c: real)
    requires a <= b && c > 0.0
    ensures a * c <= b * c
  {
    assert b * c - a * c == (b - a) * c;
    MulNonNegative(b - a, c);
  }

  lemma MulDistributes(a: real, b: real, c: real)
    ensures (a - b) * c == a * c - b * c
  {
  }

  lemma QuotientTimesDivisor(a: real, b: real)
    requires b != 0.0
    ensures (a / b) * b == a
  {
  }
  /** `m·step - value == (m - value / step)·step`. */
  lemma MultipleOffset(value: real, step: real, m: real)
    requires step > 0.0
    ensures m * step - value == (m - value / step) * step
  {
    QuotientTimesDivisor(value, step);
    MulDistributes(m, value / step, step);
  }

  lemma MulAddDistributes(a: real, b: real, c: real)
    ensures (a + b) * c == a * c + b * c
  {
  }

  /** Snapping moves a value by at most half a step ... */
  lemma SnapWithinHalfStep(value: real, step: real)
    requires step > 0.0
    ensures value - step / 2.0 < Snap(value, step) <= value + step / 2.0
  {
    var d := Round(value / step) as real - value / step;
    MultipleOffset(value, step, Round(value / step) as real);
    var e := d * step;
    assert Snap(value, step) == value + e;
    assert -0.5 < d <= 0.5;
    MulMono(d, 0.5, step);
    assert e <= 0.5 * step;
    MulPositive(d + 0.5, step);
    MulAddDistributes(d, 0.5, step);
    assert e > -0.5 * step;
  }

  /** A multiple at least one further step up lies a whole step higher. */
  lemma StepAbove(r: real, kr: real, step: real, snapped: real, other: real)
    requires kr >= r + 1.0 && step > 0.0 && snapped == r * step && other == kr * step
    ensures other >= snapped + step
  {
    MulMono(r + 1.0, kr, step);
    MulAddDistributes(r, 1.0, step);
  }

  /** A multiple at least one further step down lies a whole step lower. */
  lemma StepBelow(r: real, kr: real, step: real, snapped: real, other: real)
    requires kr <= r - 1.0 && step > 0.0 && snapped == r * step && other == kr * step
    ensures other <= snapped - step
  {
    MulMono(kr, r - 1.0, step);
    MulDistributes(r, 1.0, step);
  }

  /** A point within half a step of `value` is nearer to it than any point a
      whole step further from that point. */
  lemma NearerThanAStepAway(value: real, step: real, snapped: real, other: real)
    requires step > 0.0 && value - step / 2.0 < snapped <= value + step / 2.0
    requires other >= snapped + step || other <= snapped - step
    ensures Abs(snapped - value) <= Abs(other - value)
  {
  }

  /** ... and lands on a multiple of `step` at least as near as any other. */
  lemma SnapIsNearest(value: real, step: real, k: int)
    requires step > 0.0
    ensures Abs(Snap(value, step) - value) <= Abs(k as real * step - value)
  {
    var r := Round(value / step) as real;
    var kr := k as real;
    var snapped, other := Snap(value, step), kr * step;
    assert snapped == r * step;
    assert value - step / 2.0 < snapped <= value + step / 2.0 by {
      SnapWithinHalfStep(value, step);
    }
    if kr >= r + 1.0 {
      StepAbove(r, kr, step, snapped, other);
      NearerThanAStepAway(value, step, snapped, other);
    } else if kr <= r - 1.0 {
      StepBelow(r, kr, step, snapped, other);
      NearerThanAStepAway(value, step, snapped, other);
    } else {
      assert k == Round(value / step);
    }
  }

  // ---------------------------------------------------------------------------
  // The pairs that each handler reports through `onChange`

  /** Dragging the start thumb to `value`. */
  function DragStart(value: real, current: TrimSettings, min: real, step: real): (r: TrimSettings)
    ensures r.endTime == current.endTime
  {
    TrimSettings(Max(min, Min(value, current.endTime - step)), current.endTime)
  }

  /** Dragging the end thumb to `value`. */
  function DragEnd(value: real, current: TrimSettings, max: real, step: real): (r: TrimSettings)
    ensures r.startTime == current.startTime
  {
    TrimSettings(current.startTime, Min(max, Max(value, current.startTime + step)))
  }

  predicate Holds(t: TrimSettings, min: real, max: real, step: real) {
    RangeOk(min, max, step, t.startTime, t.endTime)
  }

  /** Dragging the start thumb keeps the range invariant; a value past
      `end - step` stops exactly there, one inside the room is taken as is. */
  lemma DragStartKeepsRange(value: real, current: TrimSettings, min: real, max: real, step: real)
    requires Holds(current, min, max, step)
    ensures Holds(DragStart(value, current, min, step), min, max, step)
    ensures value >= current.endTime - step ==> DragStart(value, current, min, step).startTime == current.endTime - step
    ensures min <= value <= current.endTime - step ==> DragStart(value, current, min, step).startTime == value
    ensures value <= min ==> DragStart(value, current, min, step).startTime == min
  {
  }

  /** The mirror image for the end thumb. */
  lemma DragEndKeepsRange(value: real, current: TrimSettings, min: real, max: real, step: real)
    requires Holds(current, min, max, step)
    ensures Holds(DragEnd(value, current, max, step), min, max, step)
    ensures value <= current.startTime + step ==> DragEnd(value, current, max, step).endTime == current.startTime + step
    ensures current.startTime + step <= value <= max ==> DragEnd(value, current, max, step).endTime == value
    ensures value >= max ==> DragEnd(value, current, max, step).endTime == max
  {
  }

  /** `handleTrackClick` as written: the closer thumb moves to `value`, clamped
      only against the other thumb (a tie moves the end thumb). */
  function ClickAsWritten(value: real, current: TrimSettings, step: real): TrimSettings {
    if Abs(value - current.startTime) < Abs(value - current.endTime) then
      TrimSettings(Min(value, current.endTime - step), current.endTime)
    else
      TrimSettings(current.startTime, Max(value, current.startTime + step))
  }

  /** The click as the range invariant needs it: the closer thumb moves with the
      same clamp a drag applies. */
  function Click(value: real, current: TrimSettings, min: real, max: real, step: real): TrimSettings {
    if Abs(value - current.startTime) < Abs(value - current.endTime) then
      DragStart(value, current, min, step)
    else
      DragEnd(value, current, max, step)
  }

  /** As written, the click keeps the gap between the thumbs, and keeps them on
      the track exactly when the clicked value is on the track. */
  lemma ClickAsWrittenKeepsGap(value: real, current: TrimSettings, min: real, max: real, step: real)
    requires Holds(current, min, max, step)
    ensures var r := ClickAsWritten(value, current, step);
      r.startTime + step <= r.endTime
      && (min <= value <= max ==> Holds(r, min, max, step))
  {
  }

  /** The snapped value can lie beyond `max` when `max` is not a multiple of the
      step, and the click as written then puts the end thumb there: on a
      10.05 s video with step 0.1, a click at the right edge of the track
      sets the end to 10.1. */
  lemma ClickAsWrittenLeavesTrack()
    ensures var track := Rect(0.0, 100.0);
      var current := TrimSettings(0.0, 5.0);
      var value := ValueFromPointer(100.0, Some(track), 0.0, 10.05, 0.1);
      value == 10.1
      && Holds(current, 0.0, 10.05, 0.1)
      && ClickAsWritten(value, current, 0.1).endTime == 10.1
      && !Holds(ClickAsWritten(value, current, 0.1), 0.0, 10.05, 0.1)
  {
    var track := Rect(0.0, 100.0);
    assert PointerPercent(100.0, track) == 100.0;
    assert PointerValue(100.0, track, 0.0, 10.05) == 10.05;
    assert Round(10.05 / 0.1) == 101 by {
      assert 10.05 / 0.1 == 100.5;
    }
  }

  /** The corrected click keeps the range invariant for every value, moves only
      the strictly closer thumb, and moves the end thumb on a tie. */
  lemma ClickKeepsRange(value: real, current: TrimSettings, min: real, max: real, step: real)
    requires Holds(current, min, max, step)
    ensures Holds(Click(value, current, min, max, step), min, max, step)
    ensures Abs(value - current.startTime) < Abs(value - current.endTime)
            ==> Click(value, current, min, max, step).endTime == current.endTime
    ensures Abs(value - current.startTime) >= Abs(value - current.endTime)
            ==> Click(value, current, min, max, step).startTime == current.startTime
    ensures min <= value <= max ==> Click(value, current, min, max, step) == ClickAsWritten(value, current, step)
  {
  }

  /** `handleKeyDown` for the focused thumb; `None` when the key is not one the
      thumb handles. */
  function KeyMove(key: Key, thumb: Thumb, current: TrimSettings, min: real, max: real, step: real): Option<TrimSettings> {
    var s, e, large := current.startTime, current.endTime, step * 10.0;
    match thumb
    case StartThumb =>
      (match key
       case ArrowLeft => Some(TrimSettings(Max(min, s - step), e))
       case ArrowRight => Some(TrimSettings(Min(e - step, s + step), e))
       case PageDown => Some(TrimSettings(Max(min, s - large), e))
       case PageUp => Some(TrimSettings(Min(e - step, s + large), e))
       case Home => Some(TrimSettings(min, e))
       case _ => None)
    case EndThumb =>
      (match key
       case ArrowLeft => Some(TrimSettings(s, Max(s + step, e - step)))
       case ArrowRight => Some(TrimSettings(s, Min(max, e + step)))
       case PageDown => Some(TrimSettings(s, Max(s + step, e - large)))
       case PageUp => Some(TrimSettings(s, Min(max, e + large)))
       case End => Some(TrimSettings(s, max))
       case _ => None)
  }

  /** Keyboard moves keep the range invariant and move only the focused thumb:
      by at most one step for the arrows, at most ten for the page keys, and
      by exactly that much when there is room. */
  lemma KeyMoveKeepsRange(key: Key, thumb: Thumb, current: TrimSettings, min: real, max: real, step: real)
    requires Holds(current, min, max, step) && step > 0.0
    ensures var r := KeyMove(key, thumb, current, min, max, step);
      && (r.Some? ==> Holds(r.value, min, max, step))
      && (r.Some? && thumb == StartThumb ==> r.value.endTime == current.endTime)
      && (r.Some? && thumb == EndThumb ==> r.value.startTime == current.startTime)
      && (r.None? <==> (key == OtherKey || (thumb == StartThumb && key == End) || (thumb == EndThumb && key == Home)))
      && (key in {ArrowLeft, ArrowRight} && r.Some? ==>
            Abs(r.value.startTime - current.startTime) <= step && Abs(r.value.endTime - current.endTime) <= step)
      && (key in {PageUp, PageDown} && r.Some? ==>
            Abs(r.value.startTime - current.startTime) <= 10.0 * step && Abs(r.value.endTime - current.endTime) <= 10.0 * step)
      && (thumb == StartThumb && key == ArrowLeft && current.startTime - step >= min ==> r == Some(TrimSettings(current.startTime - step, current.endTime)))
      && (thumb == EndThumb && key == ArrowRight && current.endTime + step <= max ==> r == Some(TrimSettings(current.startTime, current.endTime + step)))
      && (thumb == StartThumb && key == Home ==> r == Some(TrimSettings(min, current.endTime)))
      && (thumb == EndThumb && key == End ==> r == Some(TrimSettings(current.startTime, max)))
  {
  }

  /** The slider's own state: the value pair it shows (its `startValue` and
      `endValue` props, which `onChange` writes back), the two drag flags and
      the thumb that has keyboard focus. */
  class Slider {
    const min: real
    const max: real
    const step: real
    var range: TrimSettings
    var draggingStart: bool
    var draggingEnd: bool
    var focus: Option<Thumb>

    predicate Configured()
      reads this
    {
      0.0 < step && min <= max
    }

    /** The range invariant `min <= start`, `start + step <= end <= max`. */
    predicate Valid()
      reads this
    {
      Holds(range, min, max, step)
    }

    constructor (min: real, max: real, step: real, range: TrimSettings)
      ensures this.min == min && this.max == max && this.step == step && this.range == range
      ensures !draggingStart && !draggingEnd && focus == None
    {
      this.min, this.max, this.step, this.range := min, max, step, range;
      draggingStart, draggingEnd, focus := false, false, None;
    }

    /** New `startValue`/`endValue` props from the owner. */
    method SetRange(r: TrimSettings)
      modifies this`range
      ensures range == r
    {
      range := r;
    }

    /** A mouse-down on a thumb starts that thumb's drag. */
    method MouseDown(thumb: Thumb)
      modifies this`draggingStart, this`draggingEnd
      ensures draggingStart == (old(draggingStart) || thumb == StartThumb)
      ensures draggingEnd == (old(draggingEnd) || thumb == EndThumb)
    {
      if thumb == StartThumb {
        draggingStart := true;
      } else {
        draggingEnd := true;
      }
    }

    /** A mouse-up anywhere ends both drags. */
    method MouseUp()
      modifies this`draggingStart, this`draggingEnd
      ensures !draggingStart && !draggingEnd
    {
      draggingStart, draggingEnd := false, false;
    }

    /** A pointer move while a thumb is dragged; the start drag wins when both
        flags are set. */
    method MouseMove(clientX: real, track: Option<Rect>)
      requires Configured()
      requires track.Some? ==> track.value.width > 0.0
      modifies this`range
      ensures var value := ValueFromPointer(clientX, track, min, max, step);
        range == (if old(draggingStart) then DragStart(value, old(range), min, step)
                  else if old(draggingEnd) then DragEnd(value, old(range), max, step)
                  else old(range))
      ensures old(Valid()) ==> Valid()
    {
      if !draggingStart && !draggingEnd {
        return;
      }
      var value := ValueFromPointer(clientX, track, min, max, step);
      if draggingStart {
        if Valid() {
          DragStartKeepsRange(value, range, min, max, step);
        }
        range := DragStart(value, range, min, step);
      } else {
        if Valid() {
          DragEndKeepsRange(value, range, min, max, step);
        }
        range := DragEnd(value, range, max, step);
      }
    }

    /** A click on the track jumps the closer thumb there, unless a thumb is
        being dragged. As written the click is clamped only against the other
        thumb, so the range stays valid when the clicked value is on the track
        and otherwise only the gap between the thumbs is kept. */
    method TrackClick(clientX: real, track: Option<Rect>)
      requires Configured()
      requires track.Some? ==> track.value.width > 0.0
      modifies this`range
      ensures range == (if old(draggingStart) || old(draggingEnd) then old(range)
                        else ClickAsWritten(ValueFromPointer(clientX, track, min, max, step), old(range), step))
      ensures old(Valid()) ==> range.startTime + step <= range.endTime
      ensures old(Valid()) && min <= ValueFromPointer(clientX, track, min, max, step) <= max ==> Valid()
    {
      if draggingStart || draggingEnd {
        return;
      }
      var value := ValueFromPointer(clientX, track, min, max, step);
      if Valid() {
        ClickAsWrittenKeepsGap(value, range, min, max, step);
      }
      range := ClickAsWritten(value, range, step);
    }

    /** Keyboard focus moves to a thumb, or away from both. */
    method SetFocus(thumb: Option<Thumb>)
      modifies this`focus
      ensures focus == thumb
    {
      focus := thumb;
    }

    /** A key press: ignored unless a thumb has focus; `handled` is whether the
        default action is prevented. */
    method KeyDown(key: Key) returns (handled: bool)
      requires Configured()
      modifies this`range
      ensures handled <==> focus.Some? && KeyMove(key, focus.value, old(range), min, max, step).Some?
      ensures range == (if handled then KeyMove(key, focus.value, old(range), min, max, step).value else old(range))
      ensures old(Valid()) ==> Valid()
    {
      if focus.None? {
        return false;
      }
      var moved := KeyMove(key, focus.value, range, min, max, step);
      if Valid() {
        KeyMoveKeepsRange(key, focus.value, range, min, max, step);
      }
      handled := moved.Some?;
      if handled {
        range := moved.value;
      }
    }
  }
}
