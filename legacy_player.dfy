/** The older Vue player component (video-player.js): `setCurrentTime`, which
    truncates the requested time and calls itself again until it lands in
    the trim range, the `startTime`/`endTime` watchers and `togglePlay`.
    Whether the recursion ends depends on the trim bounds, which the
    component never checks: `Settle` is the recursion with a bound on the
    number of calls, and the lemmas say for which bounds it ends. */
module LegacyPlayer {
  import opened Wrappers
  import TimeFormat

  /** `parseInt(time)` on a number: the integer part, truncated toward zero. */
  function ParseInt(time: real): (r: real)
    ensures r == r.Floor as real
    ensures time >= 0.0 ==> r <= time < r + 1.0
    ensures time < 0.0 ==> r - 1.0 < time <= r
  {
    TimeFormat.Trunc(time) as real
  }

  predicate IsInteger(x: real) {
    x == x.Floor as real
  }

  lemma ParseIntOfInteger(x: real)
    requires IsInteger(x)
    ensures ParseInt(x) == x
  {
  }

  /** The time the call chain of `setCurrentTime(time)` ends at, or `None`
      when it makes more than `calls` calls. */
  function Settle(calls: nat, time: real, startTime: real, endTime: real, loop: bool): Option<real>
    decreases calls
  {
    if calls == 0 then None
    else
      var t := ParseInt(time);
      if t > endTime && !loop then Settle(calls - 1, endTime, startTime, endTime, loop)
      else if t < startTime then Settle(calls - 1, startTime, startTime, endTime, loop)
      else if t >= endTime && loop then Settle(calls - 1, startTime, startTime, endTime, loop)
      else Some(t)
  }

  /** The bounds under which the recursion ends: whole seconds, a start not
      after the end, and in loop mode a start strictly before it. */
  predicate SettlingBounds(startTime: real, endTime: real, loop: bool) {
    IsInteger(startTime) && IsInteger(endTime) && (if loop then startTime < endTime else startTime <= endTime)
  }

  /** Where the chain lands: past the end without loop, the end; before the
      start, the start; at or past the end in loop mode, the start;
      otherwise the whole seconds of the request. */
  function Landing(time: real, startTime: real, endTime: real, loop: bool): real {
    var t := ParseInt(time);
    if t > endTime && !loop then endTime
    else if t < startTime || (t >= endTime && loop) then startTime
    else t
  }

  /** Under those bounds the recursion ends within two calls, in the range. */
  lemma Settles(calls: nat, time: real, startTime: real, endTime: real, loop: bool)
    requires SettlingBounds(startTime, endTime, loop) && calls >= 2
    ensures Settle(calls, time, startTime, endTime, loop) == Some(Landing(time, startTime, endTime, loop))
    ensures startTime <= Landing(time, startTime, endTime, loop) <= endTime
  {
    ParseIntOfInteger(startTime);
    ParseIntOfInteger(endTime);
  }

  /** With a fractional start (its integer part below it), a chain that
      reaches the start never ends: each call goes back to the start. */
  lemma {:induction false} FractionalStartNeverSettles(calls: nat, startTime: real, endTime: real, loop: bool)
    requires ParseInt(startTime) < startTime
    requires loop || ParseInt(startTime) <= endTime
    ensures Settle(calls, startTime, startTime, endTime, loop) == None
    decreases calls
  {
    if calls > 0 {
      FractionalStartNeverSettles(calls - 1, startTime, endTime, loop);
    }
  }

  /** So with loop on and a fractional start, reaching the end never ends. */
  lemma FractionalStartLoopDiverges(calls: nat, time: real, startTime: real, endTime: real)
    requires ParseInt(startTime) < startTime && ParseInt(time) >= endTime
    ensures Settle(calls, time, startTime, endTime, true) == None
  {
    if calls > 0 {
      FractionalStartNeverSettles(calls - 1, startTime, endTime, true);
    }
  }

  /** In loop mode with an empty whole-second range no request ends: the
      first call goes to the start, which is also the end, and from there
      every call goes back to it. */
  lemma {:induction false} EmptyLoopNeverSettles(calls: nat, time: real, startTime: real)
    requires IsInteger(startTime)
    ensures Settle(calls, time, startTime, startTime, true) == None
    decreases calls
  {
    if calls > 0 {
      ParseIntOfInteger(startTime);
      EmptyLoopNeverSettles(calls - 1, startTime, startTime);
    }
  }

  /** Fractional bounds do not always diverge: past a fractional end without
      loop the chain lands on the end's whole seconds, with loop it lands on
      the start, and a request inside a range with a fractional start stays. */
  lemma FractionalBoundsCanSettle(calls: nat)
    requires calls >= 2
    ensures Settle(calls, 7.0, 0.0, 5.5, false) == Some(5.0)
    ensures Settle(calls, 7.0, 0.0, 5.5, true) == Some(0.0)
    ensures Settle(calls, 5.0, 2.5, 10.0, false) == Some(5.0)
  {
    assert ParseInt(5.5) == 5.0 && ParseInt(7.0) == 7.0 && ParseInt(5.0) == 5.0 && ParseInt(0.0) == 0.0 by {
      ParseIntOfInteger(7.0);
      ParseIntOfInteger(5.0);
      ParseIntOfInteger(0.0);
    }
  }

  /** Without loop and with the start after the end, no request ever settles:
      every time is past the end or before the start. */
  lemma {:induction false} InvertedRangeNeverSettles(calls: nat, time: real, startTime: real, endTime: real)
    requires IsInteger(startTime) && IsInteger(endTime) && startTime > endTime
    ensures Settle(calls, time, startTime, endTime, false) == None
    decreases calls
  {
    if calls > 0 {
      var t := ParseInt(time);
      if t > endTime {
        InvertedRangeNeverSettles(calls - 1, endTime, startTime, endTime);
      } else {
        InvertedRangeNeverSettles(calls - 1, startTime, startTime, endTime);
      }
    }
  }

  class Player {
    /** The `startTime`, `endTime` and `loop` props. */
    var startTime: real
    var endTime: real
    var loop: bool
    /** The component's `currentTime`. */
    var currentTime: real
    /** The media element's `currentTime`, `paused` and `ended`. */
    var position: real
    var paused: bool
    var ended: bool

    constructor (startTime: real, endTime: real, loop: bool)
      ensures this.startTime == startTime && this.endTime == endTime && this.loop == loop
      ensures currentTime == 0.0 && position == 0.0 && paused && !ended
    {
      this.startTime, this.endTime, this.loop := startTime, endTime, loop;
      currentTime, position, paused, ended := 0.0, 0.0, true, false;
    }

    /** The number of further calls a request makes under settling bounds. */
    function Redirects(time: real): nat
      reads this
    {
      var t := ParseInt(time);
      if (t > endTime && !loop) || t < startTime || (t >= endTime && loop) then 1 else 0
    }

    /** `setCurrentTime(time, updateVideo)` under the bounds that make it end.
        The component's time becomes the landing time; the element follows
        when asked to or when a call was redirected. Past the end without
        loop the element is paused; landing on the start in loop mode while
        paused asks to play (`allowed` says whether it may). */
    method SetCurrentTime(time: real, updateVideo: bool, allowed: bool)
      requires SettlingBounds(startTime, endTime, loop)
      modifies this`currentTime, this`position, this`paused
      decreases Redirects(time)
      ensures Some(currentTime) == Settle(2, time, startTime, endTime, loop)
      ensures currentTime == Landing(time, startTime, endTime, loop)
      ensures startTime <= currentTime <= endTime
      ensures position == if updateVideo || Redirects(time) > 0 then currentTime else old(position)
      ensures !loop ==> paused == (old(paused) || ParseInt(time) > endTime)
      ensures loop && currentTime == startTime && old(paused) ==> paused == !allowed
      ensures loop && !(currentTime == startTime && old(paused)) ==> paused == old(paused)
    {
      Settles(2, time, startTime, endTime, loop);
      ParseIntOfInteger(startTime);
      ParseIntOfInteger(endTime);
      var t := ParseInt(time);
      if t > endTime && !loop {
        paused := true;
        SetCurrentTime(endTime, true, allowed);
        return;
      } else if t < startTime {
        SetCurrentTime(startTime, true, allowed);
        return;
      }
      currentTime := t;
      if updateVideo {
        position := t;
      }
      if t >= endTime && loop {
        SetCurrentTime(startTime, true, allowed);
      } else if t == startTime && loop && paused {
        if allowed {
          paused := false;
        }
      }
    }

    /** The `startTime` watcher: a position before the new start jumps to it. */
    method StartTimeChanged(v: real)
      modifies this`startTime, this`position
      ensures startTime == v
      ensures position == if old(position) < v then v else old(position)
      ensures position >= v
    {
      startTime := v;
      if position < v {
        position := v;
      }
    }

    /** The `endTime` watcher: a position after the new end jumps to it. */
    method EndTimeChanged(v: real)
      modifies this`endTime, this`position
      ensures endTime == v
      ensures position == if old(position) > v then v else old(position)
      ensures position <= v
    {
      endTime := v;
      if position > v {
        position := v;
      }
    }

    /** `togglePlay`: paused at the end, or ended, restarts from the start
        and plays; otherwise paused plays and playing pauses. */
    method TogglePlay(allowed: bool)
      modifies this`position, this`paused
      ensures var restart := (old(paused) && old(position) == endTime) || ended;
        && (restart ==> position == startTime && paused == (old(paused) && !allowed))
        && (!restart && old(paused) ==> position == old(position) && paused == !allowed)
        && (!restart && !old(paused) ==> position == old(position) && paused)
    {
      if (paused && position == endTime) || ended {
        position := startTime;
        if allowed {
          paused := false;
        }
      } else if paused {
        if allowed {
          paused := false;
        }
      } else {
        paused := true;
      }
    }
  }
}
