/** The playback synchroniser (src/renderer/components/VideoPlayer.tsx): the
    handlers that keep the shared media element inside the trim range. The
    media element's position and paused flag are fields, and so are the two
    pieces of renderer state its `play`/`pause`/`timeupdate` events feed
    (`isPlaying`, `currentTime`). A `play()` the browser refuses leaves the
    element paused; whether a request is allowed is an event parameter. */
module Player {
  import opened Wrappers
  import opened Strings
  import opened Types

  /** `videoSrc`: a path that already names a source is used verbatim, any
      other path is served through the `local-video://` protocol, encoded
      with `encode` (`encodeURIComponent`). */
  function VideoSrc(path: string, encode: string -> string): (src: string)
    ensures StartsWith(src, "local-video://") || StartsWith(src, "blob:") || StartsWith(src, "http")
    ensures IsSource(path) ==> src == path
    ensures !IsSource(path) ==> src == "local-video://" + encode(path)
  {
    if IsSource(path) then path else "local-video://" + encode(path)
  }

  predicate IsSource(path: string) {
    StartsWith(path, "local-video://") || StartsWith(path, "blob:") || StartsWith(path, "http")
  }

  /** Deriving the source twice changes nothing: a derived source is used verbatim. */
  lemma VideoSrcIdempotent(path: string, encode: string -> string)
    ensures VideoSrc(VideoSrc(path, encode), encode) == VideoSrc(path, encode)
  {
    var src := VideoSrc(path, encode);
    if !IsSource(path) {
      assert src[..|"local-video://"|] == "local-video://";
    }
  }

  class Player {
    /** `video.currentTime` */
    var position: real
    /** `!video.paused` */
    var playing: bool
    /** `isPlaying`, set by the `play` and `pause` events */
    var isPlaying: bool
    /** `currentTime`, set by the `timeupdate` event */
    var currentTime: real
    /** `isLooping` */
    var loop: bool
    /** The trim range the handlers were last set up with. */
    var trim: TrimSettings
    /** The loaded file, if any: the handlers below do nothing without one. */
    var file: Option<VideoFile>
    /** The trim start the `loadeddata` handler seeks to. That handler is set up
        again only when the file path changes, so it keeps the trim start of
        that moment. */
    var loadStart: real

    /** Looping is on from the start (`useState(true)`). */
    constructor ()
      ensures position == 0.0 && !playing && !isPlaying && currentTime == 0.0 && loop
      ensures trim == TrimSettings(0.0, 0.0) && file == None && loadStart == 0.0
    {
      position, playing, isPlaying, currentTime, loop := 0.0, false, false, 0.0, true;
      trim, file, loadStart := TrimSettings(0.0, 0.0), None, 0.0;
    }

    /** `video.play()`: starts playback unless it is refused; a refusal is
        swallowed and leaves the element as it was. */
    method RequestPlay(allowed: bool)
      modifies this`playing
      ensures playing == (old(playing) || allowed)
    {
      if allowed {
        playing := true;
      }
    }

    /** `video.pause()` */
    method Pause()
      modifies this`playing
      ensures !playing
    {
      playing := false;
    }

    /** `video.currentTime = t` */
    method Seek(t: real)
      modifies this`position
      ensures position == t
    {
      position := t;
    }

    /** The element's `play` event. */
    method OnPlay()
      modifies this`isPlaying
      ensures isPlaying
    {
      isPlaying := true;
    }

    /** The element's `pause` event. */
    method OnPause()
      modifies this`isPlaying
      ensures !isPlaying
    {
      isPlaying := false;
    }

    /** Playback advances by `dt` seconds. */
    method Advance(dt: real)
      requires dt >= 0.0
      modifies this`position
      ensures position == old(position) + (if playing then dt else 0.0)
    {
      if playing {
        position := position + dt;
      }
    }

    /** The `timeupdate` handler: records the position and, at or past the trim
        end, loops back to the trim start or pauses. */
    method TimeUpdate()
      modifies this`currentTime, this`position, this`playing
      ensures currentTime == old(position)
      ensures old(position) < trim.endTime ==> position == old(position) && playing == old(playing)
      ensures old(position) >= trim.endTime && loop ==> position == trim.startTime && playing == old(playing)
      ensures old(position) >= trim.endTime && !loop ==> position == old(position) && !playing
      ensures trim.startTime < trim.endTime ==> position < trim.endTime || !playing
    {
      currentTime := position;
      if position >= trim.endTime {
        if loop {
          Seek(trim.startTime);
        } else {
          Pause();
        }
      }
    }

    /** The `ended` handler: in loop mode restart at the trim start and ask to
        play, otherwise stay paused. */
    method Ended(allowed: bool)
      modifies this`position, this`playing
      ensures loop ==> position == trim.startTime && playing == (old(playing) || allowed)
      ensures !loop ==> position == old(position) && !playing
    {
      if loop {
        Seek(trim.startTime);
        RequestPlay(allowed);
      } else {
        Pause();
      }
    }

    /** A new file is shown: the element switches source and the `loadeddata`
        handler is set up again with the current trim start. */
    method FileChanged(f: Option<VideoFile>)
      modifies this`file, this`loadStart
      ensures file == f
      ensures loadStart == trim.startTime
    {
      file := f;
      loadStart := trim.startTime;
    }

    /** The `loadeddata` handler: seek to the trim start it was set up with and
        ask to play. */
    method LoadedData(allowed: bool)
      modifies this`position, this`playing
      ensures old(file).Some? ==> position == loadStart && playing == (old(playing) || allowed)
      ensures old(file).None? ==> position == old(position) && playing == old(playing)
    {
      if file.None? {
        return;
      }
      Seek(loadStart);
      RequestPlay(allowed);
    }

    /** The range-change effect for a new trim range: a position inside the
        inclusive new range is kept, any other goes to the new start, and play
        is asked for exactly when the player was playing before. The effect
        runs only when a bound changed and a file is loaded. */
    method RangeChanged(newTrim: TrimSettings, allowed: bool) returns (requestedPlay: bool)
      modifies this`trim, this`position, this`playing
      ensures trim == newTrim
      ensures var runs := file.Some? && newTrim != old(trim);
        && requestedPlay == (runs && isPlaying)
        && (runs && newTrim.startTime <= old(position) <= newTrim.endTime ==> position == old(position))
        && (runs && !(newTrim.startTime <= old(position) <= newTrim.endTime) ==> position == newTrim.startTime)
        && (!runs ==> position == old(position))
        && playing == (old(playing) || (requestedPlay && allowed))
      ensures file.Some? && newTrim != old(trim) && newTrim.startTime <= newTrim.endTime ==>
        newTrim.startTime <= position <= newTrim.endTime
    {
      var changed := newTrim != trim;
      trim := newTrim;
      requestedPlay := false;
      if !changed || file.None? {
        return;
      }
      var wasPlaying := isPlaying;
      var within := trim.startTime <= position && position <= trim.endTime;
      if !within {
        Seek(trim.startTime);
      }
      if wasPlaying {
        requestedPlay := true;
        RequestPlay(allowed);
      }
    }

    /** The play button: pause when playing, otherwise ask to play. */
    method TogglePlay(allowed: bool)
      modifies this`playing
      ensures old(isPlaying) ==> !playing
      ensures !old(isPlaying) ==> playing == (old(playing) || allowed)
    {
      if isPlaying {
        Pause();
      } else {
        RequestPlay(allowed);
      }
    }

    /** The loop button flips loop mode. */
    method ToggleLoop()
      modifies this`loop
      ensures loop == !old(loop)
    {
      loop := !loop;
    }

    /** Only the media element's position and paused flag may have changed:
        the event-driven state, loop mode, the handlers' range, the file and
        the captured start are as they were. */
    twostate predicate OnlyElementChanged()
      reads this
    {
      && isPlaying == old(isPlaying) && currentTime == old(currentTime)
      && loop == old(loop) && trim == old(trim)
      && file == old(file) && loadStart == old(loadStart)
    }
  }
}
