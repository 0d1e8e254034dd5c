/** The host process (src/main/main.ts): the `veelo://file?path=…` deep-link
    resolver and its single pending slot, the `did-finish-load` handoff, the
    state file behind `loadState`/`saveState`, the command-line pick of the
    first deep link, and the forwarding of a cut's callbacks to the window.
    URL parsing and `fs.existsSync` are parameters; what the host sends to
    the window, and the window focus requests, are appended to `effects`. */
module Host {
  import opened Wrappers
  import opened Strings
  import opened Types
  import CutService

  // ---------------------------------------------------------------------------
  // The deep-link resolver

  /** The fields of a parsed URL the resolver reads: `protocol`, `hostname`,
      `pathname` and the `path` search parameter. */
  datatype UrlRecord = UrlRecord(protocol: string, hostname: string, pathname: string, pathParam: Option<string>)

  datatype Resolution = Ignored | OpenPath(path: string)

  /** The link names a file: `veelo:` protocol, host `file` (or a path that
      starts with `//file`), and a non-empty `path` parameter naming a file
      that exists. */
  predicate Accepts(u: UrlRecord, fileExists: string -> bool) {
    && u.protocol == "veelo:"
    && (u.hostname == "file" || StartsWith(u.pathname, "//file"))
    && u.pathParam.Some? && u.pathParam.value != ""
    && fileExists(u.pathParam.value)
  }

  /** `handleDeepLink`'s decision. A URL that does not parse (`new URL`
      throws), has another protocol, names something other than `file`, or
      carries no existing path is ignored; otherwise the path is opened. */
  function ResolveDeepLink(url: string, parse: string -> Option<UrlRecord>, fileExists: string -> bool): (r: Resolution)
    ensures parse(url).None? ==> r == Ignored
    ensures parse(url).Some? && parse(url).value.protocol != "veelo:" ==> r == Ignored
    ensures parse(url).Some? && parse(url).value.hostname != "file" && !StartsWith(parse(url).value.pathname, "//file") ==>
      r == Ignored
    ensures parse(url).Some? && (parse(url).value.pathParam.None? || parse(url).value.pathParam == Some("")) ==> r == Ignored
    ensures parse(url).Some? && parse(url).value.pathParam.Some? && !fileExists(parse(url).value.pathParam.value) ==>
      r == Ignored
    ensures r.OpenPath? <==> parse(url).Some? && Accepts(parse(url).value, fileExists)
    ensures r.OpenPath? ==> Some(r.path) == parse(url).value.pathParam
  {
    match parse(url)
    case None => Ignored
    case Some(u) =>
      if u.protocol != "veelo:" then Ignored
      else if !(u.hostname == "file" || StartsWith(u.pathname, "//file")) then Ignored
      else if u.pathParam.Some? && u.pathParam.value != "" && fileExists(u.pathParam.value) then OpenPath(u.pathParam.value)
      else Ignored
  }

  /** `commandLine.find(arg => arg.startsWith('veelo://'))`. */
  function FirstVeeloArg(argv: seq<string>): (r: Option<string>)
    ensures r.None? <==> forall i :: 0 <= i < |argv| ==> !StartsWith(argv[i], "veelo://")
    ensures r.Some? ==> exists i :: (0 <= i < |argv| && argv[i] == r.value
      && StartsWith(argv[i], "veelo://")
      && forall j :: 0 <= j < i ==> !StartsWith(argv[j], "veelo://"))
    decreases |argv|
  {
    if |argv| == 0 then None
    else if StartsWith(argv[0], "veelo://") then Some(argv[0])
    else
      var r := FirstVeeloArg(argv[1..]);
      assert forall i :: 1 <= i < |argv| ==> argv[i] == argv[1..][i - 1];
      assert r.Some? ==> exists i :: (0 <= i < |argv| && argv[i] == r.value
          && StartsWith(argv[i], "veelo://")
          && forall j :: 0 <= j < i ==> !StartsWith(argv[j], "veelo://")) by {
        if r.Some? {
          var i :| 0 <= i < |argv[1..]| && argv[1..][i] == r.value
            && StartsWith(argv[1..][i], "veelo://")
            && forall j :: 0 <= j < i ==> !StartsWith(argv[1..][j], "veelo://");
          assert argv[i + 1] == r.value;
          assert forall j :: 1 <= j < i + 1 ==> !StartsWith(argv[j], "veelo://");
        }
      }
      r
  }

  /** Arguments after the first deep link never matter. */
  lemma {:induction false} FirstVeeloArgIgnoresRest(before: seq<string>, link: string, rest: seq<string>, other: seq<string>)
    requires StartsWith(link, "veelo://")
    ensures FirstVeeloArg(before + [link] + rest) == FirstVeeloArg(before + [link] + other)
    ensures FirstVeeloArg(before + [link] + rest).Some?
    decreases |before|
  {
    if |before| > 0 {
      assert (before + [link] + rest)[1..] == before[1..] + [link] + rest;
      assert (before + [link] + other)[1..] == before[1..] + [link] + other;
      FirstVeeloArgIgnoresRest(before[1..], link, rest, other);
    } else {
      assert (before + [link] + rest)[0] == link;
      assert (before + [link] + other)[0] == link;
    }
  }

  // ---------------------------------------------------------------------------
  // The state file

  /** `app-state.json`: absent, unreadable or not JSON, or a stored snapshot. */
  datatype StateFile = Missing | Unreadable | Stored(state: Snapshot)

  /** `loadState`: the stored snapshot, `null` in every other case. */
  function LoadState(f: StateFile): (r: Option<Snapshot>)
    ensures r.Some? <==> f.Stored?
    ensures r.Some? ==> r.value == f.state
  {
    match f
    case Stored(s) => Some(s)
    case _ => None
  }

  // ---------------------------------------------------------------------------
  // Forwarding a cut

  /** The message a cut callback becomes. */
  function Forward(c: CutService.Callback): (m: HostMessage)
    ensures c.OnProgress? <==> m.CutProgress?
    ensures c.OnSuccess? <==> m.CutDone?
    ensures c.OnError? <==> m.CutError?
  {
    match c
    case OnProgress(p) => CutProgress(p)
    case OnSuccess(path) => CutDone(path)
    case OnError(message) => CutError(message)
  }

  function ForwardAll(cs: seq<CutService.Callback>): (ms: seq<HostMessage>)
    ensures |ms| == |cs|
    ensures forall i :: 0 <= i < |cs| ==> ms[i] == Forward(cs[i])
  {
    seq(|cs|, i requires 0 <= i < |cs| => Forward(cs[i]))
  }

  predicate IsCutEnd(m: HostMessage) {
    m.CutDone? || m.CutError?
  }

  /** What the window receives for a started cut: `cut-progress 0`, then
      progress, then one `cut-done` (with the command's output) or
      `cut-error` once the engine finishes, and that one is last. */
  lemma ForwardedCutTrace(command: CutService.Command, events: seq<CutService.EngineEvent>)
    ensures var ms := ForwardAll([CutService.OnProgress(0)] + CutService.EngineCallbacks(command, events));
      && ms[0] == CutProgress(0)
      && (forall i :: 1 <= i < |ms| ==> i - 1 < |events| && ms[i] == Forward(CutService.EngineCallback(command, events[i - 1])))
      && (forall i :: 0 <= i < |ms| - 1 ==> ms[i].CutProgress?)
      && (CutService.Finishes(events) <==> IsCutEnd(ms[|ms| - 1]))
      && (forall i :: 0 <= i < |ms| && ms[i].CutDone? ==> ms[i] == CutDone(command.output))
  {
    var trace := [CutService.OnProgress(0)] + CutService.EngineCallbacks(command, events);
    CutService.CutTrace(command, events);
    var ms := ForwardAll(trace);
    assert Last(trace) == trace[|trace| - 1];
    forall i | 0 <= i < |ms| && ms[i].CutDone? ensures ms[i] == CutDone(command.output) {
      assert trace[i].OnSuccess?;
    }
  }

  // ---------------------------------------------------------------------------
  // The host process

  /** What the host does to the window. */
  datatype HostEffect = FocusWindow | Send(message: HostMessage)

  function Sends(ms: seq<HostMessage>): (es: seq<HostEffect>)
    ensures |es| == |ms|
    ensures forall i :: 0 <= i < |ms| ==> es[i] == Send(ms[i])
  {
    seq(|ms|, i requires 0 <= i < |ms| => Send(ms[i]))
  }

  /** The cut a `cut-video` request starts (with no explicit output path),
      and the messages its first callbacks send to the window. An engine that
      throws while starting (`startError`) is reported as `cut-error` after
      `cut-progress 0`. */
  method StartCut(request: CutRequest, downloads: string, listing: Option<seq<string>>, startError: Option<string>)
    returns (command: Option<CutService.Command>, sent: seq<HostEffect>)
    ensures listing.None? ==> command.None? && sent == [Send(CutError("Folder: " + downloads + " not found!"))]
    ensures listing.Some? ==>
      && command.Some?
      && command.value.input == request.filePath
      && command.value.startTime == request.startTime
      && command.value.duration == request.duration
      && command.value.output == CutService.DefaultOutputPath(downloads, request.filePath,
           CutService.MatchCount(listing.value, CutService.ChoppedName(request.filePath)))
      && sent == [Send(CutProgress(0))] + (if startError.Some? then [Send(CutError(startError.value))] else [])
  {
    var callbacks;
    callbacks, command := CutService.CutVideo(request.filePath, request.startTime, request.duration, None, downloads, listing, startError);
    sent := Sends(ForwardAll(callbacks));
    SendsOfFirst(callbacks);
  }

  /** Forwarding one callback, or two. */
  lemma SendsOfFirst(cs: seq<CutService.Callback>)
    requires 1 <= |cs| <= 2
    ensures Sends(ForwardAll(cs)) == [Send(Forward(cs[0]))] + (if |cs| == 2 then [Send(Forward(cs[1]))] else [])
  {
  }

  class HostProcess {
    /** Not in development mode: the deep-link handlers are installed. */
    const production: bool
    /** `mainWindow !== null` */
    var hasWindow: bool
    /** `pendingUrl` */
    var pendingUrl: Option<string>
    /** What has been done to the window, in order. */
    var effects: seq<HostEffect>
    var stateFile: StateFile

    constructor (production: bool, stateFile: StateFile)
      ensures this.production == production && this.stateFile == stateFile
      ensures !hasWindow && pendingUrl == None && effects == []
    {
      this.production := production;
      this.stateFile := stateFile;
      hasWindow, pendingUrl, effects := false, None, [];
    }

    /** `handleDeepLink`: an accepted path goes to the window (after focusing
        it) or, without a window, into the pending slot, replacing what was
        there. A rejected link changes nothing. */
    method HandleDeepLink(url: string, parse: string -> Option<UrlRecord>, fileExists: string -> bool)
      modifies this`pendingUrl, this`effects
      ensures var r := ResolveDeepLink(url, parse, fileExists);
        && (r.Ignored? ==> pendingUrl == old(pendingUrl) && effects == old(effects))
        && (r.OpenPath? && hasWindow ==>
              pendingUrl == old(pendingUrl) && effects == old(effects) + [FocusWindow, Send(OpenFileFromLink(r.path))])
        && (r.OpenPath? && !hasWindow ==> pendingUrl == Some(r.path) && effects == old(effects))
    {
      var r := ResolveDeepLink(url, parse, fileExists);
      if r.OpenPath? {
        if hasWindow {
          effects := effects + [FocusWindow, Send(OpenFileFromLink(r.path))];
        } else {
          pendingUrl := Some(r.path);
        }
      }
    }

    /** The window's `did-finish-load`: `restore-state` when a snapshot
        loads, then the pending path, if any; the slot is emptied either way,
        so a parked path is delivered at most once. */
    method DidFinishLoad()
      modifies this`pendingUrl, this`effects
      ensures pendingUrl == None
      ensures var restore := if hasWindow && LoadState(stateFile).Some? then [Send(RestoreState(LoadState(stateFile).value))] else [];
        var link := if hasWindow && old(pendingUrl).Some? then [Send(OpenFileFromLink(old(pendingUrl).value))] else [];
        effects == old(effects) + restore + link
    {
      var state := LoadState(stateFile);
      if state.Some? && hasWindow {
        effects := effects + [Send(RestoreState(state.value))];
      }
      if pendingUrl.Some? {
        if hasWindow {
          effects := effects + [Send(OpenFileFromLink(pendingUrl.value))];
        }
        pendingUrl := None;
      }
    }

    /** `createWindow` */
    method WindowCreated()
      modifies this`hasWindow
      ensures hasWindow
    {
      hasWindow := true;
    }

    /** The window's `closed` event. */
    method WindowClosed()
      modifies this`hasWindow
      ensures !hasWindow
    {
      hasWindow := false;
    }

    /** `second-instance` (production only): focus the window, if any, then
        handle the first deep link of the command line. */
    method SecondInstance(commandLine: seq<string>, parse: string -> Option<UrlRecord>, fileExists: string -> bool)
      modifies this`pendingUrl, this`effects
      ensures !production ==> pendingUrl == old(pendingUrl) && effects == old(effects)
      ensures production && FirstVeeloArg(commandLine).None? ==>
        pendingUrl == old(pendingUrl) && effects == old(effects) + (if hasWindow then [FocusWindow] else [])
      ensures production && FirstVeeloArg(commandLine).Some? ==>
        var r := ResolveDeepLink(FirstVeeloArg(commandLine).value, parse, fileExists);
        var focus := if hasWindow then [FocusWindow] else [];
        && (r.Ignored? ==> pendingUrl == old(pendingUrl) && effects == old(effects) + focus)
        && (r.OpenPath? && hasWindow ==>
              pendingUrl == old(pendingUrl) && effects == old(effects) + focus + [FocusWindow, Send(OpenFileFromLink(r.path))])
        && (r.OpenPath? && !hasWindow ==> pendingUrl == Some(r.path) && effects == old(effects))
    {
      if !production {
        return;
      }
      if hasWindow {
        effects := effects + [FocusWindow];
      }
      var url := FirstVeeloArg(commandLine);
      if url.Some? {
        HandleDeepLink(url.value, parse, fileExists);
      }
    }

    /** `open-url` (production only). */
    method OpenUrl(url: string, parse: string -> Option<UrlRecord>, fileExists: string -> bool)
      modifies this`pendingUrl, this`effects
      ensures !production ==> pendingUrl == old(pendingUrl) && effects == old(effects)
      ensures production ==>
        var r := ResolveDeepLink(url, parse, fileExists);
        && (r.Ignored? ==> pendingUrl == old(pendingUrl) && effects == old(effects))
        && (r.OpenPath? && hasWindow ==>
              pendingUrl == old(pendingUrl) && effects == old(effects) + [FocusWindow, Send(OpenFileFromLink(r.path))])
        && (r.OpenPath? && !hasWindow ==> pendingUrl == Some(r.path) && effects == old(effects))
    {
      if production {
        HandleDeepLink(url, parse, fileExists);
      }
    }

    /** `whenReady`: the window is created first, so in production a deep
        link on the first command line goes to the window at once rather
        than into the pending slot. */
    method AppReady(argv: seq<string>, parse: string -> Option<UrlRecord>, fileExists: string -> bool)
      modifies this`hasWindow, this`pendingUrl, this`effects
      ensures hasWindow && pendingUrl == old(pendingUrl)
      ensures !production || FirstVeeloArg(argv).None? ==> effects == old(effects)
      ensures production && FirstVeeloArg(argv).Some? ==>
        var r := ResolveDeepLink(FirstVeeloArg(argv).value, parse, fileExists);
        && (r.Ignored? ==> effects == old(effects))
        && (r.OpenPath? ==> effects == old(effects) + [FocusWindow, Send(OpenFileFromLink(r.path))])
    {
      WindowCreated();
      if production {
        var url := FirstVeeloArg(argv);
        if url.Some? {
          HandleDeepLink(url.value, parse, fileExists);
        }
      }
    }

    /** `save-state`: a write that fails is swallowed and leaves the file as
        it was. */
    method SaveState(state: Snapshot, writeSucceeds: bool)
      modifies this`stateFile
      ensures writeSucceeds ==> stateFile == Stored(state)
      ensures !writeSucceeds ==> stateFile == old(stateFile)
      ensures writeSucceeds ==> LoadState(stateFile) == Some(state)
    {
      if writeSucceeds {
        stateFile := Stored(state);
      }
    }

    /** `cut-video`: ignored without a window; otherwise the cut starts (with
        no explicit output path) and its first callbacks go to the window.
        The engine's later events arrive through `EngineEvent`. */
    method OnCutVideo(request: CutRequest, downloads: string, listing: Option<seq<string>>, startError: Option<string>)
      returns (command: Option<CutService.Command>)
      modifies this`effects
      ensures !hasWindow ==> command.None? && effects == old(effects)
      ensures hasWindow && listing.None? ==>
        command.None? && effects == old(effects) + [Send(CutError("Folder: " + downloads + " not found!"))]
      ensures hasWindow && listing.Some? ==>
        && command.Some?
        && command.value.input == request.filePath
        && command.value.startTime == request.startTime
        && command.value.duration == request.duration
        && command.value.output == CutService.DefaultOutputPath(downloads, request.filePath,
             CutService.MatchCount(listing.value, CutService.ChoppedName(request.filePath)))
        && effects == old(effects) + [Send(CutProgress(0))]
             + (if startError.Some? then [Send(CutError(startError.value))] else [])
    {
      if !hasWindow {
        return None;
      }
      var sent;
      command, sent := StartCut(request, downloads, listing, startError);
      effects := effects + sent;
    }

    /** An engine event of a running cut: its callback reaches the window
        only while there is one (`mainWindow?.`). */
    method EngineEvent(command: CutService.Command, e: CutService.EngineEvent)
      modifies this`effects
      ensures hasWindow ==> effects == old(effects) + [Send(Forward(CutService.EngineCallback(command, e)))]
      ensures !hasWindow ==> effects == old(effects)
    {
      if hasWindow {
        effects := effects + [Send(Forward(CutService.EngineCallback(command, e)))];
      }
    }
  }
}
