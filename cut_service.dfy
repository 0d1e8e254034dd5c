/** The cut service (src/main/services/ffmpeg-service.ts): the default output
    name `"<base> - chopped[ - N]<ext>"` in the downloads folder, the fixed
    transcode command, and the order in which the progress, success and
    error callbacks fire. The downloads folder is its listing (`None` when it
    does not exist) and the engine is the sequence of events it emits. */
module CutService {
  import opened Wrappers
  import opened Strings

  // ---------------------------------------------------------------------------
  // The directory scan

  /** How many entries contain `filter` as a substring. */
  function MatchCount(entries: seq<string>, filter: string): (n: nat)
    ensures n <= |entries|
    ensures n == 0 <==> forall i :: 0 <= i < |entries| ==> !Contains(entries[i], filter)
    ensures n == |entries| <==> forall i :: 0 <= i < |entries| ==> Contains(entries[i], filter)
    decreases |entries|
  {
    if |entries| == 0 then 0
    else
      var init := DropLast(entries);
      assert forall i :: 0 <= i < |init| ==> init[i] == entries[i];
      MatchCount(init, filter) + (if Contains(Last(entries), filter) then 1 else 0)
  }

  /** Adding an entry adds one to the count exactly when it matches. */
  lemma MatchCountSnoc(entries: seq<string>, e: string, filter: string)
    ensures MatchCount(entries + [e], filter) == MatchCount(entries, filter) + (if Contains(e, filter) then 1 else 0)
  {
    assert DropLast(entries + [e]) == entries;
  }

  /** `matchingFilesInDir`: a missing folder is rejected with its message,
      otherwise the number of matching entries. */
  function MatchingFilesInDir(folder: string, listing: Option<seq<string>>, filter: string): (r: Result<nat, string>)
    ensures r.Failure? <==> listing.None?
    ensures r.Failure? ==> r.error == "Folder: " + folder + " not found!"
    ensures r.Success? ==> r.value <= |listing.value|
    ensures r.Success? ==> (r.value == 0 <==> forall i :: 0 <= i < |listing.value| ==> !Contains(listing.value[i], filter))
  {
    match listing
    case None => Failure("Folder: " + folder + " not found!")
    case Some(entries) => Success(MatchCount(entries, filter))
  }

  // ---------------------------------------------------------------------------
  // POSIX path helpers (`path.basename`, `path.extname`)

  /** The last `/`-segment. */
  function BaseName(p: string): (b: string)
    ensures '/' !in b
    ensures EndsWith(p, b)
  {
    AfterLast(p, '/')
  }

  /** `path.extname` of a base name: from its last `.` to the end, except that
      a `.` that opens the name (a dot file) and the name `..` give none. */
  function ExtName(base: string): (ext: string)
    ensures EndsWith(base, ext)
  {
    var k := LastIndexOf(base, '.');
    if k <= 0 || base == ".." then "" else base[k..]
  }

  /** An extension is a `.` that is not the first character of the name,
      followed by no other `.`. */
  lemma ExtNameShape(base: string)
    ensures var ext := ExtName(base);
      && (ext == "" <==> LastIndexOf(base, '.') <= 0 || base == "..")
      && (ext != "" ==> |ext| < |base| && ext[0] == '.' && forall j :: 0 < j < |ext| ==> ext[j] != '.')
  {
    var k := LastIndexOf(base, '.');
    if k > 0 && base != ".." {
      var ext := base[k..];
      assert forall j :: 0 < j < |ext| ==> ext[j] == base[k + j];
    }
  }

  /** `path.basename(filePath, ext)`: the base name without its extension. */
  function Stem(filePath: string): (s: string)
    ensures s + ExtName(BaseName(filePath)) == BaseName(filePath)
    ensures '/' !in s
  {
    var base := BaseName(filePath);
    var ext := ExtName(base);
    var s := base[..|base| - |ext|];
    assert s + base[|base| - |ext|..] == base;
    assert forall i :: 0 <= i < |s| ==> s[i] == base[i];
    s
  }

  const Chopped: string := " - chopped"

  /** The name the scan looks for: the stem followed by ` - chopped`. */
  function ChoppedName(filePath: string): string {
    Stem(filePath) + Chopped
  }

  /** ` - N` when N is positive, nothing otherwise. */
  function CountSuffix(n: nat): (s: string)
    ensures s == "" <==> n == 0
  {
    if n > 0 then " - " + IntToString(n) else ""
  }

  /** The last index of a character is the one after which it no longer occurs. */
  lemma LastIndexOfIs(s: string, c: char, k: int)
    requires 0 <= k < |s| && s[k] == c
    requires forall j :: k < j < |s| ==> s[j] != c
    ensures LastIndexOf(s, c) == k
  {
  }

  /** What follows the last separator of `prefix + [c] + name` is `name`,
      when `name` holds no separator. */
  lemma AfterLastOfJoined(prefix: string, c: char, name: string)
    requires c !in name
    ensures AfterLast(prefix + [c] + name, c) == name
  {
    var s := prefix + [c] + name;
    assert forall j :: |prefix| < j < |s| ==> s[j] == name[j - |prefix| - 1];
    LastIndexOfIs(s, c, |prefix|);
    assert s[|prefix| + 1..] == name;
  }

  /** A character that is in a suffix is in the whole. */
  lemma NotInSuffix(s: string, t: string, c: char)
    requires EndsWith(s, t) && c !in s
    ensures c !in t
  {
  }

  /** The count suffix holds only spaces, `-` and digits. */
  lemma CountSuffixChars(n: nat, c: char)
    requires c != ' ' && c != '-' && !IsDigit(c)
    ensures c !in CountSuffix(n)
  {
    if n > 0 {
      assert AllDigits(NatToString(n));
    }
  }

  /** The name the default output gets. */
  function DefaultOutputName(filePath: string, n: nat): string {
    ChoppedName(filePath) + CountSuffix(n) + ExtName(BaseName(filePath))
  }

  /** The name holds no `/`: the stem, the tail and the extension hold none. */
  lemma DefaultOutputNameHasNoSlash(filePath: string, n: nat)
    ensures '/' !in DefaultOutputName(filePath, n)
  {
    var base := BaseName(filePath);
    var ext := ExtName(base);
    NotInSuffix(base, ext, '/');
    CountSuffixChars(n, '/');
    assert '/' !in Chopped;
    DefaultOutputNameParts(filePath, n);
    NotInConcat(Stem(filePath), Chopped + CountSuffix(n), ext, '/');
  }

  lemma NotInConcat(a: string, b: string, c: string, x: char)
    requires x !in a && x !in b && x !in c
    ensures x !in a + b + c
  {
  }

  /** The default output file, for `n` matching entries in `downloads`. */
  function DefaultOutputPath(downloads: string, filePath: string, n: nat): string {
    downloads + "/" + DefaultOutputName(filePath, n)
  }

  /** The output lies directly in the downloads folder, under the chopped
      name, the count suffix and the original extension. */
  lemma DefaultOutputInDownloads(downloads: string, filePath: string, n: nat)
    ensures StartsWith(DefaultOutputPath(downloads, filePath, n), downloads + "/")
    ensures BaseName(DefaultOutputPath(downloads, filePath, n)) == DefaultOutputName(filePath, n)
  {
    var name := DefaultOutputName(filePath, n);
    var out := DefaultOutputPath(downloads, filePath, n);
    assert out[..|downloads + "/"|] == downloads + "/";
    DefaultOutputNameHasNoSlash(filePath, n);
    AfterLastOfJoined(downloads, '/', name);
  }

  /** Appending text without the character leaves its last index alone. */
  lemma LastIndexOfAppendFree(a: string, b: string, c: char)
    requires c !in b
    ensures LastIndexOf(a + b, c) == LastIndexOf(a, c)
  {
    var s := a + b;
    var k := LastIndexOf(a, c);
    assert forall j :: |a| <= j < |s| ==> s[j] == b[j - |a|];
    if k >= 0 {
      LastIndexOfIs(s, c, k);
    } else {
      assert forall j :: 0 <= j < |a| ==> s[j] == a[j];
    }
  }

  /** An extension appended to a name of two or more characters is that
      name's extension. */
  lemma ExtNameOfAppended(head: string, ext: string)
    requires |head| >= 2 && ext != "" && ext[0] == '.'
    requires forall j :: 0 < j < |ext| ==> ext[j] != '.'
    ensures ExtName(head + ext) == ext
  {
    var name := head + ext;
    assert forall j :: |head| < j < |name| ==> name[j] == ext[j - |head|];
    LastIndexOfIs(name, '.', |head|);
    assert name[|head|..] == ext;
  }

  /** A stem followed by text without a `.` and then the extension has that
      extension again. */
  lemma KeepsExtensionOfBase(base: string, stem: string, tail: string)
    requires stem + ExtName(base) == base
    requires base != ".." && '.' !in tail && |tail| >= 2
    ensures ExtName(stem + tail + ExtName(base)) == ExtName(base)
  {
    var ext := ExtName(base);
    ExtNameShape(base);
    if ext == "" {
      assert stem == base;
      assert stem + tail + ext == base + tail;
      LastIndexOfAppendFree(base, tail, '.');
    } else {
      ExtNameOfAppended(stem + tail, ext);
    }
  }

  /** The output keeps the input's extension (a base name `..` aside, whose
      derived name acquires one). */
  lemma DefaultOutputKeepsExtension(downloads: string, filePath: string, n: nat)
    requires BaseName(filePath) != ".."
    ensures ExtName(BaseName(DefaultOutputPath(downloads, filePath, n))) == ExtName(BaseName(filePath))
  {
    var base := BaseName(filePath);
    var tail := Chopped + CountSuffix(n);
    var name := DefaultOutputName(filePath, n);
    assert BaseName(DefaultOutputPath(downloads, filePath, n)) == name by {
      DefaultOutputInDownloads(downloads, filePath, n);
    }
    assert ExtName(name) == ExtName(base) by {
      DefaultOutputNameParts(filePath, n);
      CountSuffixChars(n, '.');
      KeepsExtensionOfBase(base, Stem(filePath), tail);
    }
  }

  /** The default name is the stem, the tail the service appends, and the
      extension. */
  lemma DefaultOutputNameParts(filePath: string, n: nat)
    ensures DefaultOutputName(filePath, n) == Stem(filePath) + (Chopped + CountSuffix(n)) + ExtName(BaseName(filePath))
  {
    var stem, suffix, ext := Stem(filePath), CountSuffix(n), ExtName(BaseName(filePath));
    assert DefaultOutputName(filePath, n) == stem + Chopped + suffix + ext;
    Regroup(stem, Chopped, suffix, ext);
  }

  lemma Regroup(a: string, b: string, c: string, d: string)
    ensures a + b + c + d == a + (b + c) + d
  {
  }

  /** The default name starts with the chopped name. */
  lemma DefaultOutputNameStarts(filePath: string, n: nat)
    ensures DefaultOutputName(filePath, n) == ChoppedName(filePath) + (CountSuffix(n) + ExtName(BaseName(filePath)))
  {
  }

  /** A later scan counts this output: its name contains the chopped name. */
  lemma DefaultOutputMatchesScan(downloads: string, filePath: string, n: nat)
    ensures Contains(BaseName(DefaultOutputPath(downloads, filePath, n)), ChoppedName(filePath))
  {
    DefaultOutputInDownloads(downloads, filePath, n);
    DefaultOutputNameStarts(filePath, n);
    PrefixContained(ChoppedName(filePath), CountSuffix(n) + ExtName(BaseName(filePath)));
  }

  /** A string is contained in itself followed by more. */
  lemma PrefixContained(a: string, b: string)
    ensures Contains(a + b, a)
  {
    assert OccursAt(a + b, a, 0);
  }

  /** So cutting the same file again into the same folder, with nothing else
      changed, gives the next suffix. */
  lemma RepeatedCutCountsUp(downloads: string, filePath: string, entries: seq<string>)
    ensures var n := MatchCount(entries, ChoppedName(filePath));
      MatchCount(entries + [BaseName(DefaultOutputPath(downloads, filePath, n))], ChoppedName(filePath)) == n + 1
  {
    var n := MatchCount(entries, ChoppedName(filePath));
    DefaultOutputMatchesScan(downloads, filePath, n);
    MatchCountSnoc(entries, BaseName(DefaultOutputPath(downloads, filePath, n)), ChoppedName(filePath));
  }

  // ---------------------------------------------------------------------------
  // The cut

  /** The transcode the service starts. */
  datatype Command = Command(
    input: string,
    startTime: real,
    duration: real,
    videoBitrate: string,
    size: string,
    output: string)

  /** The callbacks the caller passes in. */
  datatype Callback = OnProgress(percent: int) | OnSuccess(outputPath: string) | OnError(message: string)

  /** What the engine emits while it runs: progress (with a percent, or
      without one), then `end` or `error`. */
  datatype EngineEvent = EngineProgress(percent: Option<real>) | EngineEnd | EngineError(message: string)

  predicate IsTerminal(c: Callback) {
    c.OnSuccess? || c.OnError?
  }

  /** `Math.round(progress.percent || 0)`; `floor(x + 0.5)` is the nearest
      integer, a tie going up. */
  function RoundPercent(p: Option<real>): (r: int)
    ensures p.None? ==> r == 0
    ensures p.Some? ==> p.value - 0.5 < r as real <= p.value + 0.5
    ensures p.Some? && 0.0 <= p.value <= 100.0 ==> 0 <= r <= 100
  {
    match p
    case None => 0
    case Some(x) => (x + 0.5).Floor
  }

  /** The callback an engine event leads to; `end` reports the command's output. */
  function EngineCallback(command: Command, e: EngineEvent): (c: Callback)
    ensures IsTerminal(c) <==> !e.EngineProgress?
    ensures e.EngineEnd? ==> c == OnSuccess(command.output)
  {
    match e
    case EngineProgress(p) => OnProgress(RoundPercent(p))
    case EngineEnd => OnSuccess(command.output)
    case EngineError(message) => OnError(message)
  }

  /** The callbacks of an engine run; the engine emits nothing after `end`
      or `error`. */
  function EngineCallbacks(command: Command, events: seq<EngineEvent>): seq<Callback>
    decreases |events|
  {
    if |events| == 0 then []
    else
      var c := EngineCallback(command, events[0]);
      if IsTerminal(c) then [c] else [c] + EngineCallbacks(command, events[1..])
  }

  /** A well-ordered trace: progress only, except that the last callback may
      be the one terminal callback. */
  predicate WellOrdered(trace: seq<Callback>) {
    forall i :: 0 <= i < |trace| - 1 ==> trace[i].OnProgress?
  }

  /** Some event of the run ends it. */
  predicate Finishes(events: seq<EngineEvent>) {
    exists i :: 0 <= i < |events| && !events[i].EngineProgress?
  }

  lemma {:induction false} EngineCallbacksOrdered(command: Command, events: seq<EngineEvent>)
    ensures WellOrdered(EngineCallbacks(command, events))
    ensures |EngineCallbacks(command, events)| <= |events|
    ensures Finishes(events) <==>
      |EngineCallbacks(command, events)| > 0 && IsTerminal(Last(EngineCallbacks(command, events)))
    ensures forall i :: 0 <= i < |EngineCallbacks(command, events)| ==>
      EngineCallbacks(command, events)[i] == EngineCallback(command, events[i])
    ensures forall i :: 0 <= i < |EngineCallbacks(command, events)| && EngineCallbacks(command, events)[i].OnSuccess? ==>
      EngineCallbacks(command, events)[i] == OnSuccess(command.output)
    decreases |events|
  {
    if |events| > 0 {
      var c := EngineCallback(command, events[0]);
      if !IsTerminal(c) {
        var rest := EngineCallbacks(command, events[1..]);
        EngineCallbacksOrdered(command, events[1..]);
        assert EngineCallbacks(command, events) == [c] + rest;
        assert forall i :: 1 <= i < |rest| + 1 ==> rest[i - 1] == EngineCallback(command, events[i]) by {
          forall i | 1 <= i < |rest| + 1
            ensures rest[i - 1] == EngineCallback(command, events[i])
          {
            assert events[1..][i - 1] == events[i];
          }
        }
        assert Finishes(events) <==> Finishes(events[1..]) by {
          if Finishes(events) {
            var i :| 0 <= i < |events| && !events[i].EngineProgress?;
            assert i > 0 && !events[1..][i - 1].EngineProgress?;
          }
          if Finishes(events[1..]) {
            var i :| 0 <= i < |events[1..]| && !events[1..][i].EngineProgress?;
            assert !events[i + 1].EngineProgress?;
          }
        }
        if |rest| > 0 {
          assert Last([c] + rest) == Last(rest);
        }
      } else {
        assert !events[0].EngineProgress?;
      }
    } else {
      assert !Finishes(events);
    }
  }

  /** `cutVideo`. An output path that is absent or empty is derived: the stem
      plus ` - chopped`, a count suffix from the downloads listing and the
      extension. A missing downloads folder is reported through `onError`
      and nothing else follows. Otherwise `onProgress(0)` fires and the fixed
      command is started. `startError` is the message of an exception thrown
      while the engine is set up and started; the function's own `catch`
      reports it through `onError`, after `onProgress(0)`, and the engine
      then emits nothing. */
  method CutVideo(filePath: string, startTime: real, duration: real, outputPath: Option<string>,
                  downloads: string, listing: Option<seq<string>>, startError: Option<string>)
    returns (callbacks: seq<Callback>, command: Option<Command>)
    ensures var explicit := outputPath.Some? && outputPath.value != "";
      && (command.None? <==> !explicit && listing.None?)
      && (explicit && command.Some? ==> command.value.output == outputPath.value)
      && (!explicit && listing.Some? && command.Some? ==>
            command.value.output == DefaultOutputPath(downloads, filePath, MatchCount(listing.value, ChoppedName(filePath))))
    ensures command.None? ==> callbacks == [OnError("Folder: " + downloads + " not found!")]
    ensures command.Some? && startError.None? ==> callbacks == [OnProgress(0)]
    ensures command.Some? && startError.Some? ==> callbacks == [OnProgress(0), OnError(startError.value)]
    ensures command.Some? ==>
      && command.value.input == filePath
      && command.value.startTime == startTime
      && command.value.duration == duration
      && command.value.videoBitrate == "900k"
      && command.value.size == "750x?"
  {
    var output: string;
    if outputPath.Some? && outputPath.value != "" {
      output := outputPath.value;
    } else {
      var ext := ExtName(BaseName(filePath));
      var fileName := Stem(filePath) + Chopped;
      var scan := MatchingFilesInDir(downloads, listing, fileName);
      if scan.Failure? {
        callbacks, command := [OnError(scan.error)], None;
        return;
      }
      var matchingFiles := scan.value;
      if matchingFiles > 0 {
        fileName := fileName + " - " + IntToString(matchingFiles);
      }
      assert fileName == ChoppedName(filePath) + CountSuffix(matchingFiles);
      output := downloads + "/" + fileName + ext;
      assert output == downloads + "/" + (fileName + ext);
    }
    callbacks := [OnProgress(0)];
    command := Some(Command(filePath, startTime, duration, "900k", "750x?", output));
    if startError.Some? {
      callbacks := callbacks + [OnError(startError.value)];
    }
  }

  /** The whole callback trace of a started cut: `onProgress(0)`, then each
      event's own callback (progress rounded), then at most one terminal
      callback, which is last, comes exactly when the engine finishes, and
      reports the command's output on success. */
  lemma CutTrace(command: Command, events: seq<EngineEvent>)
    ensures var trace := [OnProgress(0)] + EngineCallbacks(command, events);
      && trace[0] == OnProgress(0)
      && (forall i :: 1 <= i < |trace| ==> i - 1 < |events| && trace[i] == EngineCallback(command, events[i - 1]))
      && WellOrdered(trace)
      && (Finishes(events) <==> IsTerminal(Last(trace)))
      && (forall i :: 0 <= i < |trace| && trace[i].OnSuccess? ==> trace[i] == OnSuccess(command.output))
  {
    var run := EngineCallbacks(command, events);
    EngineCallbacksOrdered(command, events);
    var trace := [OnProgress(0)] + run;
    assert forall i :: 1 <= i < |trace| ==> trace[i] == run[i - 1];
    if |run| > 0 {
      assert Last(trace) == Last(run);
    }
  }
}
