/** The older host's cut (index.js): the same scan-and-suffix naming as the
    cut service, but derived by splitting the whole path at `.` and `/`, and
    its messages to the window. A missing downloads folder rejects a promise
    nobody handles, so the window hears nothing. */
module LegacyCut {
  import opened Wrappers
  import opened Strings
  import CutService

  /** The legacy extension: `.` and everything after the last `.` of the
      whole path (the whole path when there is none). */
  function LegacyExtension(filePath: string): string {
    "." + AfterLast(filePath, '.')
  }

  /** The last `/`-segment of what precedes the last `.` of the path
      (nothing when the path has no `.`). */
  function LegacySegment(filePath: string): string {
    var k := LastIndexOf(filePath, '.');
    if k >= 0 then AfterLast(filePath[..k], '/') else ""
  }

  function LegacyChoppedName(filePath: string): string {
    LegacySegment(filePath) + CutService.Chopped
  }

  /** The output for `n` matching entries. */
  function LegacyOutputName(filePath: string, n: nat): string {
    LegacyChoppedName(filePath) + CutService.CountSuffix(n) + LegacyExtension(filePath)
  }

  function LegacyOutputPath(downloads: string, filePath: string, n: nat): string {
    downloads + "/" + LegacyOutputName(filePath, n)
  }

  /** `'.' + filePath.split('.').pop()` is the legacy extension. */
  lemma SplitExtension(filePath: string)
    ensures "." + Last(Split(filePath, '.')) == LegacyExtension(filePath)
  {
    SplitAroundLast(filePath, '.');
  }

  /** Popping the last piece, joining the rest with `.`, and taking the last
      `/`-piece of that gives the legacy segment. */
  lemma SplitSegment(filePath: string)
    ensures Last(Split(Join(DropLast(Split(filePath, '.')), '.'), '/')) == LegacySegment(filePath)
  {
    var parts := Split(filePath, '.');
    var head := Join(DropLast(parts), '.');
    var k := LastIndexOf(filePath, '.');
    if k >= 0 {
      assert head == filePath[..k] by {
        SplitAroundLast(filePath, '.');
      }
      assert Last(Split(head, '/')) == AfterLast(head, '/') by {
        SplitAroundLast(head, '/');
      }
    } else {
      assert parts == [filePath] by {
        SplitAroundLast(filePath, '.');
      }
      assert head == "" by {
        assert DropLast(parts) == [];
      }
      assert Split(head, '/') == [""];
    }
  }

  /** A path without a `.` becomes its own "extension", after an empty segment. */
  lemma LegacyOfDotFree(filePath: string)
    requires '.' !in filePath
    ensures LegacySegment(filePath) == ""
    ensures LegacyExtension(filePath) == "." + filePath
  {
    assert LastIndexOf(filePath, '.') == -1;
  }

  /** For `dir/seg.tail`, with no `.` in `tail` and no `/` in `seg`, the
      segment is `seg` and the "extension" `.tail`. */
  lemma LegacyOfDotted(dir: string, seg: string, tail: string)
    requires '.' !in tail && '/' !in seg
    ensures LegacySegment(dir + "/" + seg + "." + tail) == seg
    ensures LegacyExtension(dir + "/" + seg + "." + tail) == "." + tail
  {
    var head := dir + "/" + seg;
    var filePath := head + "." + tail;
    assert filePath == head + ['.'] + tail;
    CutService.AfterLastOfJoined(head, '.', tail);
    assert filePath[..|head|] == head;
    CutService.AfterLastOfJoined(dir, '/', seg);
  }

  /** When the file name has no `.` but the path has a folder, the legacy
      "extension" holds a `/`, while the service's extension is empty. */
  lemma LegacyExtensionFromFolder(filePath: string)
    requires '.' !in CutService.BaseName(filePath) && '/' in filePath
    ensures '/' in LegacyExtension(filePath)
    ensures CutService.ExtName(CutService.BaseName(filePath)) == ""
  {
    var base := CutService.BaseName(filePath);
    assert CutService.ExtName(base) == "" by {
      assert LastIndexOf(base, '.') == -1;
    }
    DotBeforeSlash(filePath);
    SlashInExtension(filePath, LastIndexOf(filePath, '.'), LastIndexOf(filePath, '/'));
  }

  /** A path whose base name has no `.` has its last `.` (if any) before its
      last `/`. */
  lemma DotBeforeSlash(filePath: string)
    requires '.' !in CutService.BaseName(filePath) && '/' in filePath
    ensures 0 <= LastIndexOf(filePath, '/')
    ensures LastIndexOf(filePath, '.') < LastIndexOf(filePath, '/')
  {
    var q := LastIndexOf(filePath, '/');
    var base := CutService.BaseName(filePath);
    assert base == filePath[q + 1..];
    assert forall j :: q < j < |filePath| ==> filePath[j] == base[j - q - 1];
  }

  /** A `/` after the last `.` ends up in the legacy "extension". */
  lemma SlashInExtension(filePath: string, k: int, q: int)
    requires k == LastIndexOf(filePath, '.') && k < q < |filePath| && filePath[q] == '/'
    ensures '/' in LegacyExtension(filePath)
  {
    if k >= 0 {
      ExtensionFrom(filePath, k);
      InSlice(filePath, k, q, '/');
    } else {
      ExtensionWithoutDot(filePath);
      InSlice(filePath, 0, q, '/');
      assert filePath[0..] == filePath;
      InTail(".", filePath, '/');
    }
  }

  /** Without a `.`, the legacy "extension" is `.` and the whole path. */
  lemma ExtensionWithoutDot(filePath: string)
    requires LastIndexOf(filePath, '.') < 0
    ensures LegacyExtension(filePath) == "." + filePath
  {
    assert filePath[0..] == filePath;
  }

  lemma InSlice(s: string, k: int, q: int, c: char)
    requires 0 <= k <= q < |s| && s[q] == c
    ensures c in s[k..]
  {
    assert s[k..][q - k] == c;
  }

  /** So the legacy output is not directly in the downloads folder: its name
      holds a `/`. The service's output is (`DefaultOutputInDownloads`). */
  lemma LegacyLeavesDownloads(downloads: string, filePath: string, n: nat)
    requires '.' !in CutService.BaseName(filePath) && '/' in filePath
    ensures '/' in LegacyOutputName(filePath, n)
    ensures '/' !in CutService.DefaultOutputName(filePath, n)
  {
    LegacyExtensionFromFolder(filePath);
    CutService.DefaultOutputNameHasNoSlash(filePath, n);
    var head := LegacyChoppedName(filePath) + CutService.CountSuffix(n);
    InTail(head, LegacyExtension(filePath), '/');
  }

  lemma InTail(head: string, tail: string, c: char)
    requires c in tail
    ensures c in head + tail
  {
    var i :| 0 <= i < |tail| && tail[i] == c;
    assert (head + tail)[|head| + i] == c;
  }

  /** The last `.` of a path whose base name holds one is that one. */
  lemma LastDotInBase(filePath: string)
    requires LastIndexOf(CutService.BaseName(filePath), '.') >= 0
    ensures var base := CutService.BaseName(filePath);
      LastIndexOf(filePath, '.') == |filePath| - |base| + LastIndexOf(base, '.')
  {
    var base := CutService.BaseName(filePath);
    var offset := |filePath| - |base|;
    var k := offset + LastIndexOf(base, '.');
    assert base == filePath[offset..];
    assert forall j :: offset <= j < |filePath| ==> filePath[j] == base[j - offset];
    CutService.LastIndexOfIs(filePath, '.', k);
  }

  /** What precedes the base name ends in `/`, when there is anything. */
  lemma BeforeBase(filePath: string)
    ensures var offset := |filePath| - |CutService.BaseName(filePath)|;
      offset > 0 ==> filePath[offset - 1] == '/'
  {
  }

  /** When the file name itself has an interior `.`, the split-based rule
      finds the service's extension ... */
  lemma LegacyExtensionAgrees(filePath: string)
    requires LastIndexOf(CutService.BaseName(filePath), '.') > 0 && CutService.BaseName(filePath) != ".."
    ensures LegacyExtension(filePath) == CutService.ExtName(CutService.BaseName(filePath))
  {
    var base := CutService.BaseName(filePath);
    var b := LastIndexOf(base, '.');
    var offset := |filePath| - |base|;
    assert offset + b == LastIndexOf(filePath, '.') by {
      LastDotInBase(filePath);
    }
    assert LegacyExtension(filePath) == filePath[offset + b..] by {
      ExtensionFrom(filePath, offset + b);
    }
    assert filePath[offset + b..] == base[b..] by {
      SuffixOfSuffix(filePath, base, b);
    }
    assert CutService.ExtName(base) == base[b..];
  }

  /** The legacy extension starts at the last `.`. */
  lemma ExtensionFrom(filePath: string, k: int)
    requires k == LastIndexOf(filePath, '.') && k >= 0
    ensures LegacyExtension(filePath) == filePath[k..]
  {
    assert filePath[k..] == [filePath[k]] + filePath[k + 1..];
  }

  /** A suffix of a suffix is a suffix. */
  lemma SuffixOfSuffix(s: string, t: string, b: int)
    requires EndsWith(s, t) && 0 <= b <= |t|
    ensures t[b..] == s[|s| - |t| + b..]
  {
  }

  /** ... and the service's stem. */
  lemma LegacySegmentAgrees(filePath: string)
    requires LastIndexOf(CutService.BaseName(filePath), '.') > 0 && CutService.BaseName(filePath) != ".."
    ensures LegacySegment(filePath) == CutService.Stem(filePath)
  {
    var base := CutService.BaseName(filePath);
    var b := LastIndexOf(base, '.');
    var k := |filePath| - |base| + b;
    assert k == LastIndexOf(filePath, '.') by {
      LastDotInBase(filePath);
    }
    assert LegacySegment(filePath) == AfterLast(filePath[..k], '/') by {
      SegmentFrom(filePath, k);
    }
    assert AfterLast(filePath[..k], '/') == base[..b] by {
      HeadSegmentIsStem(filePath);
    }
    StemAt(filePath, b);
  }

  /** ... whose last `/`-segment is the base name up to that `.`. */
  lemma HeadSegmentIsStem(filePath: string)
    requires LastIndexOf(CutService.BaseName(filePath), '.') >= 0
    ensures var base := CutService.BaseName(filePath);
      var b := LastIndexOf(base, '.');
      AfterLast(filePath[..|filePath| - |base| + b], '/') == base[..b]
  {
    var base := CutService.BaseName(filePath);
    var b := LastIndexOf(base, '.');
    var offset := |filePath| - |base|;
    PrefixThroughSuffix(filePath, base, b);
    BeforeBase(filePath);
    AfterLastOfSeparated(filePath[..offset], base[..b]);
  }

  /** The legacy segment is cut from what precedes the last `.`. */
  lemma SegmentFrom(filePath: string, k: int)
    requires k == LastIndexOf(filePath, '.') && k >= 0
    ensures LegacySegment(filePath) == AfterLast(filePath[..k], '/')
  {
  }

  /** The stem is the base name up to its last `.`. */
  lemma StemAt(filePath: string, b: int)
    requires b == LastIndexOf(CutService.BaseName(filePath), '.') && b > 0 && CutService.BaseName(filePath) != ".."
    ensures CutService.Stem(filePath) == CutService.BaseName(filePath)[..b]
  {
    var base := CutService.BaseName(filePath);
    assert CutService.ExtName(base) == base[b..];
    assert base == base[..b] + base[b..];
  }

  /** Cutting a string inside its suffix `t` keeps what precedes `t`. */
  lemma PrefixThroughSuffix(s: string, t: string, b: int)
    requires EndsWith(s, t) && 0 <= b <= |t|
    ensures s[..|s| - |t| + b] == s[..|s| - |t|] + t[..b]
  {
  }

  /** A name after an empty prefix, or after a prefix ending in `/`, is the
      last segment. */
  lemma AfterLastOfSeparated(prefix: string, name: string)
    requires prefix == [] || prefix[|prefix| - 1] == '/'
    requires '/' !in name
    ensures AfterLast(prefix + name, '/') == name
  {
    if prefix == [] {
      assert prefix + name == name;
      assert LastIndexOf(name, '/') == -1;
    } else {
      var p := prefix[..|prefix| - 1];
      assert prefix + name == p + ['/'] + name;
      CutService.AfterLastOfJoined(p, '/', name);
    }
  }

  /** ... and so the same output. */
  lemma LegacyOutputAgrees(downloads: string, filePath: string, n: nat)
    requires LastIndexOf(CutService.BaseName(filePath), '.') > 0 && CutService.BaseName(filePath) != ".."
    ensures LegacyOutputPath(downloads, filePath, n) == CutService.DefaultOutputPath(downloads, filePath, n)
    ensures LegacyChoppedName(filePath) == CutService.ChoppedName(filePath)
  {
    LegacyExtensionAgrees(filePath);
    LegacySegmentAgrees(filePath);
  }

  /** The legacy messages: progress carries the engine's raw percent, and an
      error is sent as `('Failed', error)`. */
  datatype LegacyMessage = LegacyProgress(percent: Option<real>) | LegacyDone(outputPath: string) | LegacyError(kind: string, error: string)

  /** The engine events the legacy handlers see. fluent-ffmpeg passes `end`
      an argument the handler reads as an error when it is non-empty. */
  datatype LegacyEvent = Progress(percent: Option<real>) | End(arg: Option<string>) | Error(error: string)

  /** The message the legacy handlers send for an engine event: `end` with a
      truthy (non-empty) argument is reported as a failure. */
  function LegacyMessageFor(output: string, e: LegacyEvent): (m: LegacyMessage)
    ensures m.LegacyProgress? <==> e.Progress?
    ensures m.LegacyDone? <==> e.End? && (e.arg.None? || e.arg.value == "")
    ensures m.LegacyDone? ==> m.outputPath == output
    ensures m.LegacyError? ==> m.kind == "Failed"
    ensures m.LegacyError? && e.End? ==> m.error == e.arg.value && m.error != ""
  {
    match e
    case Progress(p) => LegacyProgress(p)
    case End(arg) => if arg.Some? && arg.value != "" then LegacyError("Failed", arg.value) else LegacyDone(output)
    case Error(error) => LegacyError("Failed", error)
  }

  /** The extension and the chopped name, by splitting and popping: the
      extension is `.` and the last `.`-piece; the name is the last
      `/`-piece of the other `.`-pieces joined again, then ` - chopped`. */
  method SplitNames(filePath: string) returns (ext: string, name: string)
    ensures ext == LegacyExtension(filePath)
    ensures name == LegacyChoppedName(filePath)
  {
    var pieces := Split(filePath, '.');
    ext := "." + Last(pieces);
    var fileName := DropLast(pieces);
    name := Last(Split(Join(fileName, '.'), '/')) + " - chopped";
    SplitExtension(filePath);
    SplitSegment(filePath);
  }

  /** `cutVideo(filePath, startTime, duration, outputPath)`: the naming is
      done by splitting and popping; a missing folder ends the cut before any
      message is sent. */
  method CutVideo(filePath: string, startTime: real, duration: real, outputPath: Option<string>,
                  downloads: string, listing: Option<seq<string>>)
    returns (messages: seq<LegacyMessage>, command: Option<CutService.Command>)
    ensures var explicit := outputPath.Some? && outputPath.value != "";
      && (command.None? <==> !explicit && listing.None?)
      && (explicit && command.Some? ==> command.value.output == outputPath.value)
      && (!explicit && listing.Some? && command.Some? ==>
            command.value.output == LegacyOutputPath(downloads, filePath, CutService.MatchCount(listing.value, LegacyChoppedName(filePath))))
    ensures command.None? ==> messages == []
    ensures command.Some? ==> messages == [LegacyProgress(Some(0.0))]
    ensures command.Some? ==>
      && command.value.input == filePath
      && command.value.startTime == startTime
      && command.value.duration == duration
      && command.value.videoBitrate == "900k"
      && command.value.size == "750x?"
  {
    var output: string;
    if outputPath.Some? && outputPath.value != "" {
      output := outputPath.value;
    } else {
      var ext, name := SplitNames(filePath);
      var scan := CutService.MatchingFilesInDir(downloads, listing, name);
      if scan.Failure? {
        return [], None;
      }
      var matchingFiles := scan.value;
      if matchingFiles > 0 {
        name := name + " - " + IntToString(matchingFiles);
      }
      assert name == LegacyChoppedName(filePath) + CutService.CountSuffix(matchingFiles);
      output := downloads + "/" + name + ext;
      assert output == downloads + "/" + (name + ext);
    }
    messages := [LegacyProgress(Some(0.0))];
    command := Some(CutService.Command(filePath, startTime, duration, "900k", "750x?", output));
  }
}
