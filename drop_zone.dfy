/** The drop zone (src/renderer/components/VideoDropZone.tsx): which files are
    accepted as videos, how the `VideoFile` record is built once the file's
    metadata has loaded, and the drag highlight. */
module DropZone {
  import opened Wrappers
  import opened Strings
  import opened Types
  import Session

  /** A dropped or selected file: its name, its MIME type, and the absolute
      path Electron adds to it (absent or empty for some sources). */
  datatype FileInfo = FileInfo(name: string, mimeType: string, path: Option<string>)

  const VideoMimeTypes: seq<string> := ["video/mp4", "video/mov", "video/avi", "video/x-flv", "video/x-ms-wmv"]

  /** The alternatives of `/\.(mp4|mov|avi|flv|wmv)$/i`, in lower case. */
  const VideoExtensions: seq<string> := [".mp4", ".mov", ".avi", ".flv", ".wmv"]

  /** The name ends, ignoring the case of ASCII letters, in one of the extensions. */
  predicate HasVideoExtension(name: string) {
    exists i :: 0 <= i < |VideoExtensions| && EndsWith(LowerAscii(name), VideoExtensions[i])
  }

  /** The acceptance rule of `handleFile`. */
  predicate IsAcceptedVideo(f: FileInfo) {
    f.mimeType in VideoMimeTypes || HasVideoExtension(f.name)
  }

  /** The extension must end the name: a name ending in `.txt` (in any case)
      is accepted only for a listed MIME type, so `clip.mp4.txt` sent as
      `text/plain` is rejected. */
  lemma ExtensionMustEndName(f: FileInfo)
    requires EndsWith(LowerAscii(f.name), ".txt")
    ensures IsAcceptedVideo(f) <==> f.mimeType in VideoMimeTypes
  {
    var lower := LowerAscii(f.name);
    assert lower[|lower| - 1] == 't' by {
      assert lower[|lower| - 4..][3] == 't';
    }
    forall i | 0 <= i < |VideoExtensions|
      ensures !EndsWith(lower, VideoExtensions[i])
    {
      var ext := VideoExtensions[i];
      assert |ext| == 4 && ext[3] != 't';
    }
  }

  lemma ClipTxtRejected()
    ensures !IsAcceptedVideo(FileInfo("clip.mp4.txt", "text/plain", None))
  {
    ExtensionMustEndName(FileInfo("clip.mp4.txt", "text/plain", None));
  }

  /** Upper-case extensions are accepted whatever the MIME type. */
  lemma UpperCaseExtensionAccepted(mimeType: string)
    ensures IsAcceptedVideo(FileInfo("HOLIDAY.MP4", mimeType, None))
  {
    assert EndsWith(LowerAscii("HOLIDAY.MP4"), VideoExtensions[0]);
  }

  /** The `i` flag: the case of ASCII letters never changes the verdict, for
      any name, and every name ending in an upper-case extension is accepted
      whatever its MIME type. */
  lemma ExtensionIgnoresCase(name: string, stem: string, mimeType: string)
    ensures HasVideoExtension(LowerAscii(name)) == HasVideoExtension(name)
    ensures forall i :: 0 <= i < |UpperExtensions| ==> IsAcceptedVideo(FileInfo(stem + UpperExtensions[i], mimeType, None))
  {
    assert LowerAscii(LowerAscii(name)) == LowerAscii(name);
    forall i | 0 <= i < |UpperExtensions|
      ensures IsAcceptedVideo(FileInfo(stem + UpperExtensions[i], mimeType, None))
    {
      var lower := LowerAscii(stem + UpperExtensions[i]);
      assert lower == LowerAscii(stem) + LowerAscii(UpperExtensions[i]);
      assert LowerAscii(UpperExtensions[i]) == VideoExtensions[i];
      assert EndsWith(lower, VideoExtensions[i]);
    }
  }

  /** The extensions in upper case. */
  const UpperExtensions: seq<string> := [".MP4", ".MOV", ".AVI", ".FLV", ".WMV"]

  /** The outcome of probing the file's metadata with a `<video>` element. */
  datatype Metadata = Loaded(duration: real) | LoadFailed

  /** What `handleFile` ends in. */
  datatype FileOutcome =
    | Selected(video: VideoFile)
    | Rejected        // alert "Please select a valid video file"
    | MetadataError   // alert "Error loading video file"

  /** The recorded path: Electron's `file.path` when it is present and not
      empty, the name otherwise. */
  function RecordedPath(f: FileInfo): (p: string)
    ensures f.path.Some? && f.path.value != "" ==> p == f.path.value
    ensures f.path.None? || f.path.value == "" ==> p == f.name
  {
    match f.path
    case Some(p) => if p != "" then p else f.name
    case None => f.name
  }

  /** `handleFile`: a rejected file or a metadata error selects nothing;
      otherwise the video is the recorded path, the file's name and the
      probed duration. */
  function HandleFile(f: FileInfo, metadata: Metadata): (r: FileOutcome)
    ensures r.Rejected? <==> !IsAcceptedVideo(f)
    ensures r.MetadataError? <==> IsAcceptedVideo(f) && metadata.LoadFailed?
    ensures r.Selected? ==> r.video == VideoFile(RecordedPath(f), f.name, metadata.duration)
  {
    if !IsAcceptedVideo(f) then Rejected
    else match metadata
      case LoadFailed => MetadataError
      case Loaded(duration) => Selected(VideoFile(RecordedPath(f), f.name, duration))
  }

  /** `files && files[0]`: only the first file counts. */
  function FirstFile(files: seq<FileInfo>): (r: Option<FileInfo>)
    ensures r.None? <==> |files| == 0
    ensures r.Some? ==> r.value == files[0]
  {
    if |files| == 0 then None else Some(files[0])
  }

  /** The outcome of a drop or a selection: `None` for an empty list. */
  function HandleFiles(files: seq<FileInfo>, metadata: Metadata): (r: Option<FileOutcome>)
    ensures r.None? <==> |files| == 0
    ensures r.Some? ==> r.value == HandleFile(files[0], metadata)
  {
    match FirstFile(files)
    case None => None
    case Some(f) => Some(HandleFile(f, metadata))
  }

  /** Files after the first never matter. */
  lemma OnlyFirstFileMatters(f: FileInfo, rest: seq<FileInfo>, other: seq<FileInfo>, metadata: Metadata)
    ensures HandleFiles([f] + rest, metadata) == HandleFiles([f] + other, metadata)
  {
  }

  class DropZone {
    var isDragging: bool

    constructor ()
      ensures !isDragging
    {
      isDragging := false;
    }

    method DragOver()
      modifies this
      ensures isDragging
    {
      isDragging := true;
    }

    method DragLeave()
      modifies this
      ensures !isDragging
    {
      isDragging := false;
    }

    /** `handleDrop`: the highlight goes away and the first file, if any, is
        handled; only a selected video replaces the session's video file. */
    method Drop(files: seq<FileInfo>, metadata: Metadata, session: Session.AppSession)
      modifies this, session`videoFile
      ensures !isDragging
      ensures var r := HandleFiles(files, metadata);
        session.videoFile == if r.Some? && r.value.Selected? then Some(r.value.video) else old(session.videoFile)
    {
      isDragging := false;
      Select(files, metadata, session);
    }

    /** `handleFileSelect`: the same, from the file picker. */
    method Select(files: seq<FileInfo>, metadata: Metadata, session: Session.AppSession)
      modifies session`videoFile
      ensures var r := HandleFiles(files, metadata);
        session.videoFile == if r.Some? && r.value.Selected? then Some(r.value.video) else old(session.videoFile)
    {
      var r := HandleFiles(files, metadata);
      if r.Some? && r.value.Selected? {
        session.SetVideoFile(Some(r.value.video));
      }
    }
  }
}
