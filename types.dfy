/** The value types shared between the renderer and the host process
    (src/shared/types.ts) and the closed set of messages that cross the
    channel between them (src/preload/index.ts). Times are in seconds, as
    exact reals. */
module Types {
  import opened Wrappers

  datatype VideoFile = VideoFile(path: string, name: string, duration: real)

  datatype TrimSettings = TrimSettings(startTime: real, endTime: real)

  datatype ProcessingStatus = ProcessingStatus(
    isProcessing: bool,
    progress: int,
    outputPath: Option<string>,
    error: Option<string>)

  /** The status shown when no cut is running: `{isProcessing: false, progress: 0}`. */
  const Idle := ProcessingStatus(false, 0, None, None)

  /** The persisted snapshot `{videoFile?, trimSettings?}`. */
  datatype Snapshot = Snapshot(videoFile: Option<VideoFile>, trimSettings: Option<TrimSettings>)

  /** The trim range invariant for a slider over `[lo, hi]` with minimum gap `gap`. */
  predicate RangeOk(lo: real, hi: real, gap: real, start: real, end: real) {
    lo <= start && start + gap <= end <= hi
  }

  /** What the renderer asks the host to cut. The source renders `startTime`
      and `duration` with `Number.prototype.toString`; the host hands the two
      strings on to the engine as they are, so the model keeps the numbers. */
  datatype CutRequest = CutRequest(filePath: string, startTime: real, duration: real)

  /** Messages from the renderer to the host. */
  datatype RendererMessage =
    | Log(content: string)
    | CutVideo(request: CutRequest)
    | SaveState(state: Snapshot)

  /** Messages from the host to the renderer. */
  datatype HostMessage =
    | CutProgress(percent: int)
    | CutDone(outputPath: string)
    | CutError(message: string)
    | RestoreState(state: Snapshot)
    | OpenFileFromLink(filePath: string)
}
