/** The older host's messages set beside the newer host's: the same engine
    event, reported by each. */
module LegacyHost {
  import opened LegacyCut
  import Types
  import CutService
  import Host

  /** The event the newer service's handlers see: its `end` handler does not
      read the argument. */
  function AsEngineEvent(e: LegacyEvent): CutService.EngineEvent {
    match e
    case Progress(p) => CutService.EngineProgress(p)
    case End(_) => CutService.EngineEnd
    case Error(error) => CutService.EngineError(error)
  }

  /** A legacy message in the newer channel's terms: the percent rounded as the
      service rounds it, the output of `cut-done`, the error of `cut-error`
      without the `'Failed'` tag. */
  function AsHostMessage(m: LegacyMessage): Types.HostMessage {
    match m
    case LegacyProgress(p) => Types.CutProgress(CutService.RoundPercent(p))
    case LegacyDone(path) => Types.CutDone(path)
    case LegacyError(_, error) => Types.CutError(error)
  }

  /** The legacy host and the newer one report the same engine event alike,
      up to the rounding of the percent and the `'Failed'` tag, except for an
      `end` with a non-empty argument: the legacy host reports it as a
      failure, the service as a success. Progress is sent raw by the legacy
      host and rounded by the service. */
  lemma LegacyMessagesAgainstService(command: CutService.Command, e: LegacyEvent)
    ensures var legacy := LegacyMessageFor(command.output, e);
      var service := Host.Forward(CutService.EngineCallback(command, AsEngineEvent(e)));
      && (AsHostMessage(legacy) == service <==> !(e.End? && e.arg.Some? && e.arg.value != ""))
      && (e.End? ==> service == Types.CutDone(command.output))
      && (e.End? && e.arg.Some? && e.arg.value != "" ==> legacy == LegacyError("Failed", e.arg.value))
      && (e.Progress? ==> legacy == LegacyProgress(e.percent)
                          && service == Types.CutProgress(CutService.RoundPercent(e.percent)))
      && (e.Error? ==> legacy == LegacyError("Failed", e.error) && service == Types.CutError(e.error))
  {
  }
}
