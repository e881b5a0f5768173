/** The entry point `main`: dispatch on the second argument of argv. */
module Cli {
  import Args
  import Session

  /** What one invocation answers on the terminal. */
  datatype Reply =
    | UsageText
    | StartReply(start: Session.StartOutcome)
    | StopReply(stop: Session.StopOutcome)
    | StatusReply(status: Session.StatusReport)
    | UnknownCommandText

  /**
   * One run of the program with command line `argv` at time `now`. A start
   * that answers `RecordingStarted` is where the real program forks the
   * recorder; `Session.Daemon` models that process.
   */
  method Run(host: Session.Host, argv: seq<string>, now: int) returns (reply: Reply)
    modifies host
    ensures Args.Dispatch(argv) == Args.Usage ==> reply == UsageText
    ensures Args.Dispatch(argv) == Args.UnknownCommand ==> reply == UnknownCommandText
    ensures Args.Dispatch(argv).Usage? || Args.Dispatch(argv).UnknownCommand? ==>
      host.fs == old(host.fs) && host.journal == old(host.journal)
    ensures Args.Dispatch(argv) == Args.StartRequest ==>
      reply.StartReply? &&
      (reply.start.AlreadyRecording? <==> Session.Stored(old(host.fs), old(host.procs)).Some?) &&
      (reply.start.AlreadyRecording? ==> host.fs == old(host.fs)) &&
      (reply.start.BadFps? ==>
        reply.start.arg == Args.FpsFromArgv(argv) && !reply.start.arg.Fps? &&
        host.fs == Session.Cleared(old(host.fs))) &&
      (reply.start.RecordingStarted? ==>
        Args.FpsFromArgv(argv) == Args.Fps(reply.start.fps) &&
        host.fs == (Session.Cleared(old(host.fs)) - {Session.LockFile + Session.TmpSuffix})
                   [Session.LockFile := Session.LockStamp(now)] &&
        host.journal == old(host.journal) + [(Session.LockFile, Session.LockStamp(now))])
    ensures Args.Dispatch(argv) == Args.StopRequest ==>
      reply.StopReply? &&
      (reply.stop == Session.RecordingStopped <==> Session.Stored(old(host.fs), old(host.procs)).Some?) &&
      host.sigterms == match Session.Stored(old(host.fs), old(host.procs))
        case None => old(host.sigterms)
        case Some(s) => old(host.sigterms) + [s.daemonPid]
    ensures Args.Dispatch(argv).StatusRequest? ==>
      reply == StatusReply(match Session.Stored(old(host.fs), old(host.procs))
        case None => Session.Idle
        case Some(s) => Session.RecordingRunning(Session.Describe(s, old(host.procs), "--verbose" in argv, now)))
    ensures Args.Dispatch(argv) == Args.StopRequest || Args.Dispatch(argv).StatusRequest? ==>
      host.fs == Session.Reconciled(old(host.fs), old(host.procs))
    ensures !(Args.Dispatch(argv) == Args.StartRequest && reply.start.RecordingStarted?) ==>
      host.journal == old(host.journal)
    ensures Args.Dispatch(argv) != Args.StopRequest ==> host.sigterms == old(host.sigterms)
    ensures host.procs == old(host.procs)
  {
    match Args.Dispatch(argv)
    case Usage =>
      reply := UsageText;
    case StartRequest =>
      var out := host.Start(argv, now);
      reply := StartReply(out);
    case StopRequest =>
      var out := host.Stop();
      reply := StopReply(out);
    case StatusRequest(verbose) =>
      var report := host.Status(verbose, now);
      reply := StatusReply(report);
    case UnknownCommand =>
      reply := UnknownCommandText;
  }
}
