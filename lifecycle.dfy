/**
 * Whole sessions: the command-line operations and the recorder run one after
 * the other against the same machine, and what each sequence leaves behind.
 */
module Lifecycle {
  import opened Text
  import Capture
  import Args
  import opened Session

  /**
   * `start`, then the forked recorder's start-up, then `status`: when the
   * start went ahead and a child survived, status reports the recording and
   * the lock is gone.
   */
  method StartRecordStatus(host: Host, argv: seq<string>, now: int, daemonPid: int,
                           env: Capture.Environ, stamp: string,
                           audioProbes: Capture.Probes, first: Spawn, firstAlive: bool,
                           videoProbes: Capture.Probes, second: Spawn, finalAlive: bool,
                           later: int)
      returns (out: StartOutcome, recorder: Daemon?, report: StatusReport)
    requires daemonPid in host.procs
    requires first.Spawned? ==> first.pid !in host.procs
    requires second.Spawned? ==> second.pid !in host.procs
    modifies host
    ensures out.RecordingStarted? <==> recorder != null
    ensures out.RecordingStarted? && Started(first, firstAlive, second, finalAlive) ==>
      report.RecordingRunning? && LockFile !in host.fs
    ensures out.RecordingStarted? && !Started(first, firstAlive, second, finalAlive) ==>
      report == Idle && daemonPid !in host.procs
    ensures !out.RecordingStarted? ==> (report == Idle <==> out.BadFps?)
  {
    recorder := null;
    out := host.Start(argv, now);
    if out.RecordingStarted? {
      recorder := new Daemon(host, daemonPid, out.fps, env, stamp);
      recorder.Launch(audioProbes, first, firstAlive, videoProbes, second, finalAlive, now);
    } else if out.AlreadyRecording? {
      assert Stored(host.fs, host.procs).Some?;
    } else {
      assert StateFile !in host.fs;
    }
    report := host.Status(false, later);
  }

  /**
   * Until the recorder commits, the lock does not stop a second `start`:
   * with no live session both starts go ahead.
   */
  method StartTwiceBeforeCommit(host: Host, argv: seq<string>, now1: int, now2: int)
      returns (a: StartOutcome, b: StartOutcome)
    requires Stored(host.fs, host.procs).None?
    requires Args.FpsFromArgv(argv).Fps?
    modifies host
    ensures a.RecordingStarted? && b.RecordingStarted?
    ensures LockFile in host.fs && host.fs[LockFile] == LockStamp(now2)
  {
    a := host.Start(argv, now1);
    assert StateFile !in host.fs;
    b := host.Start(argv, now2);
  }

  /**
   * `stop` while recording, the recorder's SIGTERM handler, then `stop`
   * again: the first stop signals the daemon once, the second finds
   * nothing to stop, and both session files are gone.
   */
  method StopTwice(host: Host, recorder: Daemon, exitsInTime: bool)
      returns (first: StopOutcome, second: StopOutcome)
    requires recorder.host == host && recorder.phase == Running && recorder.Valid()
    requires Stored(host.fs, host.procs) == recorder.state
    modifies host, recorder
    ensures first == RecordingStopped && second == NotRecording
    ensures host.sigterms == old(host.sigterms) + [recorder.pid]
    ensures recorder.phase == Exited(0) && StateFile !in host.fs && LockFile !in host.fs
    ensures recorder.signals == old(recorder.signals) + (if exitsInTime then [Terminate] else [Terminate, Kill])
  {
    first := host.Stop();
    recorder.Shutdown(exitsInTime);
    second := host.Stop();
  }

  /**
   * The child dies while the recorder watches it: the error is written to the
   * state file and removed with it at once, so `status` reports no recording
   * rather than the error.
   */
  method StatusAfterChildDeath(host: Host, recorder: Daemon, polls: seq<bool>, verbose: bool, now: int)
      returns (report: StatusReport)
    requires recorder.host == host && recorder.phase == Running && recorder.Valid()
    requires exists k | 0 <= k < |polls| :: !polls[k]
    modifies host, recorder
    ensures recorder.phase == Exited(1)
    ensures recorder.state.Some? && recorder.state.value.lastError == Some(ExitedError)
    ensures host.journal == old(host.journal) + [(StateFile, StateDoc(recorder.state.value))]
    ensures report == Idle
  {
    recorder.Monitor(polls);
    report := host.Status(verbose, now);
  }
}
