/**
 * The recording session: the state file and the lock under ~/.rudyrecord, the
 * rule that decides whether a stored session is still alive, the command-line
 * operations `start`, `stop` and `status`, and the background recorder that
 * launches ffmpeg, commits the session and watches the child.
 *
 * The filesystem is a map from path to content and the process table a map
 * from pid to creation time. Times are integers in microseconds: the source
 * compares floating-point seconds, and one second is `Second` here.
 */
module Session {
  import opened Text
  import Capture
  import Args

  const BaseDir := "~/.rudyrecord"
  const StateFile := BaseDir + "/state.json"
  const LogFile := BaseDir + "/ffmpeg.log"
  const LockFile := BaseDir + "/lock"
  const VideoDir := "~/Videos"
  const TmpSuffix := ".tmp"
  const Second := 1_000_000
  const ExitedError := "ffmpeg exited"

  datatype Backend = X11 | Wayland

  /** The session record the recorder writes as JSON to the state file. */
  datatype SessionState = SessionState(
    daemonPid: int,
    daemonStart: int,
    ffmpegPid: int,
    backend: Backend,
    output: string,
    startTime: int,
    lastError: Option<string>)

  /**
   * What a file holds: a session document, the lock's time stamp, or anything
   * that does not load as a session (broken JSON, missing keys).
   */
  datatype Content = StateDoc(state: SessionState) | LockStamp(time: int) | Unreadable

  type FileSystem = map<string, Content>

  /** Live processes: pid to creation time. */
  type ProcessTable = map<int, int>

  function Abs(x: int): nat {
    if x < 0 then -x else x
  }

  /**
   * A stored session is alive when its daemon pid is a live process whose
   * creation time is within one second of the recorded one; a reused pid
   * fails the second test.
   */
  predicate Alive(s: SessionState, procs: ProcessTable) {
    s.daemonPid in procs && Abs(procs[s.daemonPid] - s.daemonStart) < Second
  }

  /** The session `read_state` returns, if any. */
  function Stored(fs: FileSystem, procs: ProcessTable): (r: Option<SessionState>)
    ensures r.Some? ==> StateFile in fs && fs[StateFile] == StateDoc(r.value) && Alive(r.value, procs)
    ensures r.None? ==> StateFile !in fs || !fs[StateFile].StateDoc? || !Alive(fs[StateFile].state, procs)
  {
    if StateFile in fs && fs[StateFile].StateDoc? && Alive(fs[StateFile].state, procs)
    then Some(fs[StateFile].state)
    else None
  }

  /** `cleanup`: the state file and the lock are gone, nothing else is touched. */
  function Cleared(fs: FileSystem): FileSystem {
    fs - {StateFile, LockFile}
  }

  /** The filesystem after `read_state`: unchanged when a session is alive, cleared otherwise. */
  function Reconciled(fs: FileSystem, procs: ProcessTable): FileSystem {
    if Stored(fs, procs).Some? then fs else Cleared(fs)
  }

  /** `cleanup` removes exactly the two session files, and a second `cleanup` changes nothing. */
  lemma ClearedExactly(fs: FileSystem, path: string)
    ensures StateFile !in Cleared(fs) && LockFile !in Cleared(fs)
    ensures Cleared(Cleared(fs)) == Cleared(fs)
    ensures path != StateFile && path != LockFile ==>
      (path in Cleared(fs) <==> path in fs) && (path in fs ==> Cleared(fs)[path] == fs[path])
  {
  }

  /** Reading the state twice is the same as reading it once. */
  lemma ReconcileStable(fs: FileSystem, procs: ProcessTable)
    ensures Stored(Reconciled(fs, procs), procs) == Stored(fs, procs)
    ensures Reconciled(Reconciled(fs, procs), procs) == Reconciled(fs, procs)
  {
    if Stored(fs, procs).None? {
      assert StateFile !in Reconciled(fs, procs);
    }
  }

  /**
   * After a read that finds no live session the lock is gone, so the lock
   * test in `start` never refuses a start that no other run overlaps.
   */
  lemma LockNeverRefuses(fs: FileSystem, procs: ProcessTable)
    ensures Stored(fs, procs).None? ==> LockFile !in Reconciled(fs, procs)
  {
  }

  /** A state file naming a dead daemon, or a pid now owned by a younger process, is stale. */
  lemma StaleSession(fs: FileSystem, procs: ProcessTable, s: SessionState)
    requires StateFile in fs && fs[StateFile] == StateDoc(s)
    ensures Stored(fs, procs) == None <==>
      s.daemonPid !in procs || procs[s.daemonPid] - s.daemonStart >= Second || s.daemonStart - procs[s.daemonPid] >= Second
  {
  }

  /** Python's `int()` of a float number of seconds: truncation toward zero. */
  function WholeSeconds(us: int): (r: int)
    ensures 0 <= us ==> 0 <= r && r * Second <= us < (r + 1) * Second
    ensures us < 0 ==> r <= 0 && (r - 1) * Second < us <= r * Second
  {
    if us >= 0 then us / Second else -((-us) / Second)
  }

  /** What `status --verbose` adds under "Recording running". */
  datatype Details =
    | Brief
    | Details(backend: Backend, uptime: int, output: string, log: string, lastError: Option<string>)
    | NotResponding

  /**
   * The verbose part of `status` for a live session at time `now`: the
   * details while the ffmpeg pid is a live process, "not responding"
   * otherwise; the last error is shown only when it is set and not empty.
   */
  function Describe(s: SessionState, procs: ProcessTable, verbose: bool, now: int): (d: Details)
    ensures d.Brief? <==> !verbose
    ensures d.NotResponding? <==> verbose && s.ffmpegPid !in procs
    ensures d.Details? ==> d.backend == s.backend && d.output == s.output && d.log == LogFile
    ensures d.Details? ==> d.uptime == WholeSeconds(now - s.startTime)
    ensures d.Details? ==> (d.lastError.Some? <==> s.lastError.Some? && s.lastError.value != "")
    ensures d.Details? && d.lastError.Some? ==> d.lastError == s.lastError
  {
    if !verbose then Brief
    else if s.ffmpegPid !in procs then NotResponding
    else
      var shown := if s.lastError.Some? && s.lastError.value != "" then s.lastError else None;
      Details(s.backend, WholeSeconds(now - s.startTime), s.output, LogFile, shown)
  }

  datatype StartOutcome = AlreadyRecording | RecordingStarted(fps: int) | BadFps(arg: Args.FpsArg)
  datatype StopOutcome = NotRecording | RecordingStopped
  datatype StatusReport = Idle | RecordingRunning(details: Details)

  /** The machine the program runs on: its files, its processes and the signals `stop` sent. */
  class Host {
    var fs: FileSystem
    var procs: ProcessTable
    /** Pids `stop` sent SIGTERM to, oldest first. */
    var sigterms: seq<int>
    /** Every completed atomic write, oldest first. */
    ghost var journal: seq<(string, Content)>

    constructor(fs0: FileSystem, procs0: ProcessTable)
      ensures fs == fs0 && procs == procs0 && sigterms == [] && journal == []
    {
      fs := fs0;
      procs := procs0;
      sigterms := [];
      journal := [];
    }

    /** `os.remove` with FileNotFoundError ignored. */
    method Remove(path: string)
      modifies this
      ensures fs == old(fs) - {path}
      ensures procs == old(procs) && sigterms == old(sigterms) && journal == old(journal)
    {
      fs := fs - {path};
    }

    /**
     * `atomic_write`: the data goes to `path + ".tmp"`, which then replaces
     * `path`; no temporary file is left behind and no other file changes.
     */
    method AtomicWrite(path: string, data: Content)
      modifies this
      ensures fs == (old(fs) - {path + TmpSuffix})[path := data]
      ensures journal == old(journal) + [(path, data)]
      ensures procs == old(procs) && sigterms == old(sigterms)
    {
      var tmp := path + TmpSuffix;
      assert |tmp| != |path|;
      fs := fs[tmp := data];
      var written := fs[tmp];
      fs := (fs - {tmp})[path := written];
      journal := journal + [(path, data)];
    }

    /** `cleanup`: removes the state file and then the lock, each if present. */
    method Cleanup()
      modifies this
      ensures fs == Cleared(old(fs))
      ensures procs == old(procs) && sigterms == old(sigterms) && journal == old(journal)
    {
      var files := [StateFile, LockFile];
      for i := 0 to |files|
        invariant fs == old(fs) - (set k | 0 <= k < i :: files[k])
        invariant procs == old(procs) && sigterms == old(sigterms) && journal == old(journal)
      {
        assert (set k | 0 <= k < i + 1 :: files[k]) == (set k | 0 <= k < i :: files[k]) + {files[i]};
        Remove(files[i]);
      }
      assert (set k | 0 <= k < 2 :: files[k]) == {StateFile, LockFile} by {
        assert files[0] == StateFile && files[1] == LockFile;
      }
    }

    /** `read_state`: the live session, or none after removing the session files. */
    method ReadState() returns (r: Option<SessionState>)
      modifies this
      ensures r == Stored(old(fs), old(procs))
      ensures fs == Reconciled(old(fs), old(procs))
      ensures procs == old(procs) && sigterms == old(sigterms) && journal == old(journal)
    {
      if StateFile in fs && fs[StateFile].StateDoc? {
        var s := fs[StateFile].state;
        if s.daemonPid in procs && Abs(procs[s.daemonPid] - s.daemonStart) < Second {
          return Some(s);
        }
      }
      Cleanup();
      return None;
    }

    /**
     * `start` up to the fork: refuses while a session is alive, reads the
     * frame rate, and takes the lock stamped with `now`.
     */
    method Start(argv: seq<string>, now: int) returns (out: StartOutcome)
      modifies this
      ensures out.AlreadyRecording? <==> Stored(old(fs), old(procs)).Some?
      ensures out.AlreadyRecording? ==> fs == old(fs)
      ensures out.BadFps? ==> out.arg == Args.FpsFromArgv(argv) && !out.arg.Fps? && fs == Cleared(old(fs))
      ensures out.RecordingStarted? ==>
        Args.FpsFromArgv(argv) == Args.Fps(out.fps) &&
        fs == (Cleared(old(fs)) - {LockFile + TmpSuffix})[LockFile := LockStamp(now)]
      ensures out.RecordingStarted? ==> journal == old(journal) + [(LockFile, LockStamp(now))]
      ensures !out.RecordingStarted? ==> journal == old(journal)
      ensures procs == old(procs) && sigterms == old(sigterms)
    {
      var st := ReadState();
      if st.Some? || LockFile in fs {
        return AlreadyRecording;
      }
      var fps := Args.FpsFromArgv(argv);
      if !fps.Fps? {
        return BadFps(fps);
      }
      AtomicWrite(LockFile, LockStamp(now));
      return RecordingStarted(fps.n);
    }

    /** `stop`: sends SIGTERM to the daemon of a live session; the daemon removes the files. */
    method Stop() returns (out: StopOutcome)
      modifies this
      ensures out == RecordingStopped <==> Stored(old(fs), old(procs)).Some?
      ensures sigterms == match Stored(old(fs), old(procs))
        case None => old(sigterms)
        case Some(s) => old(sigterms) + [s.daemonPid]
      ensures fs == Reconciled(old(fs), old(procs))
      ensures procs == old(procs) && journal == old(journal)
    {
      var st := ReadState();
      if st.None? {
        return NotRecording;
      }
      sigterms := sigterms + [st.value.daemonPid];
      return RecordingStopped;
    }

    /** `status`: "Not recording", or "Recording running" with the verbose details at time `now`. */
    method Status(verbose: bool, now: int) returns (report: StatusReport)
      modifies this
      ensures report == match Stored(old(fs), old(procs))
        case None => Idle
        case Some(s) => RecordingRunning(Describe(s, old(procs), verbose, now))
      ensures fs == Reconciled(old(fs), old(procs))
      ensures procs == old(procs) && sigterms == old(sigterms) && journal == old(journal)
    {
      var st := ReadState();
      if st.None? {
        return Idle;
      }
      return RecordingRunning(Describe(st.value, procs, verbose, now));
    }
  }

  /** The path `record` writes the video to, for a formatted time stamp. */
  function OutputPath(stamp: string): (p: string)
    ensures |p| == |VideoDir| + 6 + |stamp| + 4
    ensures p[..|VideoDir| + 6] == VideoDir + "/rudy_"
    ensures p[|VideoDir| + 6..|p| - 4] == stamp
    ensures p[|p| - 4..] == ".mp4"
  {
    VideoDir + "/rudy_" + stamp + ".mp4"
  }

  /** The outcome of `subprocess.Popen`: a child with its pid and creation time, or an exception. */
  datatype Spawn = Spawned(pid: int, created: int) | SpawnFailed

  datatype Phase = Starting | Running | Exited(code: int)

  datatype ChildSignal = Terminate | Kill

  /** The first child died before its poll, so the recorder tries again without audio. */
  predicate Retried(first: Spawn, firstAlive: bool) {
    first.Spawned? && !firstAlive
  }

  /** The child the final poll looks at. */
  function Attempt(first: Spawn, firstAlive: bool, second: Spawn): Spawn {
    if Retried(first, firstAlive) then second else first
  }

  /** The recorder gets past its start-up: a child was spawned and survived the final poll. */
  predicate Started(first: Spawn, firstAlive: bool, second: Spawn, finalAlive: bool) {
    Attempt(first, firstAlive, second).Spawned? && finalAlive
  }

  function BackendOf(env: Capture.Environ): (b: Backend)
    ensures b == Wayland <==> Capture.IsWayland(env)
  {
    if Capture.IsWayland(env) then Wayland else X11
  }

  /** The background recorder `record(fps)`, after it has detached. */
  class Daemon {
    const host: Host
    const pid: int
    const fps: int
    const env: Capture.Environ
    const output: string
    var phase: Phase
    /** The ffmpeg command lines handed to Popen, in order. */
    var launched: seq<seq<string>>
    /** The pid of the current ffmpeg child. */
    var child: int
    /** The session record once built. */
    var state: Option<SessionState>
    /** Signals sent to the ffmpeg child, in order. */
    var signals: seq<ChildSignal>

    ghost predicate Valid()
      reads this
    {
      phase == Running ==> state.Some? && state.value.daemonPid == pid && state.value.ffmpegPid == child
    }

    constructor(host: Host, pid: int, fps: int, env: Capture.Environ, stamp: string)
      ensures this.host == host && this.pid == pid && this.fps == fps && this.env == env
      ensures output == OutputPath(stamp)
      ensures phase == Starting && launched == [] && state == None && signals == []
      ensures Valid()
    {
      this.host := host;
      this.pid := pid;
      this.fps := fps;
      this.env := env;
      output := OutputPath(stamp);
      phase := Starting;
      launched := [];
      child := 0;
      state := None;
      signals := [];
    }

    /** `sys.exit(code)`: the daemon process is gone. */
    method Exit(code: int)
      modifies this, host
      ensures phase == Exited(code) && host.procs == old(host.procs) - {pid}
      ensures host.fs == old(host.fs) && host.sigterms == old(host.sigterms) && host.journal == old(host.journal)
      ensures state == old(state) && child == old(child) && launched == old(launched) && signals == old(signals)
    {
      host.procs := host.procs - {pid};
      phase := Exited(code);
    }

    /** `subprocess.Popen(cmd)` with the command line for `withAudio`. */
    method Popen(withAudio: bool, probes: Capture.Probes, proc: Spawn)
      requires proc.Spawned? ==> proc.pid !in host.procs
      modifies this, host
      ensures launched == old(launched) + [Capture.BuildCommand(output, fps, withAudio, env, probes)]
      ensures proc.Spawned? ==> child == proc.pid && host.procs == old(host.procs)[proc.pid := proc.created]
      ensures proc.SpawnFailed? ==> child == old(child) && host.procs == old(host.procs)
      ensures phase == old(phase) && state == old(state) && signals == old(signals)
      ensures host.fs == old(host.fs) && host.sigterms == old(host.sigterms) && host.journal == old(host.journal)
    {
      launched := launched + [Capture.BuildCommand(output, fps, withAudio, env, probes)];
      if proc.Spawned? {
        host.procs := host.procs[proc.pid := proc.created];
        child := proc.pid;
      }
    }

    /** A poll that finds the child dead reaps it. */
    method Reap()
      modifies host
      ensures host.procs == old(host.procs) - {child}
      ensures host.fs == old(host.fs) && host.sigterms == old(host.sigterms) && host.journal == old(host.journal)
    {
      host.procs := host.procs - {child};
    }

    /**
     * The child survived: the session, stamped with the daemon's own
     * creation time, is written to the state file, then the lock is removed.
     */
    method Commit(now: int)
      requires phase == Starting && pid in host.procs && child != pid
      modifies this, host
      ensures phase == Running && Valid()
      ensures host.procs == old(host.procs) && host.sigterms == old(host.sigterms)
      ensures state == Some(SessionState(pid, old(host.procs)[pid], child, BackendOf(env), output, now, None))
      ensures host.fs == (old(host.fs) - {StateFile + TmpSuffix})[StateFile := StateDoc(state.value)] - {LockFile}
      ensures host.journal == old(host.journal) + [(StateFile, StateDoc(state.value))]
      ensures Stored(host.fs, host.procs) == state && LockFile !in host.fs
      ensures child == old(child) && launched == old(launched) && signals == old(signals)
    {
      var s := SessionState(pid, host.procs[pid], child, BackendOf(env), output, now, None);
      state := Some(s);
      host.AtomicWrite(StateFile, StateDoc(s));
      host.Remove(LockFile);
      phase := Running;
    }

    /**
     * Start-up of `record`: ffmpeg with audio; when that child has died by
     * its poll, once more without audio; when the child then polled has
     * died too, cleanup and exit 1. Otherwise the session is committed.
     * A Popen that raises ends the daemon without cleanup. `audioProbes`
     * and `videoProbes` are what the environment answers for each command
     * line, the Booleans what each poll sees.
     */
    method Launch(audioProbes: Capture.Probes, first: Spawn, firstAlive: bool,
                  videoProbes: Capture.Probes, second: Spawn, finalAlive: bool, now: int)
      requires phase == Starting
      requires pid in host.procs
      requires first.Spawned? ==> first.pid !in host.procs
      requires second.Spawned? ==> second.pid !in host.procs
      modifies this, host
      ensures launched == old(launched) + [Capture.BuildCommand(output, fps, true, env, audioProbes)] +
        (if Retried(first, firstAlive) then [Capture.BuildCommand(output, fps, false, env, videoProbes)] else [])
      ensures Valid()
      ensures signals == old(signals) && host.sigterms == old(host.sigterms)
      ensures Started(first, firstAlive, second, finalAlive) ==>
        var attempt := Attempt(first, firstAlive, second);
        phase == Running && child == attempt.pid &&
        state == Some(SessionState(pid, old(host.procs)[pid], attempt.pid, BackendOf(env), output, now, None)) &&
        host.procs == old(host.procs)[attempt.pid := attempt.created] &&
        host.fs == (old(host.fs) - {StateFile + TmpSuffix})[StateFile := StateDoc(state.value)] - {LockFile} &&
        host.journal == old(host.journal) + [(StateFile, StateDoc(state.value))]
      ensures Started(first, firstAlive, second, finalAlive) ==>
        Stored(host.fs, host.procs) == state && LockFile !in host.fs
      ensures !Started(first, firstAlive, second, finalAlive) ==>
        phase == Exited(1) && state == old(state) &&
        host.procs == old(host.procs) - {pid} && host.journal == old(host.journal) &&
        host.fs == if Attempt(first, firstAlive, second).Spawned? then Cleared(old(host.fs)) else old(host.fs)
    {
      Popen(true, audioProbes, first);
      if first.SpawnFailed? {
        Exit(1);
        return;
      }
      if !firstAlive {
        Reap();
        assert host.procs == old(host.procs);
        Popen(false, videoProbes, second);
        if second.SpawnFailed? {
          Exit(1);
          return;
        }
      }
      if !finalAlive {
        Reap();
        host.Cleanup();
        Exit(1);
        return;
      }
      Commit(now);
    }

    /**
     * The watch loop, one poll per second: while the child lives nothing
     * changes; at the first poll that finds it dead the session is written
     * back with the error "ffmpeg exited", the session files are removed
     * and the daemon exits with 1.
     */
    method Monitor(polls: seq<bool>)
      requires phase == Running && Valid()
      modifies this, host
      ensures Valid()
      ensures child == old(child) && launched == old(launched) && signals == old(signals)
      ensures host.sigterms == old(host.sigterms)
      ensures (forall k | 0 <= k < |polls| :: polls[k]) ==>
        phase == Running && state == old(state) &&
        host.fs == old(host.fs) && host.procs == old(host.procs) && host.journal == old(host.journal)
      ensures (exists k | 0 <= k < |polls| :: !polls[k]) ==>
        phase == Exited(1) && state == Some(old(state).value.(lastError := Some(ExitedError))) &&
        host.journal == old(host.journal) + [(StateFile, StateDoc(state.value))] &&
        host.fs == Cleared(old(host.fs)) - {StateFile + TmpSuffix} &&
        host.procs == old(host.procs) - {child, pid}
      ensures (exists k | 0 <= k < |polls| :: !polls[k]) ==> StateFile !in host.fs
    {
      var i := 0;
      while i < |polls|
        invariant 0 <= i <= |polls|
        invariant forall k | 0 <= k < i :: polls[k]
        invariant phase == Running && state == old(state)
        invariant host.fs == old(host.fs) && host.procs == old(host.procs) && host.journal == old(host.journal)
      {
        if !polls[i] {
          host.procs := host.procs - {child};
          var s := state.value.(lastError := Some(ExitedError));
          state := Some(s);
          host.AtomicWrite(StateFile, StateDoc(s));
          host.Cleanup();
          assert host.fs == Cleared(old(host.fs)) - {StateFile + TmpSuffix};
          Exit(1);
          return;
        }
        i := i + 1;
      }
    }

    /**
     * The SIGTERM handler: terminate the child, kill it when it has not
     * exited within five seconds, remove the session files and exit 0.
     */
    method Shutdown(exitsInTime: bool)
      requires phase == Running && Valid()
      modifies this, host
      ensures signals == old(signals) + (if exitsInTime then [Terminate] else [Terminate, Kill])
      ensures phase == Exited(0) && host.fs == Cleared(old(host.fs))
      ensures host.procs == old(host.procs) - {child, pid}
      ensures state == old(state) && child == old(child) && launched == old(launched)
      ensures host.sigterms == old(host.sigterms) && host.journal == old(host.journal)
    {
      signals := signals + [Terminate];
      if !exitsInTime {
        signals := signals + [Kill];
      }
      host.procs := host.procs - {child};
      host.Cleanup();
      Exit(0);
    }
  }
}
