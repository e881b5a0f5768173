# RudyRecord in Dafny

RudyRecord is a small command-line screen recorder for Linux. `rudyrecord start`
forks a detached recorder daemon. The daemon runs ffmpeg against the X11 or
Wayland screen, with PulseAudio sound when that works and video only when it
does not. `rudyrecord stop` sends SIGTERM to the daemon. `rudyrecord status`
reports whether a recording is running. The daemon takes its frame rate from
`start` across the fork. Apart from that and the SIGTERM, the only data the
command-line process and the daemon share is a JSON state file under
`~/.rudyrecord`, plus a lock file that is meant to cover the daemon's start-up.

This project models `RudyRecord/rudyrecord.py` and proves properties of the model:

- `text.dfy` (module `Text`) models the Python string operations the program
  relies on: substring search (`in`), `split(sep)[1]`, `split()[0]`,
  `str(int)` and `int(str)`, with the white-space and error behaviour the
  program depends on.
- `capture.dfy` (module `Capture`) models the command builder. This covers the
  Wayland test, the X11 geometry query with its fallback, the encoder choice,
  and the full ffmpeg command line. Every subprocess probe is passed in as a
  value (`Probes`).
- `args.dfy` (module `Args`) models how argv is read: the `--fps` lookup in
  `start` and the sub-command dispatch in `main`.
- `session.dfy` (module `Session`) models the state file and the rule for when
  a stored session is alive. It also has two classes:
  - `Host` holds the filesystem as a map, the process table (pid to creation
    time), and the pids that `stop` signalled. Its methods are `atomic_write`,
    `cleanup`, `read_state`, `start`, `stop` and `status`.
  - `Daemon` is the recorder `record(fps)`. It covers the tiered launch, the
    commit of the session, the watch loop and the SIGTERM handler.
- `cli.dfy` (module `Cli`) models `main`.
- `lifecycle.dfy` (module `Lifecycle`) chains these operations in sequence and
  proves what each sequence achieves.

Times are integers in microseconds. The source compares floating-point seconds;
its "within one second" test becomes `< 1_000_000`. The paths keep the literal
`~` that `os.path.expanduser` would replace.

Two behaviours of the code are narrower than what its own messages suggest.
The model follows the code:

- **The lock.** `start` refuses with "Already recording or starting"
  (`rudyrecord.py:202-203`), which suggests that a recorder still starting up
  also blocks a new start. For runs that do not overlap, it never does.
  `read_state` deletes the lock whenever it finds no live session, so by the
  time `start` tests for the lock the file is already gone. Two entries show
  this:
  - `Session.LockNeverRefuses` proves it.
  - `Lifecycle.StartTwiceBeforeCommit` shows two starts in a row both going
    ahead.
- **`last_error`.** `status` prints `last_error` when it is set
  (`rudyrecord.py:243-244`). But the only writer of `last_error` removes the
  state file on the very next line (`rudyrecord.py:192-194`), so a later
  `status` reports no recording (`Lifecycle.StatusAfterChildDeath`). A verbose
  status taken between those two lines would report "not responding" instead,
  because the ffmpeg pid it queries is no longer a live process
  (`Session.Describe`).

## Model

| member | source | states |
|---|---|---|
| Text.Find | RudyRecord/rudyrecord.py:87-89 | The first position where the pattern occurs, with no occurrence before it; None exactly when it occurs nowhere. |
| Text.Contains | RudyRecord/rudyrecord.py:87-89 | Python's substring test `pat in s`: true exactly when the pattern occurs at some position. |
| Text.FindExtend | RudyRecord/rudyrecord.py:108 | Appending text after a found occurrence does not move the first occurrence. |
| Text.UpTo | RudyRecord/rudyrecord.py:108 | The first piece of `split(sep)`: a prefix of the input free of the separator, cut at the first position where the separator starts, or the whole input when it never does. |
| Text.SplitSecond | RudyRecord/rudyrecord.py:108 | `split(sep)[1]` fails (IndexError) exactly when the separator does not occur. |
| Text.SplitSecondAfter | RudyRecord/rudyrecord.py:108 | When `a + sep` has its first separator at the end of `a`, `split(sep)[1]` of `a + sep + b` is the part of `b` before its next separator. |
| Text.FirstWord | RudyRecord/rudyrecord.py:108 | `split()[0]` fails exactly when the text is all white space; otherwise it is a non-empty word without white space. |
| Text.FirstWordOf | RudyRecord/rudyrecord.py:108 | Leading white space, a word, then white space or nothing: `split()[0]` is that word. |
| Text.WordAfterSeparator | RudyRecord/rudyrecord.py:108 | For any separator without white space that ends in a character the word lacks: the first word after the first separator comes back from `split(sep)[1].split()[0]`. |
| Text.NatToString | RudyRecord/rudyrecord.py:114 | Decimal digits, non-empty, with a leading zero only in the text `0`, which is what zero prints. |
| Text.IntToString | RudyRecord/rudyrecord.py:114 | `str(fps)`: non-empty text with no white space at either end, starting with '-' exactly for negative numbers. |
| Text.DigitsValueOfNat | RudyRecord/rudyrecord.py:114 | Reading back the decimal digits of a natural number gives that number. |
| Text.ParseInt | RudyRecord/rudyrecord.py:208 | `int()` raises ValueError for text that is all white space, and for text that holds one of U+001C to U+001F anywhere. |
| Text.ParseIntOfGroups | RudyRecord/rudyrecord.py:208 | Every text of the shape `int()` accepts parses: skipped white space, an optional `+` or `-`, digit groups joined by single underscores, skipped white space. The value is that of the digits, negated after `-`. |
| Text.ParseIntPadded | RudyRecord/rudyrecord.py:208 | `str(n)` with white space around it and an optional sign reads back as n, or -n after `-`. |
| Text.ParseIntUnderscore | RudyRecord/rudyrecord.py:208 | An underscore between two runs of digits does not change the value, as in `int("3_0") == 30`. |
| Text.ParseIntShape | RudyRecord/rudyrecord.py:208 | Every text `int()` accepts is padding it skips, an optional sign and digit groups, then padding. With `Text.ParseIntOfGroups` this means `int()` accepts exactly that shape, so `--fps abc` raises ValueError. |
| Text.IntToStringDigits | RudyRecord/rudyrecord.py:114 | `str(i)` is exactly Python's text: an optional `-` for negative numbers, then the shortest decimal digits of the magnitude, with no `+`, no underscore and no leading zero except in `0`. |
| Text.ParseIntOfIntToString | RudyRecord/rudyrecord.py:208 | `int(str(n)) == n` for every integer n: `--fps` accepts every value `str` prints. |
| Capture.IsWayland | RudyRecord/rudyrecord.py:42-43 | Wayland when WAYLAND_DISPLAY is set to a non-empty value. An unset or empty variable means X11. |
| Capture.DisplayName | RudyRecord/rudyrecord.py:103 | DISPLAY as set, even when empty, and `:0` when it is unset. |
| Capture.ScreenSize | RudyRecord/rudyrecord.py:103-110 | 1920x1080 in each of the three failure cases: `xdpyinfo` fails, its output lacks `dimensions:` (IndexError from `split(...)[1]`), or only white space follows the marker (IndexError from `split()[0]`). |
| Capture.ScreenSizeIsWord | RudyRecord/rudyrecord.py:105-110 | The size handed to ffmpeg is either the default or one non-empty word without white space. |
| Capture.ScreenSizeOfDimensionsLine | RudyRecord/rudyrecord.py:105-108 | When `xdpyinfo` prints `dimensions:` followed by white space and a word WxH, that word is the size. |
| Capture.DetectEncoder | RudyRecord/rudyrecord.py:84-97 | The encoder arguments are exactly one of the three tiers, and each selects a codec with `-c:v`. |
| Capture.EncoderPrecedence | RudyRecord/rudyrecord.py:86-97 | NVENC exactly when `h264_nvenc` is listed. VA-API exactly when NVENC is not listed, `h264_vaapi` is, and the render node exists. libx264 in every other case, including a failed probe. |
| Capture.VideoInput | RudyRecord/rudyrecord.py:100-118 | Four arguments on Wayland, ten on X11. |
| Capture.AudioInput | RudyRecord/rudyrecord.py:120-122 | The PulseAudio monitor input exactly when audio is asked for and `pactl info` succeeded, and nothing otherwise. |
| Capture.BuildCommand | RudyRecord/rudyrecord.py:124-135 | Every command starts with the fixed ffmpeg preamble and ends with `-pix_fmt yuv420p <output>`. |
| Capture.WaylandSource | RudyRecord/rudyrecord.py:100-101 | Under Wayland the video source at positions 8-11 is `-f pipewire -i 0`. |
| Capture.X11Source | RudyRecord/rudyrecord.py:102-118 | Under X11 the source is x11grab at the given frame rate and screen size, with the mouse cursor drawn, reading input `<DISPLAY>.0+0,0`. It falls back to 1920x1080 and `:0` when the probe fails or DISPLAY is unset. |
| Capture.EncoderBeforeTrailer | RudyRecord/rudyrecord.py:132-134 | The detected encoder arguments sit immediately before the trailer. |
| Capture.VideoOnlyDropsAudio | RudyRecord/rudyrecord.py:120-131 | The with-audio command equals the video-only command with the pulse segment inserted after the video input when PulseAudio answers. For the same probe answers nothing else differs. The recorder probes again before the video-only tier, so its size and encoder may still differ. |
| Capture.VideoInputPulseFree | RudyRecord/rudyrecord.py:100-118 | No video input contains `-f pulse`, whatever the frame rate and display. |
| Capture.AudioSegmentIff | RudyRecord/rudyrecord.py:120-122 | The command captures PulseAudio if and only if audio was asked for and `pactl info` succeeded. |
| Args.IndexOf | RudyRecord/rudyrecord.py:208 | `argv.index(x)`: a position holding x with no x before it. |
| Args.IndexOfFirst | RudyRecord/rudyrecord.py:208 | `argv.index` lands on the first occurrence. |
| Args.FpsFromArgv | RudyRecord/rudyrecord.py:206-208 | 60 without `--fps`. IndexError exactly when the first `--fps` is the last argument. ValueError exactly when the argument after it does not parse as an integer. Otherwise the parsed value. |
| Args.FpsDefault | RudyRecord/rudyrecord.py:206-207 | Without `--fps` the frame rate is 60. |
| Args.FpsGiven | RudyRecord/rudyrecord.py:207-208 | `--fps N` at its first occurrence gives N, whatever follows. |
| Args.FpsTrailing | RudyRecord/rudyrecord.py:208 | A final `--fps` with no value is the IndexError case. |
| Args.Dispatch | RudyRecord/rudyrecord.py:248-261 | Usage exactly for fewer than two arguments. The second argument picks start, stop or status; anything else is an unknown command. Status is verbose exactly when `--verbose` appears anywhere in argv. |
| Session.Stored | RudyRecord/rudyrecord.py:70-76 | A session is returned only when the state file holds it and its daemon is alive. When none is returned, the state file is missing, does not load as a session, or names a daemon that is not alive. |
| Session.ClearedExactly | RudyRecord/rudyrecord.py:33-38 | `cleanup` leaves neither the state file nor the lock, changes no other file, and changes nothing when run a second time. |
| Session.ReconcileStable | RudyRecord/rudyrecord.py:70-80 | A second `read_state` returns the same session as the first and changes nothing more. |
| Session.LockNeverRefuses | RudyRecord/rudyrecord.py:200-204 | After a read that finds no live session the lock file does not exist, so the lock test never refuses a start that no other run overlaps. |
| Session.StaleSession | RudyRecord/rudyrecord.py:74-76 | A stored session is rejected exactly when its daemon pid is gone or that pid's creation time differs from the recorded one by a second or more. |
| Session.WholeSeconds | RudyRecord/rudyrecord.py:237 | `int()` of elapsed seconds truncates toward zero, for negative differences as well. |
| Session.Describe | RudyRecord/rudyrecord.py:233-246 | Verbose status gives the backend, whole seconds of uptime, the output and the log path while the ffmpeg pid is live, and "not responding" otherwise. The last error is shown only when it is set and not empty. |
| Session.OutputPath | RudyRecord/rudyrecord.py:143-144 | The video path is `~/Videos/rudy_<stamp>.mp4`, each part at its offset. |
| Session.BackendOf | RudyRecord/rudyrecord.py:167 | The recorded backend is Wayland exactly when WAYLAND_DISPLAY is set and non-empty. |
| Session.Host.Remove | RudyRecord/rudyrecord.py:36-38 | Removing a file that is absent changes nothing. Otherwise only that file goes. |
| Session.Host.AtomicWrite | RudyRecord/rudyrecord.py:25-31 | The new content is at the path, no `.tmp` file remains, and no other file changes. The write is appended to the model's record of completed writes, a proof-only field that is not the ffmpeg log. |
| Session.Host.Cleanup | RudyRecord/rudyrecord.py:33-38 | The loop leaves exactly the filesystem with the state file and lock removed. |
| Session.Host.ReadState | RudyRecord/rudyrecord.py:70-80 | Returns the stored session exactly when it names a live daemon with a matching creation time. Otherwise it returns none and both session files are removed. |
| Session.Host.Start | RudyRecord/rudyrecord.py:200-210 | Refuses, changing nothing, exactly when a live session is stored. A bad `--fps` raises after stale session files are removed. Otherwise it writes the lock stamped with the current time and reports the frame rate. |
| Session.Host.Stop | RudyRecord/rudyrecord.py:218-224 | Signals the stored daemon's pid once exactly when a live session is stored. Otherwise it reports not recording and signals nobody. |
| Session.Host.Status | RudyRecord/rudyrecord.py:226-246 | Not recording when no live session is stored. Otherwise recording running, with the verbose details of that session. |
| Session.Daemon.constructor | RudyRecord/rudyrecord.py:143-144 | The recorder starts with no child, no session and the output path from its time stamp. |
| Session.Daemon.Exit | RudyRecord/rudyrecord.py:161 | `sys.exit`: the daemon's pid leaves the process table with the exit code. |
| Session.Daemon.Popen | RudyRecord/rudyrecord.py:150-151 | Hands ffmpeg the command line of the requested tier. A spawned child joins the process table. |
| Session.Daemon.Reap | RudyRecord/rudyrecord.py:154 | A poll that finds the child dead removes it from the process table. |
| Session.Daemon.Commit | RudyRecord/rudyrecord.py:163-177 | Writes the session with the daemon's own creation time and no error, then removes the lock. The committed session reads back as live. |
| Session.Daemon.Launch | RudyRecord/rudyrecord.py:149-177 | First the with-audio command, then the video-only one only after the first child died. On success the session names the surviving child and reads back as live, and the lock is gone. When both children died, cleanup runs and the daemon exits 1 without ever writing a session. A Popen that raises exits 1 with the files untouched. |
| Session.Daemon.Monitor | RudyRecord/rudyrecord.py:190-196 | While every poll finds the child alive nothing changes. At the first dead poll the session is written back with "ffmpeg exited" and both session files are removed, so none remains. The daemon exits 1. |
| Session.Daemon.Shutdown | RudyRecord/rudyrecord.py:179-186 | Terminates the child and kills it only when it outlives the five-second wait. Removes both session files and exits 0. |
| Cli.Run | RudyRecord/rudyrecord.py:248-261 | Each command line reaches exactly the operation that `Args.Dispatch` names, and leaves that operation's state behind. Usage and unknown commands change no file. A start that is refused changes no file; one with a bad `--fps` leaves the session files removed; one that goes ahead also holds a fresh lock. Stop and status leave the filesystem as `read_state` reconciles it, and only stop signals, the stored daemon's pid and nobody else. No run changes the process table. |
| Lifecycle.StartRecordStatus | RudyRecord/rudyrecord.py:200-216 | After a start that goes ahead and a recorder whose child survives, status reports the recording and the lock is gone. When the recorder fails, status reports no recording. |
| Lifecycle.StartTwiceBeforeCommit | RudyRecord/rudyrecord.py:202-210 | With no live session, two starts in a row both go ahead. The lock does not stop the second. |
| Lifecycle.StopTwice | RudyRecord/rudyrecord.py:218-224 | Stop, the daemon's handler, then stop again: the daemon is signalled once, the second stop finds nothing, and both session files are gone. |
| Lifecycle.StatusAfterChildDeath | RudyRecord/rudyrecord.py:190-195 | After the child dies under the watch loop, the error was written to the state file, yet status reports no recording. |

## Left out

- `ensure_dirs` (lines 21-23) is not modelled. Directories do not exist in the model: the filesystem is a flat map from path to content.
- `daemonize` (lines 54-66) is not modelled: the double fork, `setsid`, `chdir`, `umask` and the stream redirection. `Session.Daemon` is the process that results.
- Subprocesses and `psutil` are oracles passed in as parameters. This covers `xdpyinfo`, `pactl info`, `ffmpeg -encoders`, the render-node check, the result of each `Popen`, and each `poll()`. The model covers the command line handed over, not what ffmpeg then does.
- The sleeps (lines 152, 157, 196) and the five-second wait (line 182) are not modelled. Each poll is one Boolean, and whether the child exits in time is another.
- Each command-line run is one atomic step, and runs never overlap one another or the recorder's steps. Consider one `start` that has just run `cleanup` (line 79), while a second `start` writes its lock (line 210) before the first reaches its lock test (line 202). The first would then be refused. The model does not capture this interleaving; `Session.LockNeverRefuses` holds for runs that do not overlap.
- Signals are not delivered asynchronously. `Shutdown` is a separate step taken between polls. A SIGTERM that arrives between the commit (line 173) and the handler installation (line 188) would kill the daemon without cleanup; that is not modelled. Neither is a `status` that reads between the write at line 193 and the cleanup at line 194.
- `os.kill` raising when the daemon vanishes between `read_state` and the kill (line 223) is not modelled.
- The CPU percentage in verbose status (line 236) is not modelled: it is a floating-point measurement.
- The log file writes (lines 146-147) and ffmpeg's stderr redirection are not modelled.
- JSON encoding and decoding are not modelled. A file's content is a complete `SessionState`, a lock stamp, or `Unreadable`.
  - `Unreadable` stands for content that makes `read_state` raise, and for any other exception inside it.
  - `read_state` looks only at `daemon_pid` and `daemon_start` (lines 74-75). The source therefore accepts a JSON object with just those two keys naming a live daemon. The model cannot express such a document: it is either a full `SessionState` or `Unreadable`.
- The lock stores `str(time.time())`. The model stores the time itself.
- The time-stamp text from `strftime` is a parameter of `Session.Daemon`.
- `os.path.expanduser` is not applied: the paths keep the literal `~`.
- `print` output is not modelled. Each operation returns the message it would print as a value.
- Text.ParseInt: does not accept non-ASCII decimal digits. Python's `int()` accepts any Unicode decimal digit (category Nd). The model follows the ASCII grammar: sign, digits, single underscores between digits, surrounding white space other than U+001C to U+001F.
- Text.ParseInt: has no limit on the number of digits. Since Python 3.11, and in 3.10.7, 3.9.14, 3.8.14 and 3.7.14, `int()` raises ValueError for text with more than 4300 digits (`sys.int_max_str_digits`), so `Text.ParseIntOfIntToString`, `Text.ParseIntOfGroups`, `Text.ParseIntPadded`, `Text.ParseIntUnderscore` and `Args.FpsGiven` hold there only for texts of at most 4300 digits.
- The filesystem never fails, apart from a missing file on remove. `Session.Host.AtomicWrite`, `Session.Host.Remove` and `Session.Host.Cleanup` always succeed. In the source, `cleanup` ignores only FileNotFoundError (line 37) and `atomic_write` catches nothing (lines 25-31). So a PermissionError or other OSError from `open`, `fsync`, `os.replace` or `os.remove` would escape `read_state`, `start` or the recorder. For example, a failed write at line 173 kills the recorder while ffmpeg runs on, with the lock kept and no state file. None of this is modelled.
- Capture.ScreenSize: its own contract states the three fallbacks. What it returns for a real dimensions line is stated in `Capture.ScreenSizeOfDimensionsLine`, and only when the size word contains no `:`.
