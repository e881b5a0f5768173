/**
 * The capture-command builder: the environment probes (`is_wayland`, the X11
 * geometry query, `detect_encoder`) and `build_ffmpeg_cmd`, with every probe
 * result passed in as a value instead of being obtained from a subprocess.
 */
module Capture {
  import opened Text

  /** The two environment variables the builder consults. */
  datatype Environ = Environ(waylandDisplay: Option<string>, display: Option<string>)

  /**
   * What the probes answered: the text printed by `xdpyinfo` (None when it
   * failed), whether `pactl info` succeeded, the text of `ffmpeg -encoders`
   * (None when it failed) and whether /dev/dri/renderD128 exists.
   */
  datatype Probes = Probes(xdpyinfo: Option<string>, pulse: bool, encoders: Option<string>, renderNode: bool)

  const Marker := "dimensions:"
  const DefaultSize := "1920x1080"
  const DefaultDisplay := ":0"
  const RenderNode := "/dev/dri/renderD128"

  const Preamble: seq<string> := ["ffmpeg", "-y", "-loglevel", "error", "-vsync", "vfr", "-async", "1"]
  const PipewireInput: seq<string> := ["-f", "pipewire", "-i", "0"]
  const PulseInput: seq<string> := ["-f", "pulse", "-i", "@DEFAULT_SINK@.monitor"]
  const Nvenc: seq<string> := ["-c:v", "h264_nvenc"]
  const Vaapi: seq<string> := ["-vaapi_device", RenderNode, "-vf", "format=nv12,hwupload", "-c:v", "h264_vaapi"]
  const Libx264: seq<string> := ["-c:v", "libx264", "-preset", "veryfast"]

  function Trailer(output: string): seq<string> {
    ["-pix_fmt", "yuv420p", output]
  }

  /** `is_wayland`: WAYLAND_DISPLAY is set and not empty. */
  function IsWayland(env: Environ): (b: bool)
    ensures env.waylandDisplay.None? ==> !b
    ensures env.waylandDisplay == Some("") ==> !b
    ensures env.waylandDisplay.Some? && |env.waylandDisplay.value| > 0 ==> b
  {
    env.waylandDisplay.Some? && env.waylandDisplay.value != ""
  }

  /** `os.environ.get("DISPLAY", ":0")`: a set but empty DISPLAY is kept as it is. */
  function DisplayName(env: Environ): (name: string)
    ensures env.display.None? ==> name == ":0"
    ensures env.display.Some? ==> name == env.display.value
  {
    match env.display
    case None => DefaultDisplay
    case Some(d) => d
  }

  // ---------------------------------------------------------------- geometry

  /**
   * The X11 screen size: the first word after the first "dimensions:" in the
   * output of `xdpyinfo`, and 1920x1080 whenever the query fails, the marker is
   * missing, or nothing but white space follows it.
   */
  function ScreenSize(xdpyinfo: Option<string>): (size: string)
    ensures xdpyinfo.None? ==> size == DefaultSize
    ensures xdpyinfo.Some? && !Contains(xdpyinfo.value, Marker) ==> size == DefaultSize
    ensures xdpyinfo.Some? && SplitSecond(xdpyinfo.value, Marker).Some? ==>
      AllSpace(SplitSecond(xdpyinfo.value, Marker).value) ==> size == DefaultSize
  {
    match xdpyinfo
    case None => DefaultSize
    case Some(out) =>
      match SplitSecond(out, Marker)
      case None => DefaultSize
      case Some(piece) =>
        match FirstWord(piece)
        case None => DefaultSize
        case Some(w) => w
  }

  /** The size handed to ffmpeg is the default or a single non-empty word. */
  lemma ScreenSizeIsWord(xdpyinfo: Option<string>)
    ensures var size := ScreenSize(xdpyinfo);
            size == DefaultSize || (size != [] && NoSpace(size))
  {
  }

  lemma MarkerHasNoSpace()
    ensures NoSpace(Marker) && Marker[|Marker| - 1] == ':'
  {
    forall k | 0 <= k < |Marker| ensures !IsSpace(Marker[k]) {
      assert 'a' <= Marker[k] <= 'z' || Marker[k] == ':';
    }
  }

  /**
   * Given the shape `xdpyinfo` prints, "  dimensions:    2560x1440 pixels ...",
   * the screen size is the word after the marker.
   */
  lemma ScreenSizeOfDimensionsLine(p: string, ws: string, w: string, tail: string)
    requires Find(p + Marker, Marker) == Some(|p|)
    requires AllSpace(ws) && w != [] && NoSpace(w) && ':' !in w
    requires tail == [] || IsSpace(tail[0])
    ensures ScreenSize(Some(p + Marker + ws + w + tail)) == w
  {
    WordAfterMarker(p, ws, w, tail);
    ScreenSizeOf(p + Marker + ws + w + tail, w);
  }

  lemma WordAfterMarker(p: string, ws: string, w: string, tail: string)
    requires Find(p + Marker, Marker) == Some(|p|)
    requires AllSpace(ws) && w != [] && NoSpace(w) && ':' !in w
    requires tail == [] || IsSpace(tail[0])
    ensures SplitSecond(p + Marker + ws + w + tail, Marker).Some?
    ensures FirstWord(SplitSecond(p + Marker + ws + w + tail, Marker).value) == Some(w)
  {
    MarkerHasNoSpace();
    WordAfterSeparator(p, Marker, ws, w, tail);
  }

  lemma ScreenSizeOf(out: string, w: string)
    requires SplitSecond(out, Marker).Some? && FirstWord(SplitSecond(out, Marker).value) == Some(w)
    ensures ScreenSize(Some(out)) == w
  {
  }

  // ---------------------------------------------------------------- encoder

  /**
   * `detect_encoder`: NVENC when the encoder listing mentions h264_nvenc, else
   * VAAPI when it mentions h264_vaapi and the render node exists, else libx264
   * (also when the listing could not be obtained).
   */
  function DetectEncoder(encoders: Option<string>, renderNode: bool): (args: seq<string>)
    ensures args == Nvenc || args == Vaapi || args == Libx264
    ensures "-c:v" in args
  {
    match encoders
    case None => Libx264
    case Some(listing) =>
      if Contains(listing, "h264_nvenc") then Nvenc
      else if Contains(listing, "h264_vaapi") && renderNode then Vaapi
      else Libx264
  }

  /** The encoder precedence, as three if-and-only-ifs. */
  lemma EncoderPrecedence(encoders: Option<string>, renderNode: bool)
    ensures var nvenc := encoders.Some? && Contains(encoders.value, "h264_nvenc");
            var vaapi := encoders.Some? && Contains(encoders.value, "h264_vaapi");
            (DetectEncoder(encoders, renderNode) == Nvenc <==> nvenc) &&
            (DetectEncoder(encoders, renderNode) == Vaapi <==> !nvenc && vaapi && renderNode) &&
            (DetectEncoder(encoders, renderNode) == Libx264 <==> !nvenc && !(vaapi && renderNode))
  {
    assert Nvenc != Vaapi && Nvenc != Libx264 && Vaapi != Libx264;
  }

  // ---------------------------------------------------------------- command

  function X11Input(display: string, size: string, fps: int): seq<string> {
    ["-f", "x11grab", "-framerate", IntToString(fps), "-video_size", size,
     "-draw_mouse", "1", "-i", display + ".0+0,0"]
  }

  function VideoInput(env: Environ, xdpyinfo: Option<string>, fps: int): (video: seq<string>)
    ensures |video| == if IsWayland(env) then 4 else 10
  {
    if IsWayland(env) then PipewireInput
    else X11Input(DisplayName(env), ScreenSize(xdpyinfo), fps)
  }

  /** The audio segment: PulseAudio's default-sink monitor when audio is asked for and pactl answered. */
  function AudioInput(withAudio: bool, pulse: bool): (audio: seq<string>)
    ensures audio == PulseInput <==> withAudio && pulse
    ensures audio == [] <==> !(withAudio && pulse)
  {
    if withAudio && pulse then PulseInput else []
  }

  /** `build_ffmpeg_cmd(output, fps, with_audio)` once the probes have answered. */
  function BuildCommand(output: string, fps: int, withAudio: bool, env: Environ, probes: Probes): (cmd: seq<string>)
    ensures |cmd| >= |Preamble| + 3
    ensures cmd[..|Preamble|] == Preamble
    ensures cmd[|cmd| - 3..] == Trailer(output)
  {
    var cmd := Preamble + VideoInput(env, probes.xdpyinfo, fps) + AudioInput(withAudio, probes.pulse)
               + DetectEncoder(probes.encoders, probes.renderNode) + Trailer(output);
    assert cmd[|cmd| - 3..] == Trailer(output);
    cmd
  }

  /** Where each of five concatenated parts sits. */
  lemma {:induction false} Parts<T>(a: seq<T>, b: seq<T>, c: seq<T>, d: seq<T>, e: seq<T>)
    ensures var s := a + b + c + d + e;
            var i, j := |a| + |b|, |a| + |b| + |c|;
            s[|a|..i] == b && s[j..j + |d|] == d &&
            (forall k :: 0 <= k < |b| ==> s[|a| + k] == b[k])
  {
    assert a + b + c + d + e == (a + b) + c + (d + e);
  }

  /** Taking out the middle part `c` of five and putting it back at its offset gives the whole. */
  lemma {:induction false} Insertion<T>(a: seq<T>, b: seq<T>, c: seq<T>, d: seq<T>, e: seq<T>)
    ensures var s := a + b + [] + d + e;
            |a| + |b| <= |s| && a + b + c + d + e == s[..|a| + |b|] + c + s[|a| + |b|..]
  {
    var s := a + b + [] + d + e;
    assert s[..|a| + |b|] == a + b;
    assert s[|a| + |b|..] == d + e;
    assert a + b + c + d + e == (a + b) + c + (d + e);
  }

  lemma CommandParts(output: string, fps: int, withAudio: bool, env: Environ, probes: Probes)
    ensures var cmd := BuildCommand(output, fps, withAudio, env, probes);
            var video := VideoInput(env, probes.xdpyinfo, fps);
            var audio := AudioInput(withAudio, probes.pulse);
            var enc := DetectEncoder(probes.encoders, probes.renderNode);
            var i, j := |Preamble| + |video|, |Preamble| + |video| + |audio|;
            cmd == Preamble + video + audio + enc + Trailer(output) &&
            cmd[|Preamble|..i] == video && cmd[j..j + |enc|] == enc &&
            (forall k :: 0 <= k < |video| ==> cmd[|Preamble| + k] == video[k])
  {
    Parts(Preamble, VideoInput(env, probes.xdpyinfo, fps), AudioInput(withAudio, probes.pulse),
          DetectEncoder(probes.encoders, probes.renderNode), Trailer(output));
  }

  /** The video input occupies the positions right after the preamble. */
  lemma VideoSlots(output: string, fps: int, withAudio: bool, env: Environ, probes: Probes)
    ensures var cmd := BuildCommand(output, fps, withAudio, env, probes);
            var video := VideoInput(env, probes.xdpyinfo, fps);
            |Preamble| + |video| <= |cmd| &&
            forall k :: 0 <= k < |video| ==> cmd[|Preamble| + k] == video[k]
  {
    CommandParts(output, fps, withAudio, env, probes);
  }

  /** Under Wayland the video source is PipeWire node 0. */
  lemma WaylandSource(output: string, fps: int, withAudio: bool, env: Environ, probes: Probes)
    requires IsWayland(env)
    ensures BuildCommand(output, fps, withAudio, env, probes)[8..12] == PipewireInput
  {
    CommandParts(output, fps, withAudio, env, probes);
  }

  /** The ten X11 input arguments, one by one. */
  lemma X11InputFields(display: string, size: string, fps: int)
    ensures var v := X11Input(display, size, fps);
            v[0] == "-f" && v[1] == "x11grab" && v[2] == "-framerate" && v[3] == IntToString(fps) &&
            v[4] == "-video_size" && v[5] == size && v[6] == "-draw_mouse" && v[7] == "1" &&
            v[8] == "-i" && v[9] == display + ".0+0,0"
  {
  }

  lemma X11Video(env: Environ, xdpyinfo: Option<string>, fps: int)
    requires !IsWayland(env)
    ensures VideoInput(env, xdpyinfo, fps) == X11Input(DisplayName(env), ScreenSize(xdpyinfo), fps)
  {
  }

  /** The fallbacks for a failed geometry probe and an unset DISPLAY. */
  lemma X11Defaults(env: Environ, xdpyinfo: Option<string>)
    ensures xdpyinfo.None? ==> ScreenSize(xdpyinfo) == "1920x1080"
    ensures env.display.None? ==> DisplayName(env) + ".0+0,0" == ":0.0+0,0"
  {
  }

  /** Positions 8 to 17 of a sequence that holds `v` after eight other elements. */
  lemma {:induction false} SlotsOf(cmd: seq<string>, v: seq<string>)
    requires |v| == 10 && 18 <= |cmd|
    requires forall k :: 0 <= k < |v| ==> cmd[8 + k] == v[k]
    ensures cmd[8] == v[0] && cmd[9] == v[1] && cmd[10] == v[2] && cmd[11] == v[3]
    ensures cmd[12] == v[4] && cmd[13] == v[5] && cmd[14] == v[6] && cmd[15] == v[7]
    ensures cmd[16] == v[8] && cmd[17] == v[9]
  {
    assert cmd[8 + 0] == v[0] && cmd[8 + 1] == v[1] && cmd[8 + 2] == v[2] && cmd[8 + 3] == v[3];
    assert cmd[8 + 4] == v[4] && cmd[8 + 5] == v[5] && cmd[8 + 6] == v[6] && cmd[8 + 7] == v[7];
    assert cmd[8 + 8] == v[8] && cmd[8 + 9] == v[9];
  }

  /**
   * Under X11 the source is x11grab at `str(fps)` frames per second, with the
   * probed (or default) screen size, on screen 0 of DISPLAY (":0" when unset),
   * captured from the top-left corner.
   */
  lemma X11Source(output: string, fps: int, withAudio: bool, env: Environ, probes: Probes)
    requires !IsWayland(env)
    ensures var cmd := BuildCommand(output, fps, withAudio, env, probes);
            cmd[8] == "-f" && cmd[9] == "x11grab" &&
            cmd[10] == "-framerate" && cmd[11] == IntToString(fps) &&
            cmd[12] == "-video_size" && cmd[13] == ScreenSize(probes.xdpyinfo) &&
            cmd[14] == "-draw_mouse" && cmd[15] == "1" &&
            cmd[16] == "-i" && cmd[17] == DisplayName(env) + ".0+0,0" &&
            (probes.xdpyinfo.None? ==> cmd[13] == "1920x1080") &&
            (env.display.None? ==> cmd[17] == ":0.0+0,0")
  {
    VideoSlots(output, fps, withAudio, env, probes);
    SlotsOf(BuildCommand(output, fps, withAudio, env, probes), VideoInput(env, probes.xdpyinfo, fps));
    X11Video(env, probes.xdpyinfo, fps);
    X11InputFields(DisplayName(env), ScreenSize(probes.xdpyinfo), fps);
    X11Defaults(env, probes.xdpyinfo);
  }

  /** The chosen encoder arguments sit just before the trailer. */
  lemma EncoderBeforeTrailer(output: string, fps: int, withAudio: bool, env: Environ, probes: Probes)
    ensures var cmd := BuildCommand(output, fps, withAudio, env, probes);
            var enc := DetectEncoder(probes.encoders, probes.renderNode);
            |cmd| >= |enc| + 3 && cmd[|cmd| - 3 - |enc|..|cmd| - 3] == enc
  {
    CommandParts(output, fps, withAudio, env, probes);
  }

  /**
   * The video-only command is the with-audio command with the pulse segment
   * taken out: the two tiers differ in nothing else.
   */
  lemma VideoOnlyDropsAudio(output: string, fps: int, env: Environ, probes: Probes)
    ensures var n := |Preamble| + |VideoInput(env, probes.xdpyinfo, fps)|;
            var full := BuildCommand(output, fps, true, env, probes);
            var degraded := BuildCommand(output, fps, false, env, probes);
            n <= |degraded| &&
            full == degraded[..n] + (if probes.pulse then PulseInput else []) + degraded[n..]
  {
    Insertion(Preamble, VideoInput(env, probes.xdpyinfo, fps), AudioInput(true, probes.pulse),
              DetectEncoder(probes.encoders, probes.renderNode), Trailer(output));
  }

  // ---------------------------------------------------------------- audio segment

  /** No "-f" in `s` is directly followed by "pulse". */
  predicate PulseFree(s: seq<string>) {
    forall i :: 0 <= i < |s| - 1 && s[i] == "-f" ==> s[i + 1] != "pulse"
  }

  lemma PulseFreeNoFlag(s: seq<string>)
    requires "-f" !in s
    ensures PulseFree(s)
  {
  }

  lemma PulseFreeConcat(a: seq<string>, b: seq<string>)
    requires PulseFree(a) && PulseFree(b)
    requires a == [] || b == [] || a[|a| - 1] != "-f" || b[0] != "pulse"
    ensures PulseFree(a + b)
  {
    forall i | 0 <= i < |a + b| - 1 && (a + b)[i] == "-f" ensures (a + b)[i + 1] != "pulse" {
      if i < |a| - 1 {
        assert (a + b)[i] == a[i] && (a + b)[i + 1] == a[i + 1];
      } else if i == |a| - 1 {
        assert (a + b)[i] == a[|a| - 1] && (a + b)[i + 1] == b[0];
      } else {
        assert (a + b)[i] == b[i - |a|] && (a + b)[i + 1] == b[i - |a| + 1];
      }
    }
  }

  lemma IntToStringIsNotFlag(i: int)
    ensures IntToString(i) != "-f"
  {
    var s := IntToString(i);
    if i < 0 {
      assert s[1] == NatToString(-i)[0];
      assert IsDigit(s[1]);
    } else {
      assert IsDigit(s[0]);
    }
  }

  lemma X11InputPulseFree(display: string, size: string, fps: int)
    ensures PulseFree(X11Input(display, size, fps))
    ensures X11Input(display, size, fps)[9] != "-f"
  {
    var fpsText := IntToString(fps);
    IntToStringIsNotFlag(fps);
    var disp := display + ".0+0,0";
    assert |disp| >= 6;
    var a: seq<string> := ["-f", "x11grab"];
    var b: seq<string> := ["-framerate", fpsText, "-video_size"];
    var c: seq<string> := [size];
    var d: seq<string> := ["-draw_mouse", "1", "-i", disp];
    PulseFreeNoFlag(b);
    PulseFreeNoFlag(d);
    PulseFreeConcat(a, b);
    PulseFreeConcat(a + b, c);
    PulseFreeConcat(a + b + c, d);
    assert X11Input(display, size, fps) == a + b + c + d;
  }

  lemma PipewirePulseFree()
    ensures PulseFree(PipewireInput) && PipewireInput[3] != "-f"
  {
    PulseFreeNoFlag(["-i", "0"]);
    PulseFreeConcat(["-f", "pipewire"], ["-i", "0"]);
    assert PipewireInput == ["-f", "pipewire"] + ["-i", "0"];
  }

  lemma VideoInputPulseFree(env: Environ, xdpyinfo: Option<string>, fps: int)
    ensures PulseFree(VideoInput(env, xdpyinfo, fps))
    ensures VideoInput(env, xdpyinfo, fps)[|VideoInput(env, xdpyinfo, fps)| - 1] != "-f"
  {
    if IsWayland(env) {
      PipewirePulseFree();
    } else {
      X11InputPulseFree(DisplayName(env), ScreenSize(xdpyinfo), fps);
    }
  }

  lemma TrailerPulseFree(output: string)
    ensures PulseFree(Trailer(output))
  {
    PulseFreeNoFlag(["-pix_fmt", "yuv420p"]);
    PulseFreeConcat(["-pix_fmt", "yuv420p"], [output]);
    assert Trailer(output) == ["-pix_fmt", "yuv420p"] + [output];
  }

  /** Without the audio segment no "-f" in the command is followed by "pulse". */
  lemma VideoOnlyPulseFree(output: string, fps: int, env: Environ, probes: Probes)
    ensures PulseFree(BuildCommand(output, fps, false, env, probes))
  {
    var video := VideoInput(env, probes.xdpyinfo, fps);
    var enc := DetectEncoder(probes.encoders, probes.renderNode);
    var front := Preamble + video;
    assert BuildCommand(output, fps, false, env, probes) == front + enc + Trailer(output);
    PulseFreeNoFlag(Preamble);
    VideoInputPulseFree(env, probes.xdpyinfo, fps);
    PulseFreeConcat(Preamble, video);
    PulseFreeNoFlag(enc);
    PulseFreeConcat(front, enc);
    TrailerPulseFree(output);
    assert enc[|enc| - 1] != "-f";
    PulseFreeConcat(front + enc, Trailer(output));
  }

  /** A sequence in which no "-f" is followed by "pulse" does not contain the pulse segment. */
  lemma PulseFreeLacksSegment(s: seq<string>)
    requires PulseFree(s)
    ensures !Contains(s, PulseInput)
  {
    forall i | 0 <= i && i + 4 <= |s| ensures !OccursAt(s, PulseInput, i) {
      if s[i] == "-f" {
        assert s[i..i + 4][1] == s[i + 1] != "pulse";
      } else {
        assert s[i..i + 4][0] == s[i];
      }
    }
  }

  /** The pulse input segment appears in the command iff audio was asked for and pulse answered. */
  lemma AudioSegmentIff(output: string, fps: int, withAudio: bool, env: Environ, probes: Probes)
    ensures Contains(BuildCommand(output, fps, withAudio, env, probes), PulseInput)
        <==> withAudio && probes.pulse
  {
    var cmd := BuildCommand(output, fps, withAudio, env, probes);
    if withAudio && probes.pulse {
      var front := Preamble + VideoInput(env, probes.xdpyinfo, fps);
      var back := DetectEncoder(probes.encoders, probes.renderNode) + Trailer(output);
      assert cmd == front + PulseInput + back;
      assert cmd[|front|..|front| + |PulseInput|] == PulseInput;
      assert OccursAt(cmd, PulseInput, |front|);
    } else {
      assert cmd == BuildCommand(output, fps, false, env, probes);
      VideoOnlyPulseFree(output, fps, env, probes);
      PulseFreeLacksSegment(cmd);
    }
  }
}
