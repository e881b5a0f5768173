/**
 * How the command line is read: which sub-command `main` dispatches to, whether
 * `--verbose` is present, and the frame rate that `start` takes from `--fps`.
 * All of them look at the whole of argv, program name included.
 */
module Args {
  import opened Text

  const DefaultFps := 60

  /** What `start` makes of `--fps`: a frame rate, or the exception Python raises. */
  datatype FpsArg =
    | Fps(n: int)
    | FpsValueMissing   // `--fps` is the last argument: IndexError
    | FpsNotAnInteger   // the value after `--fps` is not an integer: ValueError

  /** Python's `argv.index(x)`: the first position of `x`. */
  function IndexOf(argv: seq<string>, x: string): (i: nat)
    requires x in argv
    ensures i < |argv| && argv[i] == x && x !in argv[..i]
  {
    if argv[0] == x then 0
    else
      var i := IndexOf(argv[1..], x);
      assert argv[..i + 1] == [argv[0]] + argv[1..][..i];
      i + 1
  }

  /** The frame rate `start` uses: 60 without `--fps`, else the integer after its first occurrence. */
  function FpsFromArgv(argv: seq<string>): (r: FpsArg)
    ensures "--fps" !in argv ==> r == Fps(DefaultFps)
    ensures r == FpsValueMissing <==> "--fps" in argv && IndexOf(argv, "--fps") == |argv| - 1
    ensures r == FpsNotAnInteger <==>
      "--fps" in argv && IndexOf(argv, "--fps") < |argv| - 1 && ParseInt(argv[IndexOf(argv, "--fps") + 1]).None?
    ensures "--fps" in argv && r.Fps? ==> ParseInt(argv[IndexOf(argv, "--fps") + 1]) == Some(r.n)
  {
    if "--fps" !in argv then Fps(DefaultFps)
    else
      var i := IndexOf(argv, "--fps");
      if i + 1 >= |argv| then FpsValueMissing
      else
        match ParseInt(argv[i + 1])
        case None => FpsNotAnInteger
        case Some(n) => Fps(n)
  }

  /** Without `--fps` the rate is the default 60. */
  lemma FpsDefault(argv: seq<string>)
    requires "--fps" !in argv
    ensures FpsFromArgv(argv) == Fps(60)
  {
  }

  /** `IndexOf` lands on the first occurrence. */
  lemma {:induction false} IndexOfFirst(argv: seq<string>, x: string, j: nat)
    requires j < |argv| && argv[j] == x && x !in argv[..j]
    ensures IndexOf(argv, x) == j
  {
    if j > 0 {
      assert argv[..j][0] == argv[0];
      assert argv[1..][..j - 1] == argv[..j][1..];
      IndexOfFirst(argv[1..], x, j - 1);
    }
  }

  /** `--fps N` with N printed in decimal gives back N, whatever follows it. */
  lemma FpsGiven(before: seq<string>, n: int, after: seq<string>)
    requires "--fps" !in before
    ensures FpsFromArgv(before + ["--fps", IntToString(n)] + after) == Fps(n)
  {
    var argv := before + ["--fps", IntToString(n)] + after;
    assert argv[..|before|] == before;
    IndexOfFirst(argv, "--fps", |before|);
    assert argv[|before| + 1] == IntToString(n);
    ParseIntOfIntToString(n);
  }

  /** A trailing `--fps` with no value is the IndexError case. */
  lemma FpsTrailing(before: seq<string>)
    requires "--fps" !in before
    ensures FpsFromArgv(before + ["--fps"]) == FpsValueMissing
  {
    var argv := before + ["--fps"];
    assert argv[..|before|] == before;
    IndexOfFirst(argv, "--fps", |before|);
  }

  /** The sub-command `main` runs. */
  datatype Request = Usage | StartRequest | StopRequest | StatusRequest(verbose: bool) | UnknownCommand

  /**
   * `main`: usage text for fewer than two arguments, otherwise the second
   * argument chooses the sub-command; `status` is verbose iff "--verbose"
   * appears anywhere in argv.
   */
  function Dispatch(argv: seq<string>): (r: Request)
    ensures r == Usage <==> |argv| < 2
    ensures r == StartRequest <==> |argv| >= 2 && argv[1] == "start"
    ensures r == StopRequest <==> |argv| >= 2 && argv[1] == "stop"
    ensures r.StatusRequest? <==> |argv| >= 2 && argv[1] == "status"
    ensures r.StatusRequest? ==> (r.verbose <==> "--verbose" in argv)
    ensures r == UnknownCommand <==> |argv| >= 2 && argv[1] !in {"start", "stop", "status"}
  {
    if |argv| < 2 then Usage
    else if argv[1] == "start" then StartRequest
    else if argv[1] == "stop" then StopRequest
    else if argv[1] == "status" then StatusRequest("--verbose" in argv)
    else UnknownCommand
  }
}
