/**
 The command line QMPProcess::startMPlayer hands to MPlayer: nine fixed
 control tokens, then the video output (a native window id, optionally
 with a video driver list, or a yuv4mpeg pipe), then the caller's own
 arguments, unchanged and last.
 */
module Launch {
  import opened Types
  import Decimal

  /** Whether the yuv4mpeg pipe reader is compiled in (QMP_USE_YUVPIPE). */
  datatype Build = Build(yuvPipe: bool)

  /** Slave mode, full output, identification, no mouse, no aspect handling, no key bindings. */
  const ControlFlags: seq<string> := [
    "-slave", "-noquiet", "-identify", "-nomouseinput", "-nokeepaspect",
    "-monitorpixelaspect", "1", "-input", "nodefault-bindings:conf=/dev/null"]

  /** A process launch: the program, the mode actually used, and its arguments. */
  datatype Command = Command(program: string, mode: Mode, argv: seq<string>)

  /** The mode startMPlayer runs in: pipe mode needs the pipe reader, else it falls back to embedding. */
  function EffectiveMode(build: Build, mode: Mode): (m: Mode)
    ensures m == Pipe <==> mode == Pipe && build.yuvPipe
  {
    if mode == Pipe && !build.yuvPipe then Embedded else mode
  }

  /** The output tokens: "-wid <id>" and an optional "-vo <drivers>", or the yuv4mpeg pipe. */
  function OutputArgs(mode: Mode, winId: nat, videoOutput: string, pipe: string): (r: seq<string>)
    ensures mode == Embedded ==>
      && |r| == (if videoOutput == "" then 2 else 4)
      && r[0] == "-wid"
      && Decimal.IsIntText(r[1]) && Decimal.ParseInt(r[1]) == Decimal.Int32Of(winId)
      && (videoOutput != "" ==> r[2..] == ["-vo", videoOutput])
    ensures mode == Pipe ==> r == ["-vo", "yuv4mpeg:file=" + pipe]
  {
    Decimal.IntTextRoundTrip(Decimal.Int32Of(winId));
    if mode == Embedded then
      ["-wid", Decimal.IntText(Decimal.Int32Of(winId))]
        + (if videoOutput != "" then ["-vo", videoOutput] else [])
    else ["-vo", "yuv4mpeg:file=" + pipe]
  }

  /**
   startMPlayer's argument list. The control flags come first and the
   caller's arguments last and unchanged; in between, an embedded launch
   names the window (its id cast to a 32-bit int) and, if one is set, the
   video drivers, while a pipe launch names only the pipe.
   */
  function StartArgs(build: Build, path: string, mode: Mode, winId: nat, videoOutput: string,
                     pipe: string, args: seq<string>): (c: Command)
    ensures c.program == path
    ensures c.mode == EffectiveMode(build, mode)
    ensures |c.argv| >= |ControlFlags| + 2 + |args|
    ensures c.argv[..|ControlFlags|] == ControlFlags
    ensures c.argv[|c.argv| - |args|..] == args
    ensures c.mode == Embedded ==>
      && c.argv[9] == "-wid"
      && Decimal.IsIntText(c.argv[10])
      && Decimal.ParseInt(c.argv[10]) == Decimal.Int32Of(winId)
      && |c.argv| == |args| + (if videoOutput == "" then 11 else 13)
      && (videoOutput != "" ==> c.argv[11] == "-vo" && c.argv[12] == videoOutput)
    ensures c.mode == Pipe ==>
      c.argv[9..11] == ["-vo", "yuv4mpeg:file=" + pipe] && |c.argv| == |args| + 11
  {
    var m := EffectiveMode(build, mode);
    var argv := ControlFlags + OutputArgs(m, winId, videoOutput, pipe) + args;
    Decimal.IntTextRoundTrip(Decimal.Int32Of(winId));
    Command(path, m, argv)
  }
}
