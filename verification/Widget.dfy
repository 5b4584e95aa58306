/**
 The command side of QMPWidget: play and pause, which send "pause" only
 in the state where it toggles the right way, and the seek coalescer.
 A seek request stops the 50 ms single-shot seek timer, and if its mode
 is valid overwrites the one pending seek command and starts the timer
 again; when the timer fires the pending command is written once and
 cleared. So of a burst of requests only the last reaches MPlayer.

 The timer is an armed flag, and its expiry is the explicit step
 TimerFires; the 50 ms interval itself is not modelled.
 */
module Widget {
  import opened Types
  import opened Protocol
  import Decimal
  import Text

  /**
   The widget: the protocol record of its process, the pending seek
   command, whether the seek timer is running, and every line written
   to MPlayer's stdin so far.
   */
  datatype Widget = Widget(proc: Process, seekCommand: string, timerArmed: bool, written: seq<string>)

  /** A newly constructed widget. */
  const Fresh: Widget := Widget(Initial, "", false, [])

  /** writeCommand: the command, followed by a newline, goes to MPlayer's stdin. */
  function WriteCommand(w: Widget, command: string): (r: Widget)
    ensures r.written == w.written + [command + "\n"]
    ensures r.proc == w.proc && r.seekCommand == w.seekCommand && r.timerArmed == w.timerArmed
  {
    w.(written := w.written + [command + "\n"])
  }

  /** play: resumes playback by sending "pause", but only from the paused state. */
  function Play(w: Widget): (r: Widget)
    ensures w.proc.state == Paused ==> r == w.(written := w.written + ["pause\n"])
    ensures w.proc.state != Paused ==> r == w
  {
    assert "pause" + "\n" == "pause\n";
    if w.proc.state == Paused then WriteCommand(w, "pause") else w
  }

  /** pause: pauses playback by sending "pause", but only from the playing state. */
  function Pause(w: Widget): (r: Widget)
    ensures w.proc.state == Playing ==> r == w.(written := w.written + ["pause\n"])
    ensures w.proc.state != Playing ==> r == w
  {
    assert "pause" + "\n" == "pause\n";
    if w.proc.state == Playing then WriteCommand(w, "pause") else w
  }

  /** In no state do both play and pause write: at most one of them sends "pause". */
  lemma PlayPauseExclusive(w: Widget)
    ensures Play(w) == w || Pause(w) == w
  {
  }

  /** A line of player output reaching the widget's process. */
  function Receive(w: Widget, line: string, num: Numbers): Widget {
    w.(proc := ParseLine(w.proc, line, num).proc)
  }

  /** Lines of player output reaching the widget's process, in order. */
  function ReceiveAll(w: Widget, lines: seq<string>, num: Numbers): (r: Widget)
    ensures r.proc == FeedLines(w.proc, lines, num).proc
    ensures r.seekCommand == w.seekCommand && r.timerArmed == w.timerArmed && r.written == w.written
    decreases |lines|
  {
    if |lines| == 0 then w
    else Receive(ReceiveAll(w, lines[..|lines| - 1], num), lines[|lines| - 1], num)
  }

  /**
   Since the parser never produces the paused state, play never sends
   anything to a player that was started from a fresh widget.
   */
  lemma PlayIsInert(lines: seq<string>, num: Numbers)
    ensures Play(ReceiveAll(Fresh, lines, num)) == ReceiveAll(Fresh, lines, num)
  {
    InitialReachable();
    FeedKeepsReachable(Initial, lines, num);
  }

  /**
   The seek command MPlayer understands: "seek", the offset as formatted,
   and the mode number; a valid mode is sent as its single digit.
   */
  function SeekCommand(offset: real, whence: int, format: real -> string): (c: string)
    ensures Text.StartsWith(c, "seek ")
    ensures |c| >= 7
    ensures 0 <= whence <= 2 ==>
      c[|c| - 2] == ' ' && Decimal.IsDigit(c[|c| - 1]) && Decimal.DigitValue(c[|c| - 1]) == whence
  {
    var c := "seek " + format(offset) + " " + Decimal.IntText(whence);
    assert c[..5] == "seek ";
    c
  }

  /** The outcome of a seek request: the widget afterwards and whether the request was accepted. */
  datatype SeekResult = SeekResult(widget: Widget, accepted: bool)

  /**
   seek(double offset, int whence). The timer is stopped first, in every
   case. A `whence` that is no seek mode is refused, leaving the pending
   command as it was (it is no longer going to be sent). A valid request
   replaces the pending command, which carries `whence` itself as the
   mode number, and starts the timer. Nothing is written to MPlayer yet.
   `format` is QString::arg(double).
   */
  function Seek(w: Widget, offset: real, whence: int, format: real -> string): (r: SeekResult)
    ensures r.accepted <==> SeekModeOf(whence).Some?
    ensures !r.accepted ==> r.widget == w.(timerArmed := false)
    ensures r.accepted ==> r.widget == w.(seekCommand := SeekCommand(offset, whence, format), timerArmed := true)
    ensures r.widget.written == w.written
  {
    var stopped := w.(timerArmed := false);
    if SeekModeOf(whence).None? then SeekResult(stopped, false)
    else SeekResult(stopped.(seekCommand := SeekCommand(offset, whence, format), timerArmed := true), true)
  }

  /** seek(int offset, int whence): the same request with the offset as a double. */
  function SeekInt(w: Widget, offset: int, whence: int, format: real -> string): (r: SeekResult)
    ensures r.accepted <==> SeekModeOf(whence).Some?
    ensures r.accepted ==>
      r.widget == w.(seekCommand := SeekCommand(offset as real, whence, format), timerArmed := true)
    ensures !r.accepted ==> r.widget == w.(timerArmed := false)
    ensures r.widget.written == w.written
  {
    Seek(w, offset as real, whence, format)
  }

  /** A seek without a mode is an absolute seek, and is accepted. */
  lemma DefaultSeekIsAbsolute(w: Widget, offset: real, format: real -> string)
    ensures Seek(w, offset, DefaultWhence, format).accepted
    ensures Seek(w, offset, DefaultWhence, format).widget.seekCommand == "seek " + format(offset) + " 2"
  {
    assert Decimal.IntText(2) == "2";
  }

  /** delayedSeek: a pending command is written once and then cleared; with none, nothing happens. */
  function DelayedSeek(w: Widget): (r: Widget)
    ensures w.seekCommand == "" ==> r == w
    ensures w.seekCommand != "" ==> r.written == w.written + [w.seekCommand + "\n"]
    ensures r.seekCommand == "" && r.proc == w.proc && r.timerArmed == w.timerArmed
  {
    if w.seekCommand != "" then WriteCommand(w, w.seekCommand).(seekCommand := "") else w
  }

  /** The single-shot seek timer expiring: it stops, and a running one calls delayedSeek. */
  function TimerFires(w: Widget): (r: Widget)
    ensures !r.timerArmed
    ensures !w.timerArmed ==> r == w
    ensures w.timerArmed ==> r == DelayedSeek(w.(timerArmed := false))
  {
    if w.timerArmed then DelayedSeek(w.(timerArmed := false)) else w
  }

  /** One seek request. */
  datatype Request = Request(offset: real, whence: int)

  /** Seek requests made one after the other, before the timer fires. */
  function SeekAll(w: Widget, rs: seq<Request>, format: real -> string): Widget
    decreases |rs|
  {
    if |rs| == 0 then w
    else
      var last := rs[|rs| - 1];
      Seek(SeekAll(w, rs[..|rs| - 1], format), last.offset, last.whence, format).widget
  }

  /**
   A burst of requests writes nothing, leaves the process alone, and
   leaves the timer running exactly when the last request was valid,
   with the last request's command pending.
   */
  lemma {:induction false} SeekAllPending(w: Widget, rs: seq<Request>, format: real -> string)
    requires |rs| >= 1
    ensures SeekAll(w, rs, format).written == w.written
    ensures SeekAll(w, rs, format).proc == w.proc
    ensures SeekAll(w, rs, format).timerArmed <==> SeekModeOf(rs[|rs| - 1].whence).Some?
    ensures SeekModeOf(rs[|rs| - 1].whence).Some? ==>
      SeekAll(w, rs, format).seekCommand == SeekCommand(rs[|rs| - 1].offset, rs[|rs| - 1].whence, format)
    decreases |rs|
  {
    if |rs| > 1 {
      SeekAllPending(w, rs[..|rs| - 1], format);
    }
  }

  /**
   Debouncing: after a burst of valid requests the timer fires once, the
   last request's command is the only thing written, and a further
   expiry writes nothing more.
   */
  lemma LastRequestWins(w: Widget, rs: seq<Request>, format: real -> string)
    requires |rs| >= 1
    requires forall i :: 0 <= i < |rs| ==> SeekModeOf(rs[i].whence).Some?
    ensures TimerFires(SeekAll(w, rs, format)).written
         == w.written + [SeekCommand(rs[|rs| - 1].offset, rs[|rs| - 1].whence, format) + "\n"]
    ensures TimerFires(TimerFires(SeekAll(w, rs, format))) == TimerFires(SeekAll(w, rs, format))
  {
    SeekAllPending(w, rs, format);
  }

  /** A refused request after a valid one cancels it: when the timer would have fired, nothing is written. */
  lemma RefusedSeekCancelsPending(w: Widget, offset: real, whence: int, bad: int, format: real -> string)
    requires SeekModeOf(whence).Some? && SeekModeOf(bad).None?
    ensures var r := Seek(Seek(w, offset, whence, format).widget, offset, bad, format).widget;
      && r.seekCommand == SeekCommand(offset, whence, format)
      && TimerFires(r).written == w.written
  {
  }
}
