/**
 The protocol side of QMPProcess: how each line MPlayer prints moves the
 playback state, fills in the media information and updates the
 position, and which signals are emitted on the way.

 A line is classified by the first of its prefixes that matches, in the
 order "Playing ", "Cache fill:", "Starting playback...",
 "File not found: ", "ID_", "A:" / "V:", "Exiting..."; any other line is
 ignored. Every one of those prefixes begins with a different character,
 so at most one can match and the order never decides anything.
 */
module Protocol {
  import opened Text
  import opened Types
  import MediaInfoParser
  import PositionParser

  /** A signal of QMPProcess, with its argument. */
  datatype Signal =
    | StateChanged(state: int)
    | StreamPositionChanged(position: real)
    | ErrorRaised(reason: string)

  /** What QMPProcess keeps about the running player. */
  datatype Process = Process(state: State, info: MediaInfo, position: real)

  /** A process record together with the signals emitted, in order, to reach it. */
  datatype Effect = Effect(proc: Process, signals: seq<Signal>)

  /** The position sentinel meaning "not known". */
  const UnknownPosition: real := -1.0

  /** The record of a newly constructed QMPProcess. */
  const Initial: Process := Process(NotStarted, DefaultInfo, UnknownPosition)

  /** The states whose entry clears the media information and the position. */
  predicate Resets(s: State) {
    s == NotStarted || s == Error
  }

  /** resetValues: media information back to its defaults and the position unknown. */
  function ResetValues(p: Process): (r: Process)
    ensures r.state == p.state
    ensures r.info == DefaultInfo && !r.info.ok && r.info.tags == map[]
    ensures r.position == UnknownPosition
  {
    p.(info := DefaultInfo, position := UnknownPosition)
  }

  /**
   changeState: the state becomes `s` and stateChanged is emitted even if
   `s` is the current state. Entering Error also emits error(comment).
   Entering NotStarted or Error resets the media information and the
   position whatever they were; every other state keeps both.
   */
  function ChangeState(p: Process, s: State, comment: string): (e: Effect)
    ensures e.proc.state == s
    ensures |e.signals| >= 1 && e.signals[0] == StateChanged(Ordinal(s))
    ensures s == Error ==> e.signals == [StateChanged(Ordinal(s)), ErrorRaised(comment)]
    ensures s != Error ==> e.signals == [StateChanged(Ordinal(s))]
    ensures Resets(s) ==> e.proc.info == DefaultInfo && e.proc.position == UnknownPosition
    ensures !Resets(s) ==> e.proc.info == p.info && e.proc.position == p.position
  {
    var q := p.(state := s);
    match s
    case NotStarted => Effect(ResetValues(q), [StateChanged(Ordinal(s))])
    case Error => Effect(ResetValues(q), [StateChanged(Ordinal(s)), ErrorRaised(comment)])
    case _ => Effect(q, [StateChanged(Ordinal(s))])
  }

  /** Changing to the same state twice leaves the record as changing once does. */
  lemma ChangeStateSettles(p: Process, s: State, comment: string)
    ensures ChangeState(ChangeState(p, s, comment).proc, s, comment) == ChangeState(p, s, comment)
  {
  }

  /** What parseLine makes of a line. */
  datatype LineKind =
    | OpensFile        // "Playing "
    | FillsCache       // "Cache fill:"
    | StartsPlayback   // "Starting playback..."
    | FileMissing      // "File not found: "
    | Identification   // "ID_"
    | Status           // "A:" or "V:"
    | Exits            // "Exiting..."
    | Unrecognised

  const PlayingPrefix := "Playing "
  const CachePrefix := "Cache fill:"
  const StartPrefix := "Starting playback..."
  const NotFoundPrefix := "File not found: "
  const IdentPrefix := "ID_"
  const AudioStatusPrefix := "A:"
  const VideoStatusPrefix := "V:"
  const ExitPrefix := "Exiting..."

  /** The first-match chain of prefix tests of parseLine. */
  function Classify(line: string): (k: LineKind)
    ensures k != Status && k != Unrecognised ==> StartsWith(line, PrefixOf(k))
    ensures k == Status ==> StartsWith(line, AudioStatusPrefix) || StartsWith(line, VideoStatusPrefix)
    ensures k == Unrecognised <==>
      && !StartsWith(line, PlayingPrefix) && !StartsWith(line, CachePrefix)
      && !StartsWith(line, StartPrefix) && !StartsWith(line, NotFoundPrefix)
      && !StartsWith(line, IdentPrefix) && !StartsWith(line, AudioStatusPrefix)
      && !StartsWith(line, VideoStatusPrefix) && !StartsWith(line, ExitPrefix)
  {
    if StartsWith(line, PlayingPrefix) then OpensFile
    else if StartsWith(line, CachePrefix) then FillsCache
    else if StartsWith(line, StartPrefix) then StartsPlayback
    else if StartsWith(line, NotFoundPrefix) then FileMissing
    else if StartsWith(line, IdentPrefix) then Identification
    else if StartsWith(line, AudioStatusPrefix) || StartsWith(line, VideoStatusPrefix) then Status
    else if StartsWith(line, ExitPrefix) then Exits
    else Unrecognised
  }

  /** The prefix a line of each kind starts with, except the two-prefixed and the unrecognised kinds. */
  function PrefixOf(k: LineKind): string
    requires k != Status && k != Unrecognised
  {
    match k
    case OpensFile => PlayingPrefix
    case FillsCache => CachePrefix
    case StartsPlayback => StartPrefix
    case FileMissing => NotFoundPrefix
    case Identification => IdentPrefix
    case Exits => ExitPrefix
  }

  /** A line starting with a non-empty prefix starts with that prefix's first character. */
  lemma FirstChar(line: string, p: string)
    requires |p| >= 1 && StartsWith(line, p)
    ensures |line| >= 1 && line[0] == p[0]
  {
    assert line[..|p|][0] == p[0];
  }

  /**
   A line is of a prefixed kind exactly when it starts with that kind's
   prefix: the first-match order makes no difference.
   */
  lemma ClassifyByPrefix(line: string, k: LineKind)
    requires k != Status && k != Unrecognised
    ensures Classify(line) == k <==> StartsWith(line, PrefixOf(k))
  {
    FirstChars(line);
    if StartsWith(line, PrefixOf(k)) {
      FirstChar(line, PrefixOf(k));
    }
  }

  /** A line is a status line exactly when it starts with "A:" or "V:". */
  lemma ClassifyStatus(line: string)
    ensures Classify(line) == Status <==>
      StartsWith(line, AudioStatusPrefix) || StartsWith(line, VideoStatusPrefix)
  {
    FirstChars(line);
  }

  /** Whichever prefix a line starts with, its first character is that prefix's. */
  lemma FirstChars(line: string)
    ensures StartsWith(line, PlayingPrefix) ==> line[0] == 'P'
    ensures StartsWith(line, CachePrefix) ==> line[0] == 'C'
    ensures StartsWith(line, StartPrefix) ==> line[0] == 'S'
    ensures StartsWith(line, NotFoundPrefix) ==> line[0] == 'F'
    ensures StartsWith(line, IdentPrefix) ==> line[0] == 'I'
    ensures StartsWith(line, AudioStatusPrefix) ==> line[0] == 'A'
    ensures StartsWith(line, VideoStatusPrefix) ==> line[0] == 'V'
    ensures StartsWith(line, ExitPrefix) ==> line[0] == 'E'
  {
    if StartsWith(line, PlayingPrefix) { FirstChar(line, PlayingPrefix); }
    if StartsWith(line, CachePrefix) { FirstChar(line, CachePrefix); }
    if StartsWith(line, StartPrefix) { FirstChar(line, StartPrefix); }
    if StartsWith(line, NotFoundPrefix) { FirstChar(line, NotFoundPrefix); }
    if StartsWith(line, IdentPrefix) { FirstChar(line, IdentPrefix); }
    if StartsWith(line, AudioStatusPrefix) { FirstChar(line, AudioStatusPrefix); }
    if StartsWith(line, VideoStatusPrefix) { FirstChar(line, VideoStatusPrefix); }
    if StartsWith(line, ExitPrefix) { FirstChar(line, ExitPrefix); }
  }

  /** The state a line of kind `k` moves to, if it moves the state at all. */
  function Target(k: LineKind): Option<State> {
    match k
    case OpensFile => Some(Loading)
    case FillsCache => Some(Buffering)
    case StartsPlayback => Some(Playing)
    case FileMissing => Some(Error)
    case Exits => Some(NotStarted)
    case _ => None
  }

  /**
   parseLine. A state line changes the state as changeState does, with an
   empty error comment on "File not found: "; "Starting playback..." also
   marks the media information ok first. An identification line changes
   only the media information, a status line only the position (with
   streamPositionChanged iff it moved), and any other line nothing at all.
   */
  function ParseLine(p: Process, line: string, num: Numbers): (e: Effect)
    ensures Target(Classify(line)).Some? ==> e.proc.state == Target(Classify(line)).value
    ensures Target(Classify(line)).None? ==> e.proc.state == p.state
    ensures Target(Classify(line)).Some? ==>
      |e.signals| >= 1 && e.signals[0] == StateChanged(Ordinal(e.proc.state))
    ensures Classify(line) == FileMissing ==>
      e.signals == [StateChanged(Ordinal(Error)), ErrorRaised("")]
    ensures Target(Classify(line)).Some? && Classify(line) != FileMissing ==>
      e.signals == [StateChanged(Ordinal(e.proc.state))]
    ensures Classify(line) == StartsPlayback ==>
      e.proc.info == p.info.(ok := true) && e.proc.position == p.position
    ensures Classify(line) in {OpensFile, FillsCache} ==>
      e.proc.info == p.info && e.proc.position == p.position
    ensures Classify(line) in {FileMissing, Exits} ==>
      e.proc.info == DefaultInfo && e.proc.position == UnknownPosition
    ensures Classify(line) == Identification ==>
      e == Effect(p.(info := MediaInfoParser.ParseMediaInfo(p.info, line, num)), [])
    ensures Classify(line) == Status ==>
      && e.proc.state == p.state && e.proc.info == p.info
      && e.proc.position == PositionParser.ParsePosition(p.position, line, num).position
      && (e.signals == [] <==> e.proc.position == p.position)
      && (e.signals != [] ==> e.signals == [StreamPositionChanged(e.proc.position)])
    ensures Classify(line) == Unrecognised ==> e == Effect(p, [])
  {
    match Classify(line)
    case OpensFile => ChangeState(p, Loading, "")
    case FillsCache => ChangeState(p, Buffering, "")
    case StartsPlayback => ChangeState(p.(info := p.info.(ok := true)), Playing, "")
    case FileMissing => ChangeState(p, Error, "")
    case Identification => Effect(p.(info := MediaInfoParser.ParseMediaInfo(p.info, line, num)), [])
    case Status =>
      var u := PositionParser.ParsePosition(p.position, line, num);
      Effect(p.(position := u.position), if u.changed then [StreamPositionChanged(u.position)] else [])
    case Exits => ChangeState(p, NotStarted, "")
    case Unrecognised => Effect(p, [])
  }

  /** Only "Starting playback..." ever sets `ok`. */
  lemma OkOnlyFromPlaybackStart(p: Process, line: string, num: Numbers)
    requires !p.info.ok && ParseLine(p, line, num).proc.info.ok
    ensures Classify(line) == StartsPlayback
  {
  }

  /** A state value the parser can report: never Stopped or Paused. */
  predicate Reported(n: int) {
    n == -1 || n == 0 || n == 2 || n == 3 || n == 5
  }

  /**
   parseLine applied to each line in turn, the signals of all of them in
   order. Every stateChanged among them reports NotStarted, Loading,
   Playing, Buffering or Error, and every error carries the empty reason.
   */
  function FeedLines(p: Process, lines: seq<string>, num: Numbers): (r: Effect)
    ensures forall k :: 0 <= k < |r.signals| && r.signals[k].StateChanged? ==> Reported(r.signals[k].state)
    ensures forall k :: 0 <= k < |r.signals| && r.signals[k].ErrorRaised? ==> r.signals[k].reason == ""
    decreases |lines|
  {
    if |lines| == 0 then Effect(p, [])
    else
      var before := FeedLines(p, lines[..|lines| - 1], num);
      var last := ParseLine(before.proc, lines[|lines| - 1], num);
      Effect(last.proc, before.signals + last.signals)
  }

  /** The loop of readStdout over the lines of one chunk. */
  method ParseLines(p: Process, lines: seq<string>, num: Numbers) returns (e: Effect)
    ensures e == FeedLines(p, lines, num)
  {
    e := Effect(p, []);
    var i := 0;
    while i < |lines|
      invariant 0 <= i <= |lines|
      invariant e == FeedLines(p, lines[..i], num)
    {
      var step := ParseLine(e.proc, lines[i], num);
      assert lines[..i + 1][..i] == lines[..i];
      e := Effect(step.proc, e.signals + step.signals);
      i := i + 1;
    }
    assert lines[..|lines|] == lines;
  }

  /** A record the parser can produce: never Stopped or Paused, and `ok` only while active. */
  predicate Reachable(p: Process) {
    && p.state != Stopped && p.state != Paused
    && (p.info.ok ==> !Resets(p.state))
    && p.info.tags == map[]
  }

  /** A newly constructed process is in a reachable state. */
  lemma InitialReachable()
    ensures Reachable(Initial)
  {
  }

  /** One line keeps a record reachable. */
  lemma ParseLineKeepsReachable(p: Process, line: string, num: Numbers)
    requires Reachable(p)
    ensures Reachable(ParseLine(p, line, num).proc)
  {
  }

  /**
   Whatever MPlayer prints, the parser never enters Stopped or Paused,
   never has `ok` set in NotStarted or Error, and never writes a tag.
   */
  lemma {:induction false} FeedKeepsReachable(p: Process, lines: seq<string>, num: Numbers)
    requires Reachable(p)
    ensures Reachable(FeedLines(p, lines, num).proc)
    decreases |lines|
  {
    if |lines| > 0 {
      FeedKeepsReachable(p, lines[..|lines| - 1], num);
      ParseLineKeepsReachable(FeedLines(p, lines[..|lines| - 1], num).proc, lines[|lines| - 1], num);
    }
  }

  /** Feeding the same status line twice emits streamPositionChanged at most once. */
  lemma RepeatedStatusIsQuiet(p: Process, line: string, num: Numbers)
    requires Classify(line) == Status
    ensures ParseLine(ParseLine(p, line, num).proc, line, num).signals == []
  {
    PositionParser.SecondReportIsQuiet(p.position, line, num);
  }

  /**
   The lines of one read: the text split at '\n', empty pieces dropped,
   then every '\r' removed from each piece.
   */
  function SplitLines(chunk: string): (ls: seq<string>)
    ensures forall i :: 0 <= i < |ls| ==> Free(ls[i], {'\n', '\r'})
  {
    var pieces := DropEmpty(Split(chunk, {'\n'}));
    seq(|pieces|, i requires 0 <= i < |pieces| => Strip(pieces[i], {'\r'}))
  }

  /** Lines each followed by '\n', as MPlayer writes them. */
  function Terminated(ls: seq<string>): string
    decreases |ls|
  {
    if |ls| == 0 then "" else ls[0] + "\n" + Terminated(ls[1..])
  }

  lemma {:induction false} TerminatedIsJoin(ls: seq<string>)
    ensures Terminated(ls) == Join(ls + [""], '\n')
    decreases |ls|
  {
    if |ls| > 0 {
      TerminatedIsJoin(ls[1..]);
      assert (ls + [""])[1..] == ls[1..] + [""];
    }
  }

  /**
   A read holding complete, non-empty lines gives back those lines, each
   with its carriage returns removed.
   */
  lemma SplitLinesOfTerminatedRaw(ls: seq<string>)
    requires forall i :: 0 <= i < |ls| ==> ls[i] != "" && Free(ls[i], {'\n'})
    ensures |SplitLines(Terminated(ls))| == |ls|
    ensures forall i :: 0 <= i < |ls| ==> SplitLines(Terminated(ls))[i] == Strip(ls[i], {'\r'})
  {
    PiecesOfTerminated(ls);
  }

  /** A read holding only complete, non-empty lines gives back exactly those lines. */
  lemma SplitLinesOfTerminated(ls: seq<string>)
    requires forall i :: 0 <= i < |ls| ==> ls[i] != "" && Free(ls[i], {'\n', '\r'})
    ensures SplitLines(Terminated(ls)) == ls
  {
    forall i | 0 <= i < |ls| ensures Free(ls[i], {'\n'}) {
      assert Free(ls[i], {'\n', '\r'});
    }
    SplitLinesOfTerminatedRaw(ls);
    var r := SplitLines(Terminated(ls));
    forall i | 0 <= i < |ls| ensures r[i] == ls[i] {
      assert Free(ls[i], {'\r'}) by {
        assert Free(ls[i], {'\n', '\r'});
      }
      StripAbsent(ls[i], {'\r'});
    }
  }

  /** The non-empty '\n'-separated pieces of complete lines are the lines. */
  lemma PiecesOfTerminated(ls: seq<string>)
    requires forall i :: 0 <= i < |ls| ==> ls[i] != "" && Free(ls[i], {'\n'})
    ensures DropEmpty(Split(Terminated(ls), {'\n'})) == ls
  {
    TerminatedIsJoin(ls);
    var ps := ls + [""];
    SplitJoin(ps, '\n');
    DropEmptyTrailing(ls);
    DropEmptyKeeps(ls);
  }

  /** Lines each followed by "\r\n", as a player on Windows writes them. */
  function CrlfTerminated(ls: seq<string>): string
    decreases |ls|
  {
    if |ls| == 0 then "" else ls[0] + "\r\n" + CrlfTerminated(ls[1..])
  }

  /** The same lines, each with a '\r' at its end. */
  function WithCr(ls: seq<string>): (r: seq<string>)
    ensures |r| == |ls| && forall i :: 0 <= i < |ls| ==> r[i] == ls[i] + "\r"
  {
    seq(|ls|, i requires 0 <= i < |ls| => ls[i] + "\r")
  }

  lemma {:induction false} CrlfIsTerminated(ls: seq<string>)
    ensures CrlfTerminated(ls) == Terminated(WithCr(ls))
    decreases |ls|
  {
    if |ls| > 0 {
      CrlfIsTerminated(ls[1..]);
      assert WithCr(ls)[1..] == WithCr(ls[1..]);
      assert ls[0] + "\r\n" == WithCr(ls)[0] + "\n";
    }
  }

  /** A line with a '\r' added is a non-empty piece without '\n'. */
  lemma WithCrPiece(x: string)
    requires Free(x, {'\n', '\r'})
    ensures x + "\r" != "" && Free(x + "\r", {'\n'})
  {
    var y := x + "\r";
    forall j | 0 <= j < |y| ensures y[j] !in {'\n'} {
      if j < |x| { assert y[j] == x[j]; } else { assert y[j] == '\r'; }
    }
  }

  /** Removing carriage returns from a line with one '\r' added gives the line. */
  lemma StripCr(x: string)
    requires Free(x, {'\n', '\r'})
    ensures Strip(x + "\r", {'\r'}) == x
  {
    assert Free(x, {'\r'}) by {
      assert Free(x, {'\n', '\r'});
    }
    StripConcat(x, "\r", {'\r'});
    StripAbsent(x, {'\r'});
    assert Strip("\r", {'\r'}) == Strip("", {'\r'});
  }

  /** The lines with a '\r' added are non-empty pieces without '\n'. */
  lemma WithCrPieces(ls: seq<string>)
    requires forall i :: 0 <= i < |ls| ==> Free(ls[i], {'\n', '\r'})
    ensures forall i :: 0 <= i < |ls| ==> WithCr(ls)[i] != "" && Free(WithCr(ls)[i], {'\n'})
  {
    forall i | 0 <= i < |ls| ensures WithCr(ls)[i] != "" && Free(WithCr(ls)[i], {'\n'}) {
      WithCrPiece(ls[i]);
    }
  }

  /** Removing carriage returns from the lines with a '\r' added gives the lines. */
  lemma StripWithCr(ls: seq<string>)
    requires forall i :: 0 <= i < |ls| ==> Free(ls[i], {'\n', '\r'})
    ensures forall i :: 0 <= i < |ls| ==> Strip(WithCr(ls)[i], {'\r'}) == ls[i]
  {
    forall i | 0 <= i < |ls| ensures Strip(WithCr(ls)[i], {'\r'}) == ls[i] {
      StripCr(ls[i]);
    }
  }

  /** A read of complete "\r\n"-terminated lines gives back exactly those lines: the '\r' is removed. */
  lemma SplitLinesOfCrlf(ls: seq<string>)
    requires forall i :: 0 <= i < |ls| ==> Free(ls[i], {'\n', '\r'})
    ensures SplitLines(CrlfTerminated(ls)) == ls
  {
    var cr := WithCr(ls);
    CrlfIsTerminated(ls);
    WithCrPieces(ls);
    StripWithCr(ls);
    SplitLinesOfTerminatedRaw(cr);
  }

  /**
   Lines are not buffered across reads: a line that arrives in two reads
   is parsed as two separate lines.
   */
  lemma SplitDelivery(x: string, y: string)
    requires x != "" && Free(x, {'\n', '\r'})
    requires y != "" && Free(y, {'\n', '\r'})
    ensures SplitLines(x) + SplitLines(y + "\n") == [x, y]
    ensures SplitLines(x + y + "\n") == [x + y]
  {
    assert Free(x, {'\n'});
    SplitFree(x, {'\n'});
    StripAbsent(x, {'\r'});
    SplitLinesOfTerminated([y]);
    assert Terminated([y]) == y + "\n";
    assert Free(x + y, {'\n', '\r'}) by {
      forall j | 0 <= j < |x + y| ensures (x + y)[j] !in {'\n', '\r'} {
        if j < |x| { assert (x + y)[j] == x[j]; } else { assert (x + y)[j] == y[j - |x|]; }
      }
    }
    SplitLinesOfTerminated([x + y]);
    assert Terminated([x + y]) == x + y + "\n";
  }

  /** Output of the player not yet read by the widget. */
  datatype Channels = Channels(stdout: string, stderr: string)

  /** The result of draining one channel. */
  datatype Drained = Drained(effect: Effect, rest: Channels)

  /** readStdout: everything waiting on stdout is taken and parsed line by line. */
  function ReadStdout(p: Process, ch: Channels, num: Numbers): (d: Drained)
    ensures d.rest == Channels("", ch.stderr)
    ensures d.effect == FeedLines(p, SplitLines(ch.stdout), num)
  {
    Drained(FeedLines(p, SplitLines(ch.stdout), num), ch.(stdout := ""))
  }

  /** readStderr as written: it takes and parses stdout, leaving stderr unread. */
  function ReadStderrAsWritten(p: Process, ch: Channels, num: Numbers): (d: Drained)
    ensures d == ReadStdout(p, ch, num)
    ensures d.rest.stderr == ch.stderr
    ensures ch.stdout == "" ==> d.effect == Effect(p, [])
  {
    var d := Drained(FeedLines(p, SplitLines(ch.stdout), num), ch.(stdout := ""));
    assert ch.stdout == "" ==> SplitLines(ch.stdout) == [];
    d
  }

  /** readStderr as intended: everything waiting on stderr is taken and parsed. */
  function ReadStderr(p: Process, ch: Channels, num: Numbers): (d: Drained)
    ensures d.rest == Channels(ch.stdout, "")
    ensures d.effect == FeedLines(p, SplitLines(ch.stderr), num)
  {
    Drained(FeedLines(p, SplitLines(ch.stderr), num), ch.(stderr := ""))
  }

  /**
   A "File not found: " report arriving on stderr alone: as written it is
   never parsed and the state stays Loading; as intended it enters Error.
   */
  lemma StderrReportIsLost(p: Process, line: string, num: Numbers)
    requires p.state == Loading
    requires StartsWith(line, NotFoundPrefix) && Free(line, {'\n', '\r'})
    ensures ReadStderrAsWritten(p, Channels("", line + "\n"), num).effect.proc.state == Loading
    ensures ReadStderrAsWritten(p, Channels("", line + "\n"), num).rest.stderr == line + "\n"
    ensures ReadStderr(p, Channels("", line + "\n"), num).effect.proc.state == Error
  {
    ClassifyByPrefix(line, FileMissing);
    assert line != "";
    SplitLinesOfTerminated([line]);
    assert Terminated([line]) == line + "\n";
    assert [line][..0] == [];
  }

  /** Complete lines waiting on stdout are all consumed and parsed, in order. */
  lemma ReadStdoutOfLines(p: Process, ls: seq<string>, stderr: string, num: Numbers)
    requires forall i :: 0 <= i < |ls| ==> ls[i] != "" && Free(ls[i], {'\n', '\r'})
    ensures ReadStdout(p, Channels(Terminated(ls), stderr), num) == Drained(FeedLines(p, ls, num), Channels("", stderr))
    ensures ReadStdout(p, Channels(CrlfTerminated(ls), stderr), num) == Drained(FeedLines(p, ls, num), Channels("", stderr))
  {
    SplitLinesOfTerminated(ls);
    SplitLinesOfCrlf(ls);
  }

  /** As intended, complete lines waiting on stderr are all consumed and parsed, in order. */
  lemma ReadStderrOfLines(p: Process, stdout: string, ls: seq<string>, num: Numbers)
    requires forall i :: 0 <= i < |ls| ==> ls[i] != "" && Free(ls[i], {'\n', '\r'})
    ensures ReadStderr(p, Channels(stdout, Terminated(ls)), num) == Drained(FeedLines(p, ls, num), Channels(stdout, ""))
    ensures ReadStderr(p, Channels(stdout, CrlfTerminated(ls)), num) == Drained(FeedLines(p, ls, num), Channels(stdout, ""))
  {
    SplitLinesOfTerminated(ls);
    SplitLinesOfCrlf(ls);
  }
}
