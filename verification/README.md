# qmpwidget slave-protocol model

QMPWidget embeds an MPlayer process in a Qt widget and drives it through
MPlayer's slave mode: commands go to the player's stdin, and the widget
follows the player by reading the lines it prints. This project models,
in Dafny, the logic of that protocol as it appears in `src/qmpwidget.cpp`
and `src/qmpwidget.h`:

- the line classifier of `QMPProcess::parseLine`, a first-match chain of
  prefix tests that moves the playback state, updates the media
  information or updates the position;
- `parseMediaInfo`, which reads `ID_KEY=value` lines into `MediaInfo`,
  and `parsePosition`, which reads the position from status lines;
- the state machine of `changeState` and `resetValues`, the `MediaInfo`
  defaults, and the signals (`stateChanged`, `error`,
  `streamPositionChanged`) emitted on the way;
- the chunk splitter of `readStdout`, and `readStderr`;
- `QMPWidget::play` and `pause`, which send `pause` only in the state
  where it toggles the right way;
- the seek coalescer: `seek` overwrites one pending command and restarts
  a 50 ms single-shot timer; `delayedSeek` sends that command once;
- the argument list `startMPlayer` builds.

Everything is pure: a `Process` record (state, media information,
position), a `Widget` record (process, pending seek command, timer flag,
lines written to stdin), and functions from a record and an input to the
next record and the signals emitted. `QString::toInt` and
`QString::toDouble` are uninterpreted functions passed in as a `Numbers`
value; the formatting of the seek offset is a `real -> string` parameter.

Modules: `Text` (Qt's split, startsWith and remove on strings), `Decimal`
(integer text and the 32-bit cast), `Types` (the enums and `MediaInfo`),
`MediaInfoParser`, `PositionParser`, `Protocol` (parseLine, changeState,
reading output), `Widget` (play, pause, seek, delayedSeek) and `Launch`
(the argument list).

Three behaviours of the code are worth knowing when reading the model:
- `parseLine` calls `changeState(ErrorState)` with no comment, so on a
  `File not found: ` line `error` is emitted with an empty reason
  (`Protocol.ParseLine`);
- every read is split into lines on its own, with nothing kept between
  reads, so a line that arrives in two reads is parsed as two lines
  (`Protocol.SplitDelivery`);
- `seek` stops the seek timer before it checks the mode, so an invalid
  request cancels a pending one (`Widget.RefusedSeekCancelsPending`).

## Model

| member | source | states |
|---|---|---|
| Types.Ordinal | src/qmpwidget.h:40-48 | The State enum values run from -1 (NotStarted) to 5 (Error) |
| Types.StateOf | src/qmpwidget.h:40-48 | An int is the value of some state iff it lies in -1..5, and then it is that state's value |
| Types.StateOrdinalRoundTrip | src/qmpwidget.h:40-48 | Reading a state's enum value back gives the state, so distinct states emit distinct values |
| Types.ModeCode | src/qmpwidget.h:70-73 | EmbeddedMode is 0 and PipeMode is 1 |
| Types.SeekCode | src/qmpwidget.h:75-79 | The seek modes are numbered 0, 1 and 2 |
| Types.SeekModeOf | src/qmpwidget.cpp:619-632 | A `whence` names a seek mode iff it is 0, 1 or 2, and that mode's number is `whence` itself |
| Types.SeekCodeRoundTrip | src/qmpwidget.h:75-79 | Each seek mode is recovered from its number |
| Text.Split | src/qmpwidget.cpp:318 | Splitting with empty parts kept gives one more piece than there are separators, none containing a separator |
| Text.DropEmpty | src/qmpwidget.cpp:278 | Skipping empty parts keeps only non-empty pieces, each one of the original pieces, with the same text end to end |
| Text.Strip | src/qmpwidget.cpp:280 | Removing a character leaves text without it, made of the original's characters, shorter by the number removed |
| Text.SplitFree | src/qmpwidget.cpp:318 | Text without a separator splits into itself alone |
| Text.SplitAfterHead | src/qmpwidget.cpp:318 | A separator-free head before a separator is the first piece, followed by the pieces of the rest |
| Text.ConcatSplit | src/qmpwidget.cpp:354 | The pieces of a split, end to end, are the text without its separators |
| Text.JoinSplit | src/qmpwidget.cpp:318 | Joining the pieces of a split with the separator gives back the text |
| Text.SplitJoin | src/qmpwidget.cpp:278 | Splitting a join of separator-free pieces gives back the pieces |
| Text.StripAbsent | src/qmpwidget.cpp:280 | Removing a character that does not occur changes nothing |
| Text.DropEmptyKeeps | src/qmpwidget.cpp:278 | Skipping empty parts of pieces none of which is empty changes nothing |
| Text.DropEmptyTrailing | src/qmpwidget.cpp:278 | An empty last piece disappears when empty parts are skipped |
| Text.DropEmptySingle | src/qmpwidget.cpp:278 | A single piece is kept iff it is not empty |
| Text.DropEmptyConcat | src/qmpwidget.cpp:278 | Skipping empty parts works piece by piece, so every non-empty piece is kept, in order, and nothing else |
| Text.StripConcat | src/qmpwidget.cpp:280 | Removing a character from joined text is removing it from each part |
| MediaInfoParser.KeyFor | src/qmpwidget.cpp:323-347 | Every MediaInfo field an identification line can set has a key in the table that maps to it |
| MediaInfoParser.KeysInjective | src/qmpwidget.cpp:323-347 | Each key of the table is its field's key, so no two keys set the same field |
| MediaInfoParser.Extensionality | src/qmpwidget.h:50-68 | Two MediaInfo values agreeing on every field, the tags and `ok` are equal |
| MediaInfoParser.Pieces | src/qmpwidget.cpp:318-321 | A line has at least two '='-pieces iff it contains an '=' |
| MediaInfoParser.ParseMediaInfo | src/qmpwidget.cpp:316-348 | No '=' or an unknown key changes nothing; a known key sets exactly its own field to the converted second piece and leaves every other field, the tags and `ok` alone |
| MediaInfoParser.ValueBetweenFirstAndSecond | src/qmpwidget.cpp:318-324 | In `k=v=...` the key is `k` and the value `v`; text after the second '=' is ignored |
| MediaInfoParser.Idempotent | src/qmpwidget.cpp:316-348 | Applying the same identification line twice is applying it once |
| MediaInfoParser.Commute | src/qmpwidget.cpp:316-348 | Two lines with different keys can be applied in either order |
| MediaInfoParser.SizeFromLines | src/qmpwidget.cpp:327-330 | A width line and a height line set the size to (width, height) in either order |
| MediaInfoParser.WidthAndHeight | src/qmpwidget.cpp:327-330 | `ID_VIDEO_WIDTH=1920` and `ID_VIDEO_HEIGHT=1080` give the size (1920, 1080) in either order |
| MediaInfoParser.KeyValue | src/qmpwidget.cpp:318-324 | In `k=v` the key is `k` and the value `v` |
| PositionParser.Tokens | src/qmpwidget.cpp:353-354 | Status-line tokens are non-empty and contain no space or colon |
| PositionParser.TokensKeepText | src/qmpwidget.cpp:353-354 | The tokens, end to end, are the line's characters other than spaces and colons |
| PositionParser.TokensAfterHead | src/qmpwidget.cpp:353-354 | A non-empty head before a separator is the first token; an empty one yields none |
| PositionParser.TokensSingle | src/qmpwidget.cpp:353-354 | Separator-free text is a single token |
| PositionParser.FindV | src/qmpwidget.cpp:357-358 | The index found is of a "V" with no "V" before it; none is found only if there is no "V" |
| PositionParser.ScanAsWritten | src/qmpwidget.cpp:357-362 | The loop as written: no marker only if there is no "V"; a past-end read only if the last token is "V"; otherwise the token after some "V" |
| PositionParser.ScanAsWrittenReadsAfterFirstV | src/qmpwidget.cpp:357-362 | The loop as written stops at the first "V" and reads the next token, or past the end when that "V" is last |
| PositionParser.TrailingMarkerReadsPastEnd | src/qmpwidget.cpp:358-359 | The status line `V:` makes the loop as written read past the end of its tokens |
| PositionParser.TrailingMarkerKeepsPosition | src/qmpwidget.cpp:356-366 | With the corrected guard, `V:` leaves the position as it was and reports nothing |
| PositionParser.Scan | src/qmpwidget.cpp:357-362 | With the guard `count > i + 1`, the loop reads the token after the first "V", or nothing if that "V" is last or absent |
| PositionParser.PositionToken | src/qmpwidget.cpp:357-362 | A position token exists iff some "V" has a token after it, and it is the token after the first "V" |
| PositionParser.CorrectedAgreesInBounds | src/qmpwidget.cpp:357-362 | The corrected loop reads what the loop as written reads whenever that read is in bounds |
| PositionParser.ParsePosition | src/qmpwidget.cpp:351-367 | With the corrected guard: without a position token the position stays; otherwise it becomes the token's value; the change is reported iff the value differs |
| PositionParser.SecondReportIsQuiet | src/qmpwidget.cpp:364-366 | The same status line a second time reports no change |
| PositionParser.StatusLineTokens | src/qmpwidget.cpp:353-362 | `A: <a> V: <v>` has the tokens A, a, V, v and position token v |
| PositionParser.TailTokens | src/qmpwidget.cpp:353-354 | `V: <v>` has the tokens V and v |
| PositionParser.HeadTokens | src/qmpwidget.cpp:353-354 | `<x>: <a> ` before further text contributes the tokens x and a |
| PositionParser.MarkerAtTwo | src/qmpwidget.cpp:357-362 | A "V" at index 2 with none before it gives the token after it |
| PositionParser.StatusLineExample | src/qmpwidget.cpp:351-362 | `A: 12.3 V: 45.6` has the position token 45.6 |
| Protocol.ChangeState | src/qmpwidget.cpp:371-402 | The state becomes `s` and stateChanged(s) is emitted even if unchanged; Error also emits error(comment); NotStarted and Error reset info to the defaults and the position to -1; other states keep both |
| Protocol.ResetValues | src/qmpwidget.cpp:398-402 | The media information becomes the constructor's defaults (`ok` false, no tags) and the position -1; the state is kept |
| Protocol.ChangeStateSettles | src/qmpwidget.cpp:380-394 | Changing to a state a second time leaves the record as it was |
| Protocol.Classify | src/qmpwidget.cpp:295-313 | A line's kind is one whose prefix it starts with, and it is unrecognised iff it starts with none of the eight prefixes |
| Protocol.ClassifyByPrefix | src/qmpwidget.cpp:295-313 | A line is of a prefixed kind iff it starts with that kind's prefix, whatever the order of the tests |
| Protocol.ClassifyStatus | src/qmpwidget.cpp:308 | A line is a status line iff it starts with `A:` or `V:` |
| Protocol.FirstChar | src/qmpwidget.cpp:295-313 | A line starting with a prefix starts with its first character |
| Protocol.FirstChars | src/qmpwidget.cpp:297-310 | The eight prefixes begin with eight different characters |
| Protocol.ParseLine | src/qmpwidget.cpp:295-313 | State lines move to Loading, Buffering, Playing, Error or NotStarted and emit exactly stateChanged, plus error("") for `File not found: `; playback start sets `ok` and keeps the position; ID_ lines change only the info, status lines only the position (signal iff moved); other lines change nothing |
| Protocol.OkOnlyFromPlaybackStart | src/qmpwidget.cpp:301-302 | Only `Starting playback...` turns `ok` on |
| Protocol.FeedLines | src/qmpwidget.cpp:279-282 | Over any lines, every stateChanged reports NotStarted, Loading, Playing, Buffering or Error, and every error has the empty reason |
| Protocol.ParseLines | src/qmpwidget.cpp:279-282 | The loop parses every line of a read in order, collecting all signals |
| Protocol.InitialReachable | src/qmpwidget.cpp:158-164 | A fresh process is NotStarted with default info, which the invariant admits |
| Protocol.ParseLineKeepsReachable | src/qmpwidget.cpp:295-402 | One line never enters Stopped or Paused, never leaves `ok` set in NotStarted or Error, never writes a tag |
| Protocol.FeedKeepsReachable | src/qmpwidget.cpp:295-402 | The same holds for any sequence of lines |
| Protocol.RepeatedStatusIsQuiet | src/qmpwidget.cpp:364-366 | A repeated status line emits no signal the second time |
| Protocol.SplitLines | src/qmpwidget.cpp:278-282 | The lines of a read contain neither '\n' nor '\r' |
| Protocol.TerminatedIsJoin | src/qmpwidget.cpp:278 | Newline-terminated lines are their join with an empty last piece |
| Protocol.SplitLinesOfTerminatedRaw | src/qmpwidget.cpp:278-282 | A read of complete non-empty lines gives back as many lines, each with its carriage returns removed |
| Protocol.SplitLinesOfTerminated | src/qmpwidget.cpp:278-282 | A read of complete non-empty lines gives back exactly those lines |
| Protocol.CrlfIsTerminated | src/qmpwidget.cpp:278-280 | Lines ending in "\r\n" are the same lines with a '\r' added, each ending in '\n' |
| Protocol.WithCrPiece | src/qmpwidget.cpp:278-280 | A line with a '\r' added is a non-empty piece without '\n' |
| Protocol.StripCr | src/qmpwidget.cpp:280 | Removing carriage returns from a line with one added gives the line back |
| Protocol.WithCrPieces | src/qmpwidget.cpp:278-280 | Lines with a '\r' added are non-empty pieces without '\n' |
| Protocol.StripWithCr | src/qmpwidget.cpp:280 | Removing carriage returns from lines with one added gives the lines back |
| Protocol.SplitLinesOfCrlf | src/qmpwidget.cpp:278-282 | A read of complete "\r\n"-terminated lines gives back exactly those lines |
| Protocol.PiecesOfTerminated | src/qmpwidget.cpp:278 | The non-empty newline pieces of complete lines are the lines |
| Protocol.SplitDelivery | src/qmpwidget.cpp:278 | A line split across two reads is parsed as two lines, not as one |
| Protocol.ReadStdout | src/qmpwidget.cpp:276-283 | All of stdout is consumed and stderr left alone; the lines of the read are parsed in order |
| Protocol.ReadStdoutOfLines | src/qmpwidget.cpp:276-283 | Complete lines on stdout, ending in "\n" or "\r\n", are each parsed once, in order, and stdout is left empty |
| Protocol.ReadStderrAsWritten | src/qmpwidget.cpp:285-292 | As written, readStderr is readStdout: it drains and parses stdout, and stderr is never consumed |
| Protocol.ReadStderr | src/qmpwidget.cpp:285-292 | As intended, all of stderr is consumed and stdout left alone; the lines of the read are parsed in order |
| Protocol.ReadStderrOfLines | src/qmpwidget.cpp:285-292 | As intended, complete lines on stderr, ending in "\n" or "\r\n", are each parsed once, in order |
| Protocol.StderrReportIsLost | src/qmpwidget.cpp:285-292 | A `File not found: ` report on stderr leaves the state Loading as written, and enters Error as intended |
| Widget.WriteCommand | src/qmpwidget.cpp:249-252 | The command plus a newline is appended to what the player has received; nothing else changes |
| Widget.Play | src/qmpwidget.cpp:583-588 | `pause` is sent iff the state is Paused; otherwise nothing changes |
| Widget.Pause | src/qmpwidget.cpp:593-598 | `pause` is sent iff the state is Playing; otherwise nothing changes |
| Widget.PlayPauseExclusive | src/qmpwidget.cpp:583-598 | In no state do both play and pause send something |
| Widget.ReceiveAll | src/qmpwidget.cpp:279-282 | Player output moves the widget's process as the parser does and leaves the seek state and the written commands alone |
| Widget.PlayIsInert | src/qmpwidget.cpp:583-588 | Because the parser never enters Paused, play never sends anything after any player output |
| Widget.SeekCommand | src/qmpwidget.cpp:635 | The command starts with `seek ` and ends with a space and the mode as a single digit |
| Widget.Seek | src/qmpwidget.cpp:614-638 | The timer is always stopped; an invalid mode is refused with the pending command kept; a valid one sets the pending command to `seek <offset> <whence>` and starts the timer; nothing is written |
| Widget.SeekInt | src/qmpwidget.cpp:609-612 | The int overload behaves as the double one on the same offset: the timer stops, an invalid mode is refused, a valid one sets the pending command and starts the timer, nothing is written |
| Widget.DefaultSeekIsAbsolute | src/qmpwidget.h:107-108 | A seek without a mode is accepted as absolute, mode number 2 |
| Widget.DelayedSeek | src/qmpwidget.cpp:792-798 | A pending command is written once and cleared; with none pending nothing is written |
| Widget.TimerFires | src/qmpwidget.cpp:450-452 | The single-shot timer stops on expiry and, if it was running, runs delayedSeek |
| Widget.SeekAllPending | src/qmpwidget.cpp:614-638 | A burst of requests writes nothing and leaves the timer running iff the last request was valid, with that request's command pending |
| Widget.LastRequestWins | src/qmpwidget.cpp:614-638 | After a burst of valid requests, the expiry writes exactly the last request's command, and a second expiry writes nothing |
| Widget.RefusedSeekCancelsPending | src/qmpwidget.cpp:616 | An invalid request after a valid one keeps the pending text but stops the timer, so nothing is sent |
| Decimal.NatText | src/qmpwidget.cpp:221 | A natural number's text is non-empty digits with no leading zero |
| Decimal.IntText | src/qmpwidget.cpp:221 | An int's text is digits, with one leading '-' iff negative |
| Decimal.NatTextRoundTrip | src/qmpwidget.cpp:635 | Reading a natural number's text back gives the number |
| Decimal.IntTextRoundTrip | src/qmpwidget.cpp:635 | Reading an int's text back gives the int |
| Decimal.IntTextInjective | src/qmpwidget.cpp:635 | Distinct ints have distinct texts |
| Decimal.Int32Of | src/qmpwidget.cpp:221 | The cast of a window handle to int lies in the 32-bit range, agrees with it modulo 2^32, and is the handle itself when it fits |
| Launch.EffectiveMode | src/qmpwidget.cpp:200-206 | Pipe mode is used iff it is asked for and the pipe reader is built in |
| Launch.OutputArgs | src/qmpwidget.cpp:219-231 | Embedded: `-wid` and the window id as a 32-bit int, then `-vo <drivers>` iff drivers are set; pipe: `-vo yuv4mpeg:file=<pipe>` |
| Launch.StartArgs | src/qmpwidget.cpp:208-233 | The nine control tokens come first and the caller's arguments last and unchanged; embedded: `-wid` and the window id as a 32-bit int, then `-vo <drivers>` iff drivers are set; pipe: `-vo yuv4mpeg:file=<pipe>` |

## Left out

- The YUV frame reader, chroma upsampling and colour conversion: they live in `qmpyuvreader.cpp`, which `src/qmpwidget.cpp` only includes; qmpyuvreader.cpp is not part of this model. For the same reason the stop of the YUV reader inside changeState on Error and NotStarted is not modelled.
- Process I/O (`QProcess::start`, `write`, `waitForFinished`, `readAllStandardOutput`): output is a string handed in, commands are appended to a sequence of lines. Local 8-bit decoding is the identity on `string`.
- `QString::toInt` and `QString::toDouble` are uninterpreted functions into `int` and `real`: the model does not promise anything about their 32-bit range, and `real` has no NaN, so a "nan" token is not modelled.
- PositionParser.ParsePosition: the out-of-bounds read `info[i+1]` of the source on a status line whose first "V" is its last token (`V:`, `A: 12.3 V:`) is replaced by the corrected guard, under which the position stays; the read as written is modelled by PositionParser.ScanAsWritten alone, and its outcome does not reach Protocol.ParseLine.
- PositionParser.SecondReportIsQuiet: holds because `real` has no NaN; in the source a position read as NaN makes `oldpos != m_streamPosition` true on every repeat, so streamPositionChanged is emitted each time.
- Protocol.RepeatedStatusIsQuiet: the same gap, for the signal list of a repeated status line.
- Types.MediaInfo: `audioBitrate` is declared `double` but only ever assigned from `toInt`; it is modelled as `Option<int>`, None for the indeterminate value the constructor leaves it with.
- Widget.SeekCommand: the offset text of `QString::arg(double)` is a parameter, not a formatter.
- Widget.TimerFires: the 50 ms interval is not modelled; the timer is a running flag and expiry is an explicit step.
- Signal delivery: signals are recorded in emission order; Qt's connection types and the widget's slots reacting to them are not modelled.
- `stop`, `quit` and the other command senders (volume, audio and subtitle delay keys): they only write fixed text through WriteCommand.
- The Qt and OpenGL display widgets, painting, full-screen toggling, aspect-fit geometry, the seek slider binding (`mpStateChanged`, `mpStreamPositionChanged`) and key dispatch: UI glue.
- `demo/main.cpp`: a demo application written against a different version of the header; it is not part of this model.
- The rest of startMPlayer: creating and starting the YUV reader, `QProcess::start` itself, and the per-platform default video drivers (src/qmpwidget.cpp:166-183), which are a parameter here.

## Findings

| source | as written | input that shows it | evidently intended | confidence | as-written member | corrected member |
|---|---|---|---|---|---|---|
| src/qmpwidget.cpp:358 | The guard `info.count() > i` always holds inside the loop, so `info[i+1]` is read when the first "V" is the last token | The status line `V:` (tokens ["V"]) | The guard `info.count() > i + 1`, so a trailing "V" is skipped | not executed; high | PositionParser.TrailingMarkerReadsPastEnd | PositionParser.PositionToken |
| src/qmpwidget.cpp:287 | `readStderr` reads the standard output channel, so stderr is never consumed or parsed | A `File not found: x` line arriving on stderr while Loading | `readAllStandardError()`, so the report moves the state to Error | not executed; high | Protocol.StderrReportIsLost | Protocol.ReadStderr |
