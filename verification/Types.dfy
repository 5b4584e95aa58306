/**
 The enums and the media-information record of the widget's public
 interface: the playback State, the output Mode, the SeekMode codes and
 MediaInfo with the defaults its constructor gives.
 */
module Types {

  datatype Option<T> = None | Some(value: T)

  /** MPlayer process state, as the widget reports it. */
  datatype State = NotStarted | Loading | Stopped | Playing | Buffering | Paused | Error

  /** The enum value of a state, carried by the stateChanged(int) signal. */
  function Ordinal(s: State): (n: int)
    ensures -1 <= n <= 5
  {
    match s
    case NotStarted => -1
    case Loading => 0
    case Stopped => 1
    case Playing => 2
    case Buffering => 3
    case Paused => 4
    case Error => 5
  }

  /** The state with enum value `n`, if there is one. */
  function StateOf(n: int): (r: Option<State>)
    ensures r.Some? <==> -1 <= n <= 5
    ensures r.Some? ==> Ordinal(r.value) == n
  {
    if n == -1 then Some(NotStarted)
    else if n == 0 then Some(Loading)
    else if n == 1 then Some(Stopped)
    else if n == 2 then Some(Playing)
    else if n == 3 then Some(Buffering)
    else if n == 4 then Some(Paused)
    else if n == 5 then Some(Error)
    else None
  }

  /** The enum values identify the states: reading a state's value back gives the state. */
  lemma StateOrdinalRoundTrip(s: State)
    ensures StateOf(Ordinal(s)) == Some(s)
  {
  }

  /** Where the video goes: a native child window, or a yuv4mpeg pipe. */
  datatype Mode = Embedded | Pipe

  function ModeCode(m: Mode): (n: int)
    ensures n == 0 <==> m == Embedded
    ensures n == 1 <==> m == Pipe
  {
    match m
    case Embedded => 0
    case Pipe => 1
  }

  /** How a seek offset is read; the enum values are MPlayer's own mode numbers. */
  datatype SeekMode = Relative | Percentage | Absolute

  function SeekCode(m: SeekMode): (n: int)
    ensures 0 <= n <= 2
  {
    match m
    case Relative => 0
    case Percentage => 1
    case Absolute => 2
  }

  /** The seek mode an integer `whence` stands for, if any. */
  function SeekModeOf(whence: int): (r: Option<SeekMode>)
    ensures r.Some? <==> 0 <= whence <= 2
    ensures r.Some? ==> SeekCode(r.value) == whence
  {
    if whence == 0 then Some(Relative)
    else if whence == 1 then Some(Percentage)
    else if whence == 2 then Some(Absolute)
    else None
  }

  lemma SeekCodeRoundTrip(m: SeekMode)
    ensures SeekModeOf(SeekCode(m)) == Some(m)
  {
  }

  /** The mode both seek overloads use when the caller gives none. */
  const DefaultWhence: int := SeekCode(Absolute)

  /** A QSize; the default-constructed one is the invalid size (-1, -1). */
  datatype Size = Size(width: int, height: int)

  const InvalidSize: Size := Size(-1, -1)

  /**
   What is known about the media being played. `audioBitrate` is None
   while it holds the indeterminate value the constructor leaves it with.
   */
  datatype MediaInfo = MediaInfo(
    videoFormat: string,
    videoBitrate: int,
    size: Size,
    framesPerSecond: real,
    audioFormat: string,
    audioBitrate: Option<int>,
    sampleRate: int,
    numChannels: int,
    tags: map<string, string>,
    ok: bool,
    length: real,
    seekable: bool)

  /** A freshly constructed MediaInfo. */
  const DefaultInfo: MediaInfo := MediaInfo(
    videoFormat := "",
    videoBitrate := 0,
    size := InvalidSize,
    framesPerSecond := 0.0,
    audioFormat := "",
    audioBitrate := None,
    sampleRate := 0,
    numChannels := 0,
    tags := map[],
    ok := false,
    length := 0.0,
    seekable := false)

  /**
   The string-to-number conversions QString::toInt and QString::toDouble,
   left uninterpreted: the model never depends on what they return.
   */
  datatype Numbers = Numbers(toInt: string -> int, toDouble: string -> real)
}
