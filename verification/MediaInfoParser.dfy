/**
 Reading MPlayer's identification lines ("ID_KEY=value") into MediaInfo
 (QMPProcess::parseMediaInfo). The line is split at every '='; the first
 piece is the key, the second the value, and anything after a second '='
 is ignored.
 */
module MediaInfoParser {
  import opened Text
  import opened Types

  /** The MediaInfo entries an identification line can set. */
  datatype Field =
    | VideoFormat | VideoBitrate | VideoWidth | VideoHeight | VideoFps
    | AudioFormat | AudioBitrate | AudioRate | AudioChannels
    | Length | Seekable

  /** A field's content, lifted to one type so fields can be compared uniformly. */
  datatype FieldValue = Str(s: string) | Int(i: int) | Real(x: real) | Flag(b: bool) | Unset

  /** The identification keys and the field each one sets. */
  const Keys: map<string, Field> := map[
    "ID_VIDEO_FORMAT" := VideoFormat,
    "ID_VIDEO_BITRATE" := VideoBitrate,
    "ID_VIDEO_WIDTH" := VideoWidth,
    "ID_VIDEO_HEIGHT" := VideoHeight,
    "ID_VIDEO_FPS" := VideoFps,
    "ID_AUDIO_FORMAT" := AudioFormat,
    "ID_AUDIO_BITRATE" := AudioBitrate,
    "ID_AUDIO_RATE" := AudioRate,
    "ID_AUDIO_NCH" := AudioChannels,
    "ID_LENGTH" := Length,
    "ID_SEEKABLE" := Seekable]

  /** The key that sets field `f`: the inverse of the key table. */
  function KeyFor(f: Field): (k: string)
    ensures k in Keys && Keys[k] == f
  {
    match f
    case VideoFormat => "ID_VIDEO_FORMAT"
    case VideoBitrate => "ID_VIDEO_BITRATE"
    case VideoWidth => "ID_VIDEO_WIDTH"
    case VideoHeight => "ID_VIDEO_HEIGHT"
    case VideoFps => "ID_VIDEO_FPS"
    case AudioFormat => "ID_AUDIO_FORMAT"
    case AudioBitrate => "ID_AUDIO_BITRATE"
    case AudioRate => "ID_AUDIO_RATE"
    case AudioChannels => "ID_AUDIO_NCH"
    case Length => "ID_LENGTH"
    case Seekable => "ID_SEEKABLE"
  }

  /** Every key in the table is the key of its field, so no two keys set the same field. */
  lemma KeysInjective(k: string)
    requires k in Keys
    ensures KeyFor(Keys[k]) == k
  {
  }

  /** The content of field `f` of `info`. */
  function Get(info: MediaInfo, f: Field): FieldValue {
    match f
    case VideoFormat => Str(info.videoFormat)
    case VideoBitrate => Int(info.videoBitrate)
    case VideoWidth => Int(info.size.width)
    case VideoHeight => Int(info.size.height)
    case VideoFps => Real(info.framesPerSecond)
    case AudioFormat => Str(info.audioFormat)
    case AudioBitrate => (match info.audioBitrate case Some(b) => Int(b) case None => Unset)
    case AudioRate => Int(info.sampleRate)
    case AudioChannels => Int(info.numChannels)
    case Length => Real(info.length)
    case Seekable => Flag(info.seekable)
  }

  /** The content a raw value gives field `f`: text kept, numbers converted, 0/non-0 as a flag. */
  function Decode(f: Field, raw: string, num: Numbers): FieldValue {
    match f
    case VideoFormat => Str(raw)
    case AudioFormat => Str(raw)
    case VideoFps => Real(num.toDouble(raw))
    case Length => Real(num.toDouble(raw))
    case Seekable => Flag(num.toInt(raw) != 0)
    case _ => Int(num.toInt(raw))
  }

  /** Two records that agree on every field, on the tags and on `ok` are the same record. */
  lemma Extensionality(a: MediaInfo, b: MediaInfo)
    requires forall f :: Get(a, f) == Get(b, f)
    requires a.tags == b.tags && a.ok == b.ok
    ensures a == b
  {
    assert Get(a, VideoFormat) == Get(b, VideoFormat);
    assert Get(a, VideoBitrate) == Get(b, VideoBitrate);
    assert Get(a, VideoWidth) == Get(b, VideoWidth);
    assert Get(a, VideoHeight) == Get(b, VideoHeight);
    assert Get(a, VideoFps) == Get(b, VideoFps);
    assert Get(a, AudioFormat) == Get(b, AudioFormat);
    assert Get(a, AudioBitrate) == Get(b, AudioBitrate);
    assert Get(a, AudioRate) == Get(b, AudioRate);
    assert Get(a, AudioChannels) == Get(b, AudioChannels);
    assert Get(a, Length) == Get(b, Length);
    assert Get(a, Seekable) == Get(b, Seekable);
    assert a.size == b.size;
    assert a.audioBitrate == b.audioBitrate;
  }

  /** The pieces of an identification line. */
  function Pieces(line: string): (ps: seq<string>)
    ensures |ps| >= 1
    ensures |ps| >= 2 <==> Count(line, {'='}) >= 1
  {
    Split(line, {'='})
  }

  /** The identification key: the text before the first '='. */
  function KeyOf(line: string): string {
    Pieces(line)[0]
  }

  /**
   Applies one identification line to `info`. A line without '=' changes
   nothing; a known key sets exactly its own field to the value between
   the first and second '='; an unknown key changes nothing. Neither the
   tags nor `ok` are ever written.
   */
  function ParseMediaInfo(info: MediaInfo, line: string, num: Numbers): (r: MediaInfo)
    ensures Count(line, {'='}) == 0 ==> r == info
    ensures KeyOf(line) !in Keys ==> r == info
    ensures r.tags == info.tags && r.ok == info.ok
    ensures Count(line, {'='}) >= 1 && KeyOf(line) in Keys ==>
      && Get(r, Keys[KeyOf(line)]) == Decode(Keys[KeyOf(line)], Pieces(line)[1], num)
      && forall g :: g != Keys[KeyOf(line)] ==> Get(r, g) == Get(info, g)
  {
    var ps := Pieces(line);
    if |ps| < 2 then info
    else
      var key, value := ps[0], ps[1];
      if key == "ID_VIDEO_FORMAT" then info.(videoFormat := value)
      else if key == "ID_VIDEO_BITRATE" then info.(videoBitrate := num.toInt(value))
      else if key == "ID_VIDEO_WIDTH" then info.(size := info.size.(width := num.toInt(value)))
      else if key == "ID_VIDEO_HEIGHT" then info.(size := info.size.(height := num.toInt(value)))
      else if key == "ID_VIDEO_FPS" then info.(framesPerSecond := num.toDouble(value))
      else if key == "ID_AUDIO_FORMAT" then info.(audioFormat := value)
      else if key == "ID_AUDIO_BITRATE" then info.(audioBitrate := Some(num.toInt(value)))
      else if key == "ID_AUDIO_RATE" then info.(sampleRate := num.toInt(value))
      else if key == "ID_AUDIO_NCH" then info.(numChannels := num.toInt(value))
      else if key == "ID_LENGTH" then info.(length := num.toDouble(value))
      else if key == "ID_SEEKABLE" then info.(seekable := num.toInt(value) != 0)
      else info
  }

  /**
   In "k=v" or "k=v=..." with `k` and `v` free of '=', the key is `k` and
   the value is `v`: text after a second '=' never reaches the record.
   */
  lemma ValueBetweenFirstAndSecond(k: string, v: string, rest: string)
    requires Free(k, {'='}) && Free(v, {'='})
    requires rest == "" || rest[0] == '='
    ensures KeyOf(k + "=" + v + rest) == k
    ensures Count(k + "=" + v + rest, {'='}) >= 1
    ensures Pieces(k + "=" + v + rest)[1] == v
  {
    var line := k + "=" + v + rest;
    assert line == k + ['='] + (v + rest);
    SplitAfterHead(k, '=', v + rest, {'='});
    if rest == "" {
      assert v + rest == v;
      SplitFree(v, {'='});
    } else {
      assert v + rest == v + ['='] + rest[1..];
      SplitAfterHead(v, '=', rest[1..], {'='});
    }
  }

  /** Applying the same identification line twice is applying it once. */
  lemma Idempotent(info: MediaInfo, line: string, num: Numbers)
    ensures ParseMediaInfo(ParseMediaInfo(info, line, num), line, num) == ParseMediaInfo(info, line, num)
  {
    var once := ParseMediaInfo(info, line, num);
    var twice := ParseMediaInfo(once, line, num);
    if Sets(line) {
      forall g ensures Get(twice, g) == Get(once, g) {
        if g != Keys[KeyOf(line)] {
          assert Get(twice, g) == Get(once, g) == Get(info, g);
        }
      }
      Extensionality(twice, once);
    }
  }

  /** True iff `line` names a known key and carries a value, so that it sets a field. */
  predicate Sets(line: string) {
    Count(line, {'='}) >= 1 && KeyOf(line) in Keys
  }

  /** Lines with different keys set different fields, so their order does not matter. */
  lemma Commute(info: MediaInfo, l1: string, l2: string, num: Numbers)
    requires KeyOf(l1) != KeyOf(l2)
    ensures ParseMediaInfo(ParseMediaInfo(info, l1, num), l2, num)
         == ParseMediaInfo(ParseMediaInfo(info, l2, num), l1, num)
  {
    var m1 := ParseMediaInfo(info, l1, num);
    var m2 := ParseMediaInfo(info, l2, num);
    var a := ParseMediaInfo(m1, l2, num);
    var b := ParseMediaInfo(m2, l1, num);
    if !Sets(l1) {
      assert m1 == info && b == m2;
    } else if !Sets(l2) {
      assert m2 == info && a == m1;
    } else {
      var f1, f2 := Keys[KeyOf(l1)], Keys[KeyOf(l2)];
      KeysInjective(KeyOf(l1));
      KeysInjective(KeyOf(l2));
      assert f1 != f2;
      forall g ensures Get(a, g) == Get(b, g) {
        if g == f1 {
          assert Get(a, g) == Get(m1, g);
        } else if g == f2 {
          assert Get(b, g) == Get(m2, g);
        } else {
          assert Get(a, g) == Get(m1, g) == Get(info, g);
          assert Get(b, g) == Get(m2, g) == Get(info, g);
        }
      }
      Extensionality(a, b);
    }
  }

  /** A width line and a height line together give the size, in either order. */
  lemma SizeFromLines(info: MediaInfo, w: string, h: string, num: Numbers)
    requires Sets(w) && Keys[KeyOf(w)] == VideoWidth
    requires Sets(h) && Keys[KeyOf(h)] == VideoHeight
    ensures ParseMediaInfo(ParseMediaInfo(info, w, num), h, num).size
         == Size(num.toInt(Pieces(w)[1]), num.toInt(Pieces(h)[1]))
    ensures ParseMediaInfo(ParseMediaInfo(info, h, num), w, num).size
         == Size(num.toInt(Pieces(w)[1]), num.toInt(Pieces(h)[1]))
  {
    var mw := ParseMediaInfo(info, w, num);
    var a := ParseMediaInfo(mw, h, num);
    assert Get(a, VideoWidth) == Get(mw, VideoWidth);
    var mh := ParseMediaInfo(info, h, num);
    var b := ParseMediaInfo(mh, w, num);
    assert Get(b, VideoHeight) == Get(mh, VideoHeight);
  }

  /**
   "ID_VIDEO_WIDTH=1920" and "ID_VIDEO_HEIGHT=1080" give the size
   (1920, 1080), in either order. The two lines are parameters pinned by
   the requires: stated on the literals, the solver unfolds their split
   character by character and does not finish.
   */
  lemma WidthAndHeight(info: MediaInfo, w: string, h: string, num: Numbers)
    requires w == "ID_VIDEO_WIDTH=1920" && h == "ID_VIDEO_HEIGHT=1080"
    ensures ParseMediaInfo(ParseMediaInfo(info, w, num), h, num).size == Size(num.toInt("1920"), num.toInt("1080"))
    ensures ParseMediaInfo(ParseMediaInfo(info, h, num), w, num).size == Size(num.toInt("1920"), num.toInt("1080"))
  {
    KeyValue("ID_VIDEO_WIDTH", "1920");
    KeyValue("ID_VIDEO_HEIGHT", "1080");
    assert "ID_VIDEO_WIDTH" + "=" + "1920" == w;
    assert "ID_VIDEO_HEIGHT" + "=" + "1080" == h;
    SizeFromLines(info, w, h, num);
  }

  /** The key and value of a plain "k=v" line. */
  lemma KeyValue(k: string, v: string)
    requires Free(k, {'='}) && Free(v, {'='})
    ensures KeyOf(k + "=" + v) == k
    ensures Count(k + "=" + v, {'='}) >= 1
    ensures Pieces(k + "=" + v)[1] == v
  {
    ValueBetweenFirstAndSecond(k, v, "");
    assert k + "=" + v + "" == k + "=" + v;
  }
}
