/**
 Reading the playback position from MPlayer's status lines
 ("A:  12.3 V:  45.6 ..."), as QMPProcess::parsePosition does: the line
 is cut into tokens at spaces and colons, empty tokens dropped, and the
 token after the first "V" is the new position.

 The loop guarding that read tests `count > i`, which always holds inside
 the loop, so a line whose first "V" is its last token reads one element
 past the end of the token list. ScanAsWritten models that loop with the
 out-of-bounds read as the explicit outcome PastEnd; Scan is the loop
 with the guard `count > i + 1` it evidently meant, and is what the rest
 of the model uses.
 */
module PositionParser {
  import opened Text
  import opened Types

  const Separators: set<char> := {' ', ':'}

  /** The tokens of a status line. */
  function Tokens(line: string): (ts: seq<string>)
    ensures forall i :: 0 <= i < |ts| ==> ts[i] != "" && Free(ts[i], Separators)
  {
    DropEmpty(Split(line, Separators))
  }

  /** The tokens, end to end, are exactly the line's non-separator characters, in order. */
  lemma TokensKeepText(line: string)
    ensures Concat(Tokens(line)) == Strip(line, Separators)
  {
    ConcatSplit(line, Separators);
  }

  /** Text up to a separator contributes itself (if not empty) as the next token. */
  lemma TokensAfterHead(k: string, c: char, rest: string)
    requires Free(k, Separators) && c in Separators
    ensures Tokens(k + [c] + rest) == (if k == "" then [] else [k]) + Tokens(rest)
  {
    SplitAfterHead(k, c, rest, Separators);
    var ps := Split(rest, Separators);
    assert ([k] + ps)[1..] == ps;
  }

  /** Separator-free, non-empty text is a single token. */
  lemma TokensSingle(k: string)
    requires k != "" && Free(k, Separators)
    ensures Tokens(k) == [k]
  {
    SplitFree(k, Separators);
    assert [k][1..] == [];
  }

  /** The index of the first "V" token at or after `from`, if there is one. */
  function FindV(ts: seq<string>, from: nat): (r: Option<nat>)
    requires from <= |ts|
    ensures r.Some? ==> from <= r.value < |ts| && ts[r.value] == "V"
    ensures r.Some? ==> forall j :: from <= j < r.value ==> ts[j] != "V"
    ensures r.None? ==> forall j :: from <= j < |ts| ==> ts[j] != "V"
    decreases |ts| - from
  {
    if from == |ts| then None
    else if ts[from] == "V" then Some(from)
    else FindV(ts, from + 1)
  }

  /** What the position loop reads: no "V" at all, the token after it, or past the list's end. */
  datatype Reading = NoMarker | Token(text: string) | PastEnd

  /** The position loop as written, from index `i` on, with its always-true guard `|ts| > i`. */
  function ScanAsWritten(ts: seq<string>, i: nat): (r: Reading)
    requires i <= |ts|
    ensures r == NoMarker ==> forall j :: i <= j < |ts| ==> ts[j] != "V"
    ensures r == PastEnd ==> i < |ts| && ts[|ts| - 1] == "V"
    ensures r.Token? ==> exists k :: i <= k < |ts| - 1 && ts[k] == "V" && ts[k + 1] == r.text
    decreases |ts| - i
  {
    if i == |ts| then NoMarker
    else if ts[i] == "V" && |ts| > i then
      (if i + 1 < |ts| then Token(ts[i + 1]) else PastEnd)
    else ScanAsWritten(ts, i + 1)
  }

  /**
   As written, the loop stops at the first "V" whatever follows it, and
   reads past the end exactly when that "V" is the last token.
   */
  lemma {:induction false} ScanAsWrittenReadsAfterFirstV(ts: seq<string>, i: nat)
    requires i <= |ts|
    ensures FindV(ts, i).None? ==> ScanAsWritten(ts, i) == NoMarker
    ensures FindV(ts, i).Some? && FindV(ts, i).value + 1 < |ts| ==>
      ScanAsWritten(ts, i) == Token(ts[FindV(ts, i).value + 1])
    ensures FindV(ts, i).Some? && FindV(ts, i).value + 1 == |ts| ==> ScanAsWritten(ts, i) == PastEnd
    decreases |ts| - i
  {
    if i < |ts| && ts[i] != "V" {
      ScanAsWrittenReadsAfterFirstV(ts, i + 1);
    }
  }

  /** The status line "V:" makes the loop as written read past the end of its tokens. */
  lemma TrailingMarkerReadsPastEnd()
    ensures Tokens("V:") == ["V"]
    ensures ScanAsWritten(Tokens("V:"), 0) == PastEnd
  {
    assert "V" + [':'] + "" == "V:";
    TokensAfterHead("V", ':', "");
    assert Split("", Separators) == [""];
    assert Tokens("") == [];
  }

  /**
   What the model does with the status line "V:" instead: the corrected
   loop finds no position token, so the position stays and nothing is
   reported.
   */
  lemma TrailingMarkerKeepsPosition(prior: real, num: Numbers)
    ensures ParsePosition(prior, "V:", num) == Update(prior, false)
  {
    TrailingMarkerReadsPastEnd();
    CorrectedAgreesInBounds(Tokens("V:"));
  }

  /** The position loop with the guard `|ts| > i + 1`: a "V" with nothing after it is skipped. */
  function Scan(ts: seq<string>, i: nat): (r: Option<string>)
    requires i <= |ts|
    ensures FindV(ts, i).Some? && FindV(ts, i).value + 1 < |ts| ==> r == Some(ts[FindV(ts, i).value + 1])
    ensures FindV(ts, i).None? || FindV(ts, i).value + 1 == |ts| ==> r == None
    decreases |ts| - i
  {
    if i == |ts| then None
    else if ts[i] == "V" && |ts| > i + 1 then Some(ts[i + 1])
    else Scan(ts, i + 1)
  }

  /**
   The token naming the new position, if the line has one: the token
   after the first "V", provided some "V" is followed by a token at all.
   */
  function PositionToken(ts: seq<string>): (r: Option<string>)
    ensures r.Some? <==> exists k :: 0 <= k < |ts| - 1 && ts[k] == "V"
    ensures r.Some? ==> FindV(ts, 0).Some? && r.value == ts[FindV(ts, 0).value + 1]
  {
    Scan(ts, 0)
  }

  /** The corrected loop agrees with the loop as written whenever the latter stays in bounds. */
  lemma CorrectedAgreesInBounds(ts: seq<string>)
    ensures ScanAsWritten(ts, 0) == NoMarker ==> PositionToken(ts) == None
    ensures ScanAsWritten(ts, 0).Token? ==> PositionToken(ts) == Some(ScanAsWritten(ts, 0).text)
    ensures ScanAsWritten(ts, 0) == PastEnd ==> PositionToken(ts) == None
  {
    ScanAsWrittenReadsAfterFirstV(ts, 0);
  }

  /** The outcome of a status line: the stored position afterwards, and whether it changed. */
  datatype Update = Update(position: real, changed: bool)

  /**
   The effect of a status line on the stored position `prior`. Without a
   position token nothing changes; otherwise the position becomes the
   token's value. `changed` (streamPositionChanged is emitted) holds iff
   the new value differs from the old one.
   */
  function ParsePosition(prior: real, line: string, num: Numbers): (u: Update)
    ensures u.changed <==> u.position != prior
    ensures PositionToken(Tokens(line)).None? ==> u == Update(prior, false)
    ensures PositionToken(Tokens(line)).Some? ==>
      u.position == num.toDouble(PositionToken(Tokens(line)).value)
  {
    var token := PositionToken(Tokens(line));
    var pos := if token.Some? then num.toDouble(token.value) else prior;
    Update(pos, prior != pos)
  }

  /** Feeding the same status line twice reports a change at most the first time. */
  lemma SecondReportIsQuiet(prior: real, line: string, num: Numbers)
    ensures !ParsePosition(ParsePosition(prior, line, num).position, line, num).changed
  {
  }

  /** A status line "A: <a> V: <v>" has the tokens A, a, V, v, so its position token is v. */
  lemma StatusLineTokens(a: string, v: string)
    requires a != "" && Free(a, Separators) && a != "V"
    requires v != "" && Free(v, Separators)
    ensures Tokens("A: " + a + " V: " + v) == ["A", a, "V", v]
    ensures PositionToken(Tokens("A: " + a + " V: " + v)) == Some(v)
  {
    var tail := "V:" + (" " + v);
    assert "A: " + a + " V: " + v == "A" + ":" + (" " + (a + " " + tail));
    TailTokens(v);
    HeadTokens("A", a, tail);
    MarkerAtTwo("A", a, v);
  }

  /** The tail "V: <v>" of a status line has the tokens V and v. */
  lemma TailTokens(v: string)
    requires v != "" && Free(v, Separators)
    ensures Tokens("V:" + (" " + v)) == ["V", v]
  {
    TokensSingle(v);
    TokensAfterHead("", ' ', v);
    assert "" + [' '] + v == " " + v;
    TokensAfterHead("V", ':', " " + v);
    assert "V" + [':'] + (" " + v) == "V:" + (" " + v);
  }

  /** The head "<x>: <a> " of a status line contributes the tokens x and a. */
  lemma HeadTokens(x: string, a: string, rest: string)
    requires x != "" && Free(x, Separators)
    requires a != "" && Free(a, Separators)
    ensures Tokens(x + ":" + (" " + (a + " " + rest))) == [x, a] + Tokens(rest)
  {
    var s2 := a + " " + rest;
    var s1 := " " + s2;
    assert s2 == a + [' '] + rest;
    TokensAfterHead(a, ' ', rest);
    assert s1 == "" + [' '] + s2;
    TokensAfterHead("", ' ', s2);
    assert x + ":" + s1 == x + [':'] + s1;
    TokensAfterHead(x, ':', s1);
  }

  /** With no "V" before it, a "V" at index 2 is the marker, and the token after it the position. */
  lemma MarkerAtTwo(x: string, a: string, v: string)
    requires x != "V" && a != "V"
    ensures PositionToken([x, a, "V", v]) == Some(v)
  {
    var ts := [x, a, "V", v];
    assert FindV(ts, 3) == None || FindV(ts, 3) == Some(3);
    assert FindV(ts, 2) == Some(2);
    assert FindV(ts, 0) == Some(2);
  }

  /** The line "A: 12.3 V: 45.6" sets the position from the token "45.6". */
  lemma StatusLineExample()
    ensures PositionToken(Tokens("A: " + "12.3" + " V: " + "45.6")) == Some("45.6")
  {
    StatusLineTokens("12.3", "45.6");
  }
}
