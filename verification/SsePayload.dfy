/**
 What processEvent of server.js makes of one event: the values of its `data` fields joined by line feeds.
 An independent encoder shows that the decoder gives back exactly what was sent, however it is chunked.
 */
module SsePayload {
  import opened Wrappers
  import Strings
  import opened SseDecoder

  // ---------------------------------------------------------------------------------------
  // From an event to its payload
  // ---------------------------------------------------------------------------------------

  function NextLineBreak(s: string, from: nat): (i: nat)
    requires from <= |s|
    ensures from <= i <= |s|
    ensures i < |s| ==> LineBreakAt(s, i) > 0
    ensures forall j :: from <= j < i ==> LineBreakAt(s, j) == 0
    decreases |s| - from
  {
    if from == |s| || LineBreakAt(s, from) > 0 then from else NextLineBreak(s, from + 1)
  }

  /** Split at every `\r?\n`. */
  function Lines(s: string): seq<string>
    decreases |s|
  {
    var i := NextLineBreak(s, 0);
    if i == |s| then [s] else [s[..i]] + Lines(s[i + LineBreakAt(s, i)..])
  }

  predicate IsData(line: string) {
    "data:" <= line
  }

  /** The value of a data line: at most one space after the colon is removed. */
  function DataValue(line: string): string
    requires IsData(line)
  {
    var value := line[5..];
    if value != "" && value[0] == ' ' then value[1..] else value
  }

  function DataValues(lines: seq<string>): seq<string> {
    if lines == [] then []
    else (if IsData(lines[0]) then [DataValue(lines[0])] else []) + DataValues(lines[1..])
  }

  function JoinLines(values: seq<string>): string
    requires values != []
  {
    if |values| == 1 then values[0] else values[0] + "\n" + JoinLines(values[1..])
  }

  function Payload(event: string): Option<string> {
    var values := DataValues(Lines(event));
    if values == [] then None else Some(JoinLines(values))
  }

  // ---------------------------------------------------------------------------------------
  // An encoder
  // ---------------------------------------------------------------------------------------

  /** A line of an event: a data field, with the optional space or without it, or any other non-empty line. */
  datatype Field = Data(value: string, spaced: bool) | Other(line: string)

  /** No line end, not even together with a line feed after it. */
  predicate Clean(s: string) {
    (forall i :: 0 <= i < |s| ==> s[i] != '\n') && (s != "" ==> s[|s| - 1] != '\r')
  }

  /** A value that starts with a space needs the optional one before it. */
  predicate ValidField(f: Field) {
    match f
    case Data(value, spaced) => Clean(value) && (spaced || value == "" || value[0] != ' ')
    case Other(line) => line != "" && Clean(line) && !IsData(line)
  }

  predicate ValidEvent(fields: seq<Field>) {
    fields != [] && forall f :: f in fields ==> ValidField(f)
  }

  predicate ValidEol(eol: string) {
    eol == "\n" || eol == "\r\n"
  }

  function Text(f: Field): string {
    match f
    case Data(value, spaced) => if spaced then "data: " + value else "data:" + value
    case Other(line) => line
  }

  /** The lines of an event, separated by line ends. */
  function Body(fields: seq<Field>, eol: string): string {
    if fields == [] then ""
    else if |fields| == 1 then Text(fields[0]) else Text(fields[0]) + eol + Body(fields[1..], eol)
  }

  function Encode(events: seq<seq<Field>>, eol: string): string {
    if events == [] then "" else Body(events[0], eol) + eol + eol + Encode(events[1..], eol)
  }

  function Values(fields: seq<Field>): seq<string> {
    if fields == [] then [] else (if fields[0].Data? then [fields[0].value] else []) + Values(fields[1..])
  }

  /** What the receiver of an event should get. */
  function Expected(fields: seq<Field>): Option<string> {
    if Values(fields) == [] then None else Some(JoinLines(Values(fields)))
  }

  // ---------------------------------------------------------------------------------------
  // Round trip
  // ---------------------------------------------------------------------------------------

  lemma TextIsClean(f: Field)
    requires ValidField(f)
    ensures Text(f) != "" && Clean(Text(f))
  {
  }

  /** There is no line break inside a clean line. */
  lemma NoBreakInLine(line: string, eol: string, rest: string, j: nat)
    requires Clean(line) && ValidEol(eol) && j < |line|
    ensures LineBreakAt(line + eol + rest, j) == 0
  {
    var s := line + eol + rest;
    assert s[j] == line[j];
    if j + 1 < |line| {
      assert s[j + 1] == line[j + 1];
    }
  }

  /** A clean line, a line end, and a text that does not start with one: no delimiter there. */
  lemma NoDelimiterInLine(line: string, eol: string, rest: string, j: nat)
    requires Clean(line) && ValidEol(eol) && LineBreakAt(rest, 0) == 0
    requires j < |line| + |eol|
    ensures DelimiterAt(line + eol + rest, j) == 0
  {
    var s := line + eol + rest;
    if j < |line| {
      NoBreakInLine(line, eol, rest, j);
    } else {
      assert s[|line|..] == eol + rest;
      DelimiterInSuffix(s, |line|, j - |line|);
      OneBreakIsNoDelimiter(eol, rest, j - |line|);
    }
  }

  lemma OneBreakIsNoDelimiter(eol: string, rest: string, j: nat)
    requires ValidEol(eol) && LineBreakAt(rest, 0) == 0 && j < |eol|
    ensures DelimiterAt(eol + rest, j) == 0
  {
    var s := eol + rest;
    LineBreakMoves(eol, rest, 0);
    assert forall k :: 0 <= k < |eol| ==> s[k] == eol[k];
    assert LineBreakAt(s, j) == 0 || LineBreakAt(s, j) == |eol| - j;
    hide LineBreakAt;
  }

  /** Whether a line breaks depends on what follows only. */
  lemma LineBreakMoves(before: string, rest: string, i: nat)
    ensures LineBreakAt(before + rest, |before| + i) == LineBreakAt(rest, i)
  {
    assert forall k :: 0 <= k < |rest| ==> (before + rest)[|before| + k] == rest[k];
  }

  /** A text that starts with a clean line does not start with a line break. */
  lemma CleanStart(line: string, rest: string)
    requires Clean(line) && line != "" && line <= rest
    ensures LineBreakAt(rest, 0) == 0
  {
    assert rest[0] == line[0];
    if |line| > 1 {
      assert rest[1] == line[1];
    }
  }

  lemma DelimiterAfterLine(line: string, eol: string, rest: string)
    requires Clean(line) && ValidEol(eol)
    ensures
      var s := line + eol + eol + rest;
      NextDelimiter(s, 0) == |line| && DelimiterAt(s, |line|) == 2 * |eol|
  {
    var s := line + eol + eol + rest;
    assert forall k :: 0 <= k < |eol| ==> s[|line| + k] == eol[k] && s[|line| + |eol| + k] == eol[k];
    assert DelimiterAt(s, |line|) == 2 * |eol|;
    assert s == line + eol + (eol + rest);
    forall j | 0 <= j < |line| ensures DelimiterAt(s, j) == 0 {
      NoBreakInLine(line, eol, eol + rest, j);
    }
  }

  lemma SkipLine(line: string, eol: string, rest: string)
    requires Clean(line) && ValidEol(eol) && LineBreakAt(rest, 0) == 0
    ensures NextDelimiter(line + eol + rest, 0) == |line + eol| + NextDelimiter(rest, 0)
  {
    hide DelimiterAt;
    var s := line + eol + rest;
    var k := |line + eol|;
    assert s[k..] == rest;
    forall j | 0 <= j < k ensures DelimiterAt(s, j) == 0 {
      NoDelimiterInLine(line, eol, rest, j);
    }
    FirstFrom(s, k);
    SuffixDelimiter(s, k);
  }

  lemma FirstFrom(s: string, k: nat)
    requires k <= |s| && forall j :: 0 <= j < k ==> DelimiterAt(s, j) == 0
    ensures NextDelimiter(s, 0) == NextDelimiter(s, k)
  {
    hide DelimiterAt;
  }

  /** The first delimiter of an encoded event is the one that closes it. */
  lemma {:induction false} BodyEndsAtItsDelimiter(fields: seq<Field>, eol: string, rest: string)
    requires ValidEvent(fields) && ValidEol(eol)
    ensures
      var s := Body(fields, eol) + eol + eol + rest;
      NextDelimiter(s, 0) == |Body(fields, eol)| && DelimiterAt(s, |Body(fields, eol)|) == 2 * |eol|
    decreases |fields|
  {
    hide DelimiterAt, LineBreakAt;
    TextIsClean(fields[0]);
    if |fields| == 1 {
      DelimiterAfterLine(Text(fields[0]), eol, rest);
    } else {
      var line := Text(fields[0]);
      var more := Body(fields[1..], eol) + eol + eol + rest;
      TextIsClean(fields[1]);
      BodyEndsAtItsDelimiter(fields[1..], eol, rest);
      BodyStartsWithText(fields[1..], eol);
      CleanStart(Text(fields[1]), more);
      DelimiterAfterFirstLine(line, eol, more);
      assert Body(fields, eol) == line + eol + Body(fields[1..], eol);
      assert Body(fields, eol) + eol + eol + rest == line + eol + more;
    }
  }

  lemma DelimiterAfterFirstLine(line: string, eol: string, more: string)
    requires Clean(line) && ValidEol(eol) && LineBreakAt(more, 0) == 0
    ensures
      var (s, i) := (line + eol + more, NextDelimiter(more, 0));
      NextDelimiter(s, 0) == |line + eol| + i && DelimiterAt(s, |line + eol| + i) == DelimiterAt(more, i)
  {
    hide DelimiterAt, LineBreakAt;
    SkipLine(line, eol, more);
    DelimiterInSuffix(line + eol + more, |line + eol|, NextDelimiter(more, 0));
    assert (line + eol + more)[|line + eol|..] == more;
  }

  lemma BodyStartsWithText(fields: seq<Field>, eol: string)
    requires fields != []
    ensures Text(fields[0]) <= Body(fields, eol)
  {
  }

  lemma {:induction false} EncodedEvents(events: seq<seq<Field>>, eol: string)
    requires (forall e :: e in events ==> ValidEvent(e)) && ValidEol(eol)
    ensures Tail(Encode(events, eol)) == ""
    ensures |Events(Encode(events, eol))| == |events|
    ensures forall k :: 0 <= k < |events| ==> Events(Encode(events, eol))[k] == Body(events[k], eol)
    decreases |events|
  {
    hide DelimiterAt;
    if events != [] {
      var s := Encode(events, eol);
      var rest := Encode(events[1..], eol);
      BodyEndsAtItsDelimiter(events[0], eol, rest);
      EncodedEvents(events[1..], eol);
      assert After(s, |Body(events[0], eol)|) == rest;
      assert s[..|Body(events[0], eol)|] == Body(events[0], eol);
    }
  }

  lemma NextLineBreakAfter(line: string, eol: string, rest: string)
    requires Clean(line) && ValidEol(eol)
    ensures
      var s := line + eol + rest;
      && NextLineBreak(s, 0) == |line| && LineBreakAt(s, |line|) == |eol|
      && s[|line| + |eol|..] == rest && s[..|line|] == line
  {
    var s := line + eol + rest;
    assert forall k :: 0 <= k < |eol| ==> s[|line| + k] == eol[k];
    forall j | 0 <= j < |line| ensures LineBreakAt(s, j) == 0 {
      NoBreakInLine(line, eol, rest, j);
    }
    assert LineBreakAt(s, |line|) == |eol|;
    assert s == (line + eol) + rest;
  }

  lemma OneCleanLine(line: string)
    requires Clean(line)
    ensures Lines(line) == [line]
  {
  }

  lemma ValueOfText(f: Field)
    requires ValidField(f)
    ensures IsData(Text(f)) <==> f.Data?
    ensures f.Data? ==> DataValue(Text(f)) == f.value
  {
  }

  lemma {:induction false} ValuesOfBody(fields: seq<Field>, eol: string)
    requires ValidEvent(fields) && ValidEol(eol)
    ensures DataValues(Lines(Body(fields, eol))) == Values(fields)
    decreases |fields|
  {
    hide IsData, DataValue;
    var line := Text(fields[0]);
    TextIsClean(fields[0]);
    ValueOfText(fields[0]);
    if |fields| == 1 {
      OneCleanLine(line);
      assert DataValues([line]) == (if IsData(line) then [DataValue(line)] else []) + DataValues([line][1..]);
      assert Values(fields[1..]) == [];
    } else {
      var rest := Body(fields[1..], eol);
      NextLineBreakAfter(line, eol, rest);
      ValuesOfBody(fields[1..], eol);
      assert Lines(line + eol + rest) == [line] + Lines(rest);
      assert ([line] + Lines(rest))[1..] == Lines(rest);
    }
  }

  /** The payload keeps its data values apart: each line feed in it separates two of them. */
  lemma {:induction false} ValuesAreSeparated(values: seq<string>)
    requires values != [] && forall v :: v in values ==> '\n' !in v
    ensures Strings.Split(JoinLines(values), '\n') == values
    decreases |values|
  {
    JoinLinesJoins(values);
    Strings.SplitOfJoin(values, '\n');
  }

  lemma {:induction false} JoinLinesJoins(values: seq<string>)
    requires values != []
    ensures JoinLines(values) == Strings.Join(values, "\n")
    decreases |values|
  {
    if |values| > 1 {
      JoinLinesJoins(values[1..]);
    }
  }

  /** Whatever is encoded is decoded, under every chunking that is accepted: each event gives exactly the
      data it was made of, with its line feeds, and none if it had no data. */
  lemma RoundTrip(events: seq<seq<Field>>, eol: string, chunks: seq<string>)
    requires (forall e :: e in events ==> ValidEvent(e)) && ValidEol(eol)
    requires Concat(chunks) == Encode(events, eol) && FitsSoFar(chunks)
    ensures
      var (d, decoded) := Decode(chunks);
      && !d.failed && d.buffer == ""
      && |decoded| == |events|
      && forall k :: 0 <= k < |events| ==> Payload(decoded[k]) == Expected(events[k])
  {
    hide Encode, Events, Tail, Fits, FitsSoFar, Decode, Lines, DataValues, Body, ValidEvent;
    DecodingIsOneScan(chunks);
    EncodedEvents(events, eol);
    SoFarFits(chunks);
    var decoded := Decode(chunks).1;
    forall k | 0 <= k < |events| ensures Payload(decoded[k]) == Expected(events[k]) {
      ValuesOfBody(events[k], eol);
    }
  }
}
