/**
 The incremental SSE decoder of server.js. Chunks are appended to a buffer; every chunk is followed by a
 scan for event delimiters that starts three characters before the end of what was already scanned.

 A stream is decoded as sections 9.2.5 and 9.2.6 of the WHATWG HTML Living Standard describe, for LF and
 CRLF line ends and `data` fields only.
 */
module SseDecoder {
  const MAX_EVENT_CHARACTERS: nat := 1024 * 1024

  // ---------------------------------------------------------------------------------------
  // Delimiters
  // ---------------------------------------------------------------------------------------

  /** The length of the line break `\r?\n` at position i, or 0. */
  function LineBreakAt(s: string, i: nat): (n: nat)
    ensures n <= 2 && (n > 0 ==> i + n <= |s|)
  {
    if i < |s| && s[i] == '\n' then 1
    else if i + 1 < |s| && s[i] == '\r' && s[i + 1] == '\n' then 2
    else 0
  }

  /** The length of the event delimiter `\r?\n\r?\n` at position i, or 0. */
  function DelimiterAt(s: string, i: nat): (n: nat)
    ensures n == 0 || (2 <= n <= 4 && i + n <= |s|)
  {
    var first := LineBreakAt(s, i);
    if first == 0 then 0
    else
      var second := LineBreakAt(s, i + first);
      if second == 0 then 0 else first + second
  }

  /** Where the first delimiter at or after `from` starts, or the length of the text. */
  function NextDelimiter(s: string, from: nat): (i: nat)
    requires from <= |s|
    ensures from <= i <= |s|
    ensures i < |s| ==> DelimiterAt(s, i) > 0
    ensures forall j :: from <= j < i ==> DelimiterAt(s, j) == 0
    decreases |s| - from
  {
    if from == |s| || DelimiterAt(s, from) > 0 then from else NextDelimiter(s, from + 1)
  }

  /** The text after the delimiter at i. */
  function After(s: string, i: nat): string
    requires DelimiterAt(s, i) > 0
  {
    s[i + DelimiterAt(s, i)..]
  }

  // ---------------------------------------------------------------------------------------
  // The reference: one scan of a whole text
  // ---------------------------------------------------------------------------------------

  function Events(s: string): seq<string>
    decreases |s|
  {
    var i := NextDelimiter(s, 0);
    if i == |s| then [] else [s[..i]] + Events(After(s, i))
  }

  function Tail(s: string): string
    decreases |s|
  {
    var i := NextDelimiter(s, 0);
    if i == |s| then s else Tail(After(s, i))
  }

  // ---------------------------------------------------------------------------------------
  // The decoder
  // ---------------------------------------------------------------------------------------

  /** `failed` once the fatal error of an oversize event was queued. */
  datatype Decoder = Decoder(buffer: string, scanOffset: nat, failed: bool)

  /** `looked` is the number of buffer positions that were tried. */
  datatype Flushed = Flushed(events: seq<string>, rest: string, ok: bool, looked: nat)

  function Init(): Decoder {
    Decoder("", 0, false)
  }

  function RescanFrom(length: nat): nat {
    if length <= 3 then 0 else length - 3
  }

  /** The positions a search from `from` tries until it finds the delimiter at i, or none. */
  function Tried(s: string, from: nat, i: nat): nat
    requires from <= i <= |s|
  {
    if i == |s| then i - from else i - from + 1
  }

  /** flushEvents from a scan position, with the current event starting at `start`. */
  function FlushFrom(s: string, start: nat, from: nat): Flushed
    requires start <= from <= |s|
    decreases |s| - from
  {
    var i := NextDelimiter(s, from);
    if i == |s| then
      if |s| - start > MAX_EVENT_CHARACTERS then Flushed([], "", false, Tried(s, from, i))
      else Flushed([], s[start..], true, Tried(s, from, i))
    else if i - start > MAX_EVENT_CHARACTERS then Flushed([], "", false, Tried(s, from, i))
    else
      var next := i + DelimiterAt(s, i);
      var more := FlushFrom(s, next, next);
      more.(events := [s[start..i]] + more.events, looked := Tried(s, from, i) + more.looked)
  }

  predicate WellFormed(d: Decoder) {
    d.scanOffset <= |d.buffer|
  }

  /** The decoder after a flush, and the events it passed on. */
  function Keep(f: Flushed): (Decoder, seq<string>) {
    (if f.ok then Decoder(f.rest, RescanFrom(|f.rest|), false) else Decoder("", 0, true), f.events)
  }

  /** The `data` handler. */
  function Push(d: Decoder, chunk: string): (Decoder, seq<string>)
    requires WellFormed(d)
  {
    if d.failed then (d, []) else Keep(FlushFrom(d.buffer + chunk, 0, d.scanOffset))
  }

  /** The `end` handler: what remains is closed by an empty line. */
  function Finish(d: Decoder): (Decoder, seq<string>)
    requires WellFormed(d)
  {
    if d.buffer == "" then (d, []) else Push(d, "\n\n")
  }

  // ---------------------------------------------------------------------------------------
  // Whole streams
  // ---------------------------------------------------------------------------------------

  function Concat(chunks: seq<string>): string {
    if chunks == [] then "" else Concat(chunks[..|chunks| - 1]) + chunks[|chunks| - 1]
  }

  function PushAll(chunks: seq<string>): (r: (Decoder, seq<string>))
    ensures WellFormed(r.0)
  {
    if chunks == [] then (Init(), [])
    else
      var (d, events) := PushAll(chunks[..|chunks| - 1]);
      var (e, more) := Push(d, chunks[|chunks| - 1]);
      (e, events + more)
  }

  /** A whole response body, received in these chunks. */
  function Decode(chunks: seq<string>): (Decoder, seq<string>) {
    var (d, events) := PushAll(chunks);
    var (e, more) := Finish(d);
    (e, events + more)
  }

  /** The number of buffer positions the scans of these chunks try. */
  function Scanned(chunks: seq<string>): nat {
    if chunks == [] then 0
    else
      var d := PushAll(chunks[..|chunks| - 1]).0;
      Scanned(chunks[..|chunks| - 1])
      + (if d.failed then 0 else FlushFrom(d.buffer + chunks[|chunks| - 1], 0, d.scanOffset).looked)
  }

  /** A delimiter is two line ends in a row, of one kind or of both. */
  lemma DelimitersAreTwoLineEnds(before: string, after: string, first: string, second: string)
    requires first in ["\n", "\r\n"] && second in ["\n", "\r\n"]
    ensures DelimiterAt(before + first + second + after, |before|) == |first| + |second|
  {
    var s := before + first + second + after;
    assert s[|before|..] == first + second + after;
    assert forall k :: 0 <= k < |first| ==> s[|before| + k] == first[k];
    assert forall k :: 0 <= k < |second| ==> s[|before| + |first| + k] == second[k];
  }

  lemma NothingElseDelimits(s: string, i: nat)
    requires DelimiterAt(s, i) > 0
    ensures s[i..i + DelimiterAt(s, i)] in ["\n\n", "\n\r\n", "\r\n\n", "\r\n\r\n"]
  {
    var d := s[i..i + DelimiterAt(s, i)];
    assert |d| == 2 ==> d == "\n\n";
    assert |d| == 3 ==> d == "\n\r\n" || d == "\r\n\n";
    assert |d| == 4 ==> d == "\r\n\r\n";
  }

  // ---------------------------------------------------------------------------------------
  // Delimiters in longer texts
  // ---------------------------------------------------------------------------------------

  lemma DelimiterInSuffix(s: string, k: nat, i: nat)
    requires k + i <= |s|
    ensures DelimiterAt(s[k..], i) == DelimiterAt(s, k + i)
  {
  }

  /** Appending text neither moves the first delimiter nor changes its length. */
  lemma FirstDelimiterStays(a: string, b: string)
    requires NextDelimiter(a, 0) < |a|
    ensures NextDelimiter(a + b, 0) == NextDelimiter(a, 0)
    ensures DelimiterAt(a + b, NextDelimiter(a, 0)) == DelimiterAt(a, NextDelimiter(a, 0))
  {
    var i := NextDelimiter(a, 0);
    DelimiterGrows(a, b, i);
    forall j | 0 <= j < i ensures DelimiterAt(a + b, j) == 0 {
      assert DelimiterAt(a, j) == 0;
    }
  }

  lemma DelimiterGrows(a: string, b: string, i: nat)
    requires i + 4 <= |a| || DelimiterAt(a, i) > 0
    ensures DelimiterAt(a + b, i) == DelimiterAt(a, i)
  {
  }

  /** Three characters are enough: a text without a delimiter, extended, has its first one no earlier. */
  lemma RescanFindsTheFirst(a: string, b: string)
    requires NextDelimiter(a, 0) == |a|
    ensures NextDelimiter(a + b, RescanFrom(|a|)) == NextDelimiter(a + b, 0)
  {
    forall j | 0 <= j < RescanFrom(|a|) ensures DelimiterAt(a + b, j) == 0 {
      DelimiterGrows(a, b, j);
    }
  }

  lemma {:induction false} TailHasNoDelimiter(s: string)
    ensures NextDelimiter(Tail(s), 0) == |Tail(s)|
    decreases |s|
  {
    var i := NextDelimiter(s, 0);
    if i < |s| {
      TailHasNoDelimiter(After(s, i));
    }
  }

  /** Scanning in two pieces finds the events of one scan. */
  lemma {:induction false} ScanInTwoPieces(a: string, b: string)
    ensures Events(a + b) == Events(a) + Events(Tail(a) + b)
    ensures Tail(a + b) == Tail(Tail(a) + b)
    decreases |a|
  {
    hide DelimiterAt;
    var i := NextDelimiter(a, 0);
    if i < |a| {
      FirstDelimiterStays(a, b);
      assert After(a + b, i) == After(a, i) + b;
      assert (a + b)[..i] == a[..i];
      ScanInTwoPieces(After(a, i), b);
    }
  }

  // ---------------------------------------------------------------------------------------
  // One chunk
  // ---------------------------------------------------------------------------------------

  /** No event of the text, nor what follows the last one, is oversize. */
  predicate Fits(s: string) {
    |Tail(s)| <= MAX_EVENT_CHARACTERS && forall e :: e in Events(s) ==> |e| <= MAX_EVENT_CHARACTERS
  }

  predicate Good(d: Decoder) {
    && (!d.failed ==> NextDelimiter(d.buffer, 0) == |d.buffer| <= MAX_EVENT_CHARACTERS)
    && d.scanOffset == RescanFrom(|d.buffer|)
  }

  lemma SuffixDelimiter(s: string, start: nat)
    requires start <= |s|
    ensures NextDelimiter(s[start..], 0) == NextDelimiter(s, start) - start
    ensures NextDelimiter(s, start) < |s| ==>
              After(s[start..], NextDelimiter(s, start) - start) == After(s, NextDelimiter(s, start))
  {
    hide DelimiterAt;
    var i := NextDelimiter(s, start);
    forall j | 0 <= j <= i - start ensures DelimiterAt(s[start..], j) == DelimiterAt(s, start + j) {
      DelimiterInSuffix(s, start, j);
    }
    var k := NextDelimiter(s[start..], 0);
    if k < i - start {
      assert false;
    } else if i < |s| {
      assert DelimiterAt(s[start..], i - start) == DelimiterAt(s, i) > 0;
    }
  }

  /** How one more event changes what fits. */
  lemma ScanStep(s: string)
    ensures
      var i := NextDelimiter(s, 0);
      if i == |s| then Events(s) == [] && Tail(s) == s && (Fits(s) <==> |s| <= MAX_EVENT_CHARACTERS)
      else
        && Events(s) == [s[..i]] + Events(After(s, i)) && Tail(s) == Tail(After(s, i))
        && (Fits(s) <==> i <= MAX_EVENT_CHARACTERS && Fits(After(s, i)))
  {
    var i := NextDelimiter(s, 0);
    if i < |s| {
      assert Events(s) == [s[..i]] + Events(After(s, i));
      if Fits(s) {
        assert s[..i] in Events(s);
        forall e | e in Events(After(s, i)) ensures |e| <= MAX_EVENT_CHARACTERS {
          assert e in Events(s);
        }
      }
    }
  }

  lemma {:induction false} FlushIsOneScan(s: string, start: nat, from: nat)
    requires start <= from <= |s|
    requires NextDelimiter(s, start) == NextDelimiter(s, from)
    ensures
      var f := FlushFrom(s, start, from);
      && (f.ok <==> Fits(s[start..]))
      && (f.ok ==> f.events == Events(s[start..]) && f.rest == Tail(s[start..]))
    decreases |s| - from
  {
    hide NextDelimiter, DelimiterAt, Events, Tail, Fits;
    var i := NextDelimiter(s, from);
    SuffixDelimiter(s, start);
    ScanStep(s[start..]);
    if i < |s| {
      var next := i + DelimiterAt(s, i);
      assert s[start..][..i - start] == s[start..i];
      FlushIsOneScan(s, next, next);
    }
  }

  /** A chunk is accepted exactly if the text seen since the last event fits, and then its events are
      those of one scan of that text. */
  lemma PushIsOneScan(d: Decoder, chunk: string)
    requires Good(d) && !d.failed
    ensures
      var (e, events) := Push(d, chunk);
      && Good(e)
      && (!e.failed <==> Fits(d.buffer + chunk))
      && (!e.failed ==> events == Events(d.buffer + chunk) && e.buffer == Tail(d.buffer + chunk))
  {
    var s := d.buffer + chunk;
    RescanFindsTheFirst(d.buffer, chunk);
    FlushIsOneScan(s, 0, d.scanOffset);
    assert s[0..] == s;
    TailHasNoDelimiter(s);
  }

  // ---------------------------------------------------------------------------------------
  // Every chunking
  // ---------------------------------------------------------------------------------------

  /** The texts received after each of the chunks all fit. */
  predicate FitsSoFar(chunks: seq<string>) {
    chunks == [] || (FitsSoFar(chunks[..|chunks| - 1]) && Fits(Concat(chunks)))
  }

  /** What was decoded before, and one more piece. */
  lemma FitsInTwoPieces(a: string, b: string)
    requires Fits(a)
    ensures Fits(a + b) <==> Fits(Tail(a) + b)
  {
    ScanInTwoPieces(a, b);
    forall e | e in Events(a + b) ensures e in Events(a) || e in Events(Tail(a) + b) {
    }
    forall e | e in Events(Tail(a) + b) ensures e in Events(a + b) {
    }
  }

  /** Chunking does not matter: whatever the chunks, the events are those of one scan of the whole text,
      and the stream is accepted exactly if each of the texts received so far fits. */
  lemma {:induction false} ChunkingDoesNotMatter(chunks: seq<string>)
    ensures
      var (d, events) := PushAll(chunks);
      && Good(d)
      && (!d.failed <==> FitsSoFar(chunks))
      && (!d.failed ==> events == Events(Concat(chunks)) && d.buffer == Tail(Concat(chunks)))
  {
    hide NextDelimiter, Events, Tail, Fits, Push;
    EmptyText();
    if chunks != [] {
      var before := chunks[..|chunks| - 1];
      var chunk := chunks[|chunks| - 1];
      ChunkingDoesNotMatter(before);
      var (d, events) := PushAll(before);
      if d.failed {
        FailedStaysFailed(d, chunk);
      } else {
        PushIsOneScan(d, chunk);
        ScanInTwoPieces(Concat(before), chunk);
        SoFarFits(before);
        FitsInTwoPieces(Concat(before), chunk);
      }
    }
  }

  lemma EmptyText()
    ensures Events("") == [] && Tail("") == "" && NextDelimiter("", 0) == 0 && Fits("")
  {
  }

  lemma FailedStaysFailed(d: Decoder, chunk: string)
    requires WellFormed(d) && d.failed
    ensures Push(d, chunk) == (d, [])
  {
  }

  lemma SoFarFits(chunks: seq<string>)
    requires FitsSoFar(chunks)
    ensures Fits(Concat(chunks))
  {
    EmptyText();
  }

  // ---------------------------------------------------------------------------------------
  // Which texts are accepted whatever the chunks
  // ---------------------------------------------------------------------------------------

  /** An event and all but one character of its delimiter fit, for every event, and so does the tail. */
  predicate Snug(s: string)
    decreases |s|
  {
    var i := NextDelimiter(s, 0);
    if i == |s| then |s| <= MAX_EVENT_CHARACTERS
    else i + DelimiterAt(s, i) - 1 <= MAX_EVENT_CHARACTERS && Snug(After(s, i))
  }

  /** No delimiter ends inside another one that starts before it. */
  lemma DelimitersDoNotNest(s: string, i: nat, j: nat)
    requires i < j && DelimiterAt(s, i) > 0 && DelimiterAt(s, j) > 0
    ensures i + DelimiterAt(s, i) <= j + DelimiterAt(s, j)
  {
  }

  lemma DelimiterInPrefix(s: string, k: nat, i: nat)
    requires k <= |s|
    ensures DelimiterAt(s[..k], i) > 0 ==> DelimiterAt(s[..k], i) == DelimiterAt(s, i)
    ensures DelimiterAt(s, i) > 0 && i + DelimiterAt(s, i) <= k ==> DelimiterAt(s[..k], i) == DelimiterAt(s, i)
  {
  }

  /** A text cut inside its first event or delimiter has no delimiter. */
  lemma CutBeforeTheDelimiter(s: string, k: nat)
    requires k <= |s|
    requires NextDelimiter(s, 0) < |s| ==> k < NextDelimiter(s, 0) + DelimiterAt(s, NextDelimiter(s, 0))
    ensures NextDelimiter(s[..k], 0) == k
  {
    hide DelimiterAt;
    var i := NextDelimiter(s, 0);
    var j := NextDelimiter(s[..k], 0);
    if j < k {
      DelimiterInPrefix(s, k, j);
      if i < j {
        DelimitersDoNotNest(s, i, j);
      }
      assert false;
    }
  }

  lemma CutAfterTheDelimiter(s: string, k: nat)
    requires k <= |s| && NextDelimiter(s, 0) < |s|
    requires NextDelimiter(s, 0) + DelimiterAt(s, NextDelimiter(s, 0)) <= k
    ensures
      var i := NextDelimiter(s, 0);
      NextDelimiter(s[..k], 0) == i && DelimiterAt(s[..k], i) == DelimiterAt(s, i)
  {
    hide DelimiterAt;
    var i := NextDelimiter(s, 0);
    DelimiterInPrefix(s, k, i);
    assert s[..k] + s[k..] == s;
    FirstDelimiterStays(s[..k], s[k..]);
  }

  /** A snug text fits after every prefix of it. */
  lemma {:induction false} PrefixesOfSnugFit(s: string, k: nat)
    requires Snug(s) && k <= |s|
    ensures Fits(s[..k])
    decreases |s|
  {
    hide DelimiterAt, Fits;
    var i := NextDelimiter(s, 0);
    ScanStep(s[..k]);
    if i < |s| && i + DelimiterAt(s, i) <= k {
      var n := i + DelimiterAt(s, i);
      CutAfterTheDelimiter(s, k);
      assert After(s[..k], i) == After(s, i)[..k - n];
      PrefixesOfSnugFit(After(s, i), k - n);
    } else {
      CutBeforeTheDelimiter(s, k);
    }
  }

  /** A text that is not snug has a prefix that does not fit. */
  lemma {:induction false} UnfitPrefix(s: string) returns (k: nat)
    requires !Snug(s)
    ensures k <= |s| && !Fits(s[..k])
    decreases |s|
  {
    hide DelimiterAt, Fits;
    var i := NextDelimiter(s, 0);
    if i == |s| {
      k := |s|;
      assert s[..k] == s;
      ScanStep(s);
    } else {
      var n := i + DelimiterAt(s, i);
      if n - 1 > MAX_EVENT_CHARACTERS {
        k := n - 1;
        CutBeforeTheDelimiter(s, k);
        ScanStep(s[..k]);
      } else {
        var rest := UnfitPrefix(After(s, i));
        k := n + rest;
        CutAfterTheDelimiter(s, k);
        ScanStep(s[..k]);
        assert After(s[..k], i) == After(s, i)[..rest];
      }
    }
  }

  lemma {:induction false} ConcatIsAPrefix(chunks: seq<string>, n: nat)
    requires n <= |chunks|
    ensures Concat(chunks[..n]) <= Concat(chunks)
    decreases |chunks| - n
  {
    if n == |chunks| {
      assert chunks[..n] == chunks;
    } else {
      ConcatIsAPrefix(chunks, n + 1);
      assert chunks[..n + 1][..n] == chunks[..n];
    }
  }

  lemma {:induction false} SnugFitsSoFar(chunks: seq<string>, whole: string)
    requires Snug(whole) && Concat(chunks) <= whole
    ensures FitsSoFar(chunks)
  {
    hide Snug, Fits;
    if chunks != [] {
      SnugFitsSoFar(chunks[..|chunks| - 1], whole);
      PrefixesOfSnugFit(whole, |Concat(chunks)|);
      assert whole[..|Concat(chunks)|] == Concat(chunks);
    }
  }

  /** The texts accepted whatever the chunks are exactly the snug ones. */
  lemma EveryChunkingSucceedsExactly(s: string)
    ensures (forall chunks :: Concat(chunks) == s ==> !PushAll(chunks).0.failed) <==> Snug(s)
  {
    hide Snug, Fits, PushAll;
    if Snug(s) {
      forall chunks | Concat(chunks) == s ensures !PushAll(chunks).0.failed {
        SnugFitsSoFar(chunks, s);
        ChunkingDoesNotMatter(chunks);
      }
    } else {
      var k := UnfitPrefix(s);
      var chunks := [s[..k], s[k..]];
      TwoChunks(s[..k], s[k..]);
      assert s[..k] + s[k..] == s;
      ChunkingDoesNotMatter(chunks);
      assert Concat(chunks) == s && PushAll(chunks).0.failed;
    }
  }

  lemma TwoChunks(a: string, b: string)
    ensures Concat([a, b]) == a + b
    ensures FitsSoFar([a, b]) ==> Fits(a)
  {
    assert [a, b][..1] == [a] && [a][..0] == [];
    assert Concat([a]) == Concat([]) + a == a;
    assert FitsSoFar([a, b]) ==> FitsSoFar([a]);
  }

  /** Three characters of room for a cut delimiter always suffice. */
  lemma {:induction false} RoomForADelimiterSuffices(s: string)
    requires |Tail(s)| <= MAX_EVENT_CHARACTERS
    requires forall e :: e in Events(s) ==> |e| <= MAX_EVENT_CHARACTERS - 3
    ensures Snug(s)
    decreases |s|
  {
    hide DelimiterAt;
    var i := NextDelimiter(s, 0);
    if i < |s| {
      assert Events(s) == [s[..i]] + Events(After(s, i));
      assert s[..i] in Events(s);
      forall e | e in Events(After(s, i)) ensures e in Events(s) {
      }
      assert DelimiterAt(s, i) <= 4;
      RoomForADelimiterSuffices(After(s, i));
    }
  }

  // ---------------------------------------------------------------------------------------
  // The end of the stream, and the cost of scanning
  // ---------------------------------------------------------------------------------------

  /** The text `end` leaves to be scanned: a tail is closed by an empty line. */
  function Closed(s: string): string {
    if Tail(s) == "" then s else s + "\n\n"
  }

  lemma {:induction false} ShortTextsFit(s: string)
    requires |s| <= MAX_EVENT_CHARACTERS
    ensures Fits(s)
    decreases |s|
  {
    hide DelimiterAt, Fits;
    ScanStep(s);
    if NextDelimiter(s, 0) < |s| {
      ShortTextsFit(After(s, NextDelimiter(s, 0)));
    }
  }

  /** Closing a tail that fits never fails: its first delimiter starts within the tail, or right after it. */
  lemma ClosedTailFits(tail: string)
    requires NextDelimiter(tail, 0) == |tail| <= MAX_EVENT_CHARACTERS
    ensures Fits(tail + "\n\n")
  {
    var s := tail + "\n\n";
    var i := NextDelimiter(s, 0);
    RescanFindsTheFirst(tail, "\n\n");
    assert DelimiterAt(s, |tail|) == 2;
    hide Fits;
    ScanStep(s);
    ShortTextsFit(After(s, i));
  }

  /** A whole response is decoded as one scan of its text, closed by an empty line if it has a tail; it is
      accepted exactly if its chunks are. */
  lemma DecodingIsOneScan(chunks: seq<string>)
    ensures
      var (d, events) := Decode(chunks);
      var text := Concat(chunks);
      && (!d.failed <==> FitsSoFar(chunks))
      && (!d.failed ==> events == Events(Closed(text)) && d.buffer == Tail(Closed(text)))
  {
    hide NextDelimiter, Events, Tail, Fits, PushAll, Push, FitsSoFar;
    var (d, events) := PushAll(chunks);
    var text := Concat(chunks);
    ChunkingDoesNotMatter(chunks);
    if d.failed {
      if d.buffer != "" {
        FailedStaysFailed(d, "\n\n");
      }
    } else {
      PushIsOneScan(d, "\n\n");
      ClosedTailFits(d.buffer);
      ScanInTwoPieces(text, "\n\n");
    }
  }

  /** Events with room for a delimiter and a tail within the limit are decoded as one scan, whatever the
      chunks, end included. */
  lemma EventsWithRoomAreDecoded(chunks: seq<string>)
    requires |Tail(Concat(chunks))| <= MAX_EVENT_CHARACTERS
    requires forall e :: e in Events(Concat(chunks)) ==> |e| <= MAX_EVENT_CHARACTERS - 3
    ensures
      var (d, events) := Decode(chunks);
      !d.failed && events == Events(Closed(Concat(chunks))) && d.buffer == Tail(Closed(Concat(chunks)))
  {
    hide Decode, Events, Tail, Closed;
    RoomForADelimiterSuffices(Concat(chunks));
    SnugFitsSoFar(chunks, Concat(chunks));
    DecodingIsOneScan(chunks);
  }

  /** No position is tried twice in one flush. */
  lemma {:induction false} FlushTriesEachOnce(s: string, start: nat, from: nat)
    requires start <= from <= |s|
    ensures FlushFrom(s, start, from).looked <= |s| - from
    decreases |s| - from
  {
    hide DelimiterAt;
    var i := NextDelimiter(s, from);
    if i < |s| {
      FlushTriesEachOnce(s, i + DelimiterAt(s, i), i + DelimiterAt(s, i));
    }
  }

  /** A flush tries the new characters and at most three old ones. */
  lemma OneFlushIsLinear(d: Decoder, chunk: string)
    requires d.scanOffset == RescanFrom(|d.buffer|)
    ensures FlushFrom(d.buffer + chunk, 0, d.scanOffset).looked <= |chunk| + 3
  {
    FlushTriesEachOnce(d.buffer + chunk, 0, d.scanOffset);
  }

  /** The scans of K chunks with N characters in all try no more than N + 3K positions; the one at
      `end` tries no more than five. */
  lemma {:induction false} ScanningIsLinear(chunks: seq<string>)
    ensures Scanned(chunks) <= |Concat(chunks)| + 3 * |chunks|
    ensures FlushFrom(PushAll(chunks).0.buffer + "\n\n", 0, PushAll(chunks).0.scanOffset).looked <= 5
  {
    hide PushAll, FlushFrom;
    ChunkingDoesNotMatter(chunks);
    OneFlushIsLinear(PushAll(chunks).0, "\n\n");
    if chunks != [] {
      var before := chunks[..|chunks| - 1];
      ScanningIsLinear(before);
      ChunkingDoesNotMatter(before);
      OneFlushIsLinear(PushAll(before).0, chunks[|chunks| - 1]);
    }
  }

  // ---------------------------------------------------------------------------------------
  // The decoder as an object
  // ---------------------------------------------------------------------------------------

  /** A flush that has already passed on some events, and tried some positions. */
  function Then(events: seq<string>, looked: nat, f: Flushed): Flushed {
    f.(events := events + f.events, looked := looked + f.looked)
  }

  lemma FlushIsItself(f: Flushed)
    ensures Then([], 0, f) == f
  {
    assert [] + f.events == f.events;
  }

  lemma FlushStep(s: string, start: nat, from: nat, events: seq<string>, looked: nat)
    requires start <= from <= |s|
    ensures
      var i := NextDelimiter(s, from);
      var now := looked + Tried(s, from, i);
      Then(events, looked, FlushFrom(s, start, from)) ==
        if i == |s| then
          if |s| - start > MAX_EVENT_CHARACTERS then Flushed(events, "", false, now)
          else Flushed(events, s[start..], true, now)
        else if i - start > MAX_EVENT_CHARACTERS then Flushed(events, "", false, now)
        else Then(events + [s[start..i]], now, FlushFrom(s, i + DelimiterAt(s, i), i + DelimiterAt(s, i)))
  {
    hide DelimiterAt, NextDelimiter;
    var i := NextDelimiter(s, from);
    assert events + [] == events;
    if i < |s| {
      var more := FlushFrom(s, i + DelimiterAt(s, i), i + DelimiterAt(s, i)).events;
      assert events + ([s[start..i]] + more) == (events + [s[start..i]]) + more;
    }
  }

  class SseStream {
    var buffer: string
    var scanOffset: nat
    var failed: bool

    ghost function View(): Decoder
      reads this
    {
      Decoder(buffer, scanOffset, failed)
    }

    ghost predicate Valid()
      reads this
    {
      Good(View())
    }

    constructor ()
      ensures Valid() && View() == Init()
    {
      buffer, scanOffset, failed := "", 0, false;
    }

    method FailOversized()
      modifies this
      ensures View() == Decoder("", 0, true)
    {
      buffer, scanOffset, failed := "", 0, true;
    }

    /** Scans from the offset, cuts off the complete events, and remembers where to scan from next. */
    method FlushEvents() returns (events: seq<string>, looked: nat)
      requires scanOffset <= |buffer| && !failed
      modifies this
      ensures (View(), events) == Keep(FlushFrom(old(buffer), 0, old(scanOffset)))
      ensures looked == FlushFrom(old(buffer), 0, old(scanOffset)).looked
    {
      hide DelimiterAt, NextDelimiter, FlushFrom, Tried;
      var start: nat, from: nat := 0, scanOffset;
      events, looked := [], 0;
      FlushIsItself(FlushFrom(buffer, start, from));
      var i := NextDelimiter(buffer, from);
      while i < |buffer|
        invariant buffer == old(buffer) && !failed
        invariant start <= from <= |buffer| && i == NextDelimiter(buffer, from)
        invariant FlushFrom(buffer, 0, old(scanOffset)) == Then(events, looked, FlushFrom(buffer, start, from))
        decreases |buffer| - from
      {
        FlushStep(buffer, start, from, events, looked);
        looked := looked + Tried(buffer, from, i);
        if i - start > MAX_EVENT_CHARACTERS {
          FailOversized();
          return;
        }
        events := events + [buffer[start..i]];
        start := i + DelimiterAt(buffer, i);
        from := start;
        i := NextDelimiter(buffer, from);
      }
      FlushStep(buffer, start, from, events, looked);
      looked := looked + Tried(buffer, from, i);
      if start > 0 {
        buffer := buffer[start..];
      }
      scanOffset := RescanFrom(|buffer|);
      if |buffer| > MAX_EVENT_CHARACTERS {
        FailOversized();
      }
    }

    /** The `data` handler: accepts the chunk exactly if what was seen since the last event still fits, and
        then passes on the events that one scan of it finds. It tries the new characters and at most three old ones. */
    method OnData(chunk: string) returns (events: seq<string>, looked: nat)
      requires Valid()
      modifies this
      ensures Valid()
      ensures (View(), events) == Push(old(View()), chunk)
      ensures !old(failed) ==>
                && (!failed <==> Fits(old(buffer) + chunk))
                && (!failed ==> events == Events(old(buffer) + chunk) && buffer == Tail(old(buffer) + chunk))
      ensures looked <= |chunk| + 3
    {
      if failed {
        return [], 0;
      }
      PushIsOneScan(View(), chunk);
      OneFlushIsLinear(View(), chunk);
      buffer := buffer + chunk;
      events, looked := FlushEvents();
    }

    /** The `end` handler. */
    method OnEnd() returns (events: seq<string>, looked: nat)
      requires Valid()
      modifies this
      ensures Valid()
      ensures (View(), events) == Finish(old(View()))
      ensures looked <= 5
    {
      events, looked := [], 0;
      if buffer != "" {
        events, looked := OnData("\n\n");
      }
    }
  }
}
