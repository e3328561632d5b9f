/**
 The optional listen prefixes of server-lib/listen-prefix.js: parsing the configured list, and stripping a
 prefix from the path of a request.
 */
module ListenPrefix {
  import opened Wrappers
  import opened Strings

  const PROXY_PATH_ROOTS: seq<string> := [
    "/v1", "/v1beta", "/chat/completions", "/responses", "/models", "/messages", "/codex",
    "/anthropic/v1", "/chat/v1", "/responses/v1"
  ]

  const RESERVED_FIRST_SEGMENTS: set<string> := {
    "api", "v1", "v1beta", "_next", "favicon.ico", "login", "status", "usage-doc", "dashboard", "chat", "responses",
    "models", "messages", "codex", "anthropic", "zh-CN", "zh-TW", "en", "ja", "ru"
  }

  const MAX_PREFIX_LENGTH: nat := 128

  datatype PrefixError =
    | NoSegment(entry: string)
    | TooLong(entry: string)
    | EmptySegment(entry: string)
    | RelativeSegment(entry: string)
    | InvalidCharacter(entry: string, segment: string)
    | ReservedSegment(entry: string, segment: string)
    | Duplicate(entry: string)
    | Overlap(entry: string, existing: string)

  // ---------------------------------------------------------------------------------------
  // Parsing
  // ---------------------------------------------------------------------------------------

  predicate IsSegmentChar(c: char) {
    'A' <= c <= 'Z' || 'a' <= c <= 'z' || '0' <= c <= '9' || c in "._~-"
  }

  predicate IsSegment(s: string) {
    s != "" && s != "." && s != ".." && forall i :: 0 <= i < |s| ==> IsSegmentChar(s[i])
  }

  function CheckSegment(entry: string, segment: string): Option<PrefixError> {
    if segment == "" then Some(EmptySegment(entry))
    else if segment == "." || segment == ".." then Some(RelativeSegment(entry))
    else if !IsSegment(segment) then Some(InvalidCharacter(entry, segment))
    else None
  }

  /** The error of the first bad segment. */
  function CheckSegments(entry: string, segments: seq<string>): Option<PrefixError> {
    if segments == [] then None
    else
      var first := CheckSegment(entry, segments[0]);
      if first.Some? then first else CheckSegments(entry, segments[1..])
  }

  /** The two prefixes are the same, or one lies under the other. */
  predicate Clash(a: string, b: string) {
    a == b || a + "/" <= b || b + "/" <= a
  }

  function CheckExisting(entry: string, prefix: string, existing: seq<string>): Option<PrefixError> {
    if existing == [] then None
    else if existing[0] == prefix then Some(Duplicate(entry))
    else if Clash(existing[0], prefix) then Some(Overlap(entry, existing[0]))
    else CheckExisting(entry, prefix, existing[1..])
  }

  function DropTrailingSlashes(s: string): string {
    if |s| > 1 && s[|s| - 1] == '/' then DropTrailingSlashes(s[..|s| - 1]) else s
  }

  function Normalize(entry: string): string {
    DropTrailingSlashes(if "/" <= entry then entry else "/" + entry)
  }

  /** What one entry, already trimmed and not empty, adds to the prefixes before it. */
  function AddEntry(prefixes: seq<string>, entry: string): Result<seq<string>, PrefixError> {
    var prefix := Normalize(entry);
    if prefix == "" || prefix == "/" then Failure(NoSegment(entry))
    else if |prefix| > MAX_PREFIX_LENGTH then Failure(TooLong(entry))
    else
      var segments := Split(prefix[1..], '/');
      var bad := CheckSegments(entry, segments);
      if bad.Some? then Failure(bad.value)
      else if segments[0] in RESERVED_FIRST_SEGMENTS then Failure(ReservedSegment(entry, segments[0]))
      else
        var clash := CheckExisting(entry, prefix, prefixes);
        if clash.Some? then Failure(clash.value) else Success(prefixes + [prefix])
  }

  /** The entries of a list in turn; blank ones are skipped. */
  function ParseEntries(entries: seq<string>): Result<seq<string>, PrefixError> {
    if entries == [] then Success([])
    else
      var before :- ParseEntries(entries[..|entries| - 1]);
      var entry := Trim(entries[|entries| - 1]);
      if entry == "" then Success(before) else AddEntry(before, entry)
  }

  function Parse(raw: string): Result<seq<string>, PrefixError> {
    if Trim(raw) == "" then Success([]) else ParseEntries(Split(raw, ','))
  }

  // ---------------------------------------------------------------------------------------
  // The loops of the parser
  // ---------------------------------------------------------------------------------------

  method NormalizeEntry(entry: string) returns (normalized: string)
    ensures normalized == Normalize(entry)
  {
    normalized := if "/" <= entry then entry else "/" + entry;
    while |normalized| > 1 && normalized[|normalized| - 1] == '/'
      invariant DropTrailingSlashes(normalized) == Normalize(entry)
      decreases |normalized|
    {
      normalized := normalized[..|normalized| - 1];
    }
  }

  method FindBadSegment(entry: string, segments: seq<string>) returns (bad: Option<PrefixError>)
    ensures bad == CheckSegments(entry, segments)
  {
    var i := 0;
    while i < |segments|
      invariant 0 <= i <= |segments|
      invariant CheckSegments(entry, segments) == CheckSegments(entry, segments[i..])
    {
      bad := CheckSegment(entry, segments[i]);
      if bad.Some? {
        return;
      }
      assert segments[i..][1..] == segments[i + 1..];
      i := i + 1;
    }
    bad := None;
  }

  method FindClash(entry: string, prefix: string, existing: seq<string>) returns (clash: Option<PrefixError>)
    ensures clash == CheckExisting(entry, prefix, existing)
  {
    var i := 0;
    while i < |existing|
      invariant 0 <= i <= |existing|
      invariant CheckExisting(entry, prefix, existing) == CheckExisting(entry, prefix, existing[i..])
    {
      if existing[i] == prefix {
        return Some(Duplicate(entry));
      }
      if prefix + "/" <= existing[i] || existing[i] + "/" <= prefix {
        return Some(Overlap(entry, existing[i]));
      }
      assert existing[i..][1..] == existing[i + 1..];
      i := i + 1;
    }
    return None;
  }

  method ParseEntry(prefixes: seq<string>, entry: string) returns (r: Result<seq<string>, PrefixError>)
    ensures r == AddEntry(prefixes, entry)
  {
    hide CheckSegments, CheckExisting, Normalize, Split;
    var prefix := NormalizeEntry(entry);
    if prefix == "" || prefix == "/" {
      return Failure(NoSegment(entry));
    }
    if |prefix| > MAX_PREFIX_LENGTH {
      return Failure(TooLong(entry));
    }
    var segments := Split(prefix[1..], '/');
    var bad := FindBadSegment(entry, segments);
    if bad.Some? {
      return Failure(bad.value);
    }
    if segments[0] in RESERVED_FIRST_SEGMENTS {
      return Failure(ReservedSegment(entry, segments[0]));
    }
    var clash := FindClash(entry, prefix, prefixes);
    if clash.Some? {
      return Failure(clash.value);
    }
    return Success(prefixes + [prefix]);
  }

  method ParseListenPrefixes(raw: string) returns (r: Result<seq<string>, PrefixError>)
    ensures r == Parse(raw)
    ensures r.Success? ==> Accepted(r.value)
  {
    hide AddEntry, Accepted, Trim;
    ParsedIsAccepted(raw);
    if Trim(raw) == "" {
      return Success([]);
    }
    var entries := Split(raw, ',');
    var prefixes: seq<string> := [];
    var i := 0;
    while i < |entries|
      invariant 0 <= i <= |entries|
      invariant ParseEntries(entries[..i]) == Success(prefixes)
    {
      var entry := Trim(entries[i]);
      assert entries[..i + 1][..i] == entries[..i];
      if entry != "" {
        FailsForGood(entries, i + 1);
        var added := ParseEntry(prefixes, entry);
        if added.Failure? {
          return added;
        }
        prefixes := added.value;
      }
      i := i + 1;
    }
    assert entries[..i] == entries;
    return Success(prefixes);
  }

  lemma {:induction false} FailsForGood(entries: seq<string>, n: nat)
    requires n <= |entries|
    ensures ParseEntries(entries[..n]).Failure? ==> ParseEntries(entries) == ParseEntries(entries[..n])
    decreases |entries| - n
  {
    hide AddEntry, Trim;
    if n == |entries| {
      assert entries[..n] == entries;
    } else {
      assert entries[..n + 1][..n] == entries[..n];
      FailsForGood(entries, n + 1);
    }
  }

  // ---------------------------------------------------------------------------------------
  // Which lists are accepted
  // ---------------------------------------------------------------------------------------

  /** A slash, then segments separated by slashes, the first of which is not reserved. */
  predicate ValidPrefix(p: string) {
    && 1 < |p| <= MAX_PREFIX_LENGTH && p[0] == '/'
    && (forall s :: s in Split(p[1..], '/') ==> IsSegment(s))
    && Split(p[1..], '/')[0] !in RESERVED_FIRST_SEGMENTS
  }

  /** Valid prefixes, none equal to or under another one. */
  predicate Accepted(prefixes: seq<string>) {
    && (forall i :: 0 <= i < |prefixes| ==> ValidPrefix(prefixes[i]))
    && (forall i, j :: 0 <= i < j < |prefixes| ==> !Clash(prefixes[i], prefixes[j]))
  }

  lemma {:induction false} SegmentsChecked(entry: string, segments: seq<string>)
    ensures CheckSegments(entry, segments).None? <==> forall s :: s in segments ==> IsSegment(s)
  {
    if segments != [] {
      SegmentsChecked(entry, segments[1..]);
      assert segments == [segments[0]] + segments[1..];
      assert CheckSegment(entry, segments[0]).None? <==> IsSegment(segments[0]);
      if CheckSegments(entry, segments).None? {
        forall s | s in segments ensures IsSegment(s) {
          assert s == segments[0] || s in segments[1..];
        }
      }
    }
  }

  lemma {:induction false} ExistingChecked(entry: string, prefix: string, existing: seq<string>)
    ensures CheckExisting(entry, prefix, existing).None? <==>
            forall i :: 0 <= i < |existing| ==> !Clash(existing[i], prefix)
  {
    if existing != [] {
      ExistingChecked(entry, prefix, existing[1..]);
      assert forall i :: 0 < i < |existing| ==> existing[i] == existing[1..][i - 1];
      if CheckExisting(entry, prefix, existing).None? {
        forall i | 0 <= i < |existing| ensures !Clash(existing[i], prefix) {
          if i > 0 {
            assert existing[i] == existing[1..][i - 1];
          }
        }
      }
    }
  }

  lemma {:induction false} NormalizedStartsWithSlash(s: string)
    requires "/" <= s
    ensures "/" <= DropTrailingSlashes(s)
  {
    if |s| > 1 && s[|s| - 1] == '/' {
      NormalizedStartsWithSlash(s[..|s| - 1]);
    }
  }

  /** An entry is added exactly if it is a valid prefix that clashes with none before it. */
  lemma AddedExactly(prefixes: seq<string>, entry: string)
    ensures
      var r := AddEntry(prefixes, entry);
      && (r.Success? <==>
            ValidPrefix(Normalize(entry)) && forall i :: 0 <= i < |prefixes| ==> !Clash(prefixes[i], Normalize(entry)))
      && (r.Success? ==> r.value == prefixes + [Normalize(entry)])
  {
    hide IsSegment, Clash, Split;
    var prefix := Normalize(entry);
    NormalizedStartsWithSlash(if "/" <= entry then entry else "/" + entry);
    if prefix != "" && prefix != "/" {
      SegmentsChecked(entry, Split(prefix[1..], '/'));
      ExistingChecked(entry, prefix, prefixes);
    }
  }

  lemma {:induction false} EntriesAreAccepted(entries: seq<string>)
    ensures ParseEntries(entries).Success? ==> Accepted(ParseEntries(entries).value)
  {
    hide AddEntry, ValidPrefix, Clash, Normalize, Trim;
    if entries != [] {
      EntriesAreAccepted(entries[..|entries| - 1]);
      var before := ParseEntries(entries[..|entries| - 1]);
      if before.Success? {
        AddedExactly(before.value, Trim(entries[|entries| - 1]));
      }
    }
  }

  lemma ParsedIsAccepted(raw: string)
    ensures Parse(raw).Success? ==> Accepted(Parse(raw).value)
  {
    hide Accepted;
    EntriesAreAccepted(Split(raw, ','));
    EntriesAreAccepted([]);
  }

  // ---------------------------------------------------------------------------------------
  // Parsing what was parsed
  // ---------------------------------------------------------------------------------------

  lemma {:induction false} SplitCovers(s: string, separator: char, i: nat)
    requires i < |s| && s[i] != separator
    ensures exists p :: p in Split(s, separator) && s[i] in p
    decreases |s|
  {
    var k := IndexOf(s, separator);
    var parts := Split(s, separator);
    if k == |s| {
      assert s in parts && s[i] in s;
    } else if i < k {
      assert parts[0] == s[..k] && s[..k][i] == s[i];
      assert parts[0] in parts;
    } else {
      SplitCovers(s[k + 1..], separator, i - k - 1);
      var p :| p in Split(s[k + 1..], separator) && s[k + 1..][i - k - 1] in p;
      assert p in parts;
    }
  }

  lemma {:induction false} LastPartIsEmpty(s: string, separator: char)
    requires s != "" && s[|s| - 1] == separator
    ensures "" in Split(s, separator)
    decreases |s|
  {
    var k := IndexOf(s, separator);
    if k == |s| - 1 {
      assert Split("", separator) == [""];
      assert s[k + 1..] == "";
    } else {
      LastPartIsEmpty(s[k + 1..], separator);
    }
  }

  /** A valid prefix contains neither white space nor a comma, and does not end with a slash. */
  lemma ValidPrefixCharacters(p: string)
    requires ValidPrefix(p)
    ensures forall i :: 0 <= i < |p| ==> IsSegmentChar(p[i]) || p[i] == '/'
    ensures p[|p| - 1] != '/'
  {
    forall i | 0 <= i < |p| ensures IsSegmentChar(p[i]) || p[i] == '/' {
      if i > 0 && p[i] != '/' {
        assert p[1..][i - 1] == p[i];
        SplitCovers(p[1..], '/', i - 1);
        var s :| s in Split(p[1..], '/') && p[1..][i - 1] in s;
        var k :| 0 <= k < |s| && s[k] == p[i];
        assert IsSegment(s);
      }
    }
    if p[|p| - 1] == '/' {
      LastPartIsEmpty(p[1..], '/');
    }
  }

  lemma ValidPrefixIsStable(p: string)
    requires ValidPrefix(p)
    ensures Trim(p) == p && Normalize(p) == p && ',' !in p
  {
    ValidPrefixCharacters(p);
    hide ValidPrefix;
    TrimKeeps(p);
  }

  lemma {:induction false} AcceptedEntries(prefixes: seq<string>)
    requires Accepted(prefixes)
    ensures ParseEntries(prefixes) == Success(prefixes)
  {
    hide AddEntry, ValidPrefix, Clash, Normalize, Trim;
    if prefixes != [] {
      var n := |prefixes| - 1;
      AcceptedEntries(prefixes[..n]);
      ValidPrefixIsStable(prefixes[n]);
      AddedExactly(prefixes[..n], prefixes[n]);
      assert prefixes == prefixes[..n] + [prefixes[n]];
      assert prefixes[n] != "" by {
        NotEmpty(prefixes[n]);
      }
    }
  }

  lemma NotEmpty(p: string)
    requires ValidPrefix(p)
    ensures p != ""
  {
  }

  /** The accepted lists are exactly the results of parsing, and parsing one again, joined by commas, gives
      the same list. */
  lemma ParsingIsStable(prefixes: seq<string>)
    requires Accepted(prefixes)
    ensures Parse(Join(prefixes, ",")) == Success(prefixes)
  {
    hide ValidPrefix, Clash, Trim, ParseEntries;
    var raw := Join(prefixes, ",");
    if prefixes == [] {
      assert Trim("") == "" by {
        TrimKeeps("");
      }
    } else {
      forall p | p in prefixes ensures ',' !in p {
        ValidPrefixIsStable(p);
      }
      SplitOfJoin(prefixes, ',');
      AcceptedEntries(prefixes);
      ValidPrefixIsStable(prefixes[0]);
      JoinIsNotBlank(prefixes);
    }
  }

  lemma JoinIsNotBlank(prefixes: seq<string>)
    requires prefixes != [] && ValidPrefix(prefixes[0])
    ensures Trim(Join(prefixes, ",")) != ""
  {
    var raw := Join(prefixes, ",");
    assert raw[0] == prefixes[0][0] == '/';
    VisibleText(raw, 0);
  }

  // ---------------------------------------------------------------------------------------
  // Stripping
  // ---------------------------------------------------------------------------------------

  /** The path is this root or lies under it. */
  predicate Under(path: string, root: string) {
    path == root || root + "/" <= path
  }

  predicate IsProxyPath(path: string) {
    exists root :: root in PROXY_PATH_ROOTS && Under(path, root)
  }

  /** stripListenPrefix: the first prefix under which a proxy path remains. */
  function Strip(path: string, prefixes: seq<string>): Option<string> {
    if prefixes == [] then None
    else if prefixes[0] + "/" <= path && IsProxyPath(path[|prefixes[0]|..]) then Some(path[|prefixes[0]|..])
    else Strip(path, prefixes[1..])
  }

  method StripListenPrefix(path: string, prefixes: seq<string>) returns (stripped: Option<string>)
    ensures stripped == Strip(path, prefixes)
  {
    var i := 0;
    while i < |prefixes|
      invariant 0 <= i <= |prefixes|
      invariant Strip(path, prefixes) == Strip(path, prefixes[i..])
    {
      assert prefixes[i..][1..] == prefixes[i + 1..];
      if prefixes[i] + "/" <= path {
        var rest := path[|prefixes[i]|..];
        var k := 0;
        while k < |PROXY_PATH_ROOTS|
          invariant 0 <= k <= |PROXY_PATH_ROOTS|
          invariant forall j :: 0 <= j < k ==> !Under(rest, PROXY_PATH_ROOTS[j])
        {
          if Under(rest, PROXY_PATH_ROOTS[k]) {
            assert PROXY_PATH_ROOTS[k] in PROXY_PATH_ROOTS;
            return Some(rest);
          }
          k := k + 1;
        }
      }
      i := i + 1;
    }
    return None;
  }

  /** rewriteListenPrefixedUrl: the query is kept as it is. */
  function Rewrite(url: string, prefixes: seq<string>): Option<string> {
    var query := IndexOf(url, '?');
    var stripped := Strip(url[..query], prefixes);
    if stripped.None? then None else Some(stripped.value + url[query..])
  }

  // ---------------------------------------------------------------------------------------
  // First segments
  // ---------------------------------------------------------------------------------------

  /** The text between the leading slash and the next one. */
  function FirstSegment(path: string): string
    requires path != ""
  {
    path[1..][..IndexOf(path[1..], '/')]
  }

  lemma FirstSegmentIs(path: string, segment: string, rest: string)
    requires path == "/" + segment + rest && '/' !in segment && (rest == "" || rest[0] == '/')
    ensures FirstSegment(path) == segment
  {
    var s := path[1..];
    assert s == segment + rest;
    assert forall j :: 0 <= j < |segment| ==> s[j] == segment[j] && segment[j] in segment;
    IndexOfIs(s, '/', |segment|);
  }

  /** Whatever lies under a path has the same first segment. */
  lemma FirstSegmentOfUnder(path: string, root: string)
    requires |root| > 1 && root[0] == '/' && Under(path, root)
    ensures path != "" && FirstSegment(path) == FirstSegment(root)
  {
    var segment := FirstSegment(root);
    var k := 1 + |segment|;
    assert root == "/" + segment + root[k..];
    assert '/' !in segment by {
      forall j | 0 <= j < |segment| ensures segment[j] != '/' {
        assert segment[j] == root[1..][j];
      }
    }
    assert path[..k] == root[..k];
    assert path == "/" + segment + path[k..];
    FirstSegmentIs(path, segment, path[k..]);
  }

  predicate IsReserved(segment: string) {
    segment in RESERVED_FIRST_SEGMENTS
  }

  lemma RootSegmentsAreReserved()
    ensures IsReserved("v1") && IsReserved("v1beta") && IsReserved("chat") && IsReserved("responses")
    ensures IsReserved("models") && IsReserved("messages") && IsReserved("codex") && IsReserved("anthropic")
  {
  }

  /** A root is a slash, a reserved segment, and possibly more segments. */
  lemma RootsAreReserved(root: string)
    requires root in PROXY_PATH_ROOTS
    ensures |root| > 1 && root[0] == '/' && IsReserved(FirstSegment(root))
  {
    hide IsReserved, FirstSegment;
    RootSegmentsAreReserved();
    FirstSegmentIs("/v1", "v1", "");
    FirstSegmentIs("/v1beta", "v1beta", "");
    FirstSegmentIs("/chat/completions", "chat", "/completions");
    FirstSegmentIs("/responses", "responses", "");
    FirstSegmentIs("/models", "models", "");
    FirstSegmentIs("/messages", "messages", "");
    FirstSegmentIs("/codex", "codex", "");
    FirstSegmentIs("/anthropic/v1", "anthropic", "/v1");
    FirstSegmentIs("/chat/v1", "chat", "/v1");
    FirstSegmentIs("/responses/v1", "responses", "/v1");
  }

  lemma PrefixFirstSegment(p: string)
    requires ValidPrefix(p)
    ensures !IsReserved(FirstSegment(p))
  {
    var s := p[1..];
    assert s[..|s|] == s;
    assert FirstSegment(p) == Split(s, '/')[0];
  }

  // ---------------------------------------------------------------------------------------
  // What an accepted list does to paths
  // ---------------------------------------------------------------------------------------

  /** A path that is already a proxy path lies under no accepted prefix. */
  lemma ProxyPathsAreUntouched(path: string, prefix: string)
    requires IsProxyPath(path) && ValidPrefix(prefix)
    ensures !(prefix + "/" <= path)
  {
    hide ValidPrefix, FirstSegment, IsProxyPath, IsReserved;
    var root := RootOf(path);
    RootsAreReserved(root);
    FirstSegmentOfUnder(path, root);
    PrefixFirstSegment(prefix);
    if prefix + "/" <= path {
      PrefixShape(prefix);
      FirstSegmentOfUnder(path, prefix);
      assert false;
    }
  }

  lemma PrefixShape(p: string)
    requires ValidPrefix(p)
    ensures |p| > 1 && p[0] == '/'
  {
  }

  lemma RootOf(path: string) returns (root: string)
    requires IsProxyPath(path)
    ensures root in PROXY_PATH_ROOTS && Under(path, root)
  {
    root :| root in PROXY_PATH_ROOTS && Under(path, root);
  }

  /** Two prefixes above the same path are the same, or one lies under the other. */
  lemma PrefixesOfOnePathClash(a: string, b: string, path: string)
    requires a + "/" <= path && b + "/" <= path
    ensures Clash(a, b)
  {
    if |a| == |b| {
      assert a == path[..|a|] == b;
    } else if |a| < |b| {
      assert a + "/" == path[..|a| + 1] == b[..|a| + 1];
    } else {
      assert b + "/" == path[..|b| + 1] == a[..|b| + 1];
    }
  }

  /** At most one prefix of an accepted list lies above any path. */
  lemma AtMostOneMatches(prefixes: seq<string>, path: string, i: nat, j: nat)
    requires Accepted(prefixes) && i < |prefixes| && j < |prefixes|
    requires prefixes[i] + "/" <= path && prefixes[j] + "/" <= path
    ensures i == j
  {
    hide ValidPrefix, Clash;
    PrefixesOfOnePathClash(prefixes[i], prefixes[j], path);
    PrefixesOfOnePathClash(prefixes[j], prefixes[i], path);
  }

  /** The prefix above the path decides alone, wherever it stands in the list. */
  lemma {:induction false} TheMatchDecides(path: string, prefixes: seq<string>, i: nat)
    requires i < |prefixes| && prefixes[i] + "/" <= path
    requires forall j :: 0 <= j < |prefixes| && prefixes[j] + "/" <= path ==> j == i
    ensures Strip(path, prefixes) ==
            if IsProxyPath(path[|prefixes[i]|..]) then Some(path[|prefixes[i]|..]) else None
  {
    hide IsProxyPath;
    if i == 0 {
      NoMatchNoStrip(path, prefixes[1..]);
    } else {
      assert prefixes[1..][i - 1] == prefixes[i];
      TheMatchDecides(path, prefixes[1..], i - 1);
    }
  }

  lemma {:induction false} NoMatchNoStrip(path: string, prefixes: seq<string>)
    requires forall j :: 0 <= j < |prefixes| ==> !(prefixes[j] + "/" <= path)
    ensures Strip(path, prefixes).None?
  {
    if prefixes != [] {
      NoMatchNoStrip(path, prefixes[1..]);
    }
  }

  /** The order of an accepted list does not matter. */
  lemma OrderDoesNotMatter(path: string, a: seq<string>, b: seq<string>)
    requires Accepted(a) && Accepted(b) && forall p :: p in a <==> p in b
    ensures Strip(path, a) == Strip(path, b)
  {
    hide ValidPrefix, Clash, IsProxyPath, Strip;
    if i :| 0 <= i < |a| && a[i] + "/" <= path {
      assert a[i] in b;
      var k :| 0 <= k < |b| && b[k] == a[i];
      StripsByTheMatch(path, a, i);
      StripsByTheMatch(path, b, k);
    } else {
      forall k | 0 <= k < |b| ensures !(b[k] + "/" <= path) {
        assert b[k] in a;
      }
      NoMatchNoStrip(path, a);
      NoMatchNoStrip(path, b);
    }
  }

  lemma StripsByTheMatch(path: string, prefixes: seq<string>, i: nat)
    requires Accepted(prefixes) && i < |prefixes| && prefixes[i] + "/" <= path
    ensures Strip(path, prefixes) ==
            if IsProxyPath(path[|prefixes[i]|..]) then Some(path[|prefixes[i]|..]) else None
  {
    hide Accepted, IsProxyPath, Strip;
    forall j | 0 <= j < |prefixes| && prefixes[j] + "/" <= path ensures j == i {
      AtMostOneMatches(prefixes, path, i, j);
    }
    TheMatchDecides(path, prefixes, i);
  }

  /** A prefix put before a proxy path is stripped again. */
  lemma StripUndoesThePrefix(prefixes: seq<string>, prefix: string, path: string)
    requires Accepted(prefixes) && prefix in prefixes && IsProxyPath(path)
    ensures Strip(prefix + path, prefixes) == Some(path)
  {
    hide Accepted, IsProxyPath, Strip;
    var i :| 0 <= i < |prefixes| && prefixes[i] == prefix;
    ProxyPathStartsWithSlash(path);
    assert prefix + "/" <= prefix + path;
    assert (prefix + path)[|prefix|..] == path;
    StripsByTheMatch(prefix + path, prefixes, i);
  }

  lemma ProxyPathStartsWithSlash(path: string)
    requires IsProxyPath(path)
    ensures "/" <= path
  {
    var root := RootOf(path);
    RootsAreReserved(root);
  }

  /** Proxy paths are left alone by every accepted list. */
  lemma ProxyPathsAreNotStripped(path: string, prefixes: seq<string>)
    requires Accepted(prefixes) && IsProxyPath(path)
    ensures Strip(path, prefixes).None?
  {
    hide ValidPrefix, IsProxyPath, Clash;
    forall j | 0 <= j < |prefixes| ensures !(prefixes[j] + "/" <= path) {
      ProxyPathsAreUntouched(path, prefixes[j]);
    }
    NoMatchNoStrip(path, prefixes);
  }

  /** Rewriting gives back the proxy path with its query untouched. */
  lemma RewriteKeepsTheQuery(prefixes: seq<string>, prefix: string, path: string, query: string)
    requires Accepted(prefixes) && prefix in prefixes && IsProxyPath(path) && '?' !in path
    requires query == "" || query[0] == '?'
    ensures Rewrite(prefix + path + query, prefixes) == Some(path + query)
  {
    hide Accepted, IsProxyPath, Strip;
    var i :| 0 <= i < |prefixes| && prefixes[i] == prefix;
    var url := prefix + path + query;
    PrefixHasNoQuery(prefixes, i);
    QueryStartsAt(prefix + path, query);
    assert url == (prefix + path) + query;
    StripUndoesThePrefix(prefixes, prefix, path);
  }

  lemma PrefixHasNoQuery(prefixes: seq<string>, i: nat)
    requires Accepted(prefixes) && i < |prefixes|
    ensures '?' !in prefixes[i]
  {
    ValidPrefixCharacters(prefixes[i]);
  }

  lemma QueryStartsAt(path: string, query: string)
    requires '?' !in path && (query == "" || query[0] == '?')
    ensures IndexOf(path + query, '?') == |path|
    ensures (path + query)[..|path|] == path && (path + query)[|path|..] == query
  {
    var url := path + query;
    assert forall j :: 0 <= j < |path| ==> url[j] == path[j] && path[j] in path;
    IndexOfIs(url, '?', |path|);
  }

  lemma {:induction false} StrippedIsAProxyPath(path: string, prefixes: seq<string>)
    requires Strip(path, prefixes).Some?
    ensures IsProxyPath(Strip(path, prefixes).value)
    ensures forall c :: c in Strip(path, prefixes).value ==> c in path
  {
    hide IsProxyPath;
    if !(prefixes[0] + "/" <= path && IsProxyPath(path[|prefixes[0]|..])) {
      StrippedIsAProxyPath(path, prefixes[1..]);
    }
  }

  /** A URL is rewritten at most once: rewriting the result again does nothing. */
  lemma RewritingHappensOnce(url: string, prefixes: seq<string>)
    requires Accepted(prefixes) && Rewrite(url, prefixes).Some?
    ensures Rewrite(Rewrite(url, prefixes).value, prefixes).None?
  {
    hide Accepted, IsProxyPath, Strip;
    var k := IndexOf(url, '?');
    var path := Strip(url[..k], prefixes).value;
    StrippedIsAProxyPath(url[..k], prefixes);
    assert '?' !in url[..k];
    QueryStartsAt(path, url[k..]);
    ProxyPathsAreNotStripped(path, prefixes);
  }

  // ---------------------------------------------------------------------------------------
  // Exactly which paths are stripped, and why an entry is refused
  // ---------------------------------------------------------------------------------------

  /** A proxy path is a root, or a root with a slash and anything after it. */
  lemma RootsAreProxyPaths(root: string, rest: string)
    requires root in PROXY_PATH_ROOTS
    ensures IsProxyPath(root) && IsProxyPath(root + "/" + rest)
  {
    assert Under(root, root) && Under(root + "/" + rest, root);
  }

  /** A path is stripped to a rest exactly if it is one of the prefixes followed by that rest, a proxy path. */
  lemma StrippedExactly(path: string, prefixes: seq<string>, rest: string)
    requires Accepted(prefixes)
    ensures Strip(path, prefixes) == Some(rest) <==>
            IsProxyPath(rest) && exists p :: p in prefixes && path == p + rest
  {
    hide Accepted, IsProxyPath, Strip;
    if Strip(path, prefixes) == Some(rest) {
      StrippedIsUnderAPrefix(path, prefixes);
      StrippedIsAProxyPath(path, prefixes);
    }
    forall p | IsProxyPath(rest) && p in prefixes && path == p + rest ensures Strip(path, prefixes) == Some(rest) {
      StripUndoesThePrefix(prefixes, p, rest);
    }
  }

  lemma {:induction false} StrippedIsUnderAPrefix(path: string, prefixes: seq<string>)
    requires Strip(path, prefixes).Some?
    ensures exists p :: p in prefixes && path == p + Strip(path, prefixes).value
  {
    hide IsProxyPath;
    if prefixes[0] + "/" <= path && IsProxyPath(path[|prefixes[0]|..]) {
      assert path == prefixes[0] + path[|prefixes[0]|..];
    } else {
      StrippedIsUnderAPrefix(path, prefixes[1..]);
      var p :| p in prefixes[1..] && path == p + Strip(path, prefixes[1..]).value;
      assert p in prefixes;
    }
  }

  predicate Slashes(s: string) {
    forall i :: 0 <= i < |s| ==> s[i] == '/'
  }

  /** An entry means the same with its leading slash or without it, and with any slashes after it. */
  lemma SlashesDoNotMatter(p: string, slashes: string)
    requires |p| > 1 && p[0] == '/' && p[|p| - 1] != '/' && Slashes(slashes)
    ensures Normalize(p + slashes) == p
    ensures p[1] != '/' ==> Normalize(p[1..] + slashes) == p
  {
    SlashesAreDropped(p, slashes);
    assert p + slashes == "/" + (p[1..] + slashes);
  }

  lemma {:induction false} SlashesAreDropped(p: string, slashes: string)
    requires |p| > 1 && p[|p| - 1] != '/' && Slashes(slashes)
    ensures DropTrailingSlashes(p + slashes) == p
  {
    if slashes == "" {
      assert p + slashes == p;
    } else {
      var n := |slashes| - 1;
      assert (p + slashes)[..|p + slashes| - 1] == p + slashes[..n];
      SlashesAreDropped(p, slashes[..n]);
    }
  }

  /** The error says what is wrong with the entry. */
  lemma ErrorsAreTruthful(prefixes: seq<string>, entry: string)
    requires AddEntry(prefixes, entry).Failure?
    ensures
      var prefix := Normalize(entry);
      var segments := if prefix == "" then [""] else Split(prefix[1..], '/');
      match AddEntry(prefixes, entry).error
      case NoSegment(e) => e == entry && prefix == "/"
      case TooLong(e) => e == entry && |prefix| > 128
      case EmptySegment(e) => e == entry && "" in segments
      case RelativeSegment(e) => e == entry && ("." in segments || ".." in segments)
      case InvalidCharacter(e, segment) =>
        e == entry && segment in segments && exists i :: 0 <= i < |segment| && !IsSegmentChar(segment[i])
      case ReservedSegment(e, segment) => e == entry && segment == segments[0] && segment in RESERVED_FIRST_SEGMENTS
      case Duplicate(e) => e == entry && prefix in prefixes
      case Overlap(e, existing) =>
        e == entry && existing in prefixes && (existing + "/" <= prefix || prefix + "/" <= existing)
  {
    var prefix := Normalize(entry);
    NormalizedStartsWithSlash(if "/" <= entry then entry else "/" + entry);
    SegmentErrorsAreTruthful(entry, if prefix == "" then [""] else Split(prefix[1..], '/'));
    ClashErrorsAreTruthful(entry, prefix, prefixes);
    hide Normalize, Split, CheckSegments, CheckExisting;
  }

  lemma {:induction false} SegmentErrorsAreTruthful(entry: string, segments: seq<string>)
    ensures CheckSegments(entry, segments).Some? ==>
              match CheckSegments(entry, segments).value
              case EmptySegment(e) => e == entry && "" in segments
              case RelativeSegment(e) => e == entry && ("." in segments || ".." in segments)
              case InvalidCharacter(e, segment) =>
                e == entry && segment in segments && exists i :: 0 <= i < |segment| && !IsSegmentChar(segment[i])
              case _ => false
  {
    if segments != [] {
      SegmentErrorsAreTruthful(entry, segments[1..]);
    }
  }

  lemma {:induction false} ClashErrorsAreTruthful(entry: string, prefix: string, existing: seq<string>)
    ensures CheckExisting(entry, prefix, existing).Some? ==>
              match CheckExisting(entry, prefix, existing).value
              case Duplicate(e) => e == entry && prefix in existing
              case Overlap(e, other) =>
                e == entry && other in existing && (other + "/" <= prefix || prefix + "/" <= other)
              case _ => false
  {
    if existing != [] {
      ClashErrorsAreTruthful(entry, prefix, existing[1..]);
    }
  }
}
