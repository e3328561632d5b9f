/** parseCpuSet of server-lib/multicore.js: how many CPUs a list such as `0-3,8,10-11` names. */
module CpuSet {
  import opened Wrappers
  import opened Strings

  datatype Range = Range(start: nat, end: nat)

  // ---------------------------------------------------------------------------------------
  // The reference: the union of the ranges
  // ---------------------------------------------------------------------------------------

  function Interval(lo: nat, hi: nat): (ids: set<nat>)
    ensures forall id :: id in ids <==> lo <= id < hi
    ensures |ids| == if lo < hi then hi - lo else 0
    decreases hi - lo
  {
    if lo >= hi then {} else Interval(lo, hi - 1) + {hi - 1}
  }

  function Ids(r: Range): set<nat> {
    Interval(r.start, r.end + 1)
  }

  function Union(ranges: seq<Range>): set<nat> {
    if ranges == [] then {} else Union(ranges[..|ranges| - 1]) + Ids(ranges[|ranges| - 1])
  }

  predicate Contains(r: Range, id: nat) {
    r.start <= id <= r.end
  }

  lemma {:induction false} InUnion(ranges: seq<Range>, id: nat)
    ensures id in Union(ranges) <==> exists r :: r in ranges && Contains(r, id)
  {
    if ranges != [] {
      var n := |ranges| - 1;
      InUnion(ranges[..n], id);
      assert id in Ids(ranges[n]) <==> Contains(ranges[n], id);
      forall r ensures r in ranges <==> r in ranges[..n] || r == ranges[n] {
        LastOrBefore(ranges, r);
      }
    }
  }

  lemma LastOrBefore<T>(s: seq<T>, x: T)
    requires s != []
    ensures x in s <==> x in s[..|s| - 1] || x == s[|s| - 1]
  {
    assert s == s[..|s| - 1] + [s[|s| - 1]];
  }

  /** Order and repetition do not matter. */
  lemma UnionIsASet(a: seq<Range>, b: seq<Range>)
    requires forall r :: r in a <==> r in b
    ensures Union(a) == Union(b)
  {
    forall id: nat ensures id in Union(a) <==> id in Union(b) {
      InUnion(a, id);
      InUnion(b, id);
    }
  }

  // ---------------------------------------------------------------------------------------
  // Parsing
  // ---------------------------------------------------------------------------------------

  function ParseToken(token: string): Option<Range> {
    var dash := IndexOf(token, '-');
    if dash == |token| then
      if Digits(token) && Value(token) <= MAX_SAFE_INTEGER then Some(Range(Value(token), Value(token))) else None
    else
      var (left, right) := (token[..dash], token[dash + 1..]);
      if !Digits(left) || !Digits(right) then None
      else
        var (start, end) := (Value(left), Value(right));
        if start > MAX_SAFE_INTEGER || end > MAX_SAFE_INTEGER || end < start then None else Some(Range(start, end))
  }

  function ParseTokens(items: seq<string>): Option<seq<Range>> {
    if items == [] then Some([])
    else
      var before := ParseTokens(items[..|items| - 1]);
      var last := ParseToken(Trim(items[|items| - 1]));
      if before.None? || last.None? then None else Some(before.value + [last.value])
  }

  /** The ranges of a valid list. */
  function ParseRanges(raw: string): Option<seq<Range>> {
    if Trim(raw) == "" then None else ParseTokens(Split(raw, ','))
  }

  // ---------------------------------------------------------------------------------------
  // Sorting and merging
  // ---------------------------------------------------------------------------------------

  predicate SortedByStart(ranges: seq<Range>) {
    forall i, j :: 0 <= i < j < |ranges| ==> ranges[i].start <= ranges[j].start
  }

  function Insert(r: Range, sorted: seq<Range>): seq<Range> {
    if sorted == [] || r.start < sorted[0].start then [r] + sorted
    else [sorted[0]] + Insert(r, sorted[1..])
  }

  function SortByStart(ranges: seq<Range>): seq<Range> {
    if ranges == [] then [] else Insert(ranges[|ranges| - 1], SortByStart(ranges[..|ranges| - 1]))
  }

  lemma {:induction false} InsertKeeps(r: Range, sorted: seq<Range>)
    requires SortedByStart(sorted)
    ensures SortedByStart(Insert(r, sorted))
    ensures forall x :: x in Insert(r, sorted) <==> x == r || x in sorted
  {
    if sorted == [] || r.start < sorted[0].start {
      forall k | 0 <= k < |sorted| ensures r.start <= sorted[k].start {
        assert k > 0 ==> sorted[0].start <= sorted[k].start;
      }
    } else {
      var more := Insert(r, sorted[1..]);
      InsertKeeps(r, sorted[1..]);
      assert sorted == [sorted[0]] + sorted[1..];
      forall k | 0 <= k < |more| ensures sorted[0].start <= more[k].start {
        assert more[k] in more;
      }
    }
  }

  lemma {:induction false} SortSorts(ranges: seq<Range>)
    ensures SortedByStart(SortByStart(ranges))
    ensures forall x :: x in SortByStart(ranges) <==> x in ranges
  {
    hide SortedByStart;
    if ranges == [] {
      assert SortedByStart([]) by {
        SortedNothing();
      }
    } else {
      var n := |ranges| - 1;
      SortSorts(ranges[..n]);
      InsertKeeps(ranges[n], SortByStart(ranges[..n]));
      forall x ensures x in ranges <==> x in ranges[..n] || x == ranges[n] {
        LastOrBefore(ranges, x);
      }
    }
  }

  lemma SortedNothing()
    ensures SortedByStart([])
  {
  }

  predicate ValidRanges(ranges: seq<Range>) {
    forall r :: r in ranges ==> r.start <= r.end
  }

  /** The last block of the union runs from start to end, and `count` ids lie before it. */
  predicate Merged(union: set<nat>, count: nat, start: nat, end: nat) {
    && start <= end
    && Interval(start, end + 1) <= union
    && (forall id :: id in union ==> id <= end)
    && |union| == count + (end - start + 1)
  }

  /** A range that touches the last block extends it. */
  lemma ExtendBlock(union: set<nat>, count: nat, start: nat, end: nat, next: Range)
    requires Merged(union, count, start, end) && start <= next.start <= end + 1 && next.start <= next.end
    ensures Merged(union + Ids(next), count, start, if end < next.end then next.end else end)
  {
    var more := Interval(end + 1, next.end + 1);
    forall id ensures id in union + Ids(next) <==> id in union + more {
      if id in Ids(next) && id !in more {
        assert id in Interval(start, end + 1);
      }
    }
    assert union + Ids(next) == union + more;
    assert union !! more;
  }

  /** Any other range starts a new block. */
  lemma StartBlock(union: set<nat>, count: nat, start: nat, end: nat, next: Range)
    requires Merged(union, count, start, end) && end + 1 < next.start <= next.end
    ensures Merged(union + Ids(next), count + (end - start + 1), next.start, next.end)
  {
    assert union !! Ids(next);
  }

  lemma UnionStep(ranges: seq<Range>, index: nat)
    requires index < |ranges|
    ensures Union(ranges[..index + 1]) == Union(ranges[..index]) + Ids(ranges[index])
  {
    assert ranges[..index + 1][..index] == ranges[..index];
  }

  lemma FirstBlock(r: Range)
    requires r.start <= r.end
    ensures Merged(Union([]) + Ids(r), 0, r.start, r.end)
  {
    assert Union([]) + Ids(r) == Ids(r);
  }

  /** The merge loop: sorted blocks are joined while they touch, and counted when they end. */
  method CountMerged(ranges: seq<Range>) returns (count: nat)
    requires ranges != [] && SortedByStart(ranges) && ValidRanges(ranges)
    ensures count == |Union(ranges)|
  {
    hide Interval, Union, Merged;
    count := 0;
    var currentStart: nat, currentEnd: nat := ranges[0].start, ranges[0].end;
    assert ranges[0] in ranges && ranges[..0] == [];
    UnionStep(ranges, 0);
    FirstBlock(ranges[0]);
    var index := 1;
    while index < |ranges|
      invariant 1 <= index <= |ranges|
      invariant currentStart <= ranges[index - 1].start
      invariant Merged(Union(ranges[..index]), count, currentStart, currentEnd)
    {
      var next := ranges[index];
      assert next in ranges && ranges[index - 1].start <= next.start;
      UnionStep(ranges, index);
      BlockIsNotEmpty(Union(ranges[..index]), count, currentStart, currentEnd);
      if next.start <= currentEnd + 1 {
        ExtendBlock(Union(ranges[..index]), count, currentStart, currentEnd, next);
        currentEnd := if currentEnd < next.end then next.end else currentEnd;
      } else {
        StartBlock(Union(ranges[..index]), count, currentStart, currentEnd, next);
        count := count + (currentEnd - currentStart + 1);
        currentStart, currentEnd := next.start, next.end;
      }
      index := index + 1;
    }
    assert ranges[..index] == ranges;
    BlockIsNotEmpty(Union(ranges), count, currentStart, currentEnd);
    count := count + (currentEnd - currentStart + 1);
  }

  lemma BlockIsNotEmpty(union: set<nat>, count: nat, start: nat, end: nat)
    requires Merged(union, count, start, end)
    ensures start <= end && |union| == count + (end - start + 1)
  {
  }

  /** The number of CPUs a list names: those in the union of its ranges; nothing for a malformed list. */
  function CpuCount(raw: string): Option<nat> {
    var ranges := ParseRanges(raw);
    if ranges.None? then None else Some(|Union(ranges.value)|)
  }

  lemma {:induction false} ParsedRangesAreValid(items: seq<string>)
    ensures ParseTokens(items).Some? ==> |ParseTokens(items).value| == |items| && ValidRanges(ParseTokens(items).value)
  {
    if items != [] {
      ParsedRangesAreValid(items[..|items| - 1]);
    }
  }

  method ParseCpuSet(raw: string) returns (count: Option<nat>)
    ensures count == CpuCount(raw)
    ensures count.Some? ==> count.value > 0
  {
    if Trim(raw) == "" {
      return None;
    }
    var items := Split(raw, ',');
    var ranges: seq<Range> := [];
    var i := 0;
    while i < |items|
      invariant 0 <= i <= |items|
      invariant ParseTokens(items[..i]) == Some(ranges)
    {
      var range := ParseToken(Trim(items[i]));
      assert items[..i + 1][..i] == items[..i];
      if range.None? {
        MalformedItem(items, i + 1);
        return None;
      }
      ranges := ranges + [range.value];
      i := i + 1;
    }
    assert items[..i] == items;
    ParsedRangesAreValid(items);
    SortSorts(ranges);
    var sorted := SortByStart(ranges);
    assert ranges[0] in sorted;
    UnionIsASet(sorted, ranges);
    var n := CountMerged(sorted);
    InUnion(ranges, ranges[0].start);
    assert Contains(ranges[0], ranges[0].start);
    return Some(n);
  }

  lemma {:induction false} MalformedItem(items: seq<string>, n: nat)
    requires n <= |items| && ParseTokens(items[..n]).None?
    ensures ParseTokens(items).None?
    decreases |items| - n
  {
    if n == |items| {
      assert items[..n] == items;
    } else {
      assert items[..n + 1][..n] == items[..n];
      MalformedItem(items, n + 1);
    }
  }

  // ---------------------------------------------------------------------------------------
  // Which lists are understood
  // ---------------------------------------------------------------------------------------

  /** A way to write one CPU, or a range of them: digits, with white space around them. */
  datatype Item =
    | One(left: string, id: string, right: string)
    | FromTo(left: string, first: string, last: string, right: string)

  predicate ValidItem(i: Item) {
    && Blank(i.left) && Blank(i.right)
    && match i
       case One(_, id, _) => Digits(id) && Value(id) <= MAX_SAFE_INTEGER
       case FromTo(_, first, last, _) =>
         Digits(first) && Digits(last) && Value(first) <= Value(last) <= MAX_SAFE_INTEGER
  }

  predicate ValidItems(items: seq<Item>) {
    forall i :: i in items ==> ValidItem(i)
  }

  function Core(i: Item): string {
    match i
    case One(_, id, _) => id
    case FromTo(_, first, last, _) => first + "-" + last
  }

  function Text(i: Item): string {
    i.left + Core(i) + i.right
  }

  function Texts(items: seq<Item>): seq<string> {
    if items == [] then [] else Texts(items[..|items| - 1]) + [Text(items[|items| - 1])]
  }

  function RangeOf(i: Item): Range
    requires ValidItem(i)
  {
    match i
    case One(_, id, _) => Range(Value(id), Value(id))
    case FromTo(_, first, last, _) => Range(Value(first), Value(last))
  }

  function RangesOf(items: seq<Item>): seq<Range>
    requires ValidItems(items)
  {
    if items == [] then [] else RangesOf(items[..|items| - 1]) + [RangeOf(items[|items| - 1])]
  }

  lemma CoreIsVisible(i: Item)
    requires ValidItem(i)
    ensures Core(i) != "" && !IsSpace(Core(i)[0]) && !IsSpace(Core(i)[|Core(i)| - 1])
    ensures Trim(Text(i)) == Core(i)
    ensures ',' !in Text(i)
  {
    var s := Core(i);
    assert IsDigit(s[0]) && IsDigit(s[|s| - 1]);
    TrimPadded(i.left, s, i.right);
    assert forall j :: 0 <= j < |s| ==> IsDigit(s[j]) || s[j] == '-';
  }

  lemma ItemIsParsed(i: Item)
    requires ValidItem(i)
    ensures ParseToken(Trim(Text(i))) == Some(RangeOf(i))
  {
    CoreIsVisible(i);
    hide Trim;
    match i
    case One(_, id, _) => IndexOfIs(id, '-', |id|);
    case FromTo(_, first, last, _) =>
      var s := first + "-" + last;
      IndexOfIs(s, '-', |first|);
      assert s[..|first|] == first && s[|first| + 1..] == last;
  }

  lemma ParseOneMore(items: seq<string>, last: string, ranges: seq<Range>, r: Range)
    requires ParseTokens(items) == Some(ranges) && ParseToken(Trim(last)) == Some(r)
    ensures ParseTokens(items + [last]) == Some(ranges + [r])
  {
    hide ParseToken, Trim;
    assert (items + [last])[..|items|] == items;
  }

  lemma {:induction false} ItemsAreParsed(items: seq<Item>)
    requires ValidItems(items)
    ensures ParseTokens(Texts(items)) == Some(RangesOf(items))
    ensures |Texts(items)| == |items| && forall p :: p in Texts(items) ==> ',' !in p
  {
    hide ParseToken, Text, Trim, ValidItem, RangeOf;
    if items != [] {
      hide ParseTokens;
      var before, last := items[..|items| - 1], items[|items| - 1];
      ItemsAreParsed(before);
      ItemIsParsed(last);
      CoreIsVisible(last);
      ParseOneMore(Texts(before), Text(last), RangesOf(before), RangeOf(last));
    } else {
      assert ParseTokens([]) == Some([]);
    }
  }

  /** Whatever CPUs and ranges a list names, however each is written, in whatever order and however they overlap
      or touch, their union is counted. */
  lemma ListsAreCounted(items: seq<Item>)
    requires items != [] && ValidItems(items)
    ensures CpuCount(Join(Texts(items), ",")) == Some(|Union(RangesOf(items))|)
  {
    hide ParseTokens, RangesOf, Trim, Join, Split, Union;
    ItemsAreParsed(items);
    SplitOfJoin(Texts(items), ',');
    NonBlankJoin(items);
  }

  lemma NonBlankJoin(items: seq<Item>)
    requires items != [] && ValidItems(items)
    ensures Trim(Join(Texts(items), ",")) != ""
  {
    hide Trim;
    var (i, s) := (items[0], Join(Texts(items), ","));
    FirstText(items);
    CoreIsVisible(i);
    JoinStarts(Texts(items));
    assert s[|i.left|] == Core(i)[0];
    VisibleText(s, |i.left|);
  }

  lemma JoinStarts(parts: seq<string>)
    requires parts != []
    ensures parts[0] <= Join(parts, ",")
  {
  }

  lemma {:induction false} FirstText(items: seq<Item>)
    requires items != []
    ensures Texts(items) != [] && Texts(items)[0] == Text(items[0])
  {
    if |items| > 1 {
      FirstText(items[..|items| - 1]);
    } else {
      assert Texts(items[..0]) == [];
    }
  }

  /** No other token is understood. */
  lemma TokenIsAnItem(text: string) returns (i: Item)
    requires ParseToken(Trim(text)).Some?
    ensures ValidItem(i) && Text(i) == text
  {
    var left, right := Padding(text);
    var token := Trim(text);
    var dash := IndexOf(token, '-');
    i := if dash == |token| then One(left, token, right) else FromTo(left, token[..dash], token[dash + 1..], right);
    assert Core(i) == token;
  }

  lemma {:induction false} TokensAreItems(texts: seq<string>) returns (items: seq<Item>)
    requires ParseTokens(texts).Some?
    ensures ValidItems(items) && Texts(items) == texts
  {
    hide ParseToken, Trim, Text, ValidItem;
    if texts == [] {
      items := [];
    } else {
      var before := TokensAreItems(texts[..|texts| - 1]);
      var last := TokenIsAnItem(texts[|texts| - 1]);
      items := before + [last];
      assert items[..|items| - 1] == before;
    }
  }

  /** No other list is understood. */
  lemma OnlySuchListsAreCounted(raw: string)
    ensures CpuCount(raw).Some? <==>
            exists items: seq<Item> :: items != [] && ValidItems(items) && Join(Texts(items), ",") == raw
  {
    hide ParseTokens, ValidItems, Texts, Join, Split, Trim;
    if CpuCount(raw).Some? {
      var items := TokensAreItems(Split(raw, ','));
      JoinOfSplit(raw, ',');
      TextsOfNothing();
      assert items != [] && ValidItems(items) && Join(Texts(items), ",") == raw;
    }
    forall items: seq<Item> | items != [] && ValidItems(items) && Join(Texts(items), ",") == raw
      ensures CpuCount(raw).Some?
    {
      ListsAreCounted(items);
    }
  }

  lemma TextsOfNothing()
    ensures Texts([]) == []
  {
  }

  /** The items of numbers: leading zeros, and a range with equal ends, say nothing more. */
  lemma NumbersAreItems(left: string, zeros: string, first: nat, more: string, last: nat, right: string)
    requires Blank(left) && Blank(right) && first <= last <= MAX_SAFE_INTEGER
    requires (forall i :: 0 <= i < |zeros| ==> zeros[i] == '0') && (forall i :: 0 <= i < |more| ==> more[i] == '0')
    ensures
      var one := One(left, zeros + Decimal(last), right);
      ValidItem(one) && RangeOf(one) == Range(last, last)
    ensures
      var pair := FromTo(left, zeros + Decimal(first), more + Decimal(last), right);
      ValidItem(pair) && RangeOf(pair) == Range(first, last)
  {
    PaddedDecimal(zeros, last);
    PaddedDecimal(zeros, first);
    PaddedDecimal(more, last);
    hide Digits, Value, Decimal, Blank;
  }

  lemma PaddedDecimal(zeros: string, n: nat)
    requires forall i :: 0 <= i < |zeros| ==> zeros[i] == '0'
    ensures Digits(zeros + Decimal(n)) && Value(zeros + Decimal(n)) == n
  {
    hide Value, Decimal;
    ValueOfPadded(zeros, Decimal(n));
    ValueOfDecimal(n);
  }
}
