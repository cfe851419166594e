/** Recovery of the JSON payload from the model's reply:
    `re.search(r'```json\s*({[\s\S]*?})\s*```', reply)` followed by
    `json.loads(match.group(1))`: no match and a `JSONDecodeError` give `None`,
    any other exception from the decoder is passed on. */
module FencedJson {
  import opened Wrappers
  import opened Text
  import opened JsonValue

  /** The opening fence of the pattern (case-sensitive, anywhere in the text). */
  const JsonFence: string := "```json"

  /** The closing fence of the pattern. */
  const Fence: string := "```"

  /** Where a match lies: the start of "```json", the `{` that begins group 1
      and the `}` that ends it. */
  datatype Span = Span(start: nat, open: nat, close: nat)

  // ---------------------------------------------------------------------------
  // What the pattern matches, stated declaratively.

  /** "```json" at i, then only whitespace, then `{` at k. */
  predicate IsOpening(s: string, i: nat, k: nat) {
    && StartsAt(s, i, JsonFence)
    && i + |JsonFence| <= k < |s|
    && AllIn(s, i + |JsonFence|, k, IsWs)
    && s[k] == '{'
  }

  /** A `}` at j that whitespace and then "```" follow. */
  ghost predicate ClosesAt(s: string, j: nat) {
    && j < |s|
    && s[j] == '}'
    && exists m :: j + 1 <= m <= |s| && AllIn(s, j + 1, m, IsWs) && StartsAt(s, m, Fence)
  }

  /** The pattern matches s[i..] with group 1 equal to s[k..j + 1]. */
  ghost predicate IsMatch(s: string, i: nat, k: nat, j: nat) {
    IsOpening(s, i, k) && k < j && ClosesAt(s, j)
  }

  ghost predicate NoMatch(s: string) {
    forall i: nat, k: nat, j: nat :: !IsMatch(s, i, k, j)
  }

  /** The match `re.search` reports: the leftmost start, and at that start the
      first `}` the lazy `[\s\S]*?` can stop at. */
  ghost predicate IsSearchMatch(s: string, m: Span) {
    && IsMatch(s, m.start, m.open, m.close)
    && (forall i: nat, k: nat, j: nat :: i < m.start ==> !IsMatch(s, i, k, j))
    && (forall j: nat :: m.open < j < m.close ==> !ClosesAt(s, j))
  }

  // ---------------------------------------------------------------------------
  // Facts about the pattern.

  /** The whitespace before `{` is always the whole run: the greedy `\s*` never
      gives anything back, so an opening at i has a single `{`. */
  lemma OpeningIsGreedy(s: string, i: nat)
    ensures forall k: nat :: IsOpening(s, i, k) ==> k == SkipWhile(s, i + |JsonFence|, IsWs)
  {
    forall k: nat | IsOpening(s, i, k) ensures k == SkipWhile(s, i + |JsonFence|, IsWs) {
      SkipWhileUnique(s, i + |JsonFence|, IsWs, k);
    }
  }

  /** The whitespace before "```" is always the whole run as well. */
  lemma FenceIsGreedy(s: string, p: nat)
    requires p <= |s|
    ensures forall m :: p <= m <= |s| && AllIn(s, p, m, IsWs) && StartsAt(s, m, Fence) ==> m == SkipWhile(s, p, IsWs)
  {
    forall m | p <= m <= |s| && AllIn(s, p, m, IsWs) && StartsAt(s, m, Fence)
      ensures m == SkipWhile(s, p, IsWs)
    {
      assert s[m] == s[m..m + |Fence|][0] == '`';
      SkipWhileUnique(s, p, IsWs, m);
    }
  }

  /** "```json" cannot overlap itself. */
  lemma FenceNoSelfOverlap(s: string, i: nat, i2: nat)
    requires StartsAt(s, i, JsonFence) && StartsAt(s, i2, JsonFence) && i < i2
    ensures i + |JsonFence| <= i2
  {
    FenceChar(s, i, 3);
    FenceChar(s, i, 4);
    FenceChar(s, i, 5);
    FenceChar(s, i, 6);
    FenceChar(s, i2, 0);
    FenceChar(s, i2, 1);
    FenceChar(s, i2, 2);
  }

  lemma FenceChar(s: string, i: nat, t: nat)
    requires StartsAt(s, i, JsonFence) && t < |JsonFence|
    ensures s[i + t] == JsonFence[t]
  {
    assert s[i + t] == s[i..i + |JsonFence|][t];
  }

  /** A later opening starts after the `{` of an earlier one. */
  lemma OpeningsDoNotOverlap(s: string, i: nat, k: nat, i2: nat, k2: nat)
    requires IsOpening(s, i, k) && IsOpening(s, i2, k2) && i < i2
    ensures k < i2 && k < k2
  {
    FenceNoSelfOverlap(s, i, i2);
    assert s[i2] == s[i2..i2 + |JsonFence|][0] == '`';
  }

  /** If the leftmost opening has no closer after it, no later opening has one
      either, and the search fails altogether. */
  lemma LeftmostOpeningDecides(s: string, i: nat, k: nat)
    requires IsOpening(s, i, k)
    requires forall i2: nat, k2: nat :: i2 < i ==> !IsOpening(s, i2, k2)
    requires forall j: nat :: k < j ==> !ClosesAt(s, j)
    ensures forall i2: nat, k2: nat, j: nat :: i < i2 && IsOpening(s, i2, k2) && k2 < j ==> !ClosesAt(s, j)
    ensures NoMatch(s)
  {
    forall i2: nat, k2: nat | i < i2 && IsOpening(s, i2, k2) ensures k < k2 {
      OpeningsDoNotOverlap(s, i, k, i2, k2);
    }
    OpeningIsGreedy(s, i);
  }

  // ---------------------------------------------------------------------------
  // The search, as the regular-expression engine runs it.

  /** The `{` of an opening at i, if there is one. */
  function OpeningAt(s: string, i: nat): (k: Option<nat>)
    ensures k.Some? ==> IsOpening(s, i, k.value)
    ensures k.None? ==> forall k': nat :: !IsOpening(s, i, k')
  {
    OpeningIsGreedy(s, i);
    if StartsAt(s, i, JsonFence) then
      var k := SkipWhile(s, i + |JsonFence|, IsWs);
      if k < |s| && s[k] == '{' then Some(k) else None
    else None
  }

  /** `\s*```` ` matches at p. */
  function FenceAfter(s: string, p: nat): (b: bool)
    requires p <= |s|
    ensures b <==> exists m :: p <= m <= |s| && AllIn(s, p, m, IsWs) && StartsAt(s, m, Fence)
  {
    FenceIsGreedy(s, p);
    StartsAt(s, SkipWhile(s, p, IsWs), Fence)
  }

  /** The lazy `[\s\S]*?}`: the first j at or after `from` where the rest of the
      pattern succeeds. */
  function CloserFrom(s: string, from: nat): (j: Option<nat>)
    decreases |s| - from
    ensures j.Some? ==> from <= j.value && ClosesAt(s, j.value)
    ensures j.Some? ==> forall j': nat :: from <= j' < j.value ==> !ClosesAt(s, j')
    ensures j.None? ==> forall j': nat :: from <= j' ==> !ClosesAt(s, j')
  {
    if from >= |s| then None
    else if s[from] == '}' && FenceAfter(s, from + 1) then Some(from)
    else CloserFrom(s, from + 1)
  }

  /** One attempt of the engine at start position i. */
  function MatchAt(s: string, i: nat): (r: Option<Span>)
    ensures r.Some? ==> r.value.start == i && IsMatch(s, i, r.value.open, r.value.close)
    ensures r.Some? ==> forall j: nat :: r.value.open < j < r.value.close ==> !ClosesAt(s, j)
    ensures r.None? ==> forall k: nat, j: nat :: !IsMatch(s, i, k, j)
  {
    match OpeningAt(s, i)
    case None => None
    case Some(k) =>
      match CloserFrom(s, k + 1)
      case None => None
      case Some(j) => Some(Span(i, k, j))
  }

  /** `re.search` from position i on: try MatchAt at i, i + 1, ... */
  function SearchFrom(s: string, i: nat): (r: Option<Span>)
    decreases |s| - i
    ensures r.Some? ==> i <= r.value.start && IsMatch(s, r.value.start, r.value.open, r.value.close)
    ensures r.Some? ==> forall j: nat :: r.value.open < j < r.value.close ==> !ClosesAt(s, j)
    ensures r.Some? ==> forall i': nat, k: nat, j: nat :: i <= i' < r.value.start ==> !IsMatch(s, i', k, j)
    ensures r.None? ==> forall i': nat, k: nat, j: nat :: i <= i' ==> !IsMatch(s, i', k, j)
  {
    if i >= |s| then None
    else
      match MatchAt(s, i)
      case Some(m) => Some(m)
      case None => SearchFrom(s, i + 1)
  }

  /** `re.search(pattern, s)`: the match it reports, or None. */
  function Search(s: string): (r: Option<Span>)
    ensures r.Some? ==> IsSearchMatch(s, r.value)
    ensures r.None? ==> NoMatch(s)
  {
    SearchFrom(s, 0)
  }

  /** The match `re.search` reports is determined by the text. */
  lemma SearchMatchUnique(s: string, m: Span)
    requires IsSearchMatch(s, m)
    ensures forall m' :: IsSearchMatch(s, m') ==> m' == m
  {
    forall m' | IsSearchMatch(s, m') ensures m' == m {
      OpeningIsGreedy(s, m.start);
      assert m'.start == m.start;
      assert m'.open == m.open;
    }
  }

  lemma SearchMatchIsMatch(s: string, m: Span)
    requires IsSearchMatch(s, m)
    ensures !NoMatch(s)
    ensures m.open < m.close < |s| && s[m.open] == '{' && s[m.close] == '}'
  {
    assert IsMatch(s, m.start, m.open, m.close);
  }

  lemma GroupOfMatch(s: string, m: Span)
    requires IsSearchMatch(s, m) && m.open <= m.close < |s|
    ensures forall m' :: IsSearchMatch(s, m') ==> Some(s[m.open..m.close + 1]) == Some(s[m'.open..m'.close + 1])
  {
    SearchMatchUnique(s, m);
  }

  lemma NoSearchMatch(s: string)
    requires NoMatch(s)
    ensures forall m :: !IsSearchMatch(s, m)
  {
    forall m ensures !IsSearchMatch(s, m) {
      assert !IsMatch(s, m.start, m.open, m.close);
    }
  }

  // ---------------------------------------------------------------------------
  // The extractor.

  /** `match.group(1)` when there is a match. */
  function FencedBody(s: string): (body: Option<string>)
    ensures body.None? <==> NoMatch(s)
    ensures body.Some? ==> |body.value| >= 2 && body.value[0] == '{' && body.value[|body.value| - 1] == '}'
    ensures forall m :: IsSearchMatch(s, m) ==> body == Some(s[m.open..m.close + 1])
  {
    match Search(s)
    case None =>
      NoSearchMatch(s);
      None
    case Some(m) =>
      GroupOfMatch(s, m);
      SearchMatchIsMatch(s, m);
      Some(s[m.open..m.close + 1])
  }

  /** The `try`/`except json.JSONDecodeError` around `json.loads`: a decoded
      value, None for a decode error, and any other exception passed on. */
  function CatchDecodeError(d: Decoded): Result<Option<Json>, string> {
    match d
    case Loaded(v) => Ok(Some(v))
    case DecodeError => Ok(None)
    case Escaped(cause) => Err(cause)
  }

  /** `__extract_json` / `extract_json`: None when no fenced block matches;
      otherwise what `json.loads` makes of the body of the reported match, with
      a decode error turned into None and any other exception raised on. */
  function ExtractJson(reply: string, parse: Parser): (r: Result<Option<Json>, string>)
    ensures NoMatch(reply) ==> r == Ok(None)
    ensures forall m :: IsSearchMatch(reply, m) ==> r == CatchDecodeError(parse(reply[m.open..m.close + 1]))
  {
    match FencedBody(reply)
    case None => Ok(None)
    case Some(body) => CatchDecodeError(parse(body))
  }

  /** The body starts with `{`, so a parser that follows RFC 8259 can only
      return an object from it. */
  lemma ExtractedIsObject(reply: string, parse: Parser)
    requires ObjectsFromBraces(parse)
    ensures var r := ExtractJson(reply, parse); r.Ok? && r.value.Some? ==> r.value.value.Object?
  {
  }

  // ---------------------------------------------------------------------------
  // Round trip and first-match policy.

  /** No opening of the pattern lies wholly in s. */
  ghost predicate NoOpening(s: string) {
    forall i: nat, k: nat :: !IsOpening(s, i, k)
  }

  /** A body the extractor hands back unchanged: it starts with `{`, ends with
      `}`, and no `}` inside it is followed by optional whitespace and "```". */
  ghost predicate WellFormedBody(b: string) {
    && |b| >= 2
    && b[0] == '{'
    && b[|b| - 1] == '}'
    && forall j: nat :: j < |b| - 1 ==> !ClosesAt(b, j)
  }

  /** A closer inside the body of a block is a closer of the body alone. */
  lemma CloserInsideBody(s: string, off: nat, b: string, j: nat)
    requires off + |b| <= |s| && s[off..off + |b|] == b
    requires |b| >= 1 && b[|b| - 1] == '}'
    requires off <= j < off + |b| - 1 && ClosesAt(s, j)
    ensures ClosesAt(b, j - off)
  {
    var m :| j + 1 <= m <= |s| && AllIn(s, j + 1, m, IsWs) && StartsAt(s, m, Fence);
    FenceBeforeLast(s, j, off + |b| - 1, m);
    InfixCloser(s, off, b, j, m);
  }

  /** A fence that only whitespace separates from position j + 1 ends before
      any later `}`. */
  lemma FenceBeforeLast(s: string, j: nat, last: nat, m: nat)
    requires j < last < |s| && s[last] == '}'
    requires j + 1 <= m && StartsAt(s, m, Fence) && AllIn(s, j + 1, m, IsWs)
    ensures m + |Fence| <= last
  {
    assert !IsWs(s[last]);
    assert s[m] == s[m..m + |Fence|][0] == '`';
    assert s[m + 1] == s[m..m + |Fence|][1] == '`';
    assert s[m + 2] == s[m..m + |Fence|][2] == '`';
  }

  /** The witness of a closer in s, shifted into the infix b of s. */
  lemma InfixCloser(s: string, off: nat, b: string, j: nat, m: nat)
    requires off + |b| <= |s| && s[off..off + |b|] == b
    requires off <= j < m && m + |Fence| <= off + |b|
    requires s[j] == '}' && AllIn(s, j + 1, m, IsWs) && StartsAt(s, m, Fence)
    ensures ClosesAt(b, j - off)
  {
    assert forall t :: off <= t < off + |b| ==> s[t] == b[t - off];
    var m' := m - off;
    assert b[j - off] == '}';
    assert j - off + 1 <= m' <= |b|;
    assert AllIn(b, j - off + 1, m', IsWs);
    assert b[m'..m' + |Fence|] == s[m..m + |Fence|];
    assert StartsAt(b, m', Fence);
  }

  /** No opening of the pattern starts inside a prefix that has no opening of
      its own, when "```json" follows the prefix: the whitespace after an
      earlier "```json" cannot reach past the prefix, since a backtick ends it. */
  lemma NoMatchInPrefix(pre: string, s: string)
    requires |pre| + |JsonFence| <= |s| && s[..|pre|] == pre && StartsAt(s, |pre|, JsonFence)
    requires NoOpening(pre)
    ensures forall i: nat, k: nat :: i < |pre| ==> !IsOpening(s, i, k)
  {
    forall i: nat, k: nat | i < |pre| && IsOpening(s, i, k) ensures false {
      if i + |JsonFence| <= |pre| {
        OpeningInPrefix(pre, s, i, k);
      } else {
        FenceNoSelfOverlap(s, i, |pre|);
      }
    }
  }

  /** An opening in s whose "```json" lies in the prefix lies wholly in the
      prefix: the "```json" after the prefix stops the whitespace run. */
  lemma OpeningInPrefix(pre: string, s: string, i: nat, k: nat)
    requires |pre| + |JsonFence| <= |s| && s[..|pre|] == pre && StartsAt(s, |pre|, JsonFence)
    requires i + |JsonFence| <= |pre| && IsOpening(s, i, k)
    ensures IsOpening(pre, i, k)
  {
    FenceChar(s, |pre|, 0);
    assert !IsWs(s[|pre|]) && s[|pre|] != '{';
    assert k < |pre|;
    assert forall t :: 0 <= t < |pre| ==> pre[t] == s[t];
    assert pre[i..i + |JsonFence|] == s[i..i + |JsonFence|];
  }

  /** The text of a reply whose first fenced block wraps b. */
  function Wrapped(pre: string, b: string, rest: string): string {
    pre + JsonFence + "\n" + b + "\n" + Fence + rest
  }

  lemma WrappedLayout(pre: string, b: string, rest: string)
    ensures var s, off := Wrapped(pre, b, rest), |pre| + |JsonFence| + 1;
      && off + |b| + 1 + |Fence| <= |s|
      && s[..|pre|] == pre
      && StartsAt(s, |pre|, JsonFence)
      && s[|pre| + |JsonFence|] == '\n'
      && s[off..off + |b|] == b
      && s[off + |b|] == '\n'
      && StartsAt(s, off + |b| + 1, Fence)
  {
    var s, off := Wrapped(pre, b, rest), |pre| + |JsonFence| + 1;
    assert s == pre + (JsonFence + ("\n" + (b + ("\n" + (Fence + rest)))));
  }

  lemma WrappedSpelled(pre: string, b: string, rest: string)
    ensures pre + "```json\n" + b + "\n```" + rest == Wrapped(pre, b, rest)
  {
    assert "```json\n" == JsonFence + "\n";
    assert "\n```" == "\n" + Fence;
    RegroupFences(pre, JsonFence, "\n", b, "\n", Fence, rest);
  }

  lemma RegroupFences(a: string, f: string, g: string, b: string, h: string, k: string, r: string)
    ensures a + (f + g) + b + (h + k) + r == a + f + g + b + h + k + r
  {
  }

  /** The search on a text laid out as a wrapped block finds that block. */
  lemma LayoutSearch(s: string, pre: string, b: string)
    requires NoOpening(pre) && WellFormedBody(b)
    requires var off := |pre| + |JsonFence| + 1;
      && off + |b| + 1 + |Fence| <= |s|
      && s[..|pre|] == pre
      && StartsAt(s, |pre|, JsonFence)
      && s[|pre| + |JsonFence|] == '\n'
      && s[off..off + |b|] == b
      && s[off + |b|] == '\n'
      && StartsAt(s, off + |b| + 1, Fence)
    ensures IsSearchMatch(s, Span(|pre|, |pre| + |JsonFence| + 1, |pre| + |JsonFence| + |b|))
  {
    var off := |pre| + |JsonFence| + 1;
    var c := off + |b| - 1;
    assert s[off] == b[0] && s[c] == b[|b| - 1];
    assert AllIn(s, |pre| + |JsonFence|, off, IsWs);
    assert IsOpening(s, |pre|, off);
    assert AllIn(s, c + 1, c + 2, IsWs);
    assert ClosesAt(s, c);
    NoMatchInPrefix(pre, s);
    forall j: nat | off < j < c ensures !ClosesAt(s, j) {
      if ClosesAt(s, j) {
        CloserInsideBody(s, off, b, j);
      }
    }
  }

  /** The search on a wrapped block finds that block and hands its body over. */
  lemma WrappedExtract(pre: string, b: string, rest: string, parse: Parser)
    requires NoOpening(pre) && WellFormedBody(b)
    ensures FencedBody(Wrapped(pre, b, rest)) == Some(b)
    ensures ExtractJson(Wrapped(pre, b, rest), parse) == CatchDecodeError(parse(b))
  {
    var s := Wrapped(pre, b, rest);
    WrappedLayout(pre, b, rest);
    LayoutSearch(s, pre, b);
    var m := Span(|pre|, |pre| + |JsonFence| + 1, |pre| + |JsonFence| + |b|);
    MatchBody(s, m);
    assert s[m.open..m.close + 1] == b;
  }

  lemma MatchBody(s: string, m: Span)
    requires IsSearchMatch(s, m)
    ensures FencedBody(s) == Some(s[m.open..m.close + 1])
  {
    var b := FencedBody(s);
    assert IsSearchMatch(s, m) ==> b == Some(s[m.open..m.close + 1]);
  }

  /** The first block wins: a reply whose first fenced block wraps a well-formed
      body hands exactly that body to `json.loads`, whatever follows it, and so
      whatever fenced blocks follow it. */
  lemma FirstBlockWins(pre: string, b: string, rest: string, parse: Parser)
    requires NoOpening(pre) && WellFormedBody(b)
    ensures FencedBody(pre + "```json\n" + b + "\n```" + rest) == Some(b)
    ensures ExtractJson(pre + "```json\n" + b + "\n```" + rest, parse) == CatchDecodeError(parse(b))
  {
    WrappedSpelled(pre, b, rest);
    WrappedExtract(pre, b, rest, parse);
  }

  /** Round trip: a well-formed body wrapped in "```json\n" ... "\n```" is
      handed to `json.loads` unchanged. */
  lemma RoundTrip(b: string, parse: Parser)
    requires WellFormedBody(b)
    ensures FencedBody("```json\n" + b + "\n```") == Some(b)
    ensures ExtractJson("```json\n" + b + "\n```", parse) == CatchDecodeError(parse(b))
  {
    WrappedAlone(b);
    WrappedExtract("", b, "", parse);
  }

  lemma WrappedAlone(b: string)
    ensures Wrapped("", b, "") == "```json\n" + b + "\n```"
  {
    WrappedSpelled("", b, "");
    assert "" + "```json\n" + b + "\n```" + "" == "```json\n" + b + "\n```";
  }

  /** The first of two well-formed fenced blocks is the one parsed. */
  lemma FirstOfTwoBlocks(b1: string, gap: string, b2: string, parse: Parser)
    requires WellFormedBody(b1) && WellFormedBody(b2)
    ensures ExtractJson("```json\n" + b1 + "\n```" + gap + "```json\n" + b2 + "\n```", parse) == CatchDecodeError(parse(b1))
  {
    var rest := gap + "```json\n" + b2 + "\n```";
    WrappedSpelled("", b1, rest);
    WrappedExtract("", b1, rest, parse);
    ConcatRegroup("```json\n", b1, "\n```", gap, "```json\n", b2, "\n```");
  }

  lemma ConcatRegroup(a: string, b: string, c: string, d: string, e: string, f: string, g: string)
    ensures "" + a + b + c + (d + e + f + g) == a + b + c + d + e + f + g
  {
  }
}
