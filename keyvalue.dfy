/** The key/value scan of `DataFrame.py`:
    `re.findall(r'([A-Za-z ]+): ([A-Za-z0-9 ,.-]+)', text)` and a record
    `(match[0].strip(), match[1].strip())` per match. */
module KeyValueScan {
  import opened Wrappers
  import opened Text

  /** `[A-Za-z ]`: ASCII letters and space. */
  predicate IsKeyChar(c: char) {
    ('A' <= c <= 'Z') || ('a' <= c <= 'z') || c == ' '
  }

  /** `[A-Za-z0-9 ,.-]`: ASCII letters, digits, space, comma, full stop, hyphen. */
  predicate IsValueChar(c: char) {
    ('A' <= c <= 'Z') || ('a' <= c <= 'z') || ('0' <= c <= '9') || c == ' ' || c == ',' || c == '.' || c == '-'
  }

  /** A raw match: the key run s[start..colon], then ": ", then the value run
      s[colon + 2..end]. */
  datatype RawMatch = RawMatch(start: nat, colon: nat, end: nat)

  /** What the pattern matches at p: a non-empty key run, ": ", and a non-empty
      value run that greedy `+` extends as far as the class allows. (The key
      run is maximal too, since `:` is not a key character.) */
  ghost predicate IsRawMatchAt(s: string, p: nat, m: RawMatch) {
    && m.start == p
    && p < m.colon
    && m.colon + 2 < m.end <= |s|
    && AllIn(s, p, m.colon, IsKeyChar)
    && s[m.colon] == ':'
    && s[m.colon + 1] == ' '
    && AllIn(s, m.colon + 2, m.end, IsValueChar)
    && (m.end == |s| || !IsValueChar(s[m.end]))
  }

  /** Both runs of a match are the greedy ones: the pattern cannot backtrack
      to a shorter key (a key character is not `:`) or stop the value early. */
  lemma RawMatchIsGreedy(s: string, p: nat)
    requires p <= |s|
    ensures forall m :: IsRawMatchAt(s, p, m) ==>
      m.colon == SkipWhile(s, p, IsKeyChar) && m.end == SkipWhile(s, m.colon + 2, IsValueChar)
  {
    forall m | IsRawMatchAt(s, p, m)
      ensures m.colon == SkipWhile(s, p, IsKeyChar) && m.end == SkipWhile(s, m.colon + 2, IsValueChar)
    {
      SkipWhileUnique(s, p, IsKeyChar, m.colon);
      SkipWhileUnique(s, m.colon + 2, IsValueChar, m.end);
    }
  }

  /** One attempt of the engine at position p. */
  function MatchAt(s: string, p: nat): (r: Option<RawMatch>)
    requires p <= |s|
    ensures r.Some? ==> IsRawMatchAt(s, p, r.value)
    ensures r.None? ==> forall m :: !IsRawMatchAt(s, p, m)
  {
    RawMatchIsGreedy(s, p);
    var colon := SkipWhile(s, p, IsKeyChar);
    if colon > p && colon + 1 < |s| && s[colon] == ':' && s[colon + 1] == ' ' then
      var end := SkipWhile(s, colon + 2, IsValueChar);
      if end > colon + 2 then Some(RawMatch(p, colon, end)) else None
    else None
  }

  /** No raw match at q lies inside [start, end) of any match in ms. */
  ghost predicate Uncovered(ms: seq<RawMatch>, q: nat) {
    forall i :: 0 <= i < |ms| ==> !(ms[i].start <= q < ms[i].end)
  }

  /** `re.findall` from position p on: record a match and resume at its end, or
      move one position on. */
  function FindAllFrom(s: string, p: nat): (ms: seq<RawMatch>)
    requires p <= |s|
    decreases |s| - p
    ensures forall i :: 0 <= i < |ms| ==> p <= ms[i].start && IsRawMatchAt(s, ms[i].start, ms[i])
    ensures forall i :: 0 <= i < |ms| - 1 ==> ms[i].end <= ms[i + 1].start
  {
    if p == |s| then []
    else
      match MatchAt(s, p)
      case Some(m) => [m] + FindAllFrom(s, m.end)
      case None => FindAllFrom(s, p + 1)
  }

  /** The raw matches of the whole text: each one is a match of the pattern,
      and they come in text order without overlapping. */
  function FindAll(s: string): (ms: seq<RawMatch>)
    ensures forall i :: 0 <= i < |ms| ==> IsRawMatchAt(s, ms[i].start, ms[i])
    ensures forall i :: 0 <= i < |ms| - 1 ==> ms[i].end <= ms[i + 1].start
  {
    FindAllFrom(s, 0)
  }

  /** findall misses nothing: a position at or after p that no reported match
      covers is one where the pattern does not match. */
  lemma {:induction false} FindAllFromComplete(s: string, p: nat, q: nat)
    requires p <= q < |s|
    requires Uncovered(FindAllFrom(s, p), q)
    ensures forall m :: !IsRawMatchAt(s, q, m)
    decreases |s| - p
  {
    match MatchAt(s, p)
    case Some(m) =>
      assert FindAllFrom(s, p) == [m] + FindAllFrom(s, m.end);
      UncoveredTail(m, FindAllFrom(s, m.end), q);
      FindAllFromComplete(s, m.end, q);
    case None =>
      if q > p {
        FindAllFromComplete(s, p + 1, q);
      }
  }

  lemma UncoveredTail(m: RawMatch, rest: seq<RawMatch>, q: nat)
    requires Uncovered([m] + rest, q)
    ensures !(m.start <= q < m.end) && Uncovered(rest, q)
  {
    assert ([m] + rest)[0] == m;
    forall i | 0 <= i < |rest| ensures !(rest[i].start <= q < rest[i].end) {
      assert rest[i] == ([m] + rest)[i + 1];
    }
  }

  lemma FindAllComplete(s: string, q: nat)
    requires q < |s| && Uncovered(FindAll(s), q)
    ensures forall m :: !IsRawMatchAt(s, q, m)
  {
    FindAllFromComplete(s, 0, q);
  }

  /** A key as it comes out: key characters only, no space at either end. */
  predicate IsCleanKey(k: string) {
    AllIn(k, 0, |k|, IsKeyChar) && (k == "" || (k[0] != ' ' && k[|k| - 1] != ' '))
  }

  /** A value as it comes out: value characters only, no space at either end. */
  predicate IsCleanValue(v: string) {
    AllIn(v, 0, |v|, IsValueChar) && (v == "" || (v[0] != ' ' && v[|v| - 1] != ' '))
  }

  /** The key and value of one raw match, stripped. */
  function Record(s: string, m: RawMatch): (r: (string, string))
    requires IsRawMatchAt(s, m.start, m)
    ensures IsCleanKey(r.0) && IsCleanValue(r.1)
  {
    var key, value := s[m.start..m.colon], s[m.colon + 2..m.end];
    assert AllIn(key, 0, |key|, IsKeyChar) && AllIn(value, 0, |value|, IsValueChar) by {
      assert forall t :: 0 <= t < |key| ==> key[t] == s[m.start + t];
      assert forall t :: 0 <= t < |value| ==> value[t] == s[m.colon + 2 + t];
    }
    StripKeepsClass(key, IsKeyChar);
    StripKeepsClass(value, IsValueChar);
    (Strip(key), Strip(value))
  }

  /** `data_list`: one record per raw match, in text order, none dropped (a
      key or value of spaces alone becomes ""). */
  function Records(s: string): (rs: seq<(string, string)>)
    ensures |rs| == |FindAll(s)|
    ensures forall i :: 0 <= i < |rs| ==> rs[i] == Record(s, FindAll(s)[i])
    ensures forall i :: 0 <= i < |rs| ==> IsCleanKey(rs[i].0) && IsCleanValue(rs[i].1)
  {
    var ms := FindAll(s);
    seq(|ms|, i requires 0 <= i < |ms| => Record(s, ms[i]))
  }

  lemma GreedyExampleScan()
    ensures FindAll("a: b c: d") == [RawMatch(0, 1, 6)]
  {
    var s := "a: b c: d";
    assert SkipWhile(s, 3, IsValueChar) == 6;
    assert MatchAt(s, 0) == Some(RawMatch(0, 1, 6));
    assert MatchAt(s, 6) == None;
    assert SkipWhile(s, 7, IsKeyChar) == 9;
    assert MatchAt(s, 7) == None;
    assert MatchAt(s, 8) == None;
    assert FindAllFrom(s, 6) == [];
  }

  /** The value is greedy: it swallows the following "c: d" up to the colon,
      which then cannot start a match of its own. */
  lemma GreedyValueExample()
    ensures Records("a: b c: d") == [("a", "b c")]
  {
    var s := "a: b c: d";
    var ms := FindAll(s);
    GreedyExampleScan();
    assert IsRawMatchAt(s, 0, ms[0]);
    GreedyExampleRecord();
    var rs := Records(s);
    assert |rs| == 1 && rs[0] == Record(s, ms[0]);
  }

  lemma GreedyExampleRecord()
    requires IsRawMatchAt("a: b c: d", 0, RawMatch(0, 1, 6))
    ensures Record("a: b c: d", RawMatch(0, 1, 6)) == ("a", "b c")
  {
    var s := "a: b c: d";
    assert s[0..1] == "a" && s[3..6] == "b c";
    StripExamples();
  }

  lemma StripExamples()
    ensures Strip("a") == "a" && Strip("b c") == "b c" && Strip(" ") == "" && Strip("x") == "x"
  {
    assert SkipWhile("b c", 0, IsWs) == 0;
    assert TrailingWsStart("b c", 0, 3) == 3;
    assert "b c"[0..3] == "b c";
  }

  /** Records are never filtered: a key of spaces alone strips to "" and is
      still emitted. */
  lemma BlankKeyExample()
    ensures Records(" : x") == [("", "x")]
  {
    var s := " : x";
    assert SkipWhile(s, 0, IsKeyChar) == 1;
    assert SkipWhile(s, 3, IsValueChar) == 4;
    assert MatchAt(s, 0) == Some(RawMatch(0, 1, 4));
    assert FindAllFrom(s, 4) == [];
    assert FindAll(s) == [RawMatch(0, 1, 4)];
    assert s[0..1] == " " && s[3..4] == "x";
    assert Strip(" ") == "";
    assert Strip("x") == "x";
  }
}
