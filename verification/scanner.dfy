/** The candidate scanner: `re.findall` with the two lookaround-delimited code
    patterns of SmsCodeUtils,
      `(?<![a-zA-Z0-9])[a-zA-Z0-9]{4,8}(?![a-zA-Z0-9])`   (Chinese messages) and
      `(?<![0-9])[0-9]{4,8}(?![0-9])`                      (all others).
    Both have the shape `(?<!C)C{4,8}(?!C)` for one character class `C`. The scan
    is modelled the way the regex engine runs it (a left-to-right pass that
    tries a match at each offset, greedy repetition backtracking from 8 down to
    4, resuming after each match) and is proved to yield exactly the maximal
    runs of `C` whose length is between 4 and 8, left to right. */
module Scanner {
  import opened Text
  import opened Chars

  /** The class `C` of the code pattern. */
  datatype CharClass =
    | Digits   // `[0-9]`, the pattern of get_sms_code_en
    | Alnum    // `[a-zA-Z0-9]`, the pattern of get_sms_code_cn

  predicate InClass(cls: CharClass, c: char)
  {
    match cls
    case Digits => IsDigit(c)
    case Alnum => IsAsciiAlnum(c)
  }

  /** The repetition bounds `{4,8}`. */
  const MinCodeLength: nat := 4
  const MaxCodeLength: nat := 8

  /** A half-open range `[start, end)` of offsets into the scanned text. */
  datatype Span = Span(start: nat, end: nat)

  predicate AllInClass(cls: CharClass, s: string, a: nat, b: nat)
    requires a <= b <= |s|
  {
    forall i :: a <= i < b ==> InClass(cls, s[i])
  }

  /** `s[a..b]` is a maximal run of class characters (bounded by non-class
      characters or the ends of `s`) whose length is between 4 and 8. */
  predicate IsCodeSpan(cls: CharClass, s: string, a: int, b: int)
  {
    && 0 <= a <= b <= |s|
    && MinCodeLength <= b - a <= MaxCodeLength
    && AllInClass(cls, s, a, b)
    && (a == 0 || !InClass(cls, s[a - 1]))
    && (b == |s| || !InClass(cls, s[b]))
  }

  /** The lookbehind `(?<!C)` at offset `p`. */
  predicate LookbehindHolds(cls: CharClass, s: string, p: nat)
    requires p <= |s|
  {
    p == 0 || !InClass(cls, s[p - 1])
  }

  /** `C{n}` matches at `p` and the lookahead `(?!C)` holds after it. */
  predicate RepeatThenLookahead(cls: CharClass, s: string, p: nat, n: nat)
  {
    p + n <= |s| && AllInClass(cls, s, p, p + n) && (p + n == |s| || !InClass(cls, s[p + n]))
  }

  /** The greedy repetition `C{4,n}` followed by `(?!C)`: try `n` characters,
      then back off one at a time down to 4. Yields the length matched. */
  function GreedyRepeat(cls: CharClass, s: string, p: nat, n: nat): (r: Option<nat>)
    requires p <= |s|
    ensures r.Some? ==> MinCodeLength <= r.value <= n && RepeatThenLookahead(cls, s, p, r.value)
    ensures r.None? ==> forall m :: MinCodeLength <= m <= n ==> !RepeatThenLookahead(cls, s, p, m)
    decreases n
  {
    if n < MinCodeLength then None
    else if RepeatThenLookahead(cls, s, p, n) then Some(n)
    else GreedyRepeat(cls, s, p, n - 1)
  }

  /** The whole pattern `(?<!C)C{4,8}(?!C)` tried at offset `p`. */
  function MatchAt(cls: CharClass, s: string, p: nat): (r: Option<nat>)
    requires p <= |s|
    ensures r.Some? ==> IsCodeSpan(cls, s, p, p + r.value)
    ensures r.None? ==> forall q :: !IsCodeSpan(cls, s, p, q)
  {
    if !LookbehindHolds(cls, s, p) then None
    else GreedyRepeat(cls, s, p, MaxCodeLength)
  }

  /** A class run has at most one right end, so a code span is fixed by its start. */
  lemma RunEndUnique(cls: CharClass, s: string, p: nat, m: nat, n: nat)
    requires RepeatThenLookahead(cls, s, p, m) && RepeatThenLookahead(cls, s, p, n)
    ensures m == n
  {
  }

  /** The pattern matches at `p` with length `n` exactly when `[p, p + n)` is a code span. */
  lemma MatchAtIsCodeSpan(cls: CharClass, s: string, p: nat, n: nat)
    requires p <= |s|
    ensures MatchAt(cls, s, p) == Some(n) <==> IsCodeSpan(cls, s, p, p + n)
  {
  }

  /** Code spans never overlap: a later span starts strictly after an earlier
      one ends, since its left neighbour is not a class character. */
  lemma CodeSpansSeparated(cls: CharClass, s: string, p: nat, q: nat, a: nat, b: nat)
    requires IsCodeSpan(cls, s, p, q) && IsCodeSpan(cls, s, a, b) && p < a
    ensures q < a
  {
  }

  /** Every span of `r` is a code span starting at or after `p`. */
  predicate SpansSound(cls: CharClass, s: string, p: nat, r: seq<Span>)
  {
    forall k :: 0 <= k < |r| ==> p <= r[k].start && IsCodeSpan(cls, s, r[k].start, r[k].end)
  }

  /** The spans of `r` are strictly increasing and pairwise disjoint: an
      earlier span ends before a later one starts. */
  predicate SpansOrdered(r: seq<Span>)
  {
    forall j, k :: 0 <= j < k < |r| ==> r[j].end < r[k].start
  }

  /** Every code span starting at or after `p` is in `r`. */
  ghost predicate SpansComplete(cls: CharClass, s: string, p: nat, r: seq<Span>)
  {
    forall a, b :: p <= a && IsCodeSpan(cls, s, a, b) ==> Span(a, b) in r
  }

  /** After a match `[p, p + n)`, every later code span starts beyond `p + n`. */
  lemma SpansAfterMatch(cls: CharClass, s: string, p: nat, n: nat, rest: seq<Span>)
    requires IsCodeSpan(cls, s, p, p + n) && SpansSound(cls, s, p + n, rest)
    ensures forall k :: 0 <= k < |rest| ==> p + n < rest[k].start
  {
    forall k | 0 <= k < |rest|
      ensures p + n < rest[k].start
    {
      CodeSpansSeparated(cls, s, p, p + n, rest[k].start, rest[k].end);
    }
  }

  /** The scan step after a match of length `n` at `p`. */
  lemma ScanMatchStep(cls: CharClass, s: string, p: nat, n: nat, rest: seq<Span>)
    requires p + n <= |s| && MatchAt(cls, s, p) == Some(n)
    requires SpansSound(cls, s, p + n, rest) && SpansOrdered(rest) && SpansComplete(cls, s, p + n, rest)
    ensures var r := [Span(p, p + n)] + rest;
            SpansSound(cls, s, p, r) && SpansOrdered(r) && SpansComplete(cls, s, p, r)
  {
    SpansAfterMatch(cls, s, p, n, rest);
  }

  /** The scan step when nothing matches at `p`: no code span starts there. */
  lemma ScanSkipStep(cls: CharClass, s: string, p: nat, rest: seq<Span>)
    requires p < |s| && MatchAt(cls, s, p).None?
    requires SpansSound(cls, s, p + 1, rest) && SpansComplete(cls, s, p + 1, rest)
    ensures SpansSound(cls, s, p, rest) && SpansComplete(cls, s, p, rest)
  {
  }

  /** `re.findall` from offset `p`: the spans of all non-overlapping matches,
      left to right. The contract says these are exactly the code spans that
      start at or after `p`, in strictly increasing order. */
  function ScanSpans(cls: CharClass, s: string, p: nat): (r: seq<Span>)
    requires p <= |s|
    ensures SpansSound(cls, s, p, r)
    ensures SpansOrdered(r)
    ensures SpansComplete(cls, s, p, r)
    decreases |s| - p
  {
    if p == |s| then
      []
    else
      match MatchAt(cls, s, p)
      case Some(n) =>
        var rest := ScanSpans(cls, s, p + n);
        ScanMatchStep(cls, s, p, n, rest);
        [Span(p, p + n)] + rest
      case None =>
        var rest := ScanSpans(cls, s, p + 1);
        ScanSkipStep(cls, s, p, rest);
        rest
  }

  /** The spans of all matches in `s`. */
  function CodeSpans(cls: CharClass, s: string): (r: seq<Span>)
    ensures forall k :: 0 <= k < |r| ==> IsCodeSpan(cls, s, r[k].start, r[k].end)
    ensures forall j, k :: 0 <= j < k < |r| ==> r[j].end < r[k].start
    ensures forall a, b :: IsCodeSpan(cls, s, a, b) ==> Span(a, b) in r
  {
    ScanSpans(cls, s, 0)
  }

  /** The text of each span, in order. */
  function SpanTexts(s: string, spans: seq<Span>): (r: seq<string>)
    requires forall k :: 0 <= k < |spans| ==> spans[k].start <= spans[k].end <= |s|
    ensures |r| == |spans|
    ensures forall k :: 0 <= k < |r| ==> r[k] == s[spans[k].start..spans[k].end]
  {
    if |spans| == 0 then []
    else [s[spans[0].start..spans[0].end]] + SpanTexts(s, spans[1..])
  }

  /** `re.findall(code_regex, s)`: the matched texts, left to right. */
  function FindAll(cls: CharClass, s: string): (r: seq<string>)
    ensures |r| == |CodeSpans(cls, s)|
    ensures forall k :: 0 <= k < |r| ==>
              var sp := CodeSpans(cls, s)[k];
              IsCodeSpan(cls, s, sp.start, sp.end) && r[k] == s[sp.start..sp.end]
  {
    SpanTexts(s, CodeSpans(cls, s))
  }

  /** Every candidate is a class-only string of length 4 to 8 that occurs in
      the scanned text between non-class characters or the text's ends. */
  lemma FindAllSound(cls: CharClass, s: string, k: nat)
    requires k < |FindAll(cls, s)|
    ensures var c := FindAll(cls, s)[k];
            && MinCodeLength <= |c| <= MaxCodeLength
            && (forall i :: 0 <= i < |c| ==> InClass(cls, c[i]))
            && exists a :: IsCodeSpan(cls, s, a, a + |c|) && Occurs(s, c, a)
  {
    var sp := CodeSpans(cls, s)[k];
    var c := FindAll(cls, s)[k];
    assert forall i :: 0 <= i < |c| ==> c[i] == s[sp.start + i];
    assert Occurs(s, c, sp.start);
  }

  /** Every maximal class run of length 4 to 8 is among the candidates. */
  lemma FindAllComplete(cls: CharClass, s: string, a: nat, b: nat)
    requires IsCodeSpan(cls, s, a, b)
    ensures s[a..b] in FindAll(cls, s)
  {
    var spans := CodeSpans(cls, s);
    var k :| 0 <= k < |spans| && spans[k] == Span(a, b);
    assert FindAll(cls, s)[k] == s[a..b];
  }

  /** A class run of nine or more characters overlaps no candidate at all
      (the lookarounds forbid cutting a 4-to-8 piece out of it). */
  lemma LongRunContributesNothing(cls: CharClass, s: string, a: nat, b: nat)
    requires a <= b <= |s| && b - a > MaxCodeLength && AllInClass(cls, s, a, b)
    ensures forall k :: 0 <= k < |CodeSpans(cls, s)| ==>
              CodeSpans(cls, s)[k].end <= a || b <= CodeSpans(cls, s)[k].start
  {
    var spans := CodeSpans(cls, s);
    forall k | 0 <= k < |spans|
      ensures spans[k].end <= a || b <= spans[k].start
    {
      var sp := spans[k];
    }
  }

  /** No candidate is empty: every one has at least four characters. */
  lemma FindAllNonEmpty(cls: CharClass, s: string, c: string)
    requires c in FindAll(cls, s)
    ensures MinCodeLength <= |c| <= MaxCodeLength
    ensures forall i :: 0 <= i < |c| ==> InClass(cls, c[i])
  {
    var k :| 0 <= k < |FindAll(cls, s)| && FindAll(cls, s)[k] == c;
    FindAllSound(cls, s, k);
  }

  /** When the text has exactly one code span, `re.findall` returns exactly its text. */
  lemma FindAllSingle(cls: CharClass, s: string, a0: nat, b0: nat)
    requires IsCodeSpan(cls, s, a0, b0)
    requires forall a, b :: IsCodeSpan(cls, s, a, b) ==> a == a0 && b == b0
    ensures FindAll(cls, s) == [s[a0..b0]]
  {
    var spans := CodeSpans(cls, s);
    assert Span(a0, b0) in spans;
    assert spans[0] == Span(a0, b0) == spans[|spans| - 1];
  }
}
