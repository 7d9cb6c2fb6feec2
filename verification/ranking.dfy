/** The ranker of SmsCodeUtils: confidence tiers (`get_match_level`), the
    proximity filter (`is_near_to_keyword`), the keyword distance
    (`distance_to_keyword`) and the selection loop of `get_sms_code`. */
module Ranking {
  import opened Text
  import opened Chars

  /** The `LEVEL_*` constants; a larger level is a better match. */
  const LevelDigital6: int := 4
  const LevelDigital4: int := 3
  const LevelDigitalOthers: int := 2
  const LevelText: int := 1
  const LevelCharacter: int := 0
  const LevelNone: int := -1

  /** `magic_number`, the proximity radius in characters. */
  const Radius: nat := 30

  predicate AllDigits(s: string)
  {
    forall i :: 0 <= i < |s| ==> IsDigit(s[i])
  }

  predicate AllLetters(s: string)
  {
    forall i :: 0 <= i < |s| ==> IsAsciiLetter(s[i])
  }

  /** `get_match_level`: the tier depends only on the text of the code. The
      tiers are disjoint and cover every string; a string with both digits
      and letters (or any other character) falls in `LevelText`, which is
      above the letters-only `LevelCharacter`. */
  function MatchLevel(code: string): (r: int)
    ensures LevelCharacter <= r <= LevelDigital6
    ensures r == LevelDigital6 <==> |code| == 6 && AllDigits(code)
    ensures r == LevelDigital4 <==> |code| == 4 && AllDigits(code)
    ensures r == LevelDigitalOthers <==> |code| != 4 && |code| != 6 && |code| > 0 && AllDigits(code)
    ensures r == LevelCharacter <==> |code| > 0 && AllLetters(code)
    ensures r == LevelText <==> !(|code| > 0 && AllDigits(code)) && !(|code| > 0 && AllLetters(code))
  {
    if |code| > 0 && AllDigits(code) then
      assert !IsAsciiLetter(code[0]);
      if |code| == 6 then LevelDigital6
      else if |code| == 4 then LevelDigital4
      else LevelDigitalOthers
    else if |code| > 0 && AllLetters(code) then LevelCharacter
    else LevelText
  }

  /** A keyword distance; `Infinite` models `float('inf')`, returned when the
      keyword or the code does not occur. */
  datatype Distance = Finite(n: nat) | Infinite

  /** Python's `<` between two distances: `inf` is never smaller than anything. */
  predicate Closer(a: Distance, b: Distance)
  {
    a.Finite? && (b.Infinite? || a.n < b.n)
  }

  /** `distance_to_keyword`: the absolute difference between the first
      offsets of the keyword and of the code in `content`. */
  function DistanceToKeyword(kw: string, code: string, content: string): (r: Distance)
    ensures r.Finite? <==> IsSubstring(kw, content) && IsSubstring(code, content)
    ensures forall i, j :: FirstOccurrence(content, kw, i) && FirstOccurrence(content, code, j) ==>
              r == Finite(if i >= j then i - j else j - i)
  {
    FirstOccurrenceIsFind(content, kw);
    FirstOccurrenceIsFind(content, code);
    match (Find(content, kw), Find(content, code))
    case (Some(i), Some(j)) => Finite(if i >= j then i - j else j - i)
    case _ => Infinite
  }

  /** `is_near_to_keyword`: the keyword lies wholly inside the window that
      extends `Radius` characters on both sides of the code's first
      occurrence (the window is clipped to `content`, and an absent code is
      never near). */
  function IsNearToKeyword(kw: string, code: string, content: string): (r: bool)
    ensures !IsSubstring(code, content) ==> !r
    ensures r <==> exists i, j :: FirstOccurrence(content, code, i) && Occurs(content, kw, j) &&
                                  i - Radius <= j && j + |kw| <= i + |code| + Radius
  {
    FirstOccurrenceIsFind(content, code);
    match Find(content, code)
    case None => false
    case Some(i) =>
      var begin := if i >= Radius then i - Radius else 0;
      var end := if i + |code| + Radius <= |content| then i + |code| + Radius else |content|;
      SliceOccurrence(content, kw, begin, end);
      Contains(content[begin..end], kw)
  }

  /** The filtering condition of the list comprehension in `get_sms_code`. */
  function NearTo(kw: string, content: string): string -> bool
  {
    code => IsNearToKeyword(kw, code, content)
  }

  /** `filtered_codes` before the fail-open fallback: the near codes, in order. */
  function NearCodes(kw: string, codes: seq<string>, content: string): (r: seq<string>)
    ensures forall x :: x in r ==> x in codes && IsNearToKeyword(kw, x, content)
    ensures forall x :: x in codes && IsNearToKeyword(kw, x, content) ==> x in r
  {
    Filter(codes, NearTo(kw, content))
  }

  /** The comprehension keeps the order of `codes`: filtering a concatenation
      concatenates the filtered parts. */
  lemma NearCodesAppend(kw: string, a: seq<string>, b: seq<string>, content: string)
    ensures NearCodes(kw, a + b, content) == NearCodes(kw, a, content) + NearCodes(kw, b, content)
  {
    FilterAppend(a, b, NearTo(kw, content));
  }

  /** A single code is kept exactly when it is near the keyword; with
      `NearCodesAppend` this fixes the near codes, duplicates included. */
  lemma NearCodesSingle(kw: string, code: string, content: string)
    ensures NearCodes(kw, [code], content) == (if IsNearToKeyword(kw, code, content) then [code] else [])
  {
    assert [code][1..] == [];
  }

  /** `filtered_codes` after the fallback: the near codes if there are any,
      otherwise every code (the filter fails open). */
  function CandidatePool(kw: string, codes: seq<string>, content: string): (r: seq<string>)
    ensures |codes| > 0 ==> |r| > 0
    ensures forall x :: x in r ==> x in codes
    ensures |NearCodes(kw, codes, content)| > 0 ==> r == NearCodes(kw, codes, content)
    ensures |NearCodes(kw, codes, content)| == 0 ==> r == codes
  {
    var near := NearCodes(kw, codes, content);
    if |near| > 0 then near else codes
  }

  /** No code is near exactly when the near codes are none, so the filter
      fails open exactly when no candidate is near. */
  lemma NoNearCodes(kw: string, codes: seq<string>, content: string)
    ensures |NearCodes(kw, codes, content)| == 0 <==> forall x :: x in codes ==> !IsNearToKeyword(kw, x, content)
  {
    var near := NearCodes(kw, codes, content);
    if |near| > 0 {
      assert near[0] in near;
    }
  }

  /** `codes[k]` is the selection among `codes[..n]`: its level is maximal,
      among codes of that level its distance is minimal, and every earlier
      code of that level is strictly farther from the keyword. */
  predicate IsBestAmong(kw: string, codes: seq<string>, content: string, n: nat, k: int)
    requires n <= |codes|
  {
    && 0 <= k < n
    && (forall j :: 0 <= j < n ==> MatchLevel(codes[j]) <= MatchLevel(codes[k]))
    && (forall j :: 0 <= j < n && MatchLevel(codes[j]) == MatchLevel(codes[k]) ==>
          !Closer(DistanceToKeyword(kw, codes[j], content), DistanceToKeyword(kw, codes[k], content)))
    && (forall j :: 0 <= j < k && MatchLevel(codes[j]) == MatchLevel(codes[k]) ==>
          Closer(DistanceToKeyword(kw, codes[k], content), DistanceToKeyword(kw, codes[j], content)))
  }

  /** At most one index is the selection. */
  lemma BestIsUnique(kw: string, codes: seq<string>, content: string, n: nat, k1: int, k2: int)
    requires n <= |codes|
    requires IsBestAmong(kw, codes, content, n, k1) && IsBestAmong(kw, codes, content, n, k2)
    ensures k1 == k2
  {
    assert MatchLevel(codes[k1]) == MatchLevel(codes[k2]);
    assert !Closer(DistanceToKeyword(kw, codes[k2], content), DistanceToKeyword(kw, codes[k1], content));
    assert !Closer(DistanceToKeyword(kw, codes[k1], content), DistanceToKeyword(kw, codes[k2], content));
  }

  /** The selection dominates each of the first `n` codes. */
  lemma BestDominates(kw: string, codes: seq<string>, content: string, n: nat, k: int, j: nat)
    requires n <= |codes| && j < n && IsBestAmong(kw, codes, content, n, k)
    ensures MatchLevel(codes[j]) <= MatchLevel(codes[k])
    ensures MatchLevel(codes[j]) == MatchLevel(codes[k]) ==>
              !Closer(DistanceToKeyword(kw, codes[j], content), DistanceToKeyword(kw, codes[k], content))
  {
  }

  /** When a code of the selected level lies `d` characters from the keyword's
      first occurrence `at`, the selection's first occurrence lies within `d`
      characters of `at` too. */
  lemma BestWithinDistance(kw: string, codes: seq<string>, content: string, n: nat, k: int, p: nat, at: nat, d: nat)
    requires n <= |codes| && p < n && IsBestAmong(kw, codes, content, n, k)
    requires MatchLevel(codes[p]) == MatchLevel(codes[k])
    requires FirstOccurrence(content, kw, at) && DistanceToKeyword(kw, codes[p], content) == Finite(d)
    ensures exists j :: at - d <= j <= at + d && FirstOccurrence(content, codes[k], j)
  {
    var dk := DistanceToKeyword(kw, codes[k], content);
    assert !Closer(Finite(d), dk);
    var j := Find(content, codes[k]).value;
    assert FirstOccurrence(content, codes[k], j);
    assert dk == Finite(if at >= j then at - j else j - at);
  }

  /** The state of the selection loop: `max_match_level`, `min_distance`,
      `sms_code`, and the index `at` of the code held in `sms_code`. */
  datatype Pick = Pick(level: int, distance: Distance, code: string, at: int)

  /** The loop state before the first code. */
  function Initial(content: string): Pick
  {
    Pick(LevelNone, Finite(|content|), "", -1)
  }

  /** One iteration of the loop over `filtered_codes`: a strictly higher level
      replaces the pick; an equal level replaces it only when strictly closer. */
  function Step(kw: string, content: string, best: Pick, code: string, at: nat): (r: Pick)
    ensures r == best || r == Pick(MatchLevel(code), DistanceToKeyword(kw, code, content), code, at)
    ensures r.level >= best.level && r.level >= MatchLevel(code)
    ensures r.level == best.level ==> !Closer(best.distance, r.distance)
    ensures r.level == MatchLevel(code) ==> !Closer(DistanceToKeyword(kw, code, content), r.distance)
    ensures r != best ==> MatchLevel(code) > best.level || Closer(DistanceToKeyword(kw, code, content), best.distance)
  {
    var level := MatchLevel(code);
    if level > best.level then
      Pick(level, DistanceToKeyword(kw, code, content), code, at)
    else if level == best.level && Closer(DistanceToKeyword(kw, code, content), best.distance) then
      Pick(level, DistanceToKeyword(kw, code, content), code, at)
    else
      best
  }

  /** The loop state `best` describes the code at index `best.at` of `codes`. */
  predicate Holds(kw: string, codes: seq<string>, content: string, best: Pick)
  {
    && 0 <= best.at < |codes|
    && best.code == codes[best.at]
    && best.level == MatchLevel(best.code)
    && best.distance == DistanceToKeyword(kw, best.code, content)
  }

  /** The first loop iteration always takes the first code, since every
      level is above `LevelNone`. */
  lemma FirstStepPicks(kw: string, codes: seq<string>, content: string)
    requires 0 < |codes|
    ensures var next := Step(kw, content, Initial(content), codes[0], 0);
            Holds(kw, codes, content, next) && next.at == 0 && IsBestAmong(kw, codes, content, 1, 0)
  {
  }

  /** A later loop iteration keeps the selection invariant. */
  lemma StepKeepsBest(kw: string, codes: seq<string>, content: string, n: nat, best: Pick)
    requires 0 < n < |codes|
    requires Holds(kw, codes, content, best) && best.at < n && IsBestAmong(kw, codes, content, n, best.at)
    ensures var next := Step(kw, content, best, codes[n], n);
            Holds(kw, codes, content, next) && next.at <= n && IsBestAmong(kw, codes, content, n + 1, next.at)
  {
  }

  /** The loop state after the first `n` codes: it describes one of them. */
  function RankPrefix(kw: string, codes: seq<string>, content: string, n: nat): (r: Pick)
    requires n <= |codes|
    ensures n == 0 ==> r == Initial(content)
    ensures n > 0 ==> Holds(kw, codes, content, r) && r.at < n
    decreases n
  {
    if n == 0 then
      Initial(content)
    else
      var prev := RankPrefix(kw, codes, content, n - 1);
      var next := Step(kw, content, prev, codes[n - 1], n - 1);
      assert n == 1 ==> next.at == 0;
      next
  }

  /** After `n` codes the loop holds the selection among them: by induction,
      each iteration keeps the selection invariant. */
  lemma {:induction false} RankPrefixIsBest(kw: string, codes: seq<string>, content: string, n: nat)
    requires 0 < n <= |codes|
    ensures IsBestAmong(kw, codes, content, n, RankPrefix(kw, codes, content, n).at)
  {
    if n == 1 {
      FirstStepPicks(kw, codes, content);
    } else {
      RankPrefixIsBest(kw, codes, content, n - 1);
      StepKeepsBest(kw, codes, content, n - 1, RankPrefix(kw, codes, content, n - 1));
    }
  }

  /** The code `get_sms_code` returns from its loop: `""` for no codes,
      otherwise one of them. */
  function SelectCode(kw: string, codes: seq<string>, content: string): (r: string)
    ensures |codes| == 0 ==> r == ""
    ensures |codes| > 0 ==> r in codes
  {
    RankPrefix(kw, codes, content, |codes|).code
  }

  /** The loop's result is the selection among all the codes. */
  lemma SelectCodeIsBest(kw: string, codes: seq<string>, content: string)
    requires |codes| > 0
    ensures exists k :: IsBestAmong(kw, codes, content, |codes|, k) && SelectCode(kw, codes, content) == codes[k]
  {
    RankPrefixIsBest(kw, codes, content, |codes|);
  }
}
