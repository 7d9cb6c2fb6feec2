/** The verification-code extractor of SmsCodeUtils: keyword lookup, script
    classification, the two scan paths with their opposite fallback orders,
    and the candidate selection of `get_sms_code`. The keyword is a literal
    string (the only keyword ever passed is the literal phrase for
    "verification code"), so `re.search(keywords_regex, content)` is a
    substring search. */
module SmsCode {
  import opened Text
  import opened Chars
  import opened Scanner
  import opened Ranking

  /** `parse_keyword`: the keyword itself when it occurs in `content`, else `""`. */
  function ParseKeyword(kw: string, content: string): (r: string)
    ensures r == "" || r == kw
    ensures r != "" <==> kw != "" && IsSubstring(kw, content)
  {
    if Contains(content, kw) then kw else ""
  }

  /** `contains_code_keywords`: whether `parse_keyword` finds a non-empty keyword. */
  function ContainsCodeKeywords(kw: string, content: string): (r: bool)
    ensures r <==> kw != "" && IsSubstring(kw, content)
  {
    ParseKeyword(kw, content) != ""
  }

  /** `get_sms_code`: scan `content` for candidates with the pattern of class
      `cls`, keep the ones near the keyword (all of them if none is near),
      and select by level, then distance, then order. */
  function GetSmsCode(cls: CharClass, kw: string, content: string): (r: string)
    ensures r == "" <==> |FindAll(cls, content)| == 0
    ensures r != "" ==> r in CandidatePool(kw, FindAll(cls, content), content)
    ensures r != "" ==> r in FindAll(cls, content)
  {
    var codes := FindAll(cls, content);
    if |codes| == 0 then
      ""
    else
      var pool := CandidatePool(kw, codes, content);
      var code := SelectCode(kw, pool, content);
      assert code in pool;
      FindAllNonEmpty(cls, content, code);
      code
  }

  /** The code `get_sms_code` returns is the selection among the candidate
      pool: highest level, then strictly smallest distance, then first seen. */
  lemma GetSmsCodeSelectsBest(cls: CharClass, kw: string, content: string)
    requires |FindAll(cls, content)| > 0
    ensures var pool := CandidatePool(kw, FindAll(cls, content), content);
            exists k :: IsBestAmong(kw, pool, content, |pool|, k) && GetSmsCode(cls, kw, content) == pool[k]
  {
    var pool := CandidatePool(kw, FindAll(cls, content), content);
    SelectCodeIsBest(kw, pool, content);
    assert GetSmsCode(cls, kw, content) == SelectCode(kw, pool, content);
  }

  /** `get_sms_code_cn`: scan the whitespace-stripped text with `[a-zA-Z0-9]`
      first, and the original text only when that finds nothing. */
  function GetSmsCodeCn(kw: string, content: string): (r: string)
    ensures |FindAll(Alnum, RemoveAllWhiteSpaces(content))| > 0 ==>
              r == GetSmsCode(Alnum, kw, RemoveAllWhiteSpaces(content)) && r != ""
    ensures |FindAll(Alnum, RemoveAllWhiteSpaces(content))| == 0 ==>
              r == GetSmsCode(Alnum, kw, content)
    ensures r == "" <==> |FindAll(Alnum, RemoveAllWhiteSpaces(content))| == 0 && |FindAll(Alnum, content)| == 0
  {
    var handled := RemoveAllWhiteSpaces(content);
    var code := GetSmsCode(Alnum, kw, handled);
    if code == "" then GetSmsCode(Alnum, kw, content) else code
  }

  /** `get_sms_code_en`: scan the original text with `[0-9]` first, and the
      whitespace-stripped text only when that finds nothing. */
  function GetSmsCodeEn(kw: string, content: string): (r: string)
    ensures |FindAll(Digits, content)| > 0 ==> r == GetSmsCode(Digits, kw, content) && r != ""
    ensures |FindAll(Digits, content)| == 0 ==> r == GetSmsCode(Digits, kw, RemoveAllWhiteSpaces(content))
    ensures r == "" <==> |FindAll(Digits, content)| == 0 && |FindAll(Digits, RemoveAllWhiteSpaces(content))| == 0
  {
    var code := GetSmsCode(Digits, kw, content);
    if code == "" then GetSmsCode(Digits, kw, RemoveAllWhiteSpaces(content)) else code
  }

  /** The pattern class `contains_chinese` selects for a message. */
  function PathClass(content: string): (cls: CharClass)
    ensures cls == Alnum <==> exists i :: 0 <= i < |content| && IsChineseChar(content[i])
  {
    if ContainsChinese(content) then Alnum else Digits
  }

  /** `parse_by_default_rule`: `""` without the keyword; otherwise the Chinese
      path for messages with an ideograph and the English path for all others. */
  function ParseByDefaultRule(kw: string, content: string): (r: string)
    ensures !IsSubstring(kw, content) ==> r == ""
    ensures kw == "" ==> r == ""
    ensures kw != "" && IsSubstring(kw, content) ==>
              r == (if PathClass(content) == Alnum then GetSmsCodeCn(kw, content) else GetSmsCodeEn(kw, content))
  {
    var keyword := ParseKeyword(kw, content);
    if keyword == "" then ""
    else if ContainsChinese(content) then GetSmsCodeCn(keyword, content)
    else GetSmsCodeEn(keyword, content)
  }

  /** `parse_sms_code_if_exists`: the public entry point, a delegation to
      `parse_by_default_rule`. */
  function ParseSmsCodeIfExists(kw: string, content: string): (r: string)
    ensures r == ParseByDefaultRule(kw, content)
  {
    ParseByDefaultRule(kw, content)
  }

  /** Whatever the text holds, a message without the keyword yields no code. */
  lemma NoKeywordNoCode(kw: string, content: string)
    requires !IsSubstring(kw, content)
    ensures ParseSmsCodeIfExists(kw, content) == ""
  {
  }

  /** Every extracted code is a candidate of the path's pattern found in the
      original or the whitespace-stripped text: 4 to 8 class characters that
      occur there as a maximal run. */
  lemma ResultIsCandidate(kw: string, content: string)
    requires ParseByDefaultRule(kw, content) != ""
    ensures var r := ParseByDefaultRule(kw, content);
            var cls := PathClass(content);
            && (r in FindAll(cls, content) || r in FindAll(cls, RemoveAllWhiteSpaces(content)))
            && MinCodeLength <= |r| <= MaxCodeLength
            && (forall i :: 0 <= i < |r| ==> InClass(cls, r[i]))
  {
    var r := ParseByDefaultRule(kw, content);
    var cls := PathClass(content);
    if r in FindAll(cls, content) {
      FindAllNonEmpty(cls, content, r);
    } else {
      FindAllNonEmpty(cls, RemoveAllWhiteSpaces(content), r);
    }
  }

  /** On the English path every code is all digits, so its level is fixed by
      its length alone: 6 digits rank first, 4 digits second, the rest third. */
  lemma DigitCandidateLevel(s: string, code: string)
    requires code in FindAll(Digits, s)
    ensures MatchLevel(code) == (if |code| == 6 then LevelDigital6
                                 else if |code| == 4 then LevelDigital4
                                 else LevelDigitalOthers)
  {
    FindAllNonEmpty(Digits, s, code);
  }

  /** A code with both a digit and a letter outranks every letters-only code. */
  lemma MixedOutranksLetters(mixed: string, letters: string)
    requires exists i :: 0 <= i < |mixed| && IsDigit(mixed[i])
    requires exists i :: 0 <= i < |mixed| && IsAsciiLetter(mixed[i])
    requires |letters| > 0 && AllLetters(letters)
    ensures MatchLevel(mixed) == LevelText
    ensures MatchLevel(mixed) > MatchLevel(letters)
  {
  }

  /** When one candidate is found, it is the code, near the keyword or not. */
  lemma SingleCandidate(cls: CharClass, kw: string, content: string)
    requires |FindAll(cls, content)| == 1
    ensures GetSmsCode(cls, kw, content) == FindAll(cls, content)[0]
  {
  }

  /** The filter fails open: when no candidate is near the keyword, the
      selection is made among all candidates, and a code is still returned. */
  lemma FailOpen(cls: CharClass, kw: string, content: string)
    requires |FindAll(cls, content)| > 0
    requires forall k :: 0 <= k < |FindAll(cls, content)| ==> !IsNearToKeyword(kw, FindAll(cls, content)[k], content)
    ensures var codes := FindAll(cls, content);
            var r := GetSmsCode(cls, kw, content);
            r != "" && exists k :: IsBestAmong(kw, codes, content, |codes|, k) && r == codes[k]
  {
    NoNearCodes(kw, FindAll(cls, content), content);
    GetSmsCodeSelectsBest(cls, kw, content);
  }

  /** The top tier wins: if some code in the pool is six digits, so is the result. */
  lemma SixDigitsWin(cls: CharClass, kw: string, content: string, k: nat)
    requires var pool := CandidatePool(kw, FindAll(cls, content), content);
             k < |pool| && |pool[k]| == 6 && AllDigits(pool[k])
    ensures var r := GetSmsCode(cls, kw, content);
            |r| == 6 && AllDigits(r)
  {
    var pool := CandidatePool(kw, FindAll(cls, content), content);
    var r := GetSmsCode(cls, kw, content);
    GetSmsCodeSelectsBest(cls, kw, content);
    var b :| IsBestAmong(kw, pool, content, |pool|, b) && r == pool[b];
    assert MatchLevel(pool[k]) == LevelDigital6;
  }

  /** The result dominates every code of the pool: no pooled code has a higher
      level, and none of the same level is strictly closer to the keyword. */
  lemma ResultDominatesPool(cls: CharClass, kw: string, content: string, x: string)
    requires x in CandidatePool(kw, FindAll(cls, content), content)
    ensures var r := GetSmsCode(cls, kw, content);
            && MatchLevel(x) <= MatchLevel(r)
            && (MatchLevel(x) == MatchLevel(r) ==>
                  !Closer(DistanceToKeyword(kw, x, content), DistanceToKeyword(kw, r, content)))
  {
    var pool := CandidatePool(kw, FindAll(cls, content), content);
    var r := GetSmsCode(cls, kw, content);
    var p :| 0 <= p < |pool| && pool[p] == x;
    GetSmsCodeSelectsBest(cls, kw, content);
    var b :| IsBestAmong(kw, pool, content, |pool|, b) && r == pool[b];
    BestDominates(kw, pool, content, |pool|, b, p);
  }
}
