/** Concrete messages and the codes the extractor takes from them. Each message
    is written as a concatenation of short literals; the concatenation is the
    message character for character. */
module Scenarios {
  import opened Text
  import opened Chars
  import opened Scanner
  import opened Ranking
  import opened SmsCode

  /** The keyword the extractor is always called with ("verification code"). */
  const Keyword: string := "验证码"

  /** The WeChat Pay message of the `__main__` demonstration of SmsCodeUtils, up to the
      single space (offset 37) and after it. */
  function WeChatHead(): string
  {
    "【微信支付】" + "754207" + "(微信验证码" + "，请勿泄露)，" + "您于2024-09-02"
  }

  function WeChatTail(): string
  {
    "11:57:21" + "发起交易" + "7700.00元"
  }

  function WeChatMessage(): string
  {
    WeChatHead() + " " + WeChatTail()
  }

  /** The two halves contain no whitespace. */
  lemma WeChatHalvesHaveNoSpace()
    ensures forall i :: 0 <= i < |WeChatHead()| ==> !IsWhitespace(WeChatHead()[i])
    ensures forall i :: 0 <= i < |WeChatTail()| ==> !IsWhitespace(WeChatTail()[i])
  {
  }

  /** Stripping two whitespace-free texts joined by one space joins them. */
  lemma StripSingleSpace(h: string, t: string)
    requires forall i :: 0 <= i < |h| ==> !IsWhitespace(h[i])
    requires forall i :: 0 <= i < |t| ==> !IsWhitespace(t[i])
    ensures RemoveAllWhiteSpaces(h + " " + t) == h + t
  {
    RemoveAllWhiteSpacesChar(' ');
    assert RemoveAllWhiteSpaces(" ") == [];
    RemoveAllWhiteSpacesIdentity(h);
    RemoveAllWhiteSpacesAppend(h, " ");
    assert RemoveAllWhiteSpaces(h + " ") == h;
    RemoveAllWhiteSpacesIdentity(t);
    RemoveAllWhiteSpacesAppend(h + " ", t);
  }

  /** Stripping the message removes its one space and nothing else. */
  lemma WeChatStripped()
    ensures RemoveAllWhiteSpaces(WeChatMessage()) == WeChatHead() + WeChatTail()
  {
    WeChatHalvesHaveNoSpace();
    StripSingleSpace(WeChatHead(), WeChatTail());
  }

  /** Offsets in the stripped message: the code at 6, the keyword at 15, and
      no digit between offset 12 and 27. */
  lemma WeChatStrippedLayout()
    ensures var s := WeChatHead() + WeChatTail();
            && |s| == 57
            && s[6..12] == "754207"
            && IsCodeSpan(Alnum, s, 6, 12)
            && s[15..18] == Keyword
            && !IsDigit(s[12])
            && (forall k :: 13 <= k < 27 ==> !IsDigit(s[k]))
  {
  }

  /** The first occurrences in the stripped message. */
  lemma WeChatFirstOccurrences()
    ensures FirstOccurrence(WeChatHead() + WeChatTail(), "754207", 6)
    ensures FirstOccurrence(WeChatHead() + WeChatTail(), Keyword, 15)
  {
    var s := WeChatHead() + WeChatTail();
    WeChatStrippedLayout();
    assert forall k :: 0 <= k < 6 ==> s[k] != '7';
    assert forall k :: 0 <= k < 15 ==> s[k] != Keyword[0];
  }

  /** A run of six digits starting within 9 of offset 15 of the stripped
      message starts at offset 6. */
  lemma WeChatOnlyNearSixDigits(r: string, j: nat)
    requires |r| == 6 && AllDigits(r) && 6 <= j <= 24
    requires Occurs(WeChatHead() + WeChatTail(), r, j)
    ensures j == 6
  {
    var s := WeChatHead() + WeChatTail();
    WeChatStrippedLayout();
    assert forall k :: j <= k < j + 6 ==> s[k] == r[k - j];
    assert IsDigit(s[j]);
    assert j <= 12;
    assert !IsDigit(s[12]);
    assert forall k :: j <= k < j + 6 ==> IsDigit(s[k]);
    assert 12 >= j + 6;
  }

  /** The message has the keyword and an ideograph. */
  lemma WeChatKeywordAndScript()
    ensures IsSubstring(Keyword, WeChatMessage())
    ensures ContainsChinese(WeChatMessage())
  {
    var c := WeChatMessage();
    assert c[15..18] == Keyword;
    assert Occurs(c, Keyword, 15);
    assert IsChineseChar(c[1]);
  }

  /** The message has the keyword and an ideograph, and its stripped text has
      a candidate, so the code comes from scanning the stripped text. */
  lemma WeChatTakesStrippedChinesePath()
    ensures ParseSmsCodeIfExists(Keyword, WeChatMessage()) ==
            GetSmsCode(Alnum, Keyword, WeChatHead() + WeChatTail())
  {
    var c := WeChatMessage();
    var s := WeChatHead() + WeChatTail();
    WeChatKeywordAndScript();
    WeChatStripped();
    WeChatStrippedLayout();
    FindAllComplete(Alnum, s, 6, 12);
    assert PathClass(c) == Alnum;
    assert ParseSmsCodeIfExists(Keyword, c) == GetSmsCodeCn(Keyword, c);
  }

  /** "754207" is a candidate of the stripped text, near the keyword, at
      distance 9 from it. */
  lemma WeChatCodeIsNear()
    ensures var s := WeChatHead() + WeChatTail();
            && "754207" in CandidatePool(Keyword, FindAll(Alnum, s), s)
            && DistanceToKeyword(Keyword, "754207", s) == Finite(9)
            && FirstOccurrence(s, Keyword, 15)
  {
    var s := WeChatHead() + WeChatTail();
    WeChatStrippedLayout();
    WeChatFirstOccurrences();
    FindAllComplete(Alnum, s, 6, 12);
    var codes := FindAll(Alnum, s);
    assert Occurs(s, Keyword, 15);
    assert IsNearToKeyword(Keyword, "754207", s);
    var i :| 0 <= i < |codes| && codes[i] == "754207";
  }

  /** If a six-digit code is pooled `d` characters from the keyword's first
      occurrence `at`, the result is six digits whose first occurrence is at
      most `d` characters from `at`. */
  lemma SixDigitSelectionNearby(s: string, code: string, at: nat, d: nat)
    requires code in CandidatePool(Keyword, FindAll(Alnum, s), s)
    requires |code| == 6 && AllDigits(code)
    requires FirstOccurrence(s, Keyword, at)
    requires DistanceToKeyword(Keyword, code, s) == Finite(d)
    ensures var r := GetSmsCode(Alnum, Keyword, s);
            && |r| == 6 && AllDigits(r)
            && exists j :: at - d <= j <= at + d && FirstOccurrence(s, r, j)
  {
    var pool := CandidatePool(Keyword, FindAll(Alnum, s), s);
    var p :| 0 <= p < |pool| && pool[p] == code;
    GetSmsCodeSelectsBest(Alnum, Keyword, s);
    var b :| IsBestAmong(Keyword, pool, s, |pool|, b) && GetSmsCode(Alnum, Keyword, s) == pool[b];
    assert MatchLevel(pool[b]) == LevelDigital6;
    BestWithinDistance(Keyword, pool, s, |pool|, b, p, at, d);
  }

  /** The demonstration: the 6-digit code next to the keyword is chosen, not
      the year "2024", the time "0211" formed by stripping, or the amount "7700". */
  lemma WeChatPayCode()
    ensures ParseSmsCodeIfExists(Keyword, WeChatMessage()) == "754207"
  {
    assert |"754207"| == 6 && AllDigits("754207");
    var s := WeChatHead() + WeChatTail();
    WeChatTakesStrippedChinesePath();
    WeChatCodeIsNear();
    SixDigitSelectionNearby(s, "754207", 15, 9);
    var r := GetSmsCode(Alnum, Keyword, s);
    var j :| 6 <= j <= 24 && FirstOccurrence(s, r, j);
    WeChatOnlyNearSixDigits(r, j);
    WeChatStrippedLayout();
  }

  /** An English one-time-password message. */
  function OtpMessage(): string
  {
    "Your OTP is " + "4821" + ", valid for " + "5" + " minutes"
  }

  /** The message has the keyword and no ideograph. */
  lemma OtpKeywordAndScript()
    ensures IsSubstring("OTP", OtpMessage())
    ensures !ContainsChinese(OtpMessage())
  {
    var c := OtpMessage();
    assert c[5..8] == "OTP";
    assert Occurs(c, "OTP", 5);
    assert forall i :: 0 <= i < |c| ==> !IsChineseChar(c[i]);
  }

  /** Offsets in the message: digits only at 12 to 15 ("4821") and at 28 ("5"). */
  lemma OtpLayout()
    ensures var c := OtpMessage();
            && |c| == 37
            && c[12..16] == "4821"
            && IsCodeSpan(Digits, c, 12, 16)
            && (forall i :: 0 <= i < |c| && IsDigit(c[i]) ==> 12 <= i < 16 || i == 28)
  {
  }

  /** The only maximal digit run of length 4 to 8 is "4821". */
  lemma OtpOnlyCodeSpan(a: nat, b: nat)
    requires IsCodeSpan(Digits, OtpMessage(), a, b)
    ensures a == 12 && b == 16
  {
    var c := OtpMessage();
    OtpLayout();
    assert IsDigit(c[a]) && IsDigit(c[a + 1]) && IsDigit(c[a + 3]);
    assert 12 <= a;
    assert a == 12;
    assert b <= 16;
  }

  /** The English path takes the code from the original text. */
  lemma OtpTakesEnglishPath()
    ensures ParseSmsCodeIfExists("OTP", OtpMessage()) == GetSmsCode(Digits, "OTP", OtpMessage())
  {
    OtpKeywordAndScript();
    OtpLayout();
    FindAllComplete(Digits, OtpMessage(), 12, 16);
    assert PathClass(OtpMessage()) == Digits;
  }

  /** The English example: the one 4-to-8 digit run is the code. */
  lemma OtpCode()
    ensures ParseSmsCodeIfExists("OTP", OtpMessage()) == "4821"
  {
    var c := OtpMessage();
    OtpTakesEnglishPath();
    OtpLayout();
    forall a, b | IsCodeSpan(Digits, c, a, b)
      ensures a == 12 && b == 16
    {
      OtpOnlyCodeSpan(a, b);
    }
    FindAllSingle(Digits, c, 12, 16);
    SingleCandidate(Digits, "OTP", c);
  }
}
