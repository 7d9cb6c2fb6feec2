# SmsCodeUtils verification-code extractor, in Dafny

This project models the verification-code extractor `SmsCodeUtils` as pure
functions over `string` (`seq<char>`). The extractor works in these steps:

1. It looks up a keyword such as "验证码" ("verification code"). A message without the keyword yields `""`.
2. It classifies the message as Chinese when it has an ideograph in U+4E00–U+9FA5 or the ideographic full stop.
3. It scans for candidate codes: runs of 4 to 8 characters of `[a-zA-Z0-9]` (Chinese path) or `[0-9]` (English path), delimited by lookarounds of the same class.
4. It keeps the candidates within 30 characters of the keyword, or all of them if none is that close.
5. It picks the candidate with the best confidence tier, then the shortest distance to the keyword, then the earliest position.
6. The two paths try the whitespace-stripped text and the original text in opposite orders.

Modules, in dependency order:

- `Text` (text.dfy): `Option`, `str.find` as a first-occurrence search, substring containment and an order-preserving `Filter`.
- `Chars` (chars.dfy): character classes, `contains_chinese` and `remove_all_white_spaces`.
- `Scanner` (scanner.dfy): `re.findall` with the pattern `(?<!C)C{4,8}(?!C)`.
  - It is written the way the regex engine runs it: the lookbehind, then greedy repetition backing off from 8 to 4, then the lookahead, resuming after each match.
  - It is proved to yield exactly the maximal class runs of length 4 to 8, in strictly increasing order.
- `Ranking` (ranking.dfy): the `LEVEL_*` tiers, `is_near_to_keyword`, `distance_to_keyword` and the selection loop of `get_sms_code`.
  - The loop is a fold over a `Pick` state.
  - The fold's specification is `IsBestAmong`: maximal level, then no strictly closer code of that level, then no earlier code of that level at the same or a shorter distance.
- `SmsCode` (extractor.dfy): `parse_keyword`, `contains_code_keywords`, `get_sms_code`, the two paths with their fallback orders, `parse_by_default_rule` and `parse_sms_code_if_exists`.
- `Scenarios` (scenarios.dfy): two messages worked through end to end.
  - The WeChat Pay message of the module's demonstration yields "754207". It does not yield the year "2024", the "0211" that stripping forms from "02 11", or the amount "7700".
  - An English one-time-password message yields "4821".

Modelling decisions:

- The keyword is a literal string. Every caller passes a literal phrase, and every later use of the keyword (`content.find`, `in`) treats it literally. `re.search(keyword, content)` is therefore a substring search.
- `str.find` returns `Option<nat>` instead of `-1`.
- `float('inf')` is the `Infinite` case of a `Distance` datatype. Python's `<` on distances is `Closer`, under which `Infinite` is never smaller.
- The pattern string of `get_sms_code` is a `CharClass` parameter (`Digits` or `Alnum`). These are the only two patterns ever passed.
- The loop state of `get_sms_code` carries one extra field, `at`: the index of the code held in `sms_code`. It lets the contract say which occurrence in the list was chosen.

## Model

| member | source | states |
|---|---|---|
| `Text.Find` | SmsCodeUtils.py:116 | `str.find`: some index exactly when the pattern occurs, and then the first occurrence |
| `Text.FirstOccurrenceIsFind` | SmsCodeUtils.py:127-128 | any first occurrence of a pattern is the index `Find` returns |
| `Text.SliceOccurrence` | SmsCodeUtils.py:122 | the pattern occurs in `text[b:e]` exactly when it occurs in `text` wholly inside `[b, e)` |
| `Chars.ContainsChinese` | SmsCodeUtils.py:12-14 | true exactly when some character is in U+4E00–U+9FA5 or is '。' |
| `Chars.RemoveAllWhiteSpaces` | SmsCodeUtils.py:44-46 | the result has no whitespace, keeps every non-whitespace character, adds none, and is no longer than the input |
| `Chars.RemoveAllWhiteSpacesAppend` | SmsCodeUtils.py:44-46 | stripping distributes over concatenation, so kept characters stay in their original order |
| `Chars.RemoveAllWhiteSpacesChar` | SmsCodeUtils.py:46 | a single character is dropped exactly when it is whitespace |
| `Chars.RemoveAllWhiteSpacesIdentity` | SmsCodeUtils.py:44-46 | whitespace-free text is left unchanged |
| `Chars.RemoveAllWhiteSpacesIdempotent` | SmsCodeUtils.py:44-46 | stripping twice equals stripping once |
| `Scanner.GreedyRepeat` | SmsCodeUtils.py:51 | the greedy `{4,n}` with lookahead returns the longest length in 4..n after which the run ends, or none if no such length exists |
| `Scanner.MatchAt` | SmsCodeUtils.py:51 | the pattern tried at one offset: a match is a maximal class run of length 4 to 8 starting there, and no match means no such run starts there |
| `Scanner.MatchAtIsCodeSpan` | SmsCodeUtils.py:51 | the pattern matches at `p` with length `n` exactly when `[p, p+n)` is a maximal class run of length 4 to 8 |
| `Scanner.RunEndUnique` | SmsCodeUtils.py:51-61 | a run followed by the lookahead has only one possible length at a given start |
| `Scanner.CodeSpansSeparated` | SmsCodeUtils.py:51-61 | two distinct code spans do not overlap or touch |
| `Scanner.ScanSpans` | SmsCodeUtils.py:71 | the left-to-right scan from `p` yields only code spans at or after `p`, all of them, in strictly increasing order |
| `Scanner.CodeSpans` | SmsCodeUtils.py:71 | the matches of `re.findall` are exactly the code spans of the text, and each one ends before any later one starts |
| `Scanner.FindAll` | SmsCodeUtils.py:71 | `re.findall` yields one string per match, the text of a maximal class run of length 4 to 8 |
| `Scanner.FindAllSound` | SmsCodeUtils.py:51 | each candidate has 4 to 8 class characters and occurs in the text, bounded by non-class characters or the text's ends |
| `Scanner.FindAllComplete` | SmsCodeUtils.py:51-61 | every maximal class run of length 4 to 8 is a candidate |
| `Scanner.LongRunContributesNothing` | SmsCodeUtils.py:51 | a class run of nine or more characters overlaps no candidate |
| `Scanner.FindAllNonEmpty` | SmsCodeUtils.py:72-73 | every candidate has 4 to 8 class characters, so none is the empty string |
| `Scanner.FindAllSingle` | SmsCodeUtils.py:71 | a text with a single code span yields exactly that span's text |
| `Ranking.MatchLevel` | SmsCodeUtils.py:101-111 | exactly 6 digits gives 4, exactly 4 digits gives 3, other all-digit strings give 2, letters only gives 0, anything else gives 1 |
| `Ranking.DistanceToKeyword` | SmsCodeUtils.py:125-129 | finite exactly when both occur, and then the absolute difference of the first offsets |
| `Ranking.IsNearToKeyword` | SmsCodeUtils.py:114-122 | false for an absent code; otherwise true exactly when the keyword lies inside the window of 30 characters around the code's first occurrence |
| `Ranking.NearCodes` | SmsCodeUtils.py:75-77 | keeps exactly the candidates near the keyword (membership; order and duplicates are stated by the two lemmas below) |
| `Ranking.NearCodesAppend` | SmsCodeUtils.py:75-77 | the comprehension keeps order: the near codes of a concatenation are the near codes of each part, concatenated |
| `Ranking.NearCodesSingle` | SmsCodeUtils.py:75-77 | one code is kept, once, exactly when it is near the keyword; with the lemma above this fixes the result, duplicates included |
| `Ranking.CandidatePool` | SmsCodeUtils.py:75-80 | the near candidates when any exist, otherwise all candidates; never empty when candidates exist, and never holds a non-candidate |
| `Ranking.NoNearCodes` | SmsCodeUtils.py:79-80 | the filter comes out empty, so the fallback applies, exactly when no candidate is near |
| `Ranking.BestIsUnique` | SmsCodeUtils.py:86-96 | the selection criterion picks at most one index |
| `Ranking.BestDominates` | SmsCodeUtils.py:86-96 | helper for `SmsCode.ResultDominatesPool`: two clauses of the selection criterion stated for one index, namely that the selection has the highest level and that no code of that level is strictly closer |
| `Ranking.BestWithinDistance` | SmsCodeUtils.py:92-96 | when a code of the selected level is `d` from the keyword, the selection's first occurrence is within `d` of the keyword's |
| `Ranking.Step` | SmsCodeUtils.py:86-96 | one iteration keeps the pick or replaces it by the current code; the level never drops and reaches the code's; at the resulting level neither the old pick nor the code is strictly closer; it replaces only on a strictly higher level or a strictly closer code of equal level, so ties keep the earlier code |
| `Ranking.FirstStepPicks` | SmsCodeUtils.py:82-91 | the first iteration always takes the first code, since every level exceeds `LEVEL_NONE` |
| `Ranking.StepKeepsBest` | SmsCodeUtils.py:86-96 | one loop iteration turns the best of a prefix into the best of the prefix one longer |
| `Ranking.RankPrefix` | SmsCodeUtils.py:82-96 | after `n > 0` codes the loop state holds one of the first `n` codes together with that code's own level and distance |
| `Ranking.RankPrefixIsBest` | SmsCodeUtils.py:82-96 | after `n` codes the loop holds the best of the first `n` by level, then distance, then position |
| `Ranking.SelectCode` | SmsCodeUtils.py:82-98 | the loop returns `""` for no codes, and otherwise one of the codes |
| `Ranking.SelectCodeIsBest` | SmsCodeUtils.py:82-98 | for a non-empty list, the loop returns the best of all the codes |
| `SmsCode.ParseKeyword` | SmsCodeUtils.py:22-25 | the keyword when it is non-empty and occurs in the content, otherwise `""` |
| `SmsCode.ContainsCodeKeywords` | SmsCodeUtils.py:17-19 | true exactly when the non-empty keyword occurs in the content |
| `SmsCode.GetSmsCode` | SmsCodeUtils.py:69-98 | `""` exactly when the scan finds nothing; otherwise a candidate, taken from the pool |
| `SmsCode.GetSmsCodeSelectsBest` | SmsCodeUtils.py:69-98 | when the scan finds candidates, the result is the best of the pool by level, then distance, then position |
| `SmsCode.GetSmsCodeCn` | SmsCodeUtils.py:49-56 | the stripped text's code when it has candidates, otherwise the original text's; `""` only when neither has candidates |
| `SmsCode.GetSmsCodeEn` | SmsCodeUtils.py:59-66 | the original text's code when it has candidates, otherwise the stripped text's; `""` only when neither has candidates |
| `SmsCode.PathClass` | SmsCodeUtils.py:38-41 | the Chinese pattern exactly when the content has an ideograph in U+4E00–U+9FA5 or '。' |
| `SmsCode.ParseByDefaultRule` | SmsCodeUtils.py:33-41 | `""` without the keyword; otherwise the Chinese path for ideographic content and the English path for the rest |
| `SmsCode.ParseSmsCodeIfExists` | SmsCodeUtils.py:28-30 | a one-line delegation: the result is exactly `parse_by_default_rule`'s |
| `SmsCode.NoKeywordNoCode` | SmsCodeUtils.py:35-37 | a message without the keyword yields `""`, whatever digits or letters it holds |
| `SmsCode.ResultIsCandidate` | SmsCodeUtils.py:38-66 | a returned code is a candidate of the path's pattern in the original or the stripped text |
| `SmsCode.DigitCandidateLevel` | SmsCodeUtils.py:101-108 | on the English path a candidate's tier depends only on its length |
| `SmsCode.MixedOutranksLetters` | SmsCodeUtils.py:101-111 | a code with both digits and letters outranks every letters-only code |
| `SmsCode.SingleCandidate` | SmsCodeUtils.py:71-98 | a single candidate is returned whether or not it is near the keyword |
| `SmsCode.FailOpen` | SmsCodeUtils.py:79-80 | when no candidate is near, the selection is made among all candidates |
| `SmsCode.SixDigitsWin` | SmsCodeUtils.py:86-91 | if the pool holds a six-digit code, the result is a six-digit code |
| `SmsCode.ResultDominatesPool` | SmsCodeUtils.py:86-96 | no pooled code has a higher level than the result, and none of equal level is strictly closer |
| `Scenarios.WeChatStripped` | SmsCodeUtils.py:133 | stripping the demonstration message removes only its single space |
| `Scenarios.WeChatTakesStrippedChinesePath` | SmsCodeUtils.py:38-39 | the demonstration takes the Chinese path, and its code is the one selected from the whitespace-stripped text |
| `Scenarios.WeChatPayCode` | SmsCodeUtils.py:133-136 | the demonstration message yields "754207" |
| `Scenarios.OtpTakesEnglishPath` | SmsCodeUtils.py:40-41 | an English message with the keyword takes the English path on the original text |
| `Scenarios.OtpCode` | SmsCodeUtils.py:59-66 | "Your OTP is 4821, valid for 5 minutes" yields "4821" |

## Left out

- `utils.py` is not part of this model. It writes the code to the clipboard, shows a desktop notification and prints.
- The `__main__` demonstration (SmsCodeUtils.py:132-137) prints its result. Its message appears only in the `Scenarios` module, as a worked example.
- A general regular expression as the keyword (SmsCodeUtils.py:24) is not modelled. The keyword is a literal string, which is all that is ever passed.
- `Chars.IsWhitespace` fixes Python's `\s` to the characters for which `str.isspace()` holds, written out as a table. It is not derived from the Unicode database.
- The pattern string argument of `get_sms_code` is replaced by the two classes it can take.
- Python's `float` is not modelled. The one float that can arise is `inf`, and it is the `Infinite` case of `Distance`.
- `Ranking.IsNearToKeyword` fixes the `magic_number` parameter to its default 30 (`Radius`), the only value any caller uses (SmsCodeUtils.py:114).
