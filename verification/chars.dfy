/** Character classes the extractor distinguishes, the script classifier
    (`contains_chinese`) and whitespace normalisation (`remove_all_white_spaces`). */
module Chars {
  import opened Text

  /** `[0-9]` */
  predicate IsDigit(c: char)
  {
    '0' <= c <= '9'
  }

  /** `[a-zA-Z]` */
  predicate IsAsciiLetter(c: char)
  {
    'a' <= c <= 'z' || 'A' <= c <= 'Z'
  }

  /** `[a-zA-Z0-9]` */
  predicate IsAsciiAlnum(c: char)
  {
    IsDigit(c) || IsAsciiLetter(c)
  }

  /** `[一-龥]|。`: a common CJK ideograph or the ideographic full stop. */
  predicate IsChineseChar(c: char)
  {
    ('\U{4E00}' <= c <= '\U{9FA5}') || c == '\U{3002}'
  }

  /** Python's `\s` on `str` patterns: the characters for which `str.isspace()`
      holds (control separators, the ASCII and Unicode space separators,
      line and paragraph separators, and the ideographic space U+3000). */
  predicate IsWhitespace(c: char)
  {
    var n := c as int;
    (0x09 <= n <= 0x0D) || (0x1C <= n <= 0x20) || n == 0x85 || n == 0xA0 ||
    n == 0x1680 || (0x2000 <= n <= 0x200A) || n == 0x2028 || n == 0x2029 ||
    n == 0x202F || n == 0x205F || n == 0x3000
  }

  /** `contains_chinese`: some character of `text` is ideographic. */
  function ContainsChinese(text: string): (r: bool)
    ensures r <==> exists i :: 0 <= i < |text| && IsChineseChar(text[i])
  {
    if |text| == 0 then false
    else if IsChineseChar(text[0]) then true
    else
      var rest := ContainsChinese(text[1..]);
      assert forall i :: 1 <= i < |text| ==> text[i] == text[1..][i - 1];
      rest
  }

  /** The condition under which `remove_all_white_spaces` keeps a character. */
  predicate NotWhitespace(c: char)
  {
    !IsWhitespace(c)
  }

  /** `remove_all_white_spaces`: drop every whitespace character and keep the
      others in their original order. */
  function RemoveAllWhiteSpaces(content: string): (r: string)
    ensures |r| <= |content|
    ensures forall i :: 0 <= i < |r| ==> !IsWhitespace(r[i])
    ensures forall i :: 0 <= i < |content| && !IsWhitespace(content[i]) ==> content[i] in r
    ensures forall i :: 0 <= i < |r| ==> r[i] in content
  {
    var r := Filter(content, NotWhitespace);
    assert forall i :: 0 <= i < |r| ==> r[i] in r;
    r
  }

  /** Stripping is a homomorphism over concatenation, so every kept character
      stays in its original relative order. */
  lemma RemoveAllWhiteSpacesAppend(a: string, b: string)
    ensures RemoveAllWhiteSpaces(a + b) == RemoveAllWhiteSpaces(a) + RemoveAllWhiteSpaces(b)
  {
    FilterAppend(a, b, NotWhitespace);
  }

  /** A single character is kept exactly when it is not whitespace. */
  lemma RemoveAllWhiteSpacesChar(c: char)
    ensures RemoveAllWhiteSpaces([c]) == (if IsWhitespace(c) then [] else [c])
  {
    assert [c][1..] == [];
  }

  /** Text without whitespace is left unchanged. */
  lemma RemoveAllWhiteSpacesIdentity(content: string)
    requires forall i :: 0 <= i < |content| ==> !IsWhitespace(content[i])
    ensures RemoveAllWhiteSpaces(content) == content
  {
    FilterIdentity(content, NotWhitespace);
  }

  /** Stripping twice is stripping once. */
  lemma RemoveAllWhiteSpacesIdempotent(content: string)
    ensures RemoveAllWhiteSpaces(RemoveAllWhiteSpaces(content)) == RemoveAllWhiteSpaces(content)
  {
    RemoveAllWhiteSpacesIdentity(RemoveAllWhiteSpaces(content));
  }
}
