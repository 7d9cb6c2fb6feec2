/** Literal substring search and order-preserving filtering over sequences:
    the string primitives the extractor is built from (Python's `str.find`,
    `in` on strings and list comprehensions with a condition). */
module Text {

  /** `None` stands for Python's `-1` from `str.find`. */
  datatype Option<+T> = None | Some(value: T)

  /** `pat` occurs in `text` starting at offset `i`. */
  predicate Occurs(text: string, pat: string, i: int)
  {
    0 <= i && i + |pat| <= |text| && text[i..i + |pat|] == pat
  }

  /** `pat` occurs somewhere in `text` (Python's `pat in text`). */
  ghost predicate IsSubstring(pat: string, text: string)
  {
    exists i :: Occurs(text, pat, i)
  }

  /** `i` is the leftmost offset at which `pat` occurs in `text`. */
  ghost predicate FirstOccurrence(text: string, pat: string, i: int)
  {
    Occurs(text, pat, i) && forall k :: 0 <= k < i ==> !Occurs(text, pat, k)
  }

  /** Leftmost occurrence of `pat` in `text` at or after offset `from`. */
  function FindFrom(text: string, pat: string, from: nat): (r: Option<nat>)
    requires from <= |text|
    ensures r.Some? ==> from <= r.value && Occurs(text, pat, r.value)
    ensures r.Some? ==> forall k :: from <= k < r.value ==> !Occurs(text, pat, k)
    ensures r.None? ==> forall k :: from <= k ==> !Occurs(text, pat, k)
    decreases |text| - from
  {
    if from + |pat| > |text| then None
    else if text[from..from + |pat|] == pat then Some(from)
    else FindFrom(text, pat, from + 1)
  }

  /** Python's `text.find(pat)`: the first offset of `pat`, or `None` for `-1`. */
  function Find(text: string, pat: string): (r: Option<nat>)
    ensures r.Some? <==> IsSubstring(pat, text)
    ensures r.Some? ==> FirstOccurrence(text, pat, r.value)
  {
    FindFrom(text, pat, 0)
  }

  /** Python's `pat in text`. */
  function Contains(text: string, pat: string): (r: bool)
    ensures r <==> IsSubstring(pat, text)
  {
    Find(text, pat).Some?
  }

  /** Whatever offset is the first occurrence of `pat` is the one `Find` reports. */
  lemma FirstOccurrenceIsFind(text: string, pat: string)
    ensures forall i :: FirstOccurrence(text, pat, i) ==> Find(text, pat) == Some(i)
  {
  }

  /** An occurrence inside the slice `text[b..e]` is exactly an occurrence in
      `text` that lies wholly between `b` and `e`. */
  lemma SliceOccurrence(text: string, pat: string, b: nat, e: nat)
    requires b <= e <= |text|
    ensures IsSubstring(pat, text[b..e]) <==>
            exists j :: b <= j && j + |pat| <= e && Occurs(text, pat, j)
  {
    var t := text[b..e];
    if IsSubstring(pat, t) {
      var k :| Occurs(t, pat, k);
      assert forall m :: 0 <= m < |pat| ==> pat[m] == t[k + m] == text[b + k + m];
      assert text[b + k..b + k + |pat|] == pat;
      assert Occurs(text, pat, b + k);
    }
    if exists j :: b <= j && j + |pat| <= e && Occurs(text, pat, j) {
      var j :| b <= j && j + |pat| <= e && Occurs(text, pat, j);
      assert forall m :: 0 <= m < |pat| ==> pat[m] == text[j + m] == t[j - b + m];
      assert t[j - b..j - b + |pat|] == pat;
      assert Occurs(t, pat, j - b);
    }
  }

  /** The elements of `s` that satisfy `keep`, in their original order
      (Python's `[x for x in s if keep(x)]`). */
  function Filter<T(!new)>(s: seq<T>, keep: T -> bool): (r: seq<T>)
    ensures |r| <= |s|
    ensures forall x :: x in r ==> x in s && keep(x)
    ensures forall x :: x in s && keep(x) ==> x in r
  {
    if |s| == 0 then []
    else (if keep(s[0]) then [s[0]] else []) + Filter(s[1..], keep)
  }

  /** Filtering distributes over concatenation: relative order is kept. */
  lemma {:induction false} FilterAppend<T(!new)>(a: seq<T>, b: seq<T>, keep: T -> bool)
    ensures Filter(a + b, keep) == Filter(a, keep) + Filter(b, keep)
  {
    if |a| == 0 {
      assert a + b == b;
    } else {
      assert (a + b)[1..] == a[1..] + b;
      FilterAppend(a[1..], b, keep);
    }
  }

  /** A sequence all of whose elements are kept is left unchanged. */
  lemma {:induction false} FilterIdentity<T(!new)>(s: seq<T>, keep: T -> bool)
    requires forall i :: 0 <= i < |s| ==> keep(s[i])
    ensures Filter(s, keep) == s
  {
    if |s| > 0 {
      FilterIdentity(s[1..], keep);
    }
  }

  /** Filtering twice with the same condition is filtering once. */
  lemma FilterIdempotent<T(!new)>(s: seq<T>, keep: T -> bool)
    ensures Filter(Filter(s, keep), keep) == Filter(s, keep)
  {
    var r := Filter(s, keep);
    forall i | 0 <= i < |r|
      ensures keep(r[i])
    {
    }
    FilterIdentity(r, keep);
  }
}
