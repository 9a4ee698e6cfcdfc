/** The string operations of Python's `str` that the parser relies on:
    `isspace`, `strip` and the substring test `needle in haystack`. */
module PyText {

  /** The characters for which Python's `str.isspace()` is true. Python's `re`
      module uses the same set for `\s` in a str pattern. */
  predicate IsSpace(c: char) {
    ('\t' <= c <= '\r') || ('\U{1c}' <= c <= '\U{20}') || c == '\U{85}' || c == '\U{a0}'
    || c == '\U{1680}' || ('\U{2000}' <= c <= '\U{200a}') || c == '\U{2028}' || c == '\U{2029}'
    || c == '\U{202f}' || c == '\U{205f}' || c == '\U{3000}'
  }

  /** An ASCII decimal digit, what `\d` matches in this model. */
  predicate IsDigit(c: char) {
    '0' <= c <= '9'
  }

  predicate AllDigits(s: string) {
    forall k :: 0 <= k < |s| ==> IsDigit(s[k])
  }

  /** Every character of `s[lo..hi]` is whitespace. */
  predicate AllSpaceIn(s: string, lo: int, hi: int)
    requires 0 <= lo <= hi <= |s|
  {
    forall k :: lo <= k < hi ==> IsSpace(s[k])
  }

  /** `s` neither starts nor ends with whitespace. */
  predicate NoOuterSpace(s: string) {
    s == [] || (!IsSpace(s[0]) && !IsSpace(s[|s| - 1]))
  }

  /** `needle` occurs in `text` at position `i`. */
  predicate OccursAt(text: string, needle: string, i: int) {
    0 <= i && i + |needle| <= |text| && text[i..i + |needle|] == needle
  }

  /** Python's `needle in text`: a prefix test at every position, left to right. */
  predicate Contains(text: string, needle: string)
    decreases |text|
  {
    needle <= text || (text != [] && Contains(text[1..], needle))
  }

  /** A text that contains the needle has it at some position. */
  lemma {:induction false} ContainsFound(text: string, needle: string)
    requires Contains(text, needle)
    ensures exists i :: OccursAt(text, needle, i)
    decreases |text|
  {
    if needle <= text {
      assert text[..|needle|] == needle;
      assert OccursAt(text, needle, 0);
    } else {
      ContainsFound(text[1..], needle);
      var i :| OccursAt(text[1..], needle, i);
      assert text[i + 1..i + 1 + |needle|] == text[1..][i..i + |needle|];
      assert OccursAt(text, needle, i + 1);
    }
  }

  /** A needle at some position is contained in the text. */
  lemma {:induction false} OccursContains(text: string, needle: string, i: int)
    requires OccursAt(text, needle, i)
    ensures Contains(text, needle)
    decreases i
  {
    if i == 0 {
      assert needle == text[..|needle|];
    } else {
      assert text[1..][i - 1..i - 1 + |needle|] == text[i..i + |needle|];
      OccursContains(text[1..], needle, i - 1);
    }
  }

  /** `Contains` holds exactly when the needle occurs at some position. */
  lemma ContainsIff(text: string, needle: string)
    ensures Contains(text, needle) <==> exists i :: OccursAt(text, needle, i)
  {
    if Contains(text, needle) {
      ContainsFound(text, needle);
    }
    forall i | OccursAt(text, needle, i) ensures Contains(text, needle) {
      OccursContains(text, needle, i);
    }
  }

  /** A text contains every piece it is made of. */
  lemma ContainsPiece(a: string, b: string, c: string)
    ensures Contains(a + b + c, b)
  {
    assert (a + b + c)[|a|..|a| + |b|] == b;
    assert OccursAt(a + b + c, b, |a|);
    ContainsIff(a + b + c, b);
  }

  /** A needle that occurs in `text` is made of characters of `text`. */
  lemma ContainsOnlyTextChars(text: string, needle: string, c: char)
    requires Contains(text, needle)
    requires c in needle
    ensures c in text
  {
    ContainsIff(text, needle);
    var i :| OccursAt(text, needle, i);
    var k :| 0 <= k < |needle| && needle[k] == c;
    assert text[i + k] == text[i..i + |needle|][k];
  }

  /** The empty text contains only the empty needle. */
  lemma {:induction false} EmptyTextContainsNothing(needle: string)
    ensures Contains("", needle) <==> needle == ""
  {
  }

  /** The first position at or after `i` that holds no whitespace
      (`|s|` when there is none): the left scan of `str.strip()`. */
  function SkipSpace(s: string, i: nat): (j: nat)
    requires i <= |s|
    ensures i <= j <= |s| && AllSpaceIn(s, i, j)
    ensures j < |s| ==> !IsSpace(s[j])
    decreases |s| - i
  {
    if i < |s| && IsSpace(s[i]) then SkipSpace(s, i + 1) else i
  }

  /** The end of `s[lo..hi]` once its trailing whitespace is dropped:
      the right scan of `str.strip()`, which stops at `lo`. */
  function SkipSpaceBack(s: string, lo: nat, hi: nat): (j: nat)
    requires lo <= hi <= |s|
    ensures lo <= j <= hi && AllSpaceIn(s, j, hi)
    ensures j > lo ==> !IsSpace(s[j - 1])
    decreases hi
  {
    if lo < hi && IsSpace(s[hi - 1]) then SkipSpaceBack(s, lo, hi - 1) else hi
  }

  /** Python's `str.strip()`: the result is the slice of `s` left once all
      leading and trailing whitespace is removed. */
  function Strip(s: string): (r: string)
    ensures NoOuterSpace(r)
    ensures exists i :: 0 <= i <= |s| - |r| && s[i..i + |r|] == r
                        && AllSpaceIn(s, 0, i) && AllSpaceIn(s, i + |r|, |s|)
  {
    var i := SkipSpace(s, 0);
    var j := SkipSpaceBack(s, i, |s|);
    assert s[i..j] == s[i..i + |s[i..j]|];
    s[i..j]
  }

  /** Stripping a string that has no outer whitespace leaves it as it is. */
  lemma StripKeeps(s: string)
    requires NoOuterSpace(s)
    ensures Strip(s) == s
  {
    if s != [] {
      assert IsSpace(s[|s| - 1]) == false;
    }
  }

  /** Stripping is idempotent. */
  lemma StripIdempotent(s: string)
    ensures Strip(Strip(s)) == Strip(s)
  {
    StripKeeps(Strip(s));
  }

  /** A string of digits has no outer whitespace. */
  lemma DigitsHaveNoOuterSpace(s: string)
    requires AllDigits(s)
    ensures NoOuterSpace(s)
  {
    if s != [] {
      assert IsDigit(s[0]) && IsDigit(s[|s| - 1]);
    }
  }
}
