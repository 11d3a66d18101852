/**
 * The few string operations the helpers rely on (`str.lower`, `str.strip`, `str.rfind`),
 * on the ASCII range.
 */
module Text {
  function LowerChar(c: char): (r: char)
    ensures 'A' <= c <= 'Z' ==> r as int == c as int + 32
    ensures !('A' <= c <= 'Z') ==> r == c
    ensures !('A' <= r <= 'Z')
  {
    if 'A' <= c <= 'Z' then (c as int + 32) as char else c
  }

  /** ASCII lower-casing, one character at a time. */
  function Lower(s: string): (r: string)
    ensures |r| == |s|
    ensures forall i :: 0 <= i < |s| ==> r[i] == LowerChar(s[i])
  {
    seq(|s|, i requires 0 <= i < |s| => LowerChar(s[i]))
  }

  lemma LowerIdempotent(s: string)
    ensures Lower(Lower(s)) == Lower(s)
  {
  }

  /** The ASCII characters `str.isspace` counts as whitespace: those `str.strip` removes from ASCII text. */
  predicate IsSpace(c: char)
  {
    c == ' ' || c == '\t' || c == '\n' || c == '\r' || c == '\U{0B}' || c == '\U{0C}'
      || c == '\U{1C}' || c == '\U{1D}' || c == '\U{1E}' || c == '\U{1F}'
  }

  /** The first position at or after `i` that is not whitespace, or `|s|`. */
  function SpacesFrom(s: string, i: nat): (j: nat)
    requires i <= |s|
    ensures i <= j <= |s|
    ensures forall k :: i <= k < j ==> IsSpace(s[k])
    ensures j == |s| || !IsSpace(s[j])
    decreases |s| - i
  {
    if i < |s| && IsSpace(s[i]) then SpacesFrom(s, i + 1) else i
  }

  /** The position just after the last character before `e` that is not whitespace, or 0. */
  function SpacesBefore(s: string, e: nat): (j: nat)
    requires e <= |s|
    ensures j <= e
    ensures forall k :: j <= k < e ==> IsSpace(s[k])
    ensures j == 0 || !IsSpace(s[j - 1])
  {
    if e > 0 && IsSpace(s[e - 1]) then SpacesBefore(s, e - 1) else e
  }

  /** `r` is `s` with the `i` characters before it and the rest after it, all whitespace, removed. */
  predicate TrimmedAt(s: string, r: string, i: int)
  {
    0 <= i <= |s| - |r| && r == s[i..i + |r|]
    && (forall j :: 0 <= j < i ==> IsSpace(s[j]))
    && (forall j :: i + |r| <= j < |s| ==> IsSpace(s[j]))
  }

  /** `str.strip()`: a contiguous piece of `s`, with only whitespace removed around it. */
  function Strip(s: string): (r: string)
    ensures r == [] || (!IsSpace(r[0]) && !IsSpace(r[|r| - 1]))
    ensures exists i :: TrimmedAt(s, r, i)
  {
    var i, j := SpacesFrom(s, 0), SpacesBefore(s, |s|);
    if j <= i then
      assert TrimmedAt(s, [], 0);
      []
    else
      assert TrimmedAt(s, s[i..j], i);
      s[i..j]
  }

  lemma StripKeepsTrimmed(s: string)
    requires s == [] || (!IsSpace(s[0]) && !IsSpace(s[|s| - 1]))
    ensures Strip(s) == s
  {
  }

  lemma StripIdempotent(s: string)
    ensures Strip(Strip(s)) == Strip(s)
  {
    StripKeepsTrimmed(Strip(s));
  }

  /** The information separators U+001C to U+001F are whitespace to `str.strip`, as tabs and spaces are. */
  lemma StripRemovesSeparators()
    ensures Strip("\U{1C}ab\U{1F}") == "ab"
    ensures Strip("\U{1D}\t a\U{1E}") == "a"
  {
    assert SpacesFrom("\U{1C}ab\U{1F}", 0) == 1;
    assert SpacesBefore("\U{1C}ab\U{1F}", 4) == 3;
    assert SpacesFrom("\U{1D}\t a\U{1E}", 0) == 3;
    assert SpacesBefore("\U{1D}\t a\U{1E}", 5) == 4;
  }

  /** `str.rfind(c)`: the last position of `c`, or -1. */
  function LastIndexOf(s: string, c: char): (r: int)
    ensures -1 <= r < |s|
    ensures r >= 0 ==> s[r] == c
    ensures forall j :: r < j < |s| ==> s[j] != c
  {
    if s == [] then -1
    else if s[|s| - 1] == c then |s| - 1
    else LastIndexOf(s[..|s| - 1], c)
  }
}
