/**
 * The string helpers the controllers lean on: String.Trim, the
 * [Required] test (String.IsNullOrWhiteSpace), an ASCII case fold standing
 * in for ToLower and the regex "i" flag, and substring search.
 */
module Text {
  import opened Wrappers

  /** System.Char.IsWhiteSpace: U+0009..U+000D, U+0020, U+0085, U+00A0, and
      the Unicode space, line and paragraph separators. */
  predicate IsWhiteSpace(c: char) {
    || c == ' ' || ('\t' <= c <= '\r') || c == '\U{85}' || c == '\U{A0}'
    || c == '\U{1680}' || ('\U{2000}' <= c <= '\U{200A}') || c == '\U{2028}'
    || c == '\U{2029}' || c == '\U{202F}' || c == '\U{205F}' || c == '\U{3000}'
  }

  predicate AllWhiteSpace(s: string) {
    forall i | 0 <= i < |s| :: IsWhiteSpace(s[i])
  }

  /** Neither end of s is white space. */
  predicate IsTrimmed(s: string) {
    s == [] || (!IsWhiteSpace(s[0]) && !IsWhiteSpace(s[|s| - 1]))
  }

  /** String.IsNullOrWhiteSpace. */
  predicate IsNullOrWhiteSpace(s: Option<string>) {
    s.None? || AllWhiteSpace(s.value)
  }

  /** [Required] on a string property: null, empty and all-white-space values fail. */
  predicate Required(s: Option<string>) {
    !IsNullOrWhiteSpace(s)
  }

  /** The first position at or after i that does not hold white space, or
      |s| when there is none: where String.Trim's forward scan stops. */
  function SkipWhiteSpace(s: string, i: nat): (k: nat)
    requires i <= |s|
    ensures i <= k <= |s|
    ensures forall x | i <= x < k :: IsWhiteSpace(s[x])
    ensures k < |s| ==> !IsWhiteSpace(s[k])
    decreases |s| - i
  {
    if i < |s| && IsWhiteSpace(s[i]) then SkipWhiteSpace(s, i + 1) else i
  }

  /** The position just after the last character before j, and at or after
      lo, that is not white space, or lo when there is none: where the
      backward scan stops. */
  function SkipWhiteSpaceBack(s: string, lo: nat, j: nat): (k: nat)
    requires lo <= j <= |s|
    ensures lo <= k <= j
    ensures forall x | k <= x < j :: IsWhiteSpace(s[x])
    ensures k > lo ==> !IsWhiteSpace(s[k - 1])
    decreases j
  {
    if j > lo && IsWhiteSpace(s[j - 1]) then SkipWhiteSpaceBack(s, lo, j - 1) else j
  }

  /** String.Trim(): the result is the part of s between its leading and its
      trailing white space. */
  function Trim(s: string): (r: string)
    ensures IsTrimmed(r)
    ensures exists i | 0 <= i <= |s| - |r| ::
              s[i..i + |r|] == r && AllWhiteSpace(s[..i]) && AllWhiteSpace(s[i + |r|..])
  {
    var i := SkipWhiteSpace(s, 0);
    var j := SkipWhiteSpaceBack(s, i, |s|);
    assert forall x | 0 <= x < i :: s[..i][x] == s[x];
    assert forall x | 0 <= x < |s| - j :: s[j..][x] == s[j + x];
    s[i..j]
  }

  /** A nullable string trimmed when present and left null when null. */
  function TrimOpt(s: Option<string>): (r: Option<string>)
    ensures r.None? <==> s.None?
    ensures s.Some? ==> r.value == Trim(s.value)
  {
    match s
    case None => None
    case Some(v) => Some(Trim(v))
  }

  /** Trim removes exactly the surrounding white space: a trimmed core with
      white space on either side trims back to that core. */
  lemma TrimOfPadded(w1: string, t: string, w2: string)
    requires AllWhiteSpace(w1) && AllWhiteSpace(w2) && IsTrimmed(t)
    ensures Trim(w1 + t + w2) == t
  {
    var s := w1 + t + w2;
    var a, b := |w1|, |w1| + |t|;
    assert forall x | 0 <= x < a :: s[x] == w1[x];
    assert forall x | b <= x < |s| :: s[x] == w2[x - b];
    var i := SkipWhiteSpace(s, 0);
    if t == [] {
      assert i == |s|;
    } else {
      assert s[a] == t[0] && s[b - 1] == t[|t| - 1];
      assert i == a;
      assert SkipWhiteSpaceBack(s, i, |s|) == b;
      assert s[a..b] == t;
    }
  }

  /** A string that is already trimmed is left alone. */
  lemma TrimOfTrimmed(s: string)
    requires IsTrimmed(s)
    ensures Trim(s) == s
  {
    TrimOfPadded([], s, []);
    assert [] + s + [] == s;
  }

  /** Trimming twice is trimming once. */
  lemma TrimIdempotent(s: string)
    ensures Trim(Trim(s)) == Trim(s)
  {
    TrimOfTrimmed(Trim(s));
  }

  /** The [Required] check agrees with "non-empty after trimming", so it does
      not matter whether it runs before or after the controllers trim. */
  lemma RequiredIffTrimmedNonEmpty(s: Option<string>)
    ensures Required(s) <==> (TrimOpt(s).Some? && TrimOpt(s).value != [])
  {
    if s.Some? {
      var v := s.value;
      var i := SkipWhiteSpace(v, 0);
      var j := SkipWhiteSpaceBack(v, i, |v|);
      assert Trim(v) == v[i..j];
      if i == j {
        assert forall x | 0 <= x < |v| :: IsWhiteSpace(v[x]);
      } else {
        assert !IsWhiteSpace(v[i]);
      }
    }
  }

  /** ASCII case fold, standing in for ToLower and the regex "i" flag. */
  function FoldChar(c: char): (d: char)
    ensures 'A' <= c <= 'Z' ==> 'a' <= d <= 'z' && d as int - c as int == 32
    ensures !('A' <= c <= 'Z') ==> d == c
  {
    if 'A' <= c <= 'Z' then (c as int + 32) as char else c
  }

  function FoldCase(s: string): (r: string)
    ensures |r| == |s|
    ensures forall i | 0 <= i < |s| :: r[i] == FoldChar(s[i])
  {
    if s == [] then [] else [FoldChar(s[0])] + FoldCase(s[1..])
  }

  /** a and b are equal ignoring case. */
  predicate SameIgnoringCase(a: string, b: string) {
    FoldCase(a) == FoldCase(b)
  }

  /** Strings whose characters fold pairwise to the same character are
      equal ignoring case. */
  lemma SameFoldedChars(a: string, b: string)
    requires |a| == |b| && forall i | 0 <= i < |a| :: FoldChar(a[i]) == FoldChar(b[i])
    ensures SameIgnoringCase(a, b)
  {
  }

  /** Folding is idempotent, so a folded string is its own key. */
  lemma FoldCaseIdempotent(s: string)
    ensures FoldCase(FoldCase(s)) == FoldCase(s)
  {
  }

  /** needle occurs in haystack starting at index i. */
  predicate OccursAt(haystack: string, needle: string, i: nat) {
    i + |needle| <= |haystack| && haystack[i..i + |needle|] == needle
  }

  predicate Contains(haystack: string, needle: string) {
    exists i | 0 <= i <= |haystack| - |needle| :: OccursAt(haystack, needle, i)
  }

  /** Case-insensitive substring search on literal text. */
  predicate ContainsIgnoringCase(haystack: string, needle: string) {
    Contains(FoldCase(haystack), FoldCase(needle))
  }

  /** An empty search matches every name. */
  lemma EmptySearchMatches(haystack: string)
    ensures ContainsIgnoringCase(haystack, "")
  {
    assert OccursAt(FoldCase(haystack), FoldCase(""), 0);
  }

  /** A name that equals the search ignoring case is found by it. */
  lemma SameNameIsFound(name: string, search: string)
    requires SameIgnoringCase(name, search)
    ensures ContainsIgnoringCase(name, search)
  {
    assert OccursAt(FoldCase(name), FoldCase(search), 0);
  }
}
