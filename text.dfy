/**
 * The string operations the importer relies on: Python's `str.strip()` and
 * `str.lower()`, Django's case-insensitive `__iexact` comparison and the
 * importer's `_normalize` helper.
 */
module Text {
  import opened Common

  /** The characters for which Python's `str.isspace()` holds. */
  predicate IsSpace(c: char) {
    c == ' ' || ('\t' <= c <= '\r') || ('\U{1c}' <= c <= '\U{1f}')
    || c == '\U{85}' || c == '\U{a0}' || c == '\U{1680}'
    || ('\U{2000}' <= c <= '\U{200a}') || c == '\U{2028}' || c == '\U{2029}'
    || c == '\U{202f}' || c == '\U{205f}' || c == '\U{3000}'
  }

  /** A string that has no surrounding whitespace. */
  predicate Trimmed(s: string) {
    s == [] || (!IsSpace(s[0]) && !IsSpace(s[|s| - 1]))
  }

  /** `s.lstrip()`: the suffix left after dropping the leading whitespace. */
  function StripLeft(s: string): (r: string)
    ensures |r| <= |s| && r == s[|s| - |r|..]
    ensures r == [] || !IsSpace(r[0])
    ensures forall i :: 0 <= i < |s| - |r| ==> IsSpace(s[i])
  {
    if |s| > 0 && IsSpace(s[0]) then StripLeft(s[1..]) else s
  }

  /** `s.rstrip()`: the prefix left after dropping the trailing whitespace. */
  function StripRight(s: string): (r: string)
    ensures |r| <= |s| && r == s[..|r|]
    ensures r == [] || !IsSpace(r[|r| - 1])
    ensures forall i :: |r| <= i < |s| ==> IsSpace(s[i])
  {
    if |s| > 0 && IsSpace(s[|s| - 1]) then StripRight(s[..|s| - 1]) else s
  }

  /** `r` is `s[i..]` cut to its length, and everything around it is whitespace. */
  predicate StrippedAt(s: string, r: string, i: int) {
    && 0 <= i <= |s| - |r| && r == s[i..i + |r|]
    && (forall j :: 0 <= j < i ==> IsSpace(s[j]))
    && (forall j :: i + |r| <= j < |s| ==> IsSpace(s[j]))
  }

  /** A prefix `r` of a suffix `l` of `s`, with whitespace cut off each side, sits in `s` where `l` starts. */
  lemma CutAt(s: string, l: string, r: string)
    requires |l| <= |s| && l == s[|s| - |l|..] && forall j :: 0 <= j < |s| - |l| ==> IsSpace(s[j])
    requires |r| <= |l| && r == l[..|r|] && forall j :: |r| <= j < |l| ==> IsSpace(l[j])
    ensures StrippedAt(s, r, |s| - |l|)
  {
    var i := |s| - |l|;
    assert r == s[i..i + |r|];
    forall j | i + |r| <= j < |s| ensures IsSpace(s[j]) {
      assert s[j] == l[j - i];
    }
  }

  /** Where `rstrip(lstrip(s))` sits in `s`: at the end of the leading whitespace. */
  lemma StripAt(s: string)
    ensures StrippedAt(s, StripRight(StripLeft(s)), |s| - |StripLeft(s)|)
  {
    CutAt(s, StripLeft(s), StripRight(StripLeft(s)));
  }

  /** `rstrip(lstrip(s))` is empty exactly when `s` is all whitespace. */
  lemma StripBlank(s: string)
    ensures StripRight(StripLeft(s)) == [] <==> forall i :: 0 <= i < |s| ==> IsSpace(s[i])
  {
  }

  /**
   * `s.strip()`: what is left of `s` once all leading and trailing whitespace
   * is gone. It is empty exactly when `s` is all whitespace, and a string
   * without surrounding whitespace is its own strip.
   */
  function Strip(s: string): (r: string)
    ensures Trimmed(r) && |r| <= |s|
    ensures exists i :: StrippedAt(s, r, i)
    ensures r == [] <==> forall i :: 0 <= i < |s| ==> IsSpace(s[i])
    ensures Trimmed(s) ==> r == s
  {
    StripAt(s);
    StripBlank(s);
    StripRight(StripLeft(s))
  }

  /** Stripping twice is stripping once. */
  lemma StripIdempotent(s: string)
    ensures Strip(Strip(s)) == Strip(s)
  {
  }

  /**
   * A non-empty string without surrounding whitespace, cut out of `s` with
   * only whitespace around it, is the strip of `s`.
   */
  lemma StripUnique(s: string, r: string, i: int)
    requires StrippedAt(s, r, i) && Trimmed(r) && r != []
    ensures Strip(s) == r
  {
    var t := Strip(s);
    var k :| StrippedAt(s, t, k);
    SameStrippedStart(s, r, i, t, k);
    SameStrippedStart(s, t, k, r, i);
    SameStrippedEnd(s, r, i, t, k);
    SameStrippedEnd(s, t, k, r, i);
  }

  /** Two trimmed non-empty cuts of `s` with whitespace around them start at the same place. */
  lemma SameStrippedStart(s: string, r: string, i: int, t: string, k: int)
    requires StrippedAt(s, r, i) && Trimmed(r) && r != []
    requires StrippedAt(s, t, k)
    ensures k <= i
  {
    assert s[i] == r[0];
  }

  /** ... and end at the same place. */
  lemma SameStrippedEnd(s: string, r: string, i: int, t: string, k: int)
    requires StrippedAt(s, r, i) && Trimmed(r) && r != []
    requires StrippedAt(s, t, k)
    ensures i + |r| <= k + |t|
  {
    assert s[i + |r| - 1] == r[|r| - 1];
  }

  /** Whitespace around a non-empty trimmed string is exactly what `strip` removes. */
  lemma StripOfPadded(pre: string, t: string, post: string)
    requires forall j :: 0 <= j < |pre| ==> IsSpace(pre[j])
    requires forall j :: 0 <= j < |post| ==> IsSpace(post[j])
    requires Trimmed(t) && t != []
    ensures Strip(pre + t + post) == t
  {
    var s := pre + t + post;
    assert s[|pre|..|pre| + |t|] == t;
    assert forall j :: 0 <= j < |pre| ==> s[j] == pre[j];
    assert forall j :: |pre| + |t| <= j < |s| ==> s[j] == post[j - |pre| - |t|];
    StripUnique(s, t, |pre|);
  }

  /** Python's `str.lower()` on the ASCII letters. */
  function LowerChar(c: char): (r: char)
    ensures 'A' <= c <= 'Z' ==> 'a' <= r <= 'z' && r as int - c as int == 32
    ensures !('A' <= c <= 'Z') ==> r == c
  {
    if 'A' <= c <= 'Z' then (c as int + 32) as char else c
  }

  function Lower(s: string): (r: string)
    ensures |r| == |s|
    ensures forall i :: 0 <= i < |s| ==> r[i] == LowerChar(s[i])
  {
    seq(|s|, i requires 0 <= i < |s| => LowerChar(s[i]))
  }

  /** Lower-casing twice is lower-casing once. */
  lemma LowerIdempotent(s: string)
    ensures Lower(Lower(s)) == Lower(s)
  {
  }

  /** Lower-casing turns no character into whitespace and no whitespace into another character. */
  lemma LowerCharKeepsSpace(c: char)
    ensures IsSpace(LowerChar(c)) <==> IsSpace(c)
  {
  }

  /** Lower-casing a slice is slicing the lower-cased string. */
  lemma LowerSlice(s: string, i: int, j: int)
    requires 0 <= i <= j <= |s|
    ensures Lower(s[i..j]) == Lower(s)[i..j]
  {
    forall k | 0 <= k < j - i ensures Lower(s[i..j])[k] == Lower(s)[i..j][k] {
      assert s[i..j][k] == s[i + k];
    }
  }

  /** Lower-casing keeps every position's whitespace-ness. */
  lemma LowerKeepsSpaces(s: string)
    ensures forall j :: 0 <= j < |s| ==> (IsSpace(Lower(s)[j]) <==> IsSpace(s[j]))
  {
    forall j | 0 <= j < |s| ensures IsSpace(Lower(s)[j]) <==> IsSpace(s[j]) {
      LowerCharKeepsSpace(s[j]);
    }
  }

  /** Lower-casing keeps a string trimmed. */
  lemma LowerKeepsTrimmed(t: string)
    requires Trimmed(t)
    ensures Trimmed(Lower(t))
  {
    if t != [] {
      LowerCharKeepsSpace(t[0]);
      LowerCharKeepsSpace(t[|t| - 1]);
    }
  }

  /** An all-whitespace string stays all whitespace when lower-cased. */
  lemma StripLowerBlank(s: string)
    requires Strip(s) == []
    ensures Strip(Lower(s)) == []
  {
    LowerKeepsSpaces(s);
  }

  /** The lower-cased strip sits where the strip sat, with whitespace around it. */
  lemma StripLowerAt(s: string, t: string, i: int)
    requires StrippedAt(s, t, i) && Trimmed(t) && t != []
    ensures Strip(Lower(s)) == Lower(t)
  {
    LowerKeepsSpaces(s);
    LowerSlice(s, i, i + |t|);
    LowerKeepsTrimmed(t);
    assert StrippedAt(Lower(s), Lower(t), i);
    StripUnique(Lower(s), Lower(t), i);
  }

  /** Lower-casing and stripping commute. */
  lemma StripLower(s: string)
    ensures Strip(Lower(s)) == Lower(Strip(s))
  {
    var t := Strip(s);
    if t == [] {
      StripLowerBlank(s);
    } else {
      var i :| StrippedAt(s, t, i);
      StripLowerAt(s, t, i);
    }
  }

  /** Django's `field__iexact=value`, with ASCII case folding. */
  predicate IEquals(a: string, b: string) {
    Lower(a) == Lower(b)
  }

  /** `_normalize(s)`: `(s or '').strip()`. */
  function Normalize(s: Option<string>): (r: string)
    ensures s.None? ==> r == ""
    ensures s.Some? ==> r == Strip(s.value)
    ensures Trimmed(r)
  {
    match s
    case None => ""
    case Some(t) => Strip(t)
  }

  /** `_normalize` is idempotent: a normalized string normalizes to itself. */
  lemma NormalizeIdempotent(s: Option<string>)
    ensures Normalize(Some(Normalize(s))) == Normalize(s)
  {
  }
}
