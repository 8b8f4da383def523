/**
 * String primitives that the fill pipeline relies on, modelled on Python's
 * built-ins: `str.isdigit`-style ASCII digit runs, `int(...)` and `str(...)`
 * on non-negative decimals, `str.strip()` and `str.replace(old, new)`.
 */
module Text {

  // ---------------------------------------------------------------------------
  // Decimal digits, int(s) and str(n)
  // ---------------------------------------------------------------------------

  /** An ASCII decimal digit (the model restricts Python's `\d` to ASCII). */
  predicate IsDigit(c: char) {
    '0' <= c <= '9'
  }

  /** A non-empty run of ASCII digits: what `\d+` matches. */
  predicate IsDigits(s: string) {
    |s| > 0 && forall i | 0 <= i < |s| :: IsDigit(s[i])
  }

  /** The spelling `str(n)` produces: digits without a leading zero (except "0"). */
  predicate IsCanonical(s: string) {
    IsDigits(s) && (|s| == 1 || s[0] != '0')
  }

  function DigitValue(c: char): (d: nat)
    requires IsDigit(c)
    ensures d < 10
  {
    c as int - '0' as int
  }

  function DigitChar(d: nat): (c: char)
    requires d < 10
    ensures IsDigit(c) && DigitValue(c) == d
  {
    ('0' as int + d) as char
  }

  /** `int(s)` for a string of ASCII digits; leading zeros are ignored. */
  function Value(s: string): (n: nat)
    requires forall i | 0 <= i < |s| :: IsDigit(s[i])
    ensures |s| > 0 && s[0] == '0' ==> n == Value(s[1..])
  {
    if s == [] then 0
    else
      var p := s[..|s| - 1];
      assert |s| > 1 ==> p[0] == s[0] && p[1..] == s[1..][..|s[1..]| - 1];
      Value(p) * 10 + DigitValue(s[|s| - 1])
  }

  /** `str(n)` for a non-negative integer. */
  function NatStr(n: nat): (r: string)
    ensures IsCanonical(r)
  {
    if n < 10 then [DigitChar(n)] else NatStr(n / 10) + [DigitChar(n % 10)]
  }

  /** `int(str(n)) == n`. */
  lemma {:induction false} ValueOfNatStr(n: nat)
    ensures Value(NatStr(n)) == n
  {
    if n >= 10 {
      var s := NatStr(n);
      assert s[..|s| - 1] == NatStr(n / 10);
      ValueOfNatStr(n / 10);
    }
  }

  /** `str` is injective, so two keys built from different integers differ. */
  lemma NatStrInjective(m: nat, n: nat)
    requires NatStr(m) == NatStr(n)
    ensures m == n
  {
    ValueOfNatStr(m);
    ValueOfNatStr(n);
  }

  /** A digit string without a leading zero names a positive number. */
  lemma {:induction false} ValuePositive(s: string)
    requires IsDigits(s) && s[0] != '0'
    ensures Value(s) > 0
  {
    if |s| > 1 {
      var p := s[..|s| - 1];
      assert p[0] == s[0];
      ValuePositive(p);
    }
  }

  /** `str(int(s)) == s` exactly when `s` is canonical. */
  lemma {:induction false} NatStrOfValue(s: string)
    requires IsCanonical(s)
    ensures NatStr(Value(s)) == s
  {
    if |s| > 1 {
      var p := s[..|s| - 1];
      var c := s[|s| - 1];
      assert p[0] == s[0];
      assert IsCanonical(p);
      ValuePositive(p);
      NatStrOfValue(p);
      var n := Value(s);
      assert n == Value(p) * 10 + DigitValue(c);
      assert n / 10 == Value(p) && n % 10 == DigitValue(c);
      assert s == p + [c];
    }
  }

  // ---------------------------------------------------------------------------
  // str.strip()
  // ---------------------------------------------------------------------------

  /** Python's `str.isspace()`: ASCII whitespace, the separators 0x1C-0x1F and the Unicode spaces. */
  predicate IsSpace(c: char) {
    c == ' ' || c == '\t' || c == '\n' || c == '\U{B}' || c == '\U{C}' || c == '\r'
    || ('\U{1C}' <= c <= '\U{1F}') || c == '\U{85}' || c == '\U{A0}' || c == '\U{1680}'
    || ('\U{2000}' <= c <= '\U{200A}') || c == '\U{2028}' || c == '\U{2029}'
    || c == '\U{202F}' || c == '\U{205F}' || c == '\U{3000}'
  }

  /** Every character of `s` is whitespace. */
  predicate AllSpace(s: string) {
    forall i | 0 <= i < |s| :: IsSpace(s[i])
  }

  function StripLeft(s: string): (r: string)
    ensures |r| <= |s| && r == s[|s| - |r|..]
    ensures AllSpace(s[..|s| - |r|])
    ensures r == [] || !IsSpace(r[0])
  {
    if s != [] && IsSpace(s[0]) then StripLeft(s[1..]) else s
  }

  function StripRight(s: string): (r: string)
    ensures |r| <= |s| && r == s[..|r|]
    ensures AllSpace(s[|r|..])
    ensures r == [] || !IsSpace(r[|r| - 1])
  {
    if s != [] && IsSpace(s[|s| - 1]) then StripRight(s[..|s| - 1]) else s
  }

  /** `r` is the infix of `s` at offset `a`, and everything around it is whitespace. */
  predicate IsTrimmedInfix(s: string, a: int, r: string) {
    0 <= a <= |s| - |r|
    && s[a..a + |r|] == r
    && AllSpace(s[..a])
    && AllSpace(s[a + |r|..])
  }

  /** A prefix `r` of a suffix `l` of `s`, each cut off from whitespace, is a trimmed infix of `s`. */
  lemma TrimmedOfParts(s: string, l: string, r: string)
    requires |l| <= |s| && l == s[|s| - |l|..] && AllSpace(s[..|s| - |l|])
    requires |r| <= |l| && r == l[..|r|] && AllSpace(l[|r|..])
    ensures IsTrimmedInfix(s, |s| - |l|, r)
  {
    var a := |s| - |l|;
    assert s[a..a + |r|] == l[..|r|];
    assert s[a + |r|..] == l[|r|..];
  }

  /** Stripping the left end and then the right end leaves a trimmed infix of `s`. */
  lemma StripBothEnds(s: string)
    ensures IsTrimmedInfix(s, |s| - |StripLeft(s)|, StripRight(StripLeft(s)))
  {
    TrimmedOfParts(s, StripLeft(s), StripRight(StripLeft(s)));
  }

  /**
   * `s.strip()`: the infix of `s` left after removing all leading and trailing
   * whitespace; it neither starts nor ends with whitespace.
   */
  function Strip(s: string): (r: string)
    ensures exists a :: IsTrimmedInfix(s, a, r)
    ensures r == [] || (!IsSpace(r[0]) && !IsSpace(r[|r| - 1]))
  {
    StripBothEnds(s);
    var r := StripRight(StripLeft(s));
    assert r != [] ==> r[0] == StripLeft(s)[0];
    r
  }

  // ---------------------------------------------------------------------------
  // str.replace(pat, rep)
  // ---------------------------------------------------------------------------

  /** `pat` occurs in `s` starting at position `i`. */
  predicate OccursAt(s: string, i: int, pat: string) {
    0 <= i && i + |pat| <= |s| && s[i..i + |pat|] == pat
  }

  /**
   * `s.replace(old, new)`: every non-overlapping occurrence of `pat`, found
   * left to right, becomes `rep`; an empty `pat` inserts `rep` before every
   * character and at the end, as Python does.
   */
  function ReplaceAll(s: string, pat: string, rep: string): (r: string)
    ensures pat != [] && rep == pat ==> r == s
    ensures pat != [] && |rep| == |pat| ==> |r| == |s|
    decreases |s|
  {
    if pat == [] then
      rep + (if s == [] then [] else [s[0]] + ReplaceAll(s[1..], pat, rep))
    else if s == [] then []
    else if pat <= s then rep + ReplaceAll(s[|pat|..], pat, rep)
    else [s[0]] + ReplaceAll(s[1..], pat, rep)
  }

  /** Replacing text that does not occur leaves the string unchanged. */
  lemma {:induction false} ReplaceAbsent(s: string, pat: string, rep: string)
    requires pat != []
    requires forall i | 0 <= i <= |s| - |pat| :: !OccursAt(s, i, pat)
    ensures ReplaceAll(s, pat, rep) == s
  {
    if s != [] {
      if pat <= s {
        assert OccursAt(s, 0, pat);
      }
      forall i | 0 <= i <= |s[1..]| - |pat|
        ensures !OccursAt(s[1..], i, pat)
      {
        assert !OccursAt(s, i + 1, pat);
        assert s[1..][i..i + |pat|] == s[i + 1..i + 1 + |pat|];
      }
      ReplaceAbsent(s[1..], pat, rep);
    }
  }

  /** Concatenation regrouped; kept apart so that proofs about `ReplaceAll` stay small. */
  lemma ConsAssoc(c: char, b: string, x: string)
    ensures [c] + (b + x) == ([c] + b) + x
  {
  }

  /** A text whose first character cannot start `pat` keeps that character. */
  lemma ReplaceCopiesFirst(s: string, pat: string, rep: string)
    requires pat != [] && s != [] && s[0] != pat[0]
    ensures ReplaceAll(s, pat, rep) == [s[0]] + ReplaceAll(s[1..], pat, rep)
  {
    assert !(pat <= s);
  }

  /**
   * A prefix in which `pat`'s first character never appears is copied
   * through unchanged: no occurrence of `pat` can start inside it.
   */
  lemma {:induction false} ReplaceSkipsPrefix(p: string, t: string, pat: string, rep: string)
    requires pat != []
    requires forall i | 0 <= i < |p| :: p[i] != pat[0]
    ensures ReplaceAll(p + t, pat, rep) == p + ReplaceAll(t, pat, rep)
  {
    if p == [] {
      assert p + t == t;
    } else {
      var s := p + t;
      assert s[0] == p[0];
      ReplaceCopiesFirst(s, pat, rep);
      assert s[1..] == p[1..] + t;
      ReplaceSkipsPrefix(p[1..], t, pat, rep);
      ConsAssoc(p[0], p[1..], ReplaceAll(t, pat, rep));
      assert p == [p[0]] + p[1..];
    }
  }
}
