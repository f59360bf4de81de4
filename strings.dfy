/**
 * The JavaScript string operations the Shop schema relies on: the `trim`
 * setter (String.prototype.trim), the `lowercase` setter
 * (String.prototype.toLowerCase, ASCII letters only here) and the
 * whitespace class `\s` / `\S` of the email pattern.
 */
module Strings {

  /** A character of JavaScript's WhiteSpace or LineTerminator classes, which
      both `trim` and the regular-expression class `\s` use. */
  predicate IsSpace(c: char) {
    || c == ' ' || c == '\t' || c == '\n' || c == '\r'
    || c == '\U{000B}' || c == '\U{000C}' || c == '\U{00A0}' || c == '\U{1680}'
    || ('\U{2000}' <= c <= '\U{200A}')
    || c == '\U{2028}' || c == '\U{2029}' || c == '\U{202F}' || c == '\U{205F}'
    || c == '\U{3000}' || c == '\U{FEFF}'
  }

  predicate NoSpace(s: string) {
    forall i :: 0 <= i < |s| ==> !IsSpace(s[i])
  }

  /** Neither starts nor ends with whitespace. */
  predicate Trimmed(s: string) {
    s == [] || (!IsSpace(s[0]) && !IsSpace(s[|s| - 1]))
  }

  /** Drops the leading whitespace: the result is the suffix that starts at the
      first non-space character. */
  function TrimStart(s: string): (r: string)
    ensures |r| <= |s| && r == s[|s| - |r|..]
    ensures forall i :: 0 <= i < |s| - |r| ==> IsSpace(s[i])
    ensures r != [] ==> !IsSpace(r[0])
  {
    if |s| > 0 && IsSpace(s[0]) then TrimStart(s[1..]) else s
  }

  /** Drops the trailing whitespace: the result is the prefix that ends at the
      last non-space character. */
  function TrimEnd(s: string): (r: string)
    ensures |r| <= |s| && r == s[..|r|]
    ensures forall i :: |r| <= i < |s| ==> IsSpace(s[i])
    ensures r != [] ==> !IsSpace(r[|r| - 1])
  {
    if |s| > 0 && IsSpace(s[|s| - 1]) then TrimEnd(s[..|s| - 1]) else s
  }

  predicate AllSpace(s: string) {
    forall k :: 0 <= k < |s| ==> IsSpace(s[k])
  }

  /** `r` is the infix of `s` at offset `i`, with only whitespace before
      and after it. */
  predicate SpaceAround(s: string, r: string, i: int) {
    0 <= i <= |s| - |r| && s[i..i + |r|] == r && AllSpace(s[..i]) && AllSpace(s[i + |r|..])
  }

  /** String.prototype.trim: the infix of `s` that is left once the
      whitespace on both ends is removed. */
  function Trim(s: string): (r: string)
    ensures Trimmed(r) && |r| <= |s|
    ensures exists i :: SpaceAround(s, r, i)
  {
    TrimFacts(s, TrimStart(s), TrimEnd(TrimStart(s)), |s| - |TrimStart(s)|);
    TrimEnd(TrimStart(s))
  }

  /** Trimmed infixes with only whitespace around them are unique, so the
      contract of `Trim` determines its result. */
  lemma SpaceAroundUnique(s: string, r1: string, i1: int, r2: string, i2: int)
    requires Trimmed(r1) && SpaceAround(s, r1, i1)
    requires Trimmed(r2) && SpaceAround(s, r2, i2)
    ensures r1 == r2
  {
    SpaceOutside(s, r1, i1);
    SpaceOutside(s, r2, i2);
    if r1 != [] {
      assert s[i1] == r1[0] && s[i1 + |r1| - 1] == r1[|r1| - 1];
    }
    if r2 != [] {
      assert s[i2] == r2[0] && s[i2 + |r2| - 1] == r2[|r2| - 1];
    }
    assert r1 != [] || r2 != [] ==> i1 == i2 && |r1| == |r2|;
  }

  /** `Trim` is the one trimmed infix with only whitespace around it. */
  lemma TrimCharacterized(s: string, r: string, i: int)
    requires Trimmed(r) && SpaceAround(s, r, i)
    ensures r == Trim(s)
  {
    var j :| SpaceAround(s, Trim(s), j);
    SpaceAroundUnique(s, r, i, Trim(s), j);
  }

  /** The characters outside the infix are whitespace. */
  lemma SpaceOutside(s: string, r: string, i: int)
    requires SpaceAround(s, r, i)
    ensures forall k :: 0 <= k < i ==> IsSpace(s[k])
    ensures forall k :: i + |r| <= k < |s| ==> IsSpace(s[k])
  {
    forall k | 0 <= k < i ensures IsSpace(s[k]) {
      assert s[..i][k] == s[k];
    }
    forall k | i + |r| <= k < |s| ensures IsSpace(s[k]) {
      assert s[i + |r|..][k - i - |r|] == s[k];
    }
  }

  lemma TrimFacts(s: string, t: string, r: string, i: nat)
    requires t == TrimStart(s) && r == TrimEnd(t) && i == |s| - |t|
    ensures Trimmed(r) && |r| <= |s| && SpaceAround(s, r, i)
  {
    LeadingSpace(s, t);
    TrailingSpace(t, r);
    Infix(s, t, r, i);
  }

  lemma Infix(s: string, t: string, r: string, i: nat)
    requires i <= |s| && t == s[i..] && |r| <= |t| && r == t[..|r|]
    requires AllSpace(s[..i]) && AllSpace(t[|r|..])
    requires (t == [] || !IsSpace(t[0])) && (r == [] || !IsSpace(r[|r| - 1]))
    ensures Trimmed(r)
    ensures 0 <= i <= |s| - |r| && s[i..i + |r|] == r && AllSpace(s[..i]) && AllSpace(s[i + |r|..])
  {
    assert r != [] ==> r[0] == t[0];
    assert s[i + |r|..] == t[|r|..];
  }

  lemma LeadingSpace(s: string, t: string)
    requires t == TrimStart(s)
    ensures AllSpace(s[..|s| - |t|])
  {
    var i := |s| - |t|;
    forall k | 0 <= k < i ensures IsSpace(s[..i][k]) {
      assert s[..i][k] == s[k];
    }
  }

  lemma TrailingSpace(t: string, r: string)
    requires r == TrimEnd(t)
    ensures AllSpace(t[|r|..])
  {
    var u := t[|r|..];
    forall k | 0 <= k < |u| ensures IsSpace(u[k]) {
      assert u[k] == t[|r| + k];
    }
  }

  lemma {:induction false} TrimStartOfNonSpace(s: string)
    requires s == [] || !IsSpace(s[0])
    ensures TrimStart(s) == s
  {
  }

  lemma {:induction false} TrimEndOfNonSpace(s: string)
    requires s == [] || !IsSpace(s[|s| - 1])
    ensures TrimEnd(s) == s
  {
  }

  /** Trimming leaves an already trimmed string alone. */
  lemma TrimOfTrimmed(s: string)
    requires Trimmed(s)
    ensures Trim(s) == s
  {
    TrimStartOfNonSpace(s);
    TrimEndOfNonSpace(s);
  }

  /** Trimming twice is trimming once. */
  lemma TrimIdempotent(s: string)
    ensures Trim(Trim(s)) == Trim(s)
  {
    TrimOfTrimmed(Trim(s));
  }

  predicate IsUpperAscii(c: char) {
    'A' <= c <= 'Z'
  }

  function LowerChar(c: char): (r: char)
    ensures !IsUpperAscii(r)
    ensures IsSpace(r) <==> IsSpace(c)
    ensures IsUpperAscii(c) ==> r as int == c as int + 32
    ensures !IsUpperAscii(c) ==> r == c
  {
    if IsUpperAscii(c) then (c as int + 32) as char else c
  }

  /** No ASCII capital letter occurs. */
  predicate IsLower(s: string) {
    forall i :: 0 <= i < |s| ==> !IsUpperAscii(s[i])
  }

  /** String.prototype.toLowerCase on ASCII letters; every other character
      is kept. */
  function ToLower(s: string): (r: string)
    ensures |r| == |s| && IsLower(r)
    ensures forall i :: 0 <= i < |s| ==> (IsSpace(r[i]) <==> IsSpace(s[i]))
    ensures forall i :: 0 <= i < |s| && IsUpperAscii(s[i]) ==> r[i] as int == s[i] as int + 32
    ensures forall i :: 0 <= i < |s| && !IsUpperAscii(s[i]) ==> r[i] == s[i]
  {
    seq(|s|, i requires 0 <= i < |s| => LowerChar(s[i]))
  }

  /** Lower-casing leaves a lower-case string alone (so it is idempotent). */
  lemma ToLowerOfLower(s: string)
    requires IsLower(s)
    ensures ToLower(s) == s
  {
  }

  /** Lower-casing keeps a trimmed string trimmed, so the order in which
      the `trim` and `lowercase` setters run does not matter. */
  lemma ToLowerKeepsTrimmed(s: string)
    requires Trimmed(s)
    ensures Trimmed(ToLower(s))
  {
  }

  lemma {:induction false} TrimStartOfLower(s: string)
    ensures TrimStart(ToLower(s)) == ToLower(TrimStart(s))
  {
    if |s| > 0 && IsSpace(s[0]) {
      assert ToLower(s)[1..] == ToLower(s[1..]);
      TrimStartOfLower(s[1..]);
    }
  }

  lemma {:induction false} TrimEndOfLower(s: string)
    ensures TrimEnd(ToLower(s)) == ToLower(TrimEnd(s))
  {
    if |s| > 0 && IsSpace(s[|s| - 1]) {
      assert ToLower(s)[..|s| - 1] == ToLower(s[..|s| - 1]);
      TrimEndOfLower(s[..|s| - 1]);
    }
  }

  /** The two setters commute. */
  lemma TrimLowerCommute(s: string)
    ensures Trim(ToLower(s)) == ToLower(Trim(s))
  {
    TrimStartOfLower(s);
    TrimEndOfLower(TrimStart(s));
  }

  /** Two characters that differ at most in the case of an ASCII letter. */
  predicate SameLetter(a: char, b: char) {
    || a == b
    || (IsUpperAscii(a) && b as int == a as int + 32)
    || (IsUpperAscii(b) && a as int == b as int + 32)
  }

  /** Equal up to the case of ASCII letters, position by position. */
  predicate EqualIgnoringCase(a: string, b: string) {
    |a| == |b| && forall i :: 0 <= i < |a| ==> SameLetter(a[i], b[i])
  }

  lemma LowerCharEqual(a: char, b: char)
    ensures LowerChar(a) == LowerChar(b) <==> SameLetter(a, b)
  {
  }

  /** Lower-casing identifies exactly the strings that differ only in the
      case of their letters. */
  lemma ToLowerEqual(a: string, b: string)
    ensures ToLower(a) == ToLower(b) <==> EqualIgnoringCase(a, b)
  {
    if |a| == |b| {
      forall i | 0 <= i < |a| ensures ToLower(a)[i] == ToLower(b)[i] <==> SameLetter(a[i], b[i]) {
        LowerCharEqual(a[i], b[i]);
      }
      if EqualIgnoringCase(a, b) {
        assert forall i :: 0 <= i < |a| ==> ToLower(a)[i] == ToLower(b)[i];
      }
    } else {
      assert |ToLower(a)| != |ToLower(b)|;
    }
  }
}
