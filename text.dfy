/**
 * The string primitives the translator relies on: ECMAScript `String.prototype.trim`,
 * `String.prototype.toLowerCase` (restricted to ASCII letters) and the prefix, suffix
 * and substring relations used to state what a prompt contains.
 */
module Text {

  /** The characters `trim` removes: ECMAScript WhiteSpace and LineTerminator code points. */
  predicate IsWhiteSpace(c: char) {
    || c == '\t' || c == '\n' || c == '\U{000B}' || c == '\U{000C}' || c == '\r' || c == ' '
    || c == '\U{00A0}' || c == '\U{1680}' || ('\U{2000}' <= c <= '\U{200A}')
    || c == '\U{2028}' || c == '\U{2029}' || c == '\U{202F}' || c == '\U{205F}'
    || c == '\U{3000}' || c == '\U{FEFF}'
  }

  predicate AllWhiteSpace(s: string) {
    forall i :: 0 <= i < |s| ==> IsWhiteSpace(s[i])
  }

  /**
   * `s` without its leading white space: a suffix of `s` that is empty or starts with a
   * character that is not white space, and everything cut off before it is white space.
   */
  function TrimStart(s: string): (r: string)
    ensures |r| <= |s| && r == s[|s| - |r|..]
    ensures forall i :: 0 <= i < |s| - |r| ==> IsWhiteSpace(s[i])
    ensures r != [] ==> !IsWhiteSpace(r[0])
  {
    if |s| > 0 && IsWhiteSpace(s[0]) then
      var r := TrimStart(s[1..]);
      assert forall i :: 1 <= i < |s| - |r| ==> s[i] == s[1..][i - 1];
      r
    else s
  }

  /**
   * `s` without its trailing white space: a prefix of `s` that is empty or ends with a
   * character that is not white space, and everything cut off after it is white space.
   */
  function TrimEnd(s: string): (r: string)
    ensures |r| <= |s| && r == s[..|r|]
    ensures forall i :: |r| <= i < |s| ==> IsWhiteSpace(s[i])
    ensures r != [] ==> !IsWhiteSpace(r[|r| - 1])
  {
    if |s| > 0 && IsWhiteSpace(s[|s| - 1]) then
      var r := TrimEnd(s[..|s| - 1]);
      assert forall i :: |r| <= i < |s| - 1 ==> s[i] == s[..|s| - 1][i];
      r
    else s
  }

  /**
   * `s.trim()`: white space removed at both ends. The result is empty exactly when `s` is
   * all white space; otherwise it starts and ends with a character that is not white space.
   */
  function Trim(s: string): (r: string)
    ensures AllWhiteSpace(s) <==> r == []
    ensures r != [] ==> !IsWhiteSpace(r[0]) && !IsWhiteSpace(r[|r| - 1])
  {
    var t := TrimStart(s);
    var r := TrimEnd(t);
    assert r != [] ==> r[0] == t[0];
    assert t != [] ==> t[0] == s[|s| - |t|] && r != [];
    r
  }

  /** Leading white space before a string that does not start with white space is dropped. */
  lemma {:induction false} TrimStartOfPadded(a: string, y: string)
    requires AllWhiteSpace(a)
    requires y != [] ==> !IsWhiteSpace(y[0])
    ensures TrimStart(a + y) == y
    decreases |a|
  {
    if a != [] {
      assert (a + y)[0] == a[0];
      assert (a + y)[1..] == a[1..] + y;
      TrimStartOfPadded(a[1..], y);
    } else {
      assert a + y == y;
    }
  }

  /** Trailing white space after a string that does not end with white space is dropped. */
  lemma {:induction false} TrimEndOfPadded(y: string, b: string)
    requires AllWhiteSpace(b)
    requires y != [] ==> !IsWhiteSpace(y[|y| - 1])
    ensures TrimEnd(y + b) == y
    decreases |b|
  {
    if b != [] {
      assert (y + b)[|y + b| - 1] == b[|b| - 1];
      assert (y + b)[..|y + b| - 1] == y + b[..|b| - 1];
      TrimEndOfPadded(y, b[..|b| - 1]);
    } else {
      assert y + b == y;
    }
  }

  /** Trimming white space padding off a string whose ends are not white space gives it back. */
  lemma TrimOfPadded(a: string, x: string, b: string)
    requires AllWhiteSpace(a) && AllWhiteSpace(b)
    requires x != [] ==> !IsWhiteSpace(x[0]) && !IsWhiteSpace(x[|x| - 1])
    ensures Trim(a + x + b) == x
  {
    var s := a + x + b;
    if x == [] {
      assert forall i :: 0 <= i < |s| ==> s[i] == if i < |a| then a[i] else b[i - |a|];
    } else {
      assert s == a + (x + b);
      assert (x + b)[0] == x[0];
      TrimStartOfPadded(a, x + b);
      TrimEndOfPadded(x, b);
    }
  }

  /** Trimming twice is trimming once. */
  lemma TrimIdempotent(s: string)
    ensures Trim(Trim(s)) == Trim(s)
  {
    var r := Trim(s);
    assert r == [] + r + [];
    TrimOfPadded([], r, []);
  }

  predicate IsUpper(c: char) {
    'A' <= c <= 'Z'
  }

  function LowerChar(c: char): char {
    if IsUpper(c) then (c as int + 32) as char else c
  }

  /** The lower-case ASCII letters, in alphabetical order. */
  const LOWER_ALPHABET: string := "abcdefghijklmnopqrstuvwxyz"

  /** Lowering an upper-case letter gives the letter at the same place of the lower-case alphabet. */
  lemma LowerCharOfUpper(c: char)
    requires IsUpper(c)
    ensures LowerChar(c) == LOWER_ALPHABET[c as int - 'A' as int]
  {
  }

  predicate IsLowerCase(s: string) {
    forall i :: 0 <= i < |s| ==> !IsUpper(s[i])
  }

  /**
   * `s.toLowerCase()` on ASCII letters: the result has no upper-case ASCII letter, and a
   * character changes exactly when it is one.
   */
  function Lower(s: string): (r: string)
    ensures |r| == |s| && IsLowerCase(r)
    ensures forall i :: 0 <= i < |s| ==> (r[i] == s[i] <==> !IsUpper(s[i]))
    ensures forall i :: 0 <= i < |s| && IsUpper(s[i]) ==> r[i] == LOWER_ALPHABET[s[i] as int - 'A' as int]
  {
    var r := seq(|s|, i requires 0 <= i < |s| => LowerChar(s[i]));
    assert forall i :: 0 <= i < |s| && IsUpper(s[i]) ==> r[i] == LOWER_ALPHABET[s[i] as int - 'A' as int] by {
      forall i | 0 <= i < |s| && IsUpper(s[i]) ensures r[i] == LOWER_ALPHABET[s[i] as int - 'A' as int] {
        LowerCharOfUpper(s[i]);
      }
    }
    r
  }

  /** A string with no upper-case letter is its own lower case. */
  lemma LowerOfLowerCase(s: string)
    requires IsLowerCase(s)
    ensures Lower(s) == s
  {
  }

  /** Lowering the case twice is lowering it once. */
  lemma LowerIdempotent(s: string)
    ensures Lower(Lower(s)) == Lower(s)
  {
    LowerOfLowerCase(Lower(s));
  }

  lemma LowerConcat(a: string, b: string)
    ensures Lower(a + b) == Lower(a) + Lower(b)
  {
  }

  /** Lowering the case moves no character into or out of the white space class. */
  lemma LowerCharKeepsWhiteSpace(c: char)
    ensures IsWhiteSpace(LowerChar(c)) <==> IsWhiteSpace(c)
  {
    if IsUpper(c) {
      assert 'a' <= LowerChar(c) <= 'z';
    }
  }

  /** Lowering the case of an all-white-space string leaves it all white space. */
  lemma LowerKeepsAllWhiteSpace(s: string)
    requires AllWhiteSpace(s)
    ensures AllWhiteSpace(Lower(s))
  {
    forall i | 0 <= i < |s| ensures IsWhiteSpace(Lower(s)[i]) {
      LowerCharKeepsWhiteSpace(s[i]);
    }
  }

  /** Dropping leading white space commutes with lowering the case. */
  lemma {:induction false} TrimStartLower(s: string)
    ensures TrimStart(Lower(s)) == Lower(TrimStart(s))
    decreases |s|
  {
    if s != [] {
      LowerCharKeepsWhiteSpace(s[0]);
      assert Lower(s)[0] == LowerChar(s[0]);
      if IsWhiteSpace(s[0]) {
        assert Lower(s)[1..] == Lower(s[1..]);
        TrimStartLower(s[1..]);
      }
    }
  }

  /** Dropping trailing white space commutes with lowering the case. */
  lemma {:induction false} TrimEndLower(s: string)
    ensures TrimEnd(Lower(s)) == Lower(TrimEnd(s))
    decreases |s|
  {
    if s != [] {
      LowerCharKeepsWhiteSpace(s[|s| - 1]);
      assert Lower(s)[|s| - 1] == LowerChar(s[|s| - 1]);
      if IsWhiteSpace(s[|s| - 1]) {
        assert Lower(s)[..|s| - 1] == Lower(s[..|s| - 1]);
        TrimEndLower(s[..|s| - 1]);
      }
    }
  }

  /** `s.toLowerCase().trim()` equals `s.trim().toLowerCase()`. */
  lemma TrimLowerCommute(s: string)
    ensures Trim(Lower(s)) == Lower(Trim(s))
  {
    TrimStartLower(s);
    TrimEndLower(TrimStart(s));
  }

  predicate IsPrefix(p: string, s: string) {
    |p| <= |s| && s[..|p|] == p
  }

  predicate IsSuffix(q: string, s: string) {
    |q| <= |s| && s[|s| - |q|..] == q
  }

  /** `sub` occurs in `s` (JavaScript's `s.includes(sub)`). */
  predicate Occurs(sub: string, s: string) {
    exists i :: 0 <= i <= |s| && IsPrefix(sub, s[i..])
  }

  lemma OccursAtStart(sub: string, b: string)
    ensures Occurs(sub, sub + b)
  {
    assert (sub + b)[0..][..|sub|] == sub;
  }

  lemma OccursAfter(a: string, sub: string, s: string)
    requires Occurs(sub, s)
    ensures Occurs(sub, a + s)
  {
    var i :| 0 <= i <= |s| && IsPrefix(sub, s[i..]);
    assert (a + s)[|a| + i..] == s[i..];
  }

  lemma IsSuffixAfter(a: string, q: string, s: string)
    requires IsSuffix(q, s)
    ensures IsSuffix(q, a + s)
  {
    assert (a + s)[|a + s| - |q|..] == s[|s| - |q|..];
  }

  lemma CancelPrefix(p: string, x: string, y: string)
    requires p + x == p + y
    ensures x == y
  {
    assert x == (p + x)[|p|..];
  }

  lemma CancelSuffix(x: string, y: string, q: string)
    requires x + q == y + q
    ensures x == y
  {
    assert x == (x + q)[..|x|];
    assert y == (y + q)[..|y|];
  }
}
