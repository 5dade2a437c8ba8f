/** The ECMAScript string primitives the core relies on: the character classes
    `[0-9]`, `[A-Za-z]` and `\s` of its regular expressions, and the methods
    `trim`, `toUpperCase` and the global `replace` that deletes a class. */
module JsString {

  /** `[0-9]`, which is also `\d` in a regular expression without the `u` flag. */
  predicate IsDigit(c: char) { '0' <= c <= '9' }

  predicate IsAsciiLetter(c: char) { 'A' <= c <= 'Z' || 'a' <= c <= 'z' }

  predicate IsAsciiLower(c: char) { 'a' <= c <= 'z' }

  /** `\s`: the WhiteSpace and LineTerminator code points of ECMAScript
      (section 22.2.2.9 and 12.2/12.3 of ECMA-262). `String.prototype.trim`
      removes exactly the same set. */
  predicate IsWhitespace(c: char) {
    || c == '\t' || c == '\n' || c == '\U{B}' || c == '\U{C}' || c == '\r' || c == ' '
    || c == '\U{A0}' || c == '\U{1680}' || ('\U{2000}' <= c <= '\U{200A}')
    || c == '\U{2028}' || c == '\U{2029}' || c == '\U{202F}' || c == '\U{205F}'
    || c == '\U{3000}' || c == '\U{FEFF}'
  }

  predicate AllDigits(s: string) { forall i :: 0 <= i < |s| ==> IsDigit(s[i]) }

  predicate NoWhitespace(s: string) { forall i :: 0 <= i < |s| ==> !IsWhitespace(s[i]) }

  predicate NoAsciiLower(s: string) { forall i :: 0 <= i < |s| ==> !IsAsciiLower(s[i]) }

  /** Upper-casing of one character, restricted to the ASCII letters. */
  function UpperChar(c: char): (u: char)
    ensures IsAsciiLower(c) ==> u as int == c as int - 32
    ensures !IsAsciiLower(c) ==> u == c
    ensures !IsAsciiLower(u)
  {
    if IsAsciiLower(c) then (c as int - 32) as char else c
  }

  /** `s.toUpperCase()` on the ASCII letters; every other character is kept. */
  function ToUpperCase(s: string): (r: string)
    ensures |r| == |s|
    ensures forall i :: 0 <= i < |s| ==> r[i] == UpperChar(s[i])
    ensures NoAsciiLower(r)
  {
    seq(|s|, i requires 0 <= i < |s| => UpperChar(s[i]))
  }

  /** A string with no lower-case ASCII letter is its own upper case. */
  lemma ToUpperCaseKeepsUpper(s: string)
    requires NoAsciiLower(s)
    ensures ToUpperCase(s) == s
  {
  }

  lemma ToUpperCaseIdempotent(s: string)
    ensures ToUpperCase(ToUpperCase(s)) == ToUpperCase(s)
  {
  }

  /** Leading whitespace removed: a suffix of `s` that starts with a
      non-whitespace character, and everything cut off is whitespace. */
  function TrimStart(s: string): (r: string)
    ensures |r| <= |s| && r == s[|s| - |r|..]
    ensures forall k :: 0 <= k < |s| - |r| ==> IsWhitespace(s[k])
    ensures r == [] || !IsWhitespace(r[0])
  {
    if |s| > 0 && IsWhitespace(s[0]) then TrimStart(s[1..]) else s
  }

  /** Trailing whitespace removed: a prefix of `s` that ends with a
      non-whitespace character, and everything cut off is whitespace. */
  function TrimEnd(s: string): (r: string)
    ensures |r| <= |s| && r == s[..|r|]
    ensures forall k :: |r| <= k < |s| ==> IsWhitespace(s[k])
    ensures r == [] || !IsWhitespace(r[|r| - 1])
  {
    if |s| > 0 && IsWhitespace(s[|s| - 1]) then TrimEnd(s[..|s| - 1]) else s
  }

  /** `s.trim()`. */
  function Trim(s: string): (r: string)
    ensures |r| <= |s|
    ensures r == [] || (!IsWhitespace(r[0]) && !IsWhitespace(r[|r| - 1]))
  {
    TrimEnd(TrimStart(s))
  }

  /** Trimming keeps a slice of the input: every character of the result
      occurs in `s` at a fixed offset, and every removed character is whitespace. */
  lemma TrimIsSlice(s: string) returns (lo: nat)
    ensures lo + |Trim(s)| <= |s|
    ensures Trim(s) == s[lo..lo + |Trim(s)|]
    ensures forall k :: 0 <= k < lo ==> IsWhitespace(s[k])
    ensures forall k :: lo + |Trim(s)| <= k < |s| ==> IsWhitespace(s[k])
  {
    var t := TrimStart(s);
    lo := |s| - |t|;
    var r := TrimEnd(t);
    forall k | lo + |r| <= k < |s|
      ensures IsWhitespace(s[k])
    {
      assert s[k] == t[k - lo];
    }
    assert r == s[lo..][..|r|];
  }

  /** Trimming twice trims no more than trimming once. */
  lemma TrimIdempotent(s: string)
    ensures Trim(Trim(s)) == Trim(s)
  {
    var t := Trim(s);
    assert TrimStart(t) == t;
    assert TrimEnd(t) == t;
  }

  /** The one-character string `[c]`, or nothing when `c` is whitespace. */
  function UnlessWhitespace(c: char): (r: string)
    ensures NoWhitespace(r)
  {
    if IsWhitespace(c) then [] else [c]
  }

  /** `s.replace(/\s/g, "")`. */
  function RemoveWhitespace(s: string): (r: string)
    ensures |r| <= |s|
    ensures NoWhitespace(r)
    ensures NoWhitespace(s) ==> r == s
  {
    if s == [] then [] else UnlessWhitespace(s[0]) + RemoveWhitespace(s[1..])
  }

  /** `s.replace(/\D/g, "")`. */
  function KeepDigits(s: string): (r: string)
    ensures |r| <= |s|
    ensures AllDigits(r)
    ensures AllDigits(s) ==> r == s
  {
    if s == [] then []
    else (if IsDigit(s[0]) then [s[0]] else []) + KeepDigits(s[1..])
  }

  lemma {:induction false} KeepDigitsAppend(a: string, b: string)
    ensures KeepDigits(a + b) == KeepDigits(a) + KeepDigits(b)
  {
    if a == [] {
      assert a + b == b;
    } else {
      assert (a + b)[0] == a[0];
      assert (a + b)[1..] == a[1..] + b;
      KeepDigitsAppend(a[1..], b);
    }
  }

  lemma {:induction false} RemoveWhitespaceAppend(a: string, b: string)
    ensures RemoveWhitespace(a + b) == RemoveWhitespace(a) + RemoveWhitespace(b)
  {
    if a == [] {
      assert a + b == b;
    } else {
      assert (a + b)[0] == a[0];
      assert (a + b)[1..] == a[1..] + b;
      RemoveWhitespaceAppend(a[1..], b);
      calc {
        RemoveWhitespace(a + b);
        UnlessWhitespace(a[0]) + RemoveWhitespace(a[1..] + b);
        UnlessWhitespace(a[0]) + (RemoveWhitespace(a[1..]) + RemoveWhitespace(b));
        (UnlessWhitespace(a[0]) + RemoveWhitespace(a[1..])) + RemoveWhitespace(b);
      }
    }
  }

  /** A blank between two parts is dropped; the blank-free first part is kept. */
  lemma RemoveBlankAfter(head: string, tail: string)
    requires NoWhitespace(head)
    ensures RemoveWhitespace(head + " " + tail) == head + RemoveWhitespace(tail)
  {
    var blank := " ";
    assert blank[1..] == [];
    assert UnlessWhitespace(blank[0]) == [];
    assert RemoveWhitespace(blank) == [];
    RemoveWhitespaceAppend(head, blank);
    assert RemoveWhitespace(head + blank) == head + [];
    assert head + [] == head;
    RemoveWhitespaceAppend(head + blank, tail);
  }
}
