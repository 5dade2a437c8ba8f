/** The regular expressions that both the server and the browser apply to the
    two identifiers, the one-time code and the name, written out as
    predicates on strings. */
module Patterns {
  import opened JsString

  /** `/^[0-9]{12}$/`: an Aadhaar number. */
  predicate IsTwelveDigits(s: string) { |s| == 12 && AllDigits(s) }

  /** `/^[0-9]{6}$/`: a one-time code. */
  predicate IsSixDigits(s: string) { |s| == 6 && AllDigits(s) }

  /** `/^[A-Za-z]{5}[0-9]{4}[A-Za-z]{1}$/`: a PAN, in either case. */
  predicate IsPanShape(s: string)
  {
    && |s| == 10
    && (forall i :: 0 <= i < 5 ==> IsAsciiLetter(s[i]))
    && (forall i :: 5 <= i < 9 ==> IsDigit(s[i]))
    && IsAsciiLetter(s[9])
  }

  /** One character of `[a-zA-Z\s]`. */
  predicate IsNameChar(c: char) { IsAsciiLetter(c) || IsWhitespace(c) }

  predicate AllNameChars(s: string) { forall i :: 0 <= i < |s| ==> IsNameChar(s[i]) }

  /** `/^[a-zA-Z\s]{2,100}$/`: a name as printed on a PAN card. */
  predicate IsNameShape(s: string) { 2 <= |s| <= 100 && AllNameChars(s) }

  /** `/^[a-zA-Z\s]+$/`: the unbounded name pattern of the browser form. */
  predicate IsNameCharsOnly(s: string) { |s| >= 1 && AllNameChars(s) }

  /** Upper-casing neither creates nor destroys a PAN: letters stay letters,
      digits stay digits. */
  lemma PanShapeUpperCase(s: string)
    ensures IsPanShape(ToUpperCase(s)) <==> IsPanShape(s)
    ensures IsPanShape(s) ==> IsPanShape(ToUpperCase(s)) && NoAsciiLower(ToUpperCase(s))
  {
    var u := ToUpperCase(s);
    forall i | 0 <= i < |s|
      ensures IsAsciiLetter(u[i]) <==> IsAsciiLetter(s[i])
      ensures IsDigit(u[i]) <==> IsDigit(s[i])
    {
      assert u[i] == UpperChar(s[i]);
    }
  }

  /** Trimming a string of name characters leaves a string of name characters. */
  lemma TrimKeepsNameChars(s: string)
    requires AllNameChars(s)
    ensures AllNameChars(Trim(s))
  {
    var lo := TrimIsSlice(s);
    var t := Trim(s);
    forall i | 0 <= i < |t|
      ensures IsNameChar(t[i])
    {
      assert t[i] == s[lo + i];
    }
  }
}
