/** The browser's formatting helpers: grouping an Aadhaar number as it is
    typed, normalising a PAN, masking an Aadhaar number for display, and the
    per-step completeness check and titles. */
module FrontendUtils {
  import opened Wrappers
  import opened JsString
  import opened Json
  import opened Patterns

  /** `digits.slice(0, 12)`. */
  function Take12(d: string): (r: string)
    ensures |r| <= 12 && |r| <= |d| && r == d[..|r|]
    ensures |d| <= 12 ==> r == d
    ensures |d| >= 12 ==> |r| == 12
  {
    if |d| <= 12 then d else d[..12]
  }

  /** `s.replace(/(\d{4})(?=\d)/g, "$1 ")`: scanning left to right, four
      digits followed by a further digit are copied with a blank after them;
      otherwise one character is copied and the scan moves on. */
  function GroupDigits(s: string): string
    decreases |s|
  {
    if |s| >= 5 && AllDigits(s[..5]) then s[..4] + " " + GroupDigits(s[4..])
    else if s == [] then []
    else [s[0]] + GroupDigits(s[1..])
  }

  /** A digit string cut into blocks of four, as `XXXX XXXX XXXX`. */
  function Blocks(d: string): string
    decreases |d|
  {
    if |d| <= 4 then d else d[..4] + " " + Blocks(d[4..])
  }

  /** `formatAadhaar`: the first twelve digits of the input, grouped. */
  function FormatAadhaar(value: string): string
  {
    GroupDigits(Take12(KeepDigits(value)))
  }

  /** On a string of digits the regular-expression replacement is exactly
      the cut into blocks of four. */
  lemma {:induction false} GroupDigitsIsBlocks(d: string)
    requires AllDigits(d)
    ensures GroupDigits(d) == Blocks(d)
    decreases |d|
  {
    if |d| >= 5 {
      assert AllDigits(d[..5]);
      GroupDigitsIsBlocks(d[4..]);
    } else if d != [] {
      GroupDigitsIsBlocks(d[1..]);
      assert Blocks(d[1..]) == d[1..];
      assert d == [d[0]] + d[1..];
    }
  }

  /** The layout of the blocks: a blank at every fifth position and nowhere
      else, digits elsewhere, at most 14 characters for 12 digits, and no
      blank at the end. */
  lemma {:induction false} BlocksShape(d: string)
    requires AllDigits(d)
    ensures |d| == 0 ==> |Blocks(d)| == 0
    ensures |d| > 0 ==> |Blocks(d)| == |d| + (|d| - 1) / 4
    ensures forall i :: 0 <= i < |Blocks(d)| ==> (Blocks(d)[i] == ' ' <==> i % 5 == 4)
    ensures forall i :: 0 <= i < |Blocks(d)| && i % 5 != 4 ==> IsDigit(Blocks(d)[i])
    ensures Blocks(d) == [] || IsDigit(Blocks(d)[|Blocks(d)| - 1])
    decreases |d|
  {
    if |d| > 4 {
      var rest := Blocks(d[4..]);
      BlocksShape(d[4..]);
      var b := Blocks(d);
      assert b == d[..4] + " " + rest;
      forall i | 0 <= i < |b|
        ensures (b[i] == ' ' <==> i % 5 == 4)
        ensures i % 5 != 4 ==> IsDigit(b[i])
      {
        if i >= 5 {
          assert b[i] == rest[i - 5];
          assert (i - 5) % 5 == i % 5;
        }
      }
    }
  }

  /** Taking the non-digits back out of the blocks gives the digits again. */
  lemma {:induction false} BlocksKeepDigits(d: string)
    requires AllDigits(d)
    ensures KeepDigits(Blocks(d)) == d
    decreases |d|
  {
    if |d| > 4 {
      var head, rest := d[..4], d[4..];
      BlocksKeepDigits(rest);
      assert Blocks(d) == (head + " ") + Blocks(rest);
      KeepDigitsAppend(head + " ", Blocks(rest));
      KeepDigitsAppend(head, " ");
      assert " "[1..] == [];
      assert KeepDigits(" ") == [];
      assert head + rest == d;
    }
  }

  /** Taking the blanks back out of the blocks gives the digits again. */
  lemma {:induction false} BlocksLoseBlanks(d: string)
    requires AllDigits(d)
    ensures RemoveWhitespace(Blocks(d)) == d
    decreases |d|
  {
    if |d| > 4 {
      var head, rest := d[..4], d[4..];
      BlocksLoseBlanks(rest);
      assert NoWhitespace(head);
      RemoveBlankAfter(head, Blocks(rest));
      assert head + rest == d;
    } else {
      assert NoWhitespace(d);
    }
  }

  /** A formatted Aadhaar number is at most 14 characters: digits with a
      blank at every fifth position and none at the end. */
  lemma FormatAadhaarShape(value: string)
    ensures |FormatAadhaar(value)| <= 14
    ensures forall i :: 0 <= i < |FormatAadhaar(value)| ==> (FormatAadhaar(value)[i] == ' ' <==> i % 5 == 4)
    ensures forall i :: 0 <= i < |FormatAadhaar(value)| && i % 5 != 4 ==> IsDigit(FormatAadhaar(value)[i])
    ensures FormatAadhaar(value) == [] || FormatAadhaar(value)[|FormatAadhaar(value)| - 1] != ' '
  {
    var d := Take12(KeepDigits(value));
    GroupDigitsIsBlocks(d);
    BlocksShape(d);
  }

  /** Formatting keeps the first twelve digits and nothing else. */
  lemma FormatAadhaarKeepsDigits(value: string)
    ensures KeepDigits(FormatAadhaar(value)) == Take12(KeepDigits(value))
    ensures RemoveWhitespace(FormatAadhaar(value)) == Take12(KeepDigits(value))
  {
    var d := Take12(KeepDigits(value));
    GroupDigitsIsBlocks(d);
    BlocksKeepDigits(d);
    BlocksLoseBlanks(d);
  }

  /** Formatting an already formatted number changes nothing. */
  lemma FormatAadhaarIdempotent(value: string)
    ensures FormatAadhaar(FormatAadhaar(value)) == FormatAadhaar(value)
  {
    FormatAadhaarKeepsDigits(value);
  }

  /** Twelve digits come out as `XXXX XXXX XXXX`. */
  lemma FormatTwelveDigits(d: string)
    requires IsTwelveDigits(d)
    ensures FormatAadhaar(d) == d[..4] + " " + d[4..8] + " " + d[8..]
  {
    GroupDigitsIsBlocks(d);
    assert d[4..][..4] == d[4..8];
    assert d[4..][4..] == d[8..];
    assert Blocks(d[8..]) == d[8..];
    assert Blocks(d[4..]) == d[4..8] + " " + d[8..];
    assert Blocks(d) == d[..4] + " " + (d[4..8] + " " + d[8..]);
  }

  /** `formatPan`: blanks removed, then upper-cased. */
  function FormatPan(value: string): string
  {
    ToUpperCase(RemoveWhitespace(value))
  }

  /** A normalised PAN has no blanks and no lower-case letters, a PAN once
      its blanks are gone stays a PAN, and normalising twice changes nothing. */
  lemma FormatPanNormalises(value: string)
    ensures NoWhitespace(FormatPan(value)) && NoAsciiLower(FormatPan(value))
    ensures IsPanShape(RemoveWhitespace(value)) ==> IsPanShape(FormatPan(value))
    ensures FormatPan(FormatPan(value)) == FormatPan(value)
  {
    var t := RemoveWhitespace(value);
    var r := FormatPan(value);
    forall i | 0 <= i < |r|
      ensures !IsWhitespace(r[i])
    {
      assert r[i] == UpperChar(t[i]);
    }
    PanShapeUpperCase(t);
    ToUpperCaseIdempotent(t);
  }

  /** `maskAadhaar`: a 12-character value shows only its last four
      characters; any other value is returned as it is. */
  function MaskAadhaar(aadhaar: string): (r: string)
    ensures |aadhaar| != 12 ==> r == aadhaar
    ensures |aadhaar| == 12 ==> |r| == 14 && r[10..] == aadhaar[8..]
    ensures |aadhaar| == 12 ==> r[..10] == "XXXX XXXX "
    ensures |aadhaar| == 12 ==> forall i :: 0 <= i < 10 ==> !IsDigit(r[i])
  {
    if |aadhaar| != 12 then aadhaar else "XXXX XXXX " + aadhaar[|aadhaar| - 4..]
  }

  /** The mask hides the first eight characters: two numbers that end alike
      look the same. */
  lemma MaskHidesPrefix(a: string, b: string)
    requires |a| == 12 && |b| == 12 && a[8..] == b[8..]
    ensures MaskAadhaar(a) == MaskAadhaar(b)
  {
  }

  /** `validateStep`: step 1 needs a truthy `aadhaarNumber` and `otp`, step 2
      a truthy `panNumber` and `nameAsPerPan`, and no other step passes. */
  function ValidateStep(step: int, data: map<string, Json>): (ok: bool)
    ensures ok ==> step == 1 || step == 2
    ensures ok && step == 1 ==> "aadhaarNumber" in data && "otp" in data
    ensures ok && step == 2 ==> "panNumber" in data && "nameAsPerPan" in data
    ensures ok && step == 1 ==> Truthy(Get(data, "aadhaarNumber")) && Truthy(Get(data, "otp"))
    ensures ok && step == 2 ==> Truthy(Get(data, "panNumber")) && Truthy(Get(data, "nameAsPerPan"))
  {
    if step == 1 then Truthy(Get(data, "aadhaarNumber")) && Truthy(Get(data, "otp"))
    else if step == 2 then Truthy(Get(data, "panNumber")) && Truthy(Get(data, "nameAsPerPan"))
    else false
  }

  /** A field of the step that is missing, `null`, `false`, `0` or the empty
      string makes the step fail. */
  lemma ValidateStepRefusesFalsyField(step: int, data: map<string, Json>, field: string)
    requires (step == 1 && (field == "aadhaarNumber" || field == "otp"))
          || (step == 2 && (field == "panNumber" || field == "nameAsPerPan"))
    ensures field !in data ==> !ValidateStep(step, data)
    ensures field in data && data[field] in [JNull, JBool(false), JNumber(0.0), JString("")] ==> !ValidateStep(step, data)
  {
  }

  /** Filled-in text fields are enough for a step to pass. */
  lemma ValidateStepAcceptsFilledFields(data: map<string, Json>)
    ensures (forall f :: f in ["aadhaarNumber", "otp"] ==> f in data && data[f].JString? && data[f].s != "")
              ==> ValidateStep(1, data)
    ensures (forall f :: f in ["panNumber", "nameAsPerPan"] ==> f in data && data[f].JString? && data[f].s != "")
              ==> ValidateStep(2, data)
    ensures Truthy(Get(data, "aadhaarNumber")) && Truthy(Get(data, "otp")) ==> ValidateStep(1, data)
    ensures Truthy(Get(data, "panNumber")) && Truthy(Get(data, "nameAsPerPan")) ==> ValidateStep(2, data)
  {
    assert "aadhaarNumber" in ["aadhaarNumber", "otp"] && "otp" in ["aadhaarNumber", "otp"];
    assert "panNumber" in ["panNumber", "nameAsPerPan"] && "nameAsPerPan" in ["panNumber", "nameAsPerPan"];
  }

  /** `getStepTitle`: the two steps have titles, every other number gets
      "Unknown Step". */
  function GetStepTitle(step: int): (t: string)
    ensures step == 1 ==> t == "Aadhaar Verification"
    ensures step == 2 ==> t == "PAN Verification"
    ensures t == "Unknown Step" <==> step != 1 && step != 2
  {
    if step == 1 then "Aadhaar Verification"
    else if step == 2 then "PAN Verification"
    else "Unknown Step"
  }
}
