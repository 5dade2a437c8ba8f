/** The browser's zod schemas for the three forms. Form fields hold strings.
    Zod runs every string check of a field and reports each failure; a
    transform runs only when all the checks passed, while a refinement runs
    on the (possibly untransformed) value either way. An absent field is
    reported as "Required" and nothing else is checked for it. */
module FrontendValidation {
  import opened Wrappers
  import opened JsString
  import opened Patterns
  import FrontendUtils

  datatype Regex = TwelveDigitsRegex | SixDigitsRegex | PanRegex | NameCharsRegex

  predicate Test(p: Regex, s: string)
  {
    match p
    case TwelveDigitsRegex => IsTwelveDigits(s)
    case SixDigitsRegex => IsSixDigits(s)
    case PanRegex => IsPanShape(s)
    case NameCharsRegex => IsNameCharsOnly(s)
  }

  /** `.min(n, msg)`, `.max(n, msg)` and `.regex(re, msg)`. */
  datatype Check = MinLength(n: nat, msg: string) | MaxLength(n: nat, msg: string) | Matches(re: Regex, msg: string)

  datatype Transform = Identity | StripWhitespace | UpperCase | TrimEnds

  datatype Field = Field(name: string, checks: seq<Check>, transform: Transform, refinement: Option<Check>)

  /** One zod issue: the field's path and the message. */
  datatype Issue = Issue(path: string, message: string)

  /** zod's message for `.regex` without one of its own. */
  const InvalidMessage: string := "Invalid"
  const RequiredMessage: string := "Required"

  const AadhaarForm: seq<Field> := [
    Field("aadhaarNumber", [MinLength(1, "Aadhaar number is required")], StripWhitespace,
          Some(Matches(TwelveDigitsRegex, "Aadhaar number must be 12 digits")))
  ]

  const OtpForm: seq<Field> := [
    Field("aadhaarNumber", [Matches(TwelveDigitsRegex, InvalidMessage)], Identity, None),
    Field("otpCode", [MinLength(1, "OTP is required"), Matches(SixDigitsRegex, "OTP must be 6 digits")], Identity, None)
  ]

  const PanForm: seq<Field> := [
    Field("panNumber",
          [MinLength(1, "PAN number is required"),
           Matches(PanRegex, "PAN must be in format: 5 letters, 4 digits, 1 letter")],
          UpperCase, None),
    Field("nameAsPerPan",
          [MinLength(1, "Name is required"), MinLength(2, "Name must be at least 2 characters"),
           MaxLength(100, "Name must not exceed 100 characters"),
           Matches(NameCharsRegex, "Name must contain only letters and spaces")],
          TrimEnds, None)
  ]

  predicate Passes(c: Check, s: string)
  {
    match c
    case MinLength(n, _) => |s| >= n
    case MaxLength(n, _) => |s| <= n
    case Matches(re, _) => Test(re, s)
  }

  /** The messages of the failing checks, in the order they are declared. */
  function Failures(checks: seq<Check>, s: string): (msgs: seq<string>)
    ensures msgs == [] <==> forall i :: 0 <= i < |checks| ==> Passes(checks[i], s)
    ensures |msgs| <= |checks|
  {
    if checks == [] then []
    else
      (if Passes(checks[0], s) then [] else [checks[0].msg]) + Failures(checks[1..], s)
  }

  function Apply(t: Transform, s: string): string
  {
    match t
    case Identity => s
    case StripWhitespace => RemoveWhitespace(s)
    case UpperCase => ToUpperCase(s)
    case TrimEnds => Trim(s)
  }

  datatype FieldOutcome = FieldOutcome(value: string, messages: seq<string>)

  /** One field parsed: the checks, then the transform if they all passed,
      then the refinement. */
  function ParseField(f: Field, v: Option<string>): (o: FieldOutcome)
    ensures v.None? ==> o.messages == [RequiredMessage]
    ensures v.Some? && o.messages == [] ==>
              o.value == Apply(f.transform, v.value)
              && forall i :: 0 <= i < |f.checks| ==> Passes(f.checks[i], v.value)
  {
    match v
    case None => FieldOutcome("", [RequiredMessage])
    case Some(s) =>
      var failed := Failures(f.checks, s);
      var value := if failed == [] then Apply(f.transform, s) else s;
      var refined := if f.refinement.Some? && !Passes(f.refinement.value, value) then [f.refinement.value.msg] else [];
      FieldOutcome(value, failed + refined)
  }

  function Issues(path: string, messages: seq<string>): (found: seq<Issue>)
    ensures |found| == |messages|
    ensures forall i :: 0 <= i < |found| ==> found[i] == Issue(path, messages[i])
  {
    if messages == [] then [] else [Issue(path, messages[0])] + Issues(path, messages[1..])
  }

  function FieldValue(input: map<string, string>, name: string): Option<string>
  {
    if name in input then Some(input[name]) else None
  }

  /** The names a form declares. */
  function FieldNames(fields: seq<Field>): set<string>
  {
    set f | f in fields :: f.name
  }

  /** Every field parsed in declaration order, all issues collected. */
  function ParseFields(fields: seq<Field>, input: map<string, string>): (out: (map<string, string>, seq<Issue>))
    ensures out.0.Keys == FieldNames(fields)
    ensures forall i :: 0 <= i < |out.1| ==> out.1[i].path in FieldNames(fields)
  {
    if fields == [] then (map[], [])
    else
      var f := fields[0];
      var o := ParseField(f, FieldValue(input, f.name));
      var rest := ParseFields(fields[1..], input);
      assert FieldNames(fields) == {f.name} + FieldNames(fields[1..]) by { assert fields == [f] + fields[1..]; }
      (rest.0[f.name := o.value], Issues(f.name, o.messages) + rest.1)
  }

  /** `schema.safeParse(input)`. */
  function SafeParse(fields: seq<Field>, input: map<string, string>): (r: Result<map<string, string>, seq<Issue>>)
    ensures r.Ok? ==> r.value.Keys == FieldNames(fields)
    ensures r.Err? ==> r.error != [] && forall i :: 0 <= i < |r.error| ==> r.error[i].path in FieldNames(fields)
  {
    var (value, issues) := ParseFields(fields, input);
    if issues == [] then Ok(value) else Err(issues)
  }

  predicate AllPass(checks: seq<Check>, s: string)
  {
    forall i :: 0 <= i < |checks| ==> Passes(checks[i], s)
  }

  /** What it takes for one field to draw no issue: present, every check
      passed, and the refinement passed by the transformed value. */
  predicate FieldAccepts(f: Field, v: Option<string>)
  {
    && v.Some?
    && AllPass(f.checks, v.value)
    && (f.refinement.Some? ==> Passes(f.refinement.value, Apply(f.transform, v.value)))
  }

  lemma FieldAcceptsIff(f: Field, v: Option<string>)
    ensures ParseField(f, v).messages == [] <==> FieldAccepts(f, v)
  {
  }

  /** A form parses without issue exactly when each of its fields does. */
  lemma {:induction false} NoIssuesIff(fields: seq<Field>, input: map<string, string>)
    ensures ParseFields(fields, input).1 == [] <==>
              forall i :: 0 <= i < |fields| ==> ParseField(fields[i], FieldValue(input, fields[i].name)).messages == []
  {
    if fields != [] {
      NoIssuesIff(fields[1..], input);
      var o := ParseField(fields[0], FieldValue(input, fields[0].name));
      if o.messages != [] {
        assert Issues(fields[0].name, o.messages)[0] == ParseFields(fields, input).1[0];
      }
      forall i | 1 <= i < |fields|
        ensures fields[i] == fields[1..][i - 1]
      {
      }
    }
  }

  lemma ParseOne(f: Field, input: map<string, string>)
    ensures ParseFields([f], input).0 == map[f.name := ParseField(f, FieldValue(input, f.name)).value]
  {
    assert [f][1..] == [];
  }

  lemma ParseTwo(f0: Field, f1: Field, input: map<string, string>)
    ensures ParseFields([f0, f1], input).0
              == map[f1.name := ParseField(f1, FieldValue(input, f1.name)).value,
                     f0.name := ParseField(f0, FieldValue(input, f0.name)).value]
  {
    assert [f0, f1][1..] == [f1];
    ParseOne(f1, input);
  }

  /** A two-field form accepts exactly when both fields do, and then hands
      on each field's transformed value under its name. */
  lemma TwoFields(f0: Field, f1: Field, input: map<string, string>)
    requires f0.name != f1.name
    ensures var v0, v1 := FieldValue(input, f0.name), FieldValue(input, f1.name);
            && (SafeParse([f0, f1], input).Ok? <==> FieldAccepts(f0, v0) && FieldAccepts(f1, v1))
            && (SafeParse([f0, f1], input).Ok? ==>
                  SafeParse([f0, f1], input).value
                    == map[f0.name := Apply(f0.transform, v0.value), f1.name := Apply(f1.transform, v1.value)])
  {
    var v0, v1 := FieldValue(input, f0.name), FieldValue(input, f1.name);
    var o0, o1 := ParseField(f0, v0), ParseField(f1, v1);
    TwoFieldsIssues(f0, f1, input);
    assert |Issues(f0.name, o0.messages) + Issues(f1.name, o1.messages)| == |o0.messages| + |o1.messages|;
    FieldAcceptsIff(f0, v0);
    FieldAcceptsIff(f1, v1);
    ParseTwo(f0, f1, input);
    SwapNames(f0.name, f1.name, o0.value, o1.value);
  }

  lemma TwoFieldsIssues(f0: Field, f1: Field, input: map<string, string>)
    ensures ParseFields([f0, f1], input).1
              == Issues(f0.name, ParseField(f0, FieldValue(input, f0.name)).messages)
                 + Issues(f1.name, ParseField(f1, FieldValue(input, f1.name)).messages)
  {
    var i0 := Issues(f0.name, ParseField(f0, FieldValue(input, f0.name)).messages);
    var i1 := Issues(f1.name, ParseField(f1, FieldValue(input, f1.name)).messages);
    assert [f0, f1][1..] == [f1];
    assert [f1][1..] == [];
    assert ParseFields([f1][1..], input) == (map[], []);
    assert ParseFields([f1], input).1 == i1 + [] == i1;
    assert ParseFields([f0, f1], input).1 == i0 + ParseFields([f1], input).1;
  }

  lemma SwapNames(a: string, b: string, x: string, y: string)
    requires a != b
    ensures map[b := y, a := x] == map[a := x, b := y]
  {
  }

  /** The Aadhaar form accepts any spacing of twelve digits and hands on the
      digits alone. */
  lemma AadhaarFormAccepts(input: map<string, string>)
    ensures SafeParse(AadhaarForm, input).Ok? <==>
              "aadhaarNumber" in input && IsTwelveDigits(RemoveWhitespace(input["aadhaarNumber"]))
    ensures SafeParse(AadhaarForm, input).Ok? ==>
              SafeParse(AadhaarForm, input).value == map["aadhaarNumber" := RemoveWhitespace(input["aadhaarNumber"])]
  {
    var f := AadhaarForm[0];
    NoIssuesIff(AadhaarForm, input);
    FieldAcceptsIff(f, FieldValue(input, f.name));
    ParseOne(f, input);
    if "aadhaarNumber" in input {
      var s := input["aadhaarNumber"];
      assert AllPass(f.checks, s) <==> |s| >= 1 by {
        assert f.checks == [MinLength(1, "Aadhaar number is required")];
      }
    }
  }

  /** Twelve digits typed in groups of four, as the input box shows them,
      are accepted and handed on as the bare digits. */
  lemma AadhaarFormAcceptsGrouped(d: string)
    requires IsTwelveDigits(d)
    ensures SafeParse(AadhaarForm, map["aadhaarNumber" := d[..4] + " " + d[4..8] + " " + d[8..]])
              == Ok(map["aadhaarNumber" := d])
  {
    var grouped := d[..4] + " " + d[4..8] + " " + d[8..];
    FrontendUtils.FormatTwelveDigits(d);
    FrontendUtils.FormatAadhaarKeepsDigits(d);
    assert RemoveWhitespace(grouped) == d;
    AadhaarFormAccepts(map["aadhaarNumber" := grouped]);
  }

  /** "1234 5678 9012" is accepted as "123456789012". */
  lemma AadhaarFormExample()
    ensures SafeParse(AadhaarForm, map["aadhaarNumber" := "1234 5678 9012"]) == Ok(map["aadhaarNumber" := "123456789012"])
  {
    var d := "123456789012";
    assert IsTwelveDigits(d);
    assert d[..4] + " " + d[4..8] + " " + d[8..] == "1234 5678 9012";
    AadhaarFormAcceptsGrouped(d);
  }

  /** An empty Aadhaar box draws both messages: the transform is skipped but
      the refinement still sees the empty string. */
  lemma AadhaarFormEmpty()
    ensures SafeParse(AadhaarForm, map["aadhaarNumber" := ""])
              == Err([Issue("aadhaarNumber", "Aadhaar number is required"),
                      Issue("aadhaarNumber", "Aadhaar number must be 12 digits")])
  {
    var input := map["aadhaarNumber" := ""];
    var f := AadhaarForm[0];
    assert f.checks[1..] == [];
    assert Failures(f.checks, "") == ["Aadhaar number is required"];
    var o := ParseField(f, Some(""));
    assert !IsTwelveDigits("");
    assert o.messages == ["Aadhaar number is required", "Aadhaar number must be 12 digits"];
    assert FieldValue(input, f.name) == Some("");
    assert AadhaarForm[1..] == [];
    assert ParseFields(AadhaarForm[1..], input) == (map[], []);
    var found := Issues(f.name, o.messages);
    assert found == [Issue("aadhaarNumber", "Aadhaar number is required"),
                     Issue("aadhaarNumber", "Aadhaar number must be 12 digits")];
    assert ParseFields(AadhaarForm, input).1 == found + [];
    assert found + [] == found;
  }

  /** The OTP form accepts exactly twelve digits and a 6-digit code, as typed. */
  lemma OtpFormAccepts(input: map<string, string>)
    ensures SafeParse(OtpForm, input).Ok? <==>
              && "aadhaarNumber" in input && IsTwelveDigits(input["aadhaarNumber"])
              && "otpCode" in input && IsSixDigits(input["otpCode"])
    ensures SafeParse(OtpForm, input).Ok? ==>
              SafeParse(OtpForm, input).value
                == map["aadhaarNumber" := input["aadhaarNumber"], "otpCode" := input["otpCode"]]
  {
    var f0, f1 := OtpForm[0], OtpForm[1];
    assert OtpForm == [f0, f1];
    TwoFields(f0, f1, input);
    if "aadhaarNumber" in input {
      OtpNumberFieldAccepts(input["aadhaarNumber"]);
    }
    if "otpCode" in input {
      OtpCodeFieldAccepts(input["otpCode"]);
    }
  }

  lemma OtpNumberFieldAccepts(s: string)
    ensures FieldAccepts(OtpForm[0], Some(s)) <==> IsTwelveDigits(s)
    ensures Apply(OtpForm[0].transform, s) == s
  {
    var f := OtpForm[0];
    assert f.refinement.None? && f.transform == Identity;
    assert f.checks == [Matches(TwelveDigitsRegex, InvalidMessage)];
    assert Passes(f.checks[0], s) <==> IsTwelveDigits(s);
  }

  lemma OtpCodeFieldAccepts(s: string)
    ensures FieldAccepts(OtpForm[1], Some(s)) <==> IsSixDigits(s)
    ensures Apply(OtpForm[1].transform, s) == s
  {
    var f := OtpForm[1];
    assert f.refinement.None? && f.transform == Identity;
    assert f.checks == [MinLength(1, "OTP is required"), Matches(SixDigitsRegex, "OTP must be 6 digits")];
    assert Passes(f.checks[0], s) <==> |s| >= 1;
    assert Passes(f.checks[1], s) <==> IsSixDigits(s);
  }

  lemma PanFieldAccepts(s: string)
    ensures FieldAccepts(PanForm[0], Some(s)) <==> IsPanShape(s)
    ensures Apply(PanForm[0].transform, s) == ToUpperCase(s)
  {
    var f := PanForm[0];
    assert f.refinement.None? && f.transform == UpperCase;
    assert Passes(f.checks[0], s) <==> |s| >= 1;
    assert Passes(f.checks[1], s) <==> IsPanShape(s);
  }

  lemma NameFieldAccepts(s: string)
    ensures FieldAccepts(PanForm[1], Some(s)) <==> IsNameShape(s)
    ensures Apply(PanForm[1].transform, s) == Trim(s)
  {
    var f := PanForm[1];
    assert f.refinement.None? && f.transform == TrimEnds;
    assert |f.checks| == 4;
    assert Passes(f.checks[0], s) <==> |s| >= 1;
    assert Passes(f.checks[1], s) <==> |s| >= 2;
    assert Passes(f.checks[2], s) <==> |s| <= 100;
    assert Passes(f.checks[3], s) <==> IsNameCharsOnly(s);
  }

  /** The PAN form accepts a PAN of either case and a name of 2 to 100
      letters or blanks counted before trimming; it hands on the PAN
      upper-cased and the name trimmed. */
  lemma PanFormAccepts(input: map<string, string>)
    ensures SafeParse(PanForm, input).Ok? <==>
              && "panNumber" in input && IsPanShape(input["panNumber"])
              && "nameAsPerPan" in input && IsNameShape(input["nameAsPerPan"])
    ensures SafeParse(PanForm, input).Ok? ==>
              SafeParse(PanForm, input).value
                == map["panNumber" := ToUpperCase(input["panNumber"]), "nameAsPerPan" := Trim(input["nameAsPerPan"])]
  {
    var f0, f1 := PanForm[0], PanForm[1];
    assert PanForm == [f0, f1];
    TwoFields(f0, f1, input);
    if "panNumber" in input {
      PanFieldAccepts(input["panNumber"]);
    }
    if "nameAsPerPan" in input {
      NameFieldAccepts(input["nameAsPerPan"]);
    }
  }

  lemma TrimOneLeadingBlank()
    ensures Trim(" a") == "a"
  {
    assert IsWhitespace(" a"[0]) && !IsWhitespace(" a"[1]);
    assert TrimStart(" a") == "a";
  }

  /** The name is measured before it is trimmed: " a" passes and is handed
      on as the one-letter "a". */
  lemma PanFormTrimsAfterChecks()
    ensures SafeParse(PanForm, map["panNumber" := "ABCDE1234F", "nameAsPerPan" := " a"])
              == Ok(map["panNumber" := "ABCDE1234F", "nameAsPerPan" := "a"])
  {
    var pan, name := "ABCDE1234F", " a";
    var input := map["panNumber" := pan, "nameAsPerPan" := name];
    assert IsPanShape(pan) && NoAsciiLower(pan);
    ToUpperCaseKeepsUpper(pan);
    assert IsNameShape(name) by {
      assert IsWhitespace(name[0]) && IsAsciiLetter(name[1]);
    }
    TrimOneLeadingBlank();
    PanFormAccepts(input);
  }
}
