/** How the browser's checks and the server's checks fit together, and what
    the server's validation guarantees to the handlers behind it. */
module CrossChecks {
  import opened Wrappers
  import opened JsString
  import opened Json
  import opened Patterns
  import FrontendUtils
  import FV = FrontendValidation
  import BV = BackendValidation
  import FormFlow

  /** The JSON body the browser posts for a parsed form. */
  function AsBody(values: map<string, string>): (body: map<string, Json>)
    ensures body.Keys == values.Keys
    ensures forall k :: k in values ==> body[k] == JString(values[k])
  {
    map k | k in values :: JString(values[k])
  }

  lemma AsBodyOne(a: string, x: string)
    ensures AsBody(map[a := x]) == map[a := JString(x)]
  {
  }

  lemma AsBodyTwo(a: string, b: string, x: string, y: string)
    ensures AsBody(map[a := x, b := y]) == map[a := JString(x), b := JString(y)]
  {
  }

  /** The Aadhaar box formats what is typed and stores the formatted text
      without its spaces. That stored value passes the browser's check
      exactly when at least twelve digits were typed, and what is handed on
      is the first twelve digits. */
  lemma FormattedAadhaarAccepted(typed: string)
    ensures var stored := RemoveWhitespace(FrontendUtils.FormatAadhaar(typed));
            FV.SafeParse(FV.AadhaarForm, map["aadhaarNumber" := stored]).Ok? <==> |KeepDigits(typed)| >= 12
    ensures var stored := RemoveWhitespace(FrontendUtils.FormatAadhaar(typed));
            |KeepDigits(typed)| >= 12 ==>
              FV.SafeParse(FV.AadhaarForm, map["aadhaarNumber" := stored])
                == Ok(map["aadhaarNumber" := FrontendUtils.Take12(KeepDigits(typed))])
  {
    FrontendUtils.FormatAadhaarKeepsDigits(typed);
    var stored := RemoveWhitespace(FrontendUtils.FormatAadhaar(typed));
    assert RemoveWhitespace(stored) == stored;
    FV.AadhaarFormAccepts(map["aadhaarNumber" := stored]);
  }

  /** What the browser's Aadhaar form hands on, the server accepts unchanged. */
  lemma BrowserAadhaarAcceptedByServer(input: map<string, string>, isIp: string -> bool)
    requires FV.SafeParse(FV.AadhaarForm, input).Ok?
    ensures BV.Validate(BV.AadhaarSchema, AsBody(FV.SafeParse(FV.AadhaarForm, input).value), isIp)
              == Ok(AsBody(FV.SafeParse(FV.AadhaarForm, input).value))
  {
    FV.AadhaarFormAccepts(input);
    var out := FV.SafeParse(FV.AadhaarForm, input).value;
    AsBodyOne("aadhaarNumber", RemoveWhitespace(input["aadhaarNumber"]));
    BV.AadhaarSchemaAccepts(AsBody(out), isIp);
  }

  /** The browser and the server accept the same OTP forms. */
  lemma OtpFormsAgree(input: map<string, string>, isIp: string -> bool)
    ensures FV.SafeParse(FV.OtpForm, input).Ok? <==> BV.Validate(BV.OtpSchema, AsBody(input), isIp).Ok?
  {
    FV.OtpFormAccepts(input);
    BV.OtpSchemaAccepts(AsBody(input), isIp);
  }

  /** The step data the Aadhaar step hands on once the server accepted the
      code: the form's `otpCode` travels on under the key `otp`, next to the
      user id from the server's reply. */
  function StepOneData(form: map<string, string>, userId: Json): (data: map<string, Json>)
    requires "aadhaarNumber" in form && "otpCode" in form
    ensures data.Keys == {"aadhaarNumber", "otp", "userId"}
    ensures data["aadhaarNumber"] == JString(form["aadhaarNumber"]) && data["otp"] == JString(form["otpCode"])
  {
    map["aadhaarNumber" := JString(form["aadhaarNumber"]), "otp" := JString(form["otpCode"]), "userId" := userId]
  }

  /** A filled-in Aadhaar form passes the step check under the key `otp`,
      and fails it under its own key `otpCode`. */
  lemma FilledOtpFormStepCheck(aadhaarNumber: string, otpCode: string, userId: Json)
    requires aadhaarNumber != "" && otpCode != ""
    ensures var form := map["aadhaarNumber" := aadhaarNumber, "otpCode" := otpCode];
            FrontendUtils.ValidateStep(1, StepOneData(form, userId)) && !FrontendUtils.ValidateStep(1, AsBody(form))
  {
    var form := map["aadhaarNumber" := aadhaarNumber, "otpCode" := otpCode];
    FrontendUtils.ValidateStepAcceptsFilledFields(StepOneData(form, userId));
    assert "otp" !in AsBody(form).Keys;
  }

  /** The Aadhaar step's data passes the step check, and it is the renaming of
      `otpCode` to `otp` that makes it pass: the form's own output does not. */
  lemma OtpStepDataPassesStepCheck(input: map<string, string>, userId: Json)
    requires FV.SafeParse(FV.OtpForm, input).Ok?
    ensures var form := FV.SafeParse(FV.OtpForm, input).value;
            "aadhaarNumber" in form && "otpCode" in form && FrontendUtils.ValidateStep(1, StepOneData(form, userId))
    ensures !FrontendUtils.ValidateStep(1, AsBody(FV.SafeParse(FV.OtpForm, input).value))
  {
    FV.OtpFormAccepts(input);
    var a, c := input["aadhaarNumber"], input["otpCode"];
    assert a != "" && c != "";
    FilledOtpFormStepCheck(a, c, userId);
  }

  /** The browser and the server accept the same PAN strings and turn them
      into the same upper-case PAN. */
  lemma PanNumbersAgree(pan: string)
    ensures FV.FieldAccepts(FV.PanForm[0], Some(pan)) <==> BV.ValidateKey(BV.PanSchema[0], Some(JString(pan)), p => true).errors == []
    ensures BV.ValidateKey(BV.PanSchema[0], Some(JString(pan)), p => true).errors == [] ==>
              BV.ValidateKey(BV.PanSchema[0], Some(JString(pan)), p => true).value == Some(JString(ToUpperCase(pan)))
  {
    FV.PanFieldAccepts(pan);
    BV.PatternKeyOutcome(BV.PanSchema[0], Some(JString(pan)), p => true);
    PanShapeUpperCase(pan);
  }

  /** A PAN form the browser hands on reaches the server intact, provided the
      trimmed name still has two characters. */
  lemma BrowserPanAcceptedByServer(input: map<string, string>, isIp: string -> bool)
    requires FV.SafeParse(FV.PanForm, input).Ok?
    requires "nameAsPerPan" in input && |Trim(input["nameAsPerPan"])| >= 2
    ensures BV.Validate(BV.PanSchema, AsBody(FV.SafeParse(FV.PanForm, input).value), isIp)
              == Ok(AsBody(FV.SafeParse(FV.PanForm, input).value))
  {
    FV.PanFormAccepts(input);
    var out := FV.SafeParse(FV.PanForm, input).value;
    var body := AsBody(out);
    var pan, name := input["panNumber"], input["nameAsPerPan"];
    AsBodyTwo("panNumber", "nameAsPerPan", ToUpperCase(pan), Trim(name));
    PanShapeUpperCase(pan);
    ToUpperCaseIdempotent(pan);
    TrimIdempotent(name);
    TrimKeepsNameChars(name);
    BV.PanSchemaAccepts(body, isIp);
  }

  /** The browser lets " a" through and hands on "a", which the server
      refuses: the browser measures the name before trimming it, the server
      after. */
  lemma ShortNameRefusedOnlyByServer(isIp: string -> bool)
    ensures FV.SafeParse(FV.PanForm, map["panNumber" := "ABCDE1234F", "nameAsPerPan" := " a"]).Ok?
    ensures BV.Validate(BV.PanSchema, AsBody(map["panNumber" := "ABCDE1234F", "nameAsPerPan" := "a"]), isIp).Err?
  {
    FV.PanFormTrimsAfterChecks();
    var values := map["panNumber" := "ABCDE1234F", "nameAsPerPan" := "a"];
    assert values["nameAsPerPan"] == "a";
    var body := AsBody(values);
    assert body["nameAsPerPan"].s == "a";
    assert |Trim("a")| <= 1;
    BV.PanSchemaAccepts(body, isIp);
  }

  /** Whatever passes the server's PAN schema also passes the handler's
      simulated PAN check, so behind the route that check never refuses. */
  lemma ValidatedPanPassesCheck(body: map<string, Json>, isIp: string -> bool)
    requires BV.Validate(BV.PanSchema, body, isIp).Ok?
    ensures var v := BV.Validate(BV.PanSchema, body, isIp).value;
            && "panNumber" in v && v["panNumber"].JString?
            && "nameAsPerPan" in v && v["nameAsPerPan"].JString?
            && FormFlow.SimulatePanVerification(v["panNumber"].s, v["nameAsPerPan"].s)
  {
    BV.PanSchemaAccepts(body, isIp);
    PanShapeUpperCase(body["panNumber"].s);
  }

  /** The browser's step titles are the server's progress titles. */
  lemma StepTitlesAgree()
    ensures FrontendUtils.GetStepTitle(1) == FormFlow.AadhaarStepTitle
    ensures FrontendUtils.GetStepTitle(2) == FormFlow.PanStepTitle
  {
  }
}
