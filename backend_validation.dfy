/** The server's request validation: four Joi object schemas, applied with
    `abortEarly: false` (every failing field is reported) and
    `stripUnknown: true` (fields outside the schema are dropped), and the
    middleware that turns a failure into a 400 reply. Joi's conversions run
    first, as they do with its default `convert: true`: a string is
    upper-cased and then trimmed before it is checked. */
module BackendValidation {
  import opened Wrappers
  import opened JsString
  import opened Json
  import opened Patterns
  import JsNumber

  datatype Pattern = TwelveDigitsPattern | SixDigitsPattern | PanPattern | NamePattern

  predicate Matches(p: Pattern, s: string)
  {
    match p
    case TwelveDigitsPattern => IsTwelveDigits(s)
    case SixDigitsPattern => IsSixDigits(s)
    case PanPattern => IsPanShape(s)
    case NamePattern => IsNameShape(s)
  }

  /** The regular expression as Joi prints it in its default message. */
  function PatternSource(p: Pattern): string
  {
    match p
    case TwelveDigitsPattern => "/^[0-9]{12}$/"
    case SixDigitsPattern => "/^[0-9]{6}$/"
    case PanPattern => "/^[A-Za-z]{5}[0-9]{4}[A-Za-z]{1}$/"
    case NamePattern => "/^[a-zA-Z\\s]{2,100}$/"
  }

  /** Joi's error codes for the rules these schemas use. */
  datatype Code =
    | AnyRequired | StringBase | StringEmpty | StringPatternBase | StringIp | StringMax
    | NumberBase | NumberInteger | NumberMin | NumberMax | ObjectBase

  /** `Joi.string()` with its options, `Joi.number().integer().min().max()`,
      or `Joi.object()` (any object). */
  datatype Rule =
    | StringRule(pattern: Option<Pattern>, uppercase: bool, trim: bool, ip: bool, maxLength: Option<nat>)
    | IntegerRule(min: nat, max: nat)
    | ObjectRule

  /** One key of an object schema, with its custom messages. */
  datatype Key = Key(name: string, rule: Rule, required: bool, messages: map<Code, string>)

  /** One entry of the `errors` list: `{field, message}`. */
  datatype ErrorDetail = ErrorDetail(field: string, message: string)

  const AadhaarSchema: seq<Key> := [
    Key("aadhaarNumber", StringRule(Some(TwelveDigitsPattern), false, false, false, None), true,
        map[StringPatternBase := "Aadhaar number must be 12 digits", AnyRequired := "Aadhaar number is required"])
  ]

  const OtpSchema: seq<Key> := [
    Key("otpCode", StringRule(Some(SixDigitsPattern), false, false, false, None), true,
        map[StringPatternBase := "OTP must be 6 digits", AnyRequired := "OTP is required"]),
    Key("aadhaarNumber", StringRule(Some(TwelveDigitsPattern), false, false, false, None), true, map[])
  ]

  const PanSchema: seq<Key> := [
    Key("panNumber", StringRule(Some(PanPattern), true, false, false, None), true,
        map[StringPatternBase := "PAN must be in format: 5 letters, 4 digits, 1 letter",
            AnyRequired := "PAN number is required"]),
    Key("nameAsPerPan", StringRule(Some(NamePattern), false, true, false, None), true,
        map[StringPatternBase := "Name must contain only letters and spaces",
            AnyRequired := "Name as per PAN is required"])
  ]

  const FormSubmissionSchema: seq<Key> := [
    Key("step", IntegerRule(1, 2), true, map[]),
    Key("formData", ObjectRule, true, map[]),
    Key("ipAddress", StringRule(None, false, false, true, None), false, map[]),
    Key("userAgent", StringRule(None, false, false, false, Some(500)), false, map[])
  ]

  /** Joi's default message for a code, with the key's label in quotes. */
  function DefaultMessage(k: Key, code: Code, value: string): (msg: string)
    ensures var quoted := "\"" + k.name + "\""; |quoted| < |msg| && msg[..|quoted|] == quoted
  {
    var quoted := "\"" + k.name + "\"";
    var rest := DefaultMessageRest(k, code, value);
    assert (quoted + rest)[..|quoted|] == quoted;
    quoted + rest
  }

  /** What follows the quoted key name in Joi's default message. */
  function DefaultMessageRest(k: Key, code: Code, value: string): (rest: string)
    ensures |rest| > 0
  {
    match code
    case AnyRequired => " is required"
    case StringBase => " must be a string"
    case StringEmpty => " is not allowed to be empty"
    case StringPatternBase =>
      " with value \"" + value + "\" fails to match the required pattern: "
        + (if k.rule.StringRule? && k.rule.pattern.Some? then PatternSource(k.rule.pattern.value) else "")
    case StringIp => " must be a valid ip address with a optional CIDR"
    case StringMax =>
      " length must be less than or equal to "
        + (if k.rule.StringRule? && k.rule.maxLength.Some? then JsNumber.NatToDecimal(k.rule.maxLength.value) else "")
        + " characters long"
    case NumberBase => " must be a number"
    case NumberInteger => " must be an integer"
    case NumberMin =>
      " must be greater than or equal to " + (if k.rule.IntegerRule? then JsNumber.NatToDecimal(k.rule.min) else "")
    case NumberMax =>
      " must be less than or equal to " + (if k.rule.IntegerRule? then JsNumber.NatToDecimal(k.rule.max) else "")
    case ObjectBase => " must be of type object"
  }

  /** The key's custom message for the code, else Joi's default. */
  function Message(k: Key, code: Code, value: string): string
  {
    if code in k.messages then k.messages[code] else DefaultMessage(k, code, value)
  }

  /** What one key yields: the converted value (absent when the field is
      absent) and its error messages in rule order. */
  datatype FieldOutcome = FieldOutcome(value: Option<Json>, errors: seq<string>)

  /** The string after Joi's conversions: upper-casing, then trimming. */
  function Converted(rule: Rule, s: string): string
    requires rule.StringRule?
  {
    var upper := if rule.uppercase then ToUpperCase(s) else s;
    if rule.trim then Trim(upper) else upper
  }

  /** A present string value: converted, refused when empty, then checked
      against each rule of the key. */
  function CheckString(k: Key, s: string, isIp: string -> bool): (o: FieldOutcome)
    requires k.rule.StringRule?
    ensures o.value == Some(JString(Converted(k.rule, s)))
    ensures var v := Converted(k.rule, s);
            o.errors == [] <==>
              && v != ""
              && (k.rule.pattern.Some? ==> Matches(k.rule.pattern.value, v))
              && (k.rule.maxLength.Some? ==> |v| <= k.rule.maxLength.value)
              && (k.rule.ip ==> isIp(v))
    ensures 1 <= |o.errors| <= 3 || o.errors == []
  {
    var r := k.rule;
    var v := Converted(r, s);
    if v == "" then FieldOutcome(Some(JString(v)), [Message(k, StringEmpty, v)])
    else
      var errors :=
        (if r.pattern.Some? && !Matches(r.pattern.value, v) then [Message(k, StringPatternBase, v)] else [])
        + (if r.maxLength.Some? && |v| > r.maxLength.value then [Message(k, StringMax, v)] else [])
        + (if r.ip && !isIp(v) then [Message(k, StringIp, v)] else []);
      FieldOutcome(Some(JString(v)), errors)
  }

  /** A present number: checked for being an integer, then against both bounds. */
  function CheckInteger(k: Key, n: real): (o: FieldOutcome)
    requires k.rule.IntegerRule?
    ensures o.value == Some(JNumber(n))
    ensures o.errors == [] <==> n == n.Floor as real && k.rule.min as real <= n <= k.rule.max as real
  {
    var errors :=
      (if n != n.Floor as real then [Message(k, NumberInteger, "")] else [])
      + (if n < k.rule.min as real then [Message(k, NumberMin, "")] else [])
      + (if n > k.rule.max as real then [Message(k, NumberMax, "")] else []);
    FieldOutcome(Some(JNumber(n)), errors)
  }

  /** Joi's check of one key against the body's value for it. */
  function ValidateKey(k: Key, v: Option<Json>, isIp: string -> bool): (o: FieldOutcome)
    ensures v.None? ==> o.value.None?
    ensures v.Some? && o.errors == [] ==> o.value.Some?
  {
    match v
    case None => FieldOutcome(None, if k.required then [Message(k, AnyRequired, "")] else [])
    case Some(j) =>
      match k.rule
      case StringRule(_, _, _, _, _) =>
        if j.JString? then CheckString(k, j.s, isIp) else FieldOutcome(Some(j), [Message(k, StringBase, "")])
      case IntegerRule(_, _) =>
        if j.JNumber? then CheckInteger(k, j.n) else FieldOutcome(Some(j), [Message(k, NumberBase, "")])
      case ObjectRule =>
        FieldOutcome(Some(j), if j.JObject? then [] else [Message(k, ObjectBase, "")])
  }

  /** The names a schema declares. */
  function Names(keys: seq<Key>): set<string>
  {
    set k | k in keys :: k.name
  }

  function Details(field: string, messages: seq<string>): (ds: seq<ErrorDetail>)
    ensures |ds| == |messages|
    ensures forall i :: 0 <= i < |ds| ==> ds[i] == ErrorDetail(field, messages[i])
  {
    if messages == [] then [] else [ErrorDetail(field, messages[0])] + Details(field, messages[1..])
  }

  /** Every key checked in schema order; unknown fields of the body are never
      read, so they do not reach the output. */
  function ValidateKeys(keys: seq<Key>, body: map<string, Json>, isIp: string -> bool): (out: (map<string, Json>, seq<ErrorDetail>))
    ensures out.0.Keys <= Names(keys) * body.Keys
    ensures forall i :: 0 <= i < |out.1| ==> out.1[i].field in Names(keys)
  {
    if keys == [] then (map[], [])
    else
      var k := keys[0];
      var o := ValidateKey(k, Get(body, k.name), isIp);
      var rest := ValidateKeys(keys[1..], body, isIp);
      assert Names(keys) == {k.name} + Names(keys[1..]) by { assert keys == [k] + keys[1..]; }
      (if o.value.Some? then rest.0[k.name := o.value.value] else rest.0, Details(k.name, o.errors) + rest.1)
  }

  /** `schema.validate(body, { abortEarly: false, stripUnknown: true })`. */
  function Validate(schema: seq<Key>, body: map<string, Json>, isIp: string -> bool): (r: Result<map<string, Json>, seq<ErrorDetail>>)
    ensures r.Ok? ==> r.value.Keys <= Names(schema) * body.Keys
    ensures r.Err? ==> r.error != [] && forall i :: 0 <= i < |r.error| ==> r.error[i].field in Names(schema)
  {
    var (value, errors) := ValidateKeys(schema, body, isIp);
    if errors == [] then Ok(value) else Err(errors)
  }

  /** The middleware's decision: continue with the validated value, or reply
      400 `{success: false, message, errors}`. */
  datatype Gate = Proceed(validatedData: map<string, Json>) | Reject(status: int, message: string, errors: seq<ErrorDetail>)

  function ValidateRequest(schema: seq<Key>, body: map<string, Json>, isIp: string -> bool): (g: Gate)
    ensures g.Reject? ==> g.status == 400 && g.message == "Validation failed" && g.errors != []
    ensures g.Reject? <==> Validate(schema, body, isIp).Err?
    ensures g.Proceed? ==> g.validatedData == Validate(schema, body, isIp).value
  {
    match Validate(schema, body, isIp)
    case Ok(value) => Proceed(value)
    case Err(errors) => Reject(400, "Validation failed", errors)
  }

  // ---- The generic properties ----


  /** The names of the keys whose own check fails. */
  function FailingNames(keys: seq<Key>, body: map<string, Json>, isIp: string -> bool): set<string>
  {
    set k | k in keys && ValidateKey(k, Get(body, k.name), isIp).errors != [] :: k.name
  }

  function ErrorFields(errors: seq<ErrorDetail>): set<string>
  {
    set e | e in errors :: e.field
  }

  /** Errors are collected, not stopped at the first: the fields named in the
      error list are exactly the keys whose check fails. */
  lemma {:induction false} ErrorsNameEveryFailingKey(keys: seq<Key>, body: map<string, Json>, isIp: string -> bool)
    ensures ErrorFields(ValidateKeys(keys, body, isIp).1) == FailingNames(keys, body, isIp)
  {
    if keys != [] {
      var k := keys[0];
      var o := ValidateKey(k, Get(body, k.name), isIp);
      ErrorsNameEveryFailingKey(keys[1..], body, isIp);
      ErrorFieldsAppend(Details(k.name, o.errors), ValidateKeys(keys[1..], body, isIp).1);
      DetailsFields(k.name, o.errors);
      FailingNamesFirst(keys, body, isIp);
    }
  }

  lemma ErrorFieldsAppend(a: seq<ErrorDetail>, b: seq<ErrorDetail>)
    ensures ErrorFields(a + b) == ErrorFields(a) + ErrorFields(b)
  {
  }

  lemma DetailsFields(field: string, messages: seq<string>)
    ensures ErrorFields(Details(field, messages)) == if messages == [] then {} else {field}
  {
    var ds := Details(field, messages);
    if messages != [] {
      assert ds[0].field == field;
    }
  }

  lemma FailingNamesFirst(keys: seq<Key>, body: map<string, Json>, isIp: string -> bool)
    requires keys != []
    ensures var o := ValidateKey(keys[0], Get(body, keys[0].name), isIp);
            FailingNames(keys, body, isIp)
              == (if o.errors == [] then {} else {keys[0].name}) + FailingNames(keys[1..], body, isIp)
  {
    assert keys == [keys[0]] + keys[1..];
  }

  /** Unknown fields are stripped: when nothing fails, the output holds
      exactly the schema's keys that the body carries. */
  lemma {:induction false} OutputHoldsOnlySchemaKeys(keys: seq<Key>, body: map<string, Json>, isIp: string -> bool)
    requires ValidateKeys(keys, body, isIp).1 == []
    ensures ValidateKeys(keys, body, isIp).0.Keys == Names(keys) * body.Keys
  {
    if keys != [] {
      var k := keys[0];
      OutputHoldsOnlySchemaKeys(keys[1..], body, isIp);
      assert keys == [k] + keys[1..];
      assert Names(keys) == {k.name} + Names(keys[1..]);
    }
  }

  /** A body is accepted exactly when no key's own check fails. */
  lemma AcceptedIffNoKeyFails(schema: seq<Key>, body: map<string, Json>, isIp: string -> bool)
    ensures Validate(schema, body, isIp).Ok? <==> FailingNames(schema, body, isIp) == {}
  {
    ErrorsNameEveryFailingKey(schema, body, isIp);
    var errors := ValidateKeys(schema, body, isIp).1;
    if errors != [] {
      assert errors[0].field in ErrorFields(errors);
    }
  }

  // ---- The four schemas ----

  /** A required key with only a pattern (no empty match) accepts exactly a
      string whose converted form matches, outputs that converted form, and
      refuses anything else with exactly one message. */
  lemma PatternKeyOutcome(k: Key, v: Option<Json>, isIp: string -> bool)
    requires k.rule.StringRule? && k.rule.pattern.Some? && k.rule.maxLength.None? && !k.rule.ip && k.required
    requires !Matches(k.rule.pattern.value, "")
    ensures var o := ValidateKey(k, v, isIp);
            && (o.errors == [] <==> v.Some? && v.value.JString? && Matches(k.rule.pattern.value, Converted(k.rule, v.value.s)))
            && (o.errors == [] ==> o.value == Some(JString(Converted(k.rule, v.value.s))))
            && |o.errors| <= 1
  {
  }

  /** A present string whose converted form is non-empty and does not match
      draws the key's pattern message. */
  lemma PatternKeyMessage(k: Key, s: string, isIp: string -> bool)
    requires k.rule.StringRule? && k.rule.pattern.Some? && k.rule.maxLength.None? && !k.rule.ip
    requires Converted(k.rule, s) != "" && !Matches(k.rule.pattern.value, Converted(k.rule, s))
    ensures ValidateKey(k, Some(JString(s)), isIp).errors == [Message(k, StringPatternBase, Converted(k.rule, s))]
  {
  }

  /** A one-key schema collects that key's value and messages. */
  lemma OneKey(k: Key, body: map<string, Json>, isIp: string -> bool)
    ensures var o := ValidateKey(k, Get(body, k.name), isIp);
            ValidateKeys([k], body, isIp)
              == (if o.value.Some? then map[k.name := o.value.value] else map[], Details(k.name, o.errors))
  {
    var o := ValidateKey(k, Get(body, k.name), isIp);
    assert [k][1..] == [];
    assert Details(k.name, o.errors) + [] == Details(k.name, o.errors);
  }

  /** A two-key schema collects both keys' values and messages. */
  lemma TwoKeys(k0: Key, k1: Key, body: map<string, Json>, isIp: string -> bool)
    ensures var o0 := ValidateKey(k0, Get(body, k0.name), isIp);
            var o1 := ValidateKey(k1, Get(body, k1.name), isIp);
            var rest := if o1.value.Some? then map[k1.name := o1.value.value] else map[];
            ValidateKeys([k0, k1], body, isIp)
              == (if o0.value.Some? then rest[k0.name := o0.value.value] else rest,
                  Details(k0.name, o0.errors) + Details(k1.name, o1.errors))
  {
    assert [k0, k1][1..] == [k1];
    OneKey(k1, body, isIp);
  }

  /** The `aadhaar` schema accepts exactly a string of 12 digits, and passes
      it on unchanged and alone. */
  lemma AadhaarSchemaAccepts(body: map<string, Json>, isIp: string -> bool)
    ensures Validate(AadhaarSchema, body, isIp).Ok? <==>
              "aadhaarNumber" in body && body["aadhaarNumber"].JString? && IsTwelveDigits(body["aadhaarNumber"].s)
    ensures Validate(AadhaarSchema, body, isIp).Ok? ==>
              Validate(AadhaarSchema, body, isIp).value == map["aadhaarNumber" := body["aadhaarNumber"]]
  {
    var k := AadhaarSchema[0];
    PatternKeyOutcome(k, Get(body, k.name), isIp);
    assert AadhaarSchema == [k];
    OneKey(k, body, isIp);
  }

  /** A present string that is not 12 digits draws exactly the custom
      message "Aadhaar number must be 12 digits" (an empty string draws
      Joi's empty-string message instead). */
  lemma AadhaarSchemaMessage(body: map<string, Json>, isIp: string -> bool)
    requires "aadhaarNumber" in body && body["aadhaarNumber"].JString?
    requires body["aadhaarNumber"].s != "" && !IsTwelveDigits(body["aadhaarNumber"].s)
    ensures Validate(AadhaarSchema, body, isIp) == Err([ErrorDetail("aadhaarNumber", "Aadhaar number must be 12 digits")])
  {
    var k := AadhaarSchema[0];
    PatternKeyMessage(k, body["aadhaarNumber"].s, isIp);
    var o := ValidateKey(k, Get(body, k.name), isIp);
    assert o.errors == ["Aadhaar number must be 12 digits"];
    assert AadhaarSchema[1..] == [];
    assert ValidateKeys(AadhaarSchema[1..], body, isIp) == (map[], []);
    assert Details(k.name, o.errors) + [] == Details(k.name, o.errors);
    assert ValidateKeys(AadhaarSchema, body, isIp).1 == Details(k.name, o.errors);
    assert Details(k.name, o.errors) == [ErrorDetail("aadhaarNumber", "Aadhaar number must be 12 digits")];
  }

  /** Eleven digits, thirteen digits, and a trailing letter are all refused. */
  lemma AadhaarSchemaExamples(isIp: string -> bool)
    ensures Validate(AadhaarSchema, map["aadhaarNumber" := JString("123456789012")], isIp).Ok?
    ensures Validate(AadhaarSchema, map["aadhaarNumber" := JString("12345678901")], isIp).Err?
    ensures Validate(AadhaarSchema, map["aadhaarNumber" := JString("1234567890123")], isIp).Err?
    ensures Validate(AadhaarSchema, map["aadhaarNumber" := JString("12345678901a")], isIp).Err?
  {
    AadhaarStringOutcome("123456789012", isIp);
    AadhaarStringOutcome("12345678901", isIp);
    AadhaarStringOutcome("1234567890123", isIp);
    AadhaarStringOutcome("12345678901a", isIp);
    TwelveDigitExamples();
  }

  lemma TwelveDigitExamples()
    ensures IsTwelveDigits("123456789012")
    ensures !IsTwelveDigits("12345678901") && !IsTwelveDigits("1234567890123")
    ensures !IsTwelveDigits("12345678901a")
  {
    assert !IsDigit("12345678901a"[11]);
  }

  /** The `aadhaar` schema on a body holding just the string `s`. */
  lemma AadhaarStringOutcome(s: string, isIp: string -> bool)
    ensures Validate(AadhaarSchema, map["aadhaarNumber" := JString(s)], isIp).Ok? <==> IsTwelveDigits(s)
  {
    AadhaarSchemaAccepts(map["aadhaarNumber" := JString(s)], isIp);
  }

  /** The `otp` schema accepts exactly a 6-digit code together with a
      12-digit Aadhaar number. */
  lemma OtpSchemaAccepts(body: map<string, Json>, isIp: string -> bool)
    ensures Validate(OtpSchema, body, isIp).Ok? <==>
              && "otpCode" in body && body["otpCode"].JString? && IsSixDigits(body["otpCode"].s)
              && "aadhaarNumber" in body && body["aadhaarNumber"].JString? && IsTwelveDigits(body["aadhaarNumber"].s)
    ensures Validate(OtpSchema, body, isIp).Ok? ==>
              Validate(OtpSchema, body, isIp).value
                == map["otpCode" := body["otpCode"], "aadhaarNumber" := body["aadhaarNumber"]]
  {
    var k0 := OtpSchema[0];
    var k1 := OtpSchema[1];
    UnconvertedKeyOutcome(k0, Get(body, "otpCode"), isIp);
    UnconvertedKeyOutcome(k1, Get(body, "aadhaarNumber"), isIp);
    assert OtpSchema == [k0, k1];
    TwoKeys(k0, k1, body, isIp);
    var o0 := ValidateKey(k0, Get(body, k0.name), isIp);
    var o1 := ValidateKey(k1, Get(body, k1.name), isIp);
    assert k0.name == "otpCode" && k1.name == "aadhaarNumber";
    assert |Details(k0.name, o0.errors) + Details(k1.name, o1.errors)| == |o0.errors| + |o1.errors|;
    if o0.errors == [] && o1.errors == [] {
      SwapTwoKeys("otpCode", "aadhaarNumber", o0.value.value, o1.value.value);
    }
  }

  /** A required pattern key without conversions passes exactly the present
      strings that match, and hands them on unchanged. */
  lemma UnconvertedKeyOutcome(k: Key, v: Option<Json>, isIp: string -> bool)
    requires k.rule.StringRule? && k.rule.pattern.Some? && k.rule.maxLength.None? && !k.rule.ip && k.required
    requires !k.rule.uppercase && !k.rule.trim && !Matches(k.rule.pattern.value, "")
    ensures var o := ValidateKey(k, v, isIp);
            && (o.errors == [] <==> v.Some? && v.value.JString? && Matches(k.rule.pattern.value, v.value.s))
            && (o.errors == [] ==> o.value == v)
  {
    PatternKeyOutcome(k, v, isIp);
  }

  /** The `pan` schema accepts a PAN of 5 letters, 4 digits and 1 letter in
      either case and a name that, trimmed, is 2 to 100 letters or blanks;
      it outputs the PAN upper-cased and the name trimmed. */
  lemma PanSchemaAccepts(body: map<string, Json>, isIp: string -> bool)
    ensures Validate(PanSchema, body, isIp).Ok? <==>
              && "panNumber" in body && body["panNumber"].JString? && IsPanShape(body["panNumber"].s)
              && "nameAsPerPan" in body && body["nameAsPerPan"].JString? && IsNameShape(Trim(body["nameAsPerPan"].s))
    ensures Validate(PanSchema, body, isIp).Ok? ==>
              Validate(PanSchema, body, isIp).value
                == map["panNumber" := JString(ToUpperCase(body["panNumber"].s)),
                       "nameAsPerPan" := JString(Trim(body["nameAsPerPan"].s))]
  {
    var k0 := PanSchema[0];
    var k1 := PanSchema[1];
    PanKeyOutcome(Get(body, "panNumber"), isIp);
    NameKeyOutcome(Get(body, "nameAsPerPan"), isIp);
    assert PanSchema == [k0, k1];
    TwoKeys(k0, k1, body, isIp);
    var o0 := ValidateKey(k0, Get(body, k0.name), isIp);
    var o1 := ValidateKey(k1, Get(body, k1.name), isIp);
    assert k0.name == "panNumber" && k1.name == "nameAsPerPan";
    assert |Details(k0.name, o0.errors) + Details(k1.name, o1.errors)| == |o0.errors| + |o1.errors|;
    if o0.errors == [] && o1.errors == [] {
      SwapTwoKeys("panNumber", "nameAsPerPan", o0.value.value, o1.value.value);
    }
  }

  lemma SwapTwoKeys(a: string, b: string, x: Json, y: Json)
    requires a != b
    ensures map[b := y][a := x] == map[a := x, b := y]
  {
  }

  /** The `panNumber` key: a string that is a PAN once upper-cased. */
  lemma PanKeyOutcome(v: Option<Json>, isIp: string -> bool)
    ensures var o := ValidateKey(PanSchema[0], v, isIp);
            && (o.errors == [] <==> v.Some? && v.value.JString? && IsPanShape(v.value.s))
            && (o.errors == [] ==> o.value == Some(JString(ToUpperCase(v.value.s))))
  {
    var k := PanSchema[0];
    PatternKeyOutcome(k, v, isIp);
    if v.Some? && v.value.JString? {
      PanShapeUpperCase(v.value.s);
      assert Converted(k.rule, v.value.s) == ToUpperCase(v.value.s);
    }
  }

  /** The `nameAsPerPan` key: a string that is a name once trimmed. */
  lemma NameKeyOutcome(v: Option<Json>, isIp: string -> bool)
    ensures var o := ValidateKey(PanSchema[1], v, isIp);
            && (o.errors == [] <==> v.Some? && v.value.JString? && IsNameShape(Trim(v.value.s)))
            && (o.errors == [] ==> o.value == Some(JString(Trim(v.value.s))))
  {
    var k := PanSchema[1];
    PatternKeyOutcome(k, v, isIp);
    if v.Some? && v.value.JString? {
      assert Converted(k.rule, v.value.s) == Trim(v.value.s);
    }
  }

  /** The trimmed form of a string keeps every non-blank character. */
  lemma TrimKeepsNonBlank(s: string, i: nat)
    requires i < |s| && !IsWhitespace(s[i])
    ensures exists j :: 0 <= j < |Trim(s)| && Trim(s)[j] == s[i]
  {
    var lo := TrimIsSlice(s);
    assert lo <= i < lo + |Trim(s)|;
    assert Trim(s)[i - lo] == s[i];
  }

  /** A name with a digit in it is refused with "Name must contain only
      letters and spaces". */
  lemma NameWithDigitRefused(body: map<string, Json>, isIp: string -> bool, i: nat)
    requires "nameAsPerPan" in body && body["nameAsPerPan"].JString?
    requires i < |body["nameAsPerPan"].s| && IsDigit(body["nameAsPerPan"].s[i])
    ensures Validate(PanSchema, body, isIp).Err?
    ensures ErrorDetail("nameAsPerPan", "Name must contain only letters and spaces") in Validate(PanSchema, body, isIp).error
  {
    var s := body["nameAsPerPan"].s;
    var k0 := PanSchema[0];
    var k1 := PanSchema[1];
    TrimKeepsNonBlank(s, i);
    var j :| 0 <= j < |Trim(s)| && Trim(s)[j] == s[i];
    assert !IsNameChar(Trim(s)[j]);
    assert !IsNameShape(Trim(s));
    assert Converted(k1.rule, s) == Trim(s);
    PatternKeyMessage(k1, s, isIp);
    var o0 := ValidateKey(k0, Get(body, k0.name), isIp);
    var o1 := ValidateKey(k1, Get(body, k1.name), isIp);
    assert o1.errors == ["Name must contain only letters and spaces"];
    assert PanSchema == [k0, k1];
    TwoKeys(k0, k1, body, isIp);
    var errs := ValidateKeys(PanSchema, body, isIp).1;
    assert errs == Details(k0.name, o0.errors) + Details(k1.name, o1.errors);
    assert errs[|o0.errors|] == ErrorDetail("nameAsPerPan", "Name must contain only letters and spaces");
  }

  /** The `formSubmission` schema accepts exactly a body whose step is an
      integer from 1 to 2 and whose form data is an object, and whose
      optional IP address and user agent, when present, are non-empty
      strings that are an IP address and at most 500 characters long. */
  lemma FormSubmissionSchemaAccepts(body: map<string, Json>, isIp: string -> bool)
    ensures Validate(FormSubmissionSchema, body, isIp).Ok? <==>
              && "step" in body && body["step"].JNumber?
              && (var n := body["step"].n; n == n.Floor as real && 1.0 <= n <= 2.0)
              && "formData" in body && body["formData"].JObject?
              && ("ipAddress" in body ==>
                    body["ipAddress"].JString? && body["ipAddress"].s != "" && isIp(body["ipAddress"].s))
              && ("userAgent" in body ==>
                    body["userAgent"].JString? && body["userAgent"].s != "" && |body["userAgent"].s| <= 500)
  {
    var k0, k1, k2, k3 := FormSubmissionSchema[0], FormSubmissionSchema[1], FormSubmissionSchema[2], FormSubmissionSchema[3];
    assert FormSubmissionSchema == [k0, k1, k2, k3];
    FourKeys(k0, k1, k2, k3, body, isIp);
    StepKeyOutcome(Get(body, "step"), isIp);
    FormDataKeyOutcome(Get(body, "formData"), isIp);
    IpAddressKeyOutcome(Get(body, "ipAddress"), isIp);
    UserAgentKeyOutcome(Get(body, "userAgent"), isIp);
  }

  /** A four-key schema accepts exactly when each of the four keys passes. */
  lemma FourKeys(k0: Key, k1: Key, k2: Key, k3: Key, body: map<string, Json>, isIp: string -> bool)
    ensures Validate([k0, k1, k2, k3], body, isIp).Ok? <==>
              && ValidateKey(k0, Get(body, k0.name), isIp).errors == []
              && ValidateKey(k1, Get(body, k1.name), isIp).errors == []
              && ValidateKey(k2, Get(body, k2.name), isIp).errors == []
              && ValidateKey(k3, Get(body, k3.name), isIp).errors == []
  {
    var keys := [k0, k1, k2, k3];
    NoErrorsIffEveryKeyPasses(keys, body, isIp);
    assert keys[0] == k0 && keys[1] == k1 && keys[2] == k2 && keys[3] == k3;
  }

  /** No error is reported exactly when every key passes its own check. */
  lemma {:induction false} NoErrorsIffEveryKeyPasses(keys: seq<Key>, body: map<string, Json>, isIp: string -> bool)
    ensures ValidateKeys(keys, body, isIp).1 == [] <==>
              forall i :: 0 <= i < |keys| ==> ValidateKey(keys[i], Get(body, keys[i].name), isIp).errors == []
  {
    if keys != [] {
      NoErrorsIffEveryKeyPasses(keys[1..], body, isIp);
      var o := ValidateKey(keys[0], Get(body, keys[0].name), isIp);
      assert |Details(keys[0].name, o.errors)| == |o.errors|;
      forall i | 1 <= i < |keys|
        ensures keys[i] == keys[1..][i - 1]
      {
      }
    }
  }

  /** `step`: a required integer from 1 to 2. */
  lemma StepKeyOutcome(v: Option<Json>, isIp: string -> bool)
    ensures ValidateKey(FormSubmissionSchema[0], v, isIp).errors == [] <==>
              v.Some? && v.value.JNumber? && v.value.n == v.value.n.Floor as real && 1.0 <= v.value.n <= 2.0
  {
    var k := FormSubmissionSchema[0];
    assert k.rule == IntegerRule(1, 2) && k.required;
  }

  /** `formData`: a required object. */
  lemma FormDataKeyOutcome(v: Option<Json>, isIp: string -> bool)
    ensures ValidateKey(FormSubmissionSchema[1], v, isIp).errors == [] <==> v.Some? && v.value.JObject?
  {
    var k := FormSubmissionSchema[1];
    assert k.rule == ObjectRule && k.required;
  }

  /** `ipAddress`: optional, and otherwise a non-empty string that is an IP address. */
  lemma IpAddressKeyOutcome(v: Option<Json>, isIp: string -> bool)
    ensures ValidateKey(FormSubmissionSchema[2], v, isIp).errors == [] <==>
              v.None? || (v.value.JString? && v.value.s != "" && isIp(v.value.s))
  {
    var k := FormSubmissionSchema[2];
    assert k.rule == StringRule(None, false, false, true, None) && !k.required;
    if v.Some? && v.value.JString? {
      assert Converted(k.rule, v.value.s) == v.value.s;
    }
  }

  /** `userAgent`: optional, and otherwise a non-empty string of at most 500 characters. */
  lemma UserAgentKeyOutcome(v: Option<Json>, isIp: string -> bool)
    ensures ValidateKey(FormSubmissionSchema[3], v, isIp).errors == [] <==>
              v.None? || (v.value.JString? && v.value.s != "" && |v.value.s| <= 500)
  {
    var k := FormSubmissionSchema[3];
    assert k.rule == StringRule(None, false, false, false, Some(500)) && !k.required;
    if v.Some? && v.value.JString? {
      assert Converted(k.rule, v.value.s) == v.value.s;
    }
  }
}
