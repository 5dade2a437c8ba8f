# Udyam registration: verified model of the verification core

This project models the core of a two-step business-registration wizard in Dafny, and proves properties of the model.

- **Step 1** verifies an Aadhaar number with a one-time password (OTP).
- **Step 2** verifies a PAN (permanent account number) and the name printed on the PAN card.

The model covers the backend OTP table, the registrant table, and the progress view computed from it. It also covers the request validation of both the server (Joi) and the browser (zod), and the browser's formatting helpers.

| file | module | models |
|---|---|---|
| `wrappers.dfy` | `Wrappers` | `Option` and `Result` |
| `js_string.dfy` | `JsString` | JavaScript string operations the core uses: `\s`, `trim`, `toUpperCase` (ASCII letters), `replace(/\s/g, "")`, `replace(/\D/g, "")` |
| `js_number.dfy` | `JsNumber` | `toString` of a non-negative integer, `Number.parseInt` without a radix, and `parseInt(env) \|\| default` |
| `json.dfy` | `Json` | JSON values, JavaScript truthiness, property reads |
| `patterns.dfy` | `Patterns` | the regular expressions, written as predicates on strings |
| `otp_service.dfy` | `Otp` | `otpService.js`: pure transition functions `Issue` / `Verify`, the invariants of the OTP table, and the class `OtpService` |
| `form_controller.dfy` | `FormFlow` | `formController.js`: the registrant table as a map from id to record, its invariants, and the class `FormController` |
| `backend_validation.dfy` | `BackendValidation` | `validation.js`: an interpreter for the four Joi schemas, and `validateRequest` |
| `frontend_utils.dfy` | `FrontendUtils` | `utils.ts`: `formatAadhaar`, `formatPan`, `maskAadhaar`, `validateStep`, `getStepTitle` |
| `frontend_validation.dfy` | `FrontendValidation` | `validation.ts`: an interpreter for the three zod schemas |
| `cross_checks.dfy` | `CrossChecks` | how browser and server checks relate, and what server validation guarantees to the handlers |

## How the model is built

**The two database tables are class fields.**
- The OTP table is `OtpService.records`, a `seq` whose index is the record id.
- The registrant table is `FormController.users`, a `map` from id to record, plus an id counter.
- Each method's postcondition equates the new state with a pure function of the old state: `Otp.Issue`, `Otp.Verify`, `FormFlow.FindOrCreateByAadhaar`, `FormFlow.UpsertByPan` and `FormFlow.MarkAadhaarVerified`.
- The lemmas about the tables are stated over those functions.

**`createOtpVerification` keeps its loop.** Its `updateMany` over the table is a `while` loop with invariants. The loop is followed by the insert.

**Things outside the program become parameters.**
- The clock is a parameter `now` (milliseconds).
- `Math.random()` is a parameter `rand` in [0, 1).
- `process.env` values are `Option<string>` parameters.
- bcrypt's hash-and-compare is equality between the submitted code and the issued code.
- Joi's `ip()` check is a function parameter `isIp`.

**Both validators are small schema interpreters.** Each schema is a constant value. The lemmas state, for each schema, exactly which bodies it accepts and what output it produces.

### Behaviour the model makes explicit

- **The cap boundary.** The cap check comes before the increment, so a code is compared `maxAttempts` times in all. `Otp.CorrectCodeWithinCapAccepted` shows that the correct code still works after `maxAttempts - 1` wrong tries. `Otp.CapRefusesCorrectCode` shows that after `maxAttempts` wrong tries even the correct code is refused without being compared.
- **No registration can complete.** Step 1 creates or finds a registrant by Aadhaar number. Step 2 creates or finds a registrant by PAN. No handler ever puts both numbers on one row, so step 2 never acts on an Aadhaar-verified row. `FormFlow.NoRegistrantCompletes` proves that `isComplete` is false, and the current step is never 3, in every table the handlers can build. The model keeps the code's behaviour.
- **The PAN check never refuses on the route.** Whatever passes the server's `pan` schema also passes `simulatePanVerification`, so the 400 "PAN verification failed" branch is unreachable there (`CrossChecks.ValidatedPanPassesCheck`).
- **Browser and server disagree on short names.** The browser measures the name before trimming it; the server trims first. `" a"` passes the browser and is sent as `"a"`, which the server refuses (`CrossChecks.ShortNameRefusedOnlyByServer`).
- **The OTP code is renamed when the Aadhaar step hands it on.** The browser's OTP form names the code `otpCode`; the Aadhaar step hands it on as `otp`, the key `validateStep(1, …)` would read. No browser code calls `validateStep`; if it were applied, the handed-on data would pass and the form's raw output would not (`CrossChecks.OtpStepDataPassesStepCheck`).
- **The server's empty-string message.** With Joi's conversion on, an empty string draws Joi's empty-string message (`"aadhaarNumber" is not allowed to be empty`), not the custom "required" message. A test at `backend/tests/validation.test.js:37-43` expects the word "required" here. The model follows Joi's rule order (see `BackendValidation.AadhaarSchemaMessage`).

## Model

| member | source | states |
|---|---|---|
| JsString.ToUpperCase | frontend/src/lib/utils.ts:21 | every character is mapped by the ASCII upper-case map, the length is kept, no lower-case ASCII letter remains |
| JsString.ToUpperCaseIdempotent | frontend/src/lib/utils.ts:21 | upper-casing twice equals upper-casing once |
| JsString.Trim | frontend/src/lib/validation.ts:34 | the result is no longer than the input and neither starts nor ends with whitespace |
| JsString.TrimIsSlice | backend/src/utils/validation.js:39 | the trimmed string is a contiguous slice of the input and everything cut off on either side is whitespace |
| JsString.TrimIdempotent | backend/src/utils/validation.js:39 | trimming twice equals trimming once |
| JsString.RemoveWhitespace | frontend/src/lib/utils.ts:21 | the result has no whitespace, is no longer than the input, and equals the input when it had none |
| JsString.RemoveWhitespaceAppend | frontend/src/lib/utils.ts:21 | removing whitespace distributes over concatenation |
| JsString.KeepDigits | frontend/src/lib/utils.ts:10 | the result is all digits, no longer than the input, and is the input when it was all digits |
| JsString.KeepDigitsAppend | frontend/src/lib/utils.ts:10 | keeping digits distributes over concatenation |
| JsNumber.NatToDecimal | backend/src/services/otpService.js:13 | `toString` of a natural number: at least one digit, all digits, no leading zero |
| JsNumber.DecimalRoundTrip | backend/src/services/otpService.js:13 | reading back the decimal string gives the number |
| JsNumber.DecimalLength | backend/src/services/otpService.js:13 | a number in [10^k, 10^(k+1)) has exactly k+1 digits |
| JsNumber.ParseIntOfDecimal | backend/src/services/otpService.js:7-8 | `parseInt` of a natural number's decimal string gives that number |
| JsNumber.EnvIntOrConfigured | backend/src/services/otpService.js:7-8 | a configured positive number overrides the default |
| JsNumber.EnvIntOrFallsBack | backend/src/services/otpService.js:7-8 | an unset variable, or one that does not start with a number, gives the default |
| JsNumber.EnvIntOrZero | backend/src/services/otpService.js:7-8 | "0" and "-0" give the default, because zero is falsy |
| Patterns.PanShapeUpperCase | backend/src/utils/validation.js:29-31 | upper-casing neither creates nor destroys a PAN shape, and the upper-cased PAN has no lower-case letter |
| Patterns.TrimKeepsNameChars | backend/src/utils/validation.js:37-39 | trimming a string of letters and whitespace leaves only letters and whitespace |
| Otp.GenerateOtp | backend/src/services/otpService.js:12-14 | for every random value in [0, 1) the code is six digits without a leading zero, of value in [100000, 999999] |
| Otp.ActiveIndex | backend/src/services/otpService.js:71-83 | the lookup returns an active (unverified, unexpired) row of the pair and no later row is active; `None` only when no row is active |
| Otp.Verify | backend/src/services/otpService.js:70-129 | no active row: "No valid OTP…" and the table is unchanged; at the cap: "Maximum OTP attempts exceeded" and unchanged; otherwise attempts +1 on that row only, success exactly when the code matches, which sets it verified at `now`; a failure verifies no row |
| Otp.InvalidatePair | backend/src/services/otpService.js:31-41 | the `updateMany`: the table keeps its length, no row of the pair stays unverified, rows of other pairs and verified rows are unchanged, and each newly closed row records `now` and keeps its code and attempts |
| Otp.IssueLeavesOnlyNewOpen | backend/src/services/otpService.js:30-55 | after issuing, the new row is the pair's only unverified row; it has id = position, the code, 0 attempts, the configured cap, and expiry = now + minutes·60000 |
| Otp.IssueFrame | backend/src/services/otpService.js:33-43 | issuing leaves rows of other users or purposes, and already verified rows, unchanged |
| Otp.IssueThenLookup | backend/src/services/otpService.js:46-83 | right after issuing, verification for the pair acts on the new row until it expires, and finds nothing after that |
| Otp.NoneActive | backend/src/services/otpService.js:71-90 | when every row of the pair is verified, the lookup finds nothing |
| Otp.IssuePreservesWellFormed | backend/src/services/otpService.js:27-55 | issuing preserves the table invariant: ids are positions, attempts are within the cap, at most one unverified row per pair |
| Otp.ActiveIsOnlyOpen | backend/src/services/otpService.js:71-83 | under the invariant, the row found is the pair's only unverified row, so "newest" is unambiguous |
| Otp.VerifyPreservesWellFormed | backend/src/services/otpService.js:92-128 | verification preserves the table invariant |
| Otp.AttemptsNeverExceedCap | backend/src/services/otpService.js:93-104 | after any verification of a well-formed table, no row's attempts exceed its cap |
| Otp.AcceptedCodeIsSpent | backend/src/services/otpService.js:109-117 | after a successful verification, every later verification of the pair, with any code at any time, fails with "No valid OTP…" and changes nothing |
| Otp.OnlyOpenIsFound | backend/src/services/otpService.js:71-83 | when a row is the pair's only unverified row and has not expired, the lookup finds it |
| Otp.WrongAttemptsCount | backend/src/services/otpService.js:100-128 | each wrong attempt before expiry and within the cap adds exactly one attempt and leaves the row the pair's open row |
| Otp.CorrectCodeWithinCapAccepted | backend/src/services/otpService.js:92-122 | after fewer than `maxAttempts` wrong tries, the correct code before expiry is accepted with "OTP verified successfully" |
| Otp.CapRefusesCorrectCode | backend/src/services/otpService.js:92-98 | after `maxAttempts` wrong tries, even the correct code before expiry is refused with "Maximum OTP attempts exceeded" and nothing changes |
| Otp.OtpService.constructor | backend/src/services/otpService.js:6-9 | expiry minutes and attempt cap are `parseInt(env) \|\| 10` and `parseInt(env) \|\| 3`; the table starts empty and well formed |
| Otp.OtpService.CreateOtpVerification | backend/src/services/otpService.js:27-67 | the new table is `Issue` of the old one with the generated code; the reply carries the new id and the expiry, and the code only in development mode; the invariant is kept |
| Otp.OtpService.VerifyOtpCode | backend/src/services/otpService.js:70-129 | the reply and the new table are exactly `Verify` of the old table; the invariant is kept |
| FormFlow.GetCurrentStep | backend/src/controllers/formController.js:312-316 | step 1 iff Aadhaar is unverified, 2 iff Aadhaar is verified and PAN is not, 3 iff `isComplete` |
| FormFlow.PanCheckCases | backend/src/controllers/formController.js:318-327 | the PAN check gives the same verdict for a PAN and its upper-cased form, refuses a PAN with a leading blank (nothing is trimmed), and refuses every name shorter than 2 or longer than 100 characters |
| FormFlow.FindBy | backend/src/controllers/formController.js:12-14 | `findUnique` on the Aadhaar number (or, with the PAN key, on the PAN): an id below the counter whose row holds the value, or `None` exactly when no such row exists |
| FormFlow.FindOrCreateByAadhaar | backend/src/controllers/formController.js:11-23 | the returned row holds the number; the table gains at most that id and no other row changes; when the number was found nothing changes; otherwise the counter's id is used, with no PAN and no flag set |
| FormFlow.UpsertByPan | backend/src/controllers/formController.js:150-175 | the returned row holds the PAN, the name, the PAN flag and `now`; no other row changes; a found row keeps its Aadhaar number and flag; a created row takes the counter's id and has no Aadhaar data |
| FormFlow.MarkAadhaarVerified | backend/src/controllers/formController.js:98-105 | the same ids; only the given row changes: it becomes Aadhaar-verified at `now` and keeps its numbers and its PAN flag |
| FormFlow.FindOrCreateFindsOrAdds | backend/src/controllers/formController.js:11-23 | the returned row is the one row holding the number; a row is created only when none did; existing rows are unchanged; the table invariant is kept |
| FormFlow.FindOrCreateIdempotent | backend/src/controllers/formController.js:11-23 | repeating step 1 with the same number finds the same row and creates nothing |
| FormFlow.UpsertByPanEffect | backend/src/controllers/formController.js:150-175 | the row holding the PAN gets the name, the PAN flag and the time; a row is created only when none held it; no other row changes |
| FormFlow.UpsertByPanLeavesAadhaar | backend/src/controllers/formController.js:150-175 | the upsert never changes an Aadhaar number or flag; a created row is not Aadhaar-verified; flags only rise |
| FormFlow.UpsertByPanKeepsWellFormed | backend/src/controllers/formController.js:150-175 | the upsert keeps the table invariant, in particular PAN uniqueness |
| FormFlow.UpsertByPanIdempotent | backend/src/controllers/formController.js:150-175 | repeating step 2 with the same PAN and name at any later time acts on the same row, creates no second registrant, keeps the counter, and changes only that row's `panVerifiedAt`; with the same time it changes nothing |
| FormFlow.MarkAadhaarVerifiedEffect | backend/src/controllers/formController.js:98-105 | marking a row Aadhaar-verified keeps the invariant, moves the row past step 1, leaves its PAN flag, and flags only rise |
| FormFlow.NoRegistrantCompletes | backend/src/controllers/formController.js:150-197 | in every table these handlers build, no registrant is complete and the current step is never 3 |
| FormFlow.SubmissionCount | backend/src/controllers/formController.js:287 | counts the submissions whose `userId` is the given one: zero exactly when none is that user's, all of them exactly when every one is; what one more submission adds is `SubmissionCountAppend`, and `GetFormProgress` reports this count |
| FormFlow.SubmissionCountAppend | backend/src/controllers/formController.js:211-220 | a new submission counts for its own user and for no one else |
| FormFlow.FormController.constructor | backend/src/controllers/formController.js:5 | empty tables over a well-formed OTP service |
| FormFlow.FormController.GenerateAadhaarOtp | backend/src/controllers/formController.js:7-56 | the registrant table is find-or-create by Aadhaar; the OTP table is `Issue` for that id; the reply carries id, expiry and the development-only code; one audit entry is appended |
| FormFlow.FormController.VerifyAadhaarOtp | backend/src/controllers/formController.js:59-132 | unknown number: 404, nothing changes; OTP failure: 400 with the service's message and the users unchanged; success: the row is marked Aadhaar-verified and the reply reports `nextStep` 2 |
| FormFlow.FormController.VerifyPan | backend/src/controllers/formController.js:135-203 | a failed PAN check gives 400 and changes no user; otherwise the table is the PAN upsert, and the reply carries the id, the name and `isComplete`; OTP records are untouched |
| FormFlow.FormController.SubmitForm | backend/src/controllers/formController.js:206-248 | one COMPLETED submission is appended with the next id; the reply returns that id, the step and the status |
| FormFlow.FormController.GetFormProgress | backend/src/controllers/formController.js:251-297 | 404 for an unknown id; otherwise the current step, both step statuses with their titles, `isComplete` exactly when the step is 3, and the user's submission count |
| BackendValidation.DefaultMessage | backend/src/utils/validation.js:5-52 | every default message starts with the key's name in double quotes, followed by a non-empty text |
| BackendValidation.CheckString | backend/src/utils/validation.js:6-44 | a string key yields its converted value (upper-cased, then trimmed, as the key asks); it draws no error exactly when the converted value is non-empty, matches the pattern, keeps within the length limit and passes `ip()` where asked; at most three errors |
| BackendValidation.CheckInteger | backend/src/utils/validation.js:48 | a number key yields the number; it draws no error exactly when the number is an integer within the bounds |
| BackendValidation.ValidateKeys | backend/src/utils/validation.js:58-61 | with every error collected, the output holds only schema keys present in the body, and every error names a schema key |
| BackendValidation.Validate | backend/src/utils/validation.js:58-63 | on success the validated value holds only schema keys present in the body; on failure the error list is non-empty and names only schema keys |
| BackendValidation.NoErrorsIffEveryKeyPasses | backend/src/utils/validation.js:58-61 | with `abortEarly: false`, the collected error list is empty exactly when every key passes its own check |
| BackendValidation.FourKeys | backend/src/utils/validation.js:47-52 | a four-key schema accepts a body exactly when each of its four keys passes |
| BackendValidation.UnconvertedKeyOutcome | backend/src/utils/validation.js:23-25 | a required pattern key without conversion passes exactly on a string matching the pattern, and yields it unchanged |
| BackendValidation.ValidateKey | backend/src/utils/validation.js:5-52 | an absent key yields no value; a present key with no errors always yields a value |
| BackendValidation.Details | backend/src/utils/validation.js:64-67 | one `{field, message}` entry per message of the key, in order |
| BackendValidation.ValidateRequest | backend/src/utils/validation.js:56-79 | a rejection exactly when validation fails, with status 400, "Validation failed" and a non-empty error list; otherwise it proceeds with the validated value |
| BackendValidation.ErrorsNameEveryFailingKey | backend/src/utils/validation.js:58-67 | the fields in the error list are exactly the keys whose check fails (every error is collected) |
| BackendValidation.OutputHoldsOnlySchemaKeys | backend/src/utils/validation.js:58-61 | without errors, the output's keys are exactly the schema keys present in the body (unknown fields are stripped) |
| BackendValidation.AcceptedIffNoKeyFails | backend/src/utils/validation.js:58-63 | a body is accepted exactly when no key fails |
| BackendValidation.PatternKeyOutcome | backend/src/utils/validation.js:6-8 | a required pattern key accepts exactly a string whose converted form matches, outputs the converted form, and draws at most one message |
| BackendValidation.PatternKeyMessage | backend/src/utils/validation.js:9-11 | a non-empty string that does not match draws the key's pattern message |
| BackendValidation.AadhaarSchemaAccepts | backend/src/utils/validation.js:5-13 | the `aadhaar` schema accepts exactly a string of 12 digits, and the output is that field alone, unchanged |
| BackendValidation.AadhaarSchemaMessage | backend/src/utils/validation.js:5-13 | a non-empty string that is not 12 digits gives exactly "Aadhaar number must be 12 digits" |
| BackendValidation.AadhaarSchemaExamples | backend/src/utils/validation.js:5-13 | 12 digits pass; 11 digits, 13 digits and a trailing letter are refused |
| BackendValidation.OtpSchemaAccepts | backend/src/utils/validation.js:15-26 | the `otp` schema accepts exactly a 6-digit code with a 12-digit Aadhaar number, and outputs both unchanged |
| BackendValidation.PanSchemaAccepts | backend/src/utils/validation.js:28-45 | the `pan` schema accepts exactly a PAN of either case and a name that is 2–100 letters or whitespace once trimmed; the output is the PAN upper-cased and the name trimmed |
| BackendValidation.TrimKeepsNonBlank | backend/src/utils/validation.js:39 | every non-whitespace character of a name survives trimming |
| BackendValidation.PanKeyOutcome | backend/src/utils/validation.js:29-36 | the `panNumber` key draws no error exactly when a string is present that is a PAN of either case, and then yields it upper-cased |
| BackendValidation.NameKeyOutcome | backend/src/utils/validation.js:37-44 | the `nameAsPerPan` key draws no error exactly when a string is present whose trimmed form is 2–100 letters or whitespace, and then yields the trimmed form |
| BackendValidation.NameWithDigitRefused | backend/src/utils/validation.js:37-44 | a name containing a digit is refused, and the errors include "Name must contain only letters and spaces" |
| BackendValidation.FormSubmissionSchemaAccepts | backend/src/utils/validation.js:47-52 | the `formSubmission` schema accepts exactly an integer step in [1, 2], an object as form data, an optional non-empty IP string that `ip()` accepts, and an optional non-empty user agent of at most 500 characters |
| BackendValidation.StepKeyOutcome | backend/src/utils/validation.js:48 | the `step` key passes exactly on a number that is an integer in [1, 2] |
| BackendValidation.FormDataKeyOutcome | backend/src/utils/validation.js:49 | the `formData` key passes exactly on an object |
| BackendValidation.IpAddressKeyOutcome | backend/src/utils/validation.js:50 | the `ipAddress` key passes exactly when absent or a non-empty string that `ip()` accepts |
| BackendValidation.UserAgentKeyOutcome | backend/src/utils/validation.js:51 | the `userAgent` key passes exactly when absent or a non-empty string of at most 500 characters |
| FrontendUtils.Take12 | frontend/src/lib/utils.ts:13 | the first at most 12 characters, a prefix of the input |
| FrontendUtils.GroupDigitsIsBlocks | frontend/src/lib/utils.ts:16 | on a digit string, the regular-expression replacement equals cutting into blocks of four |
| FrontendUtils.BlocksShape | frontend/src/lib/utils.ts:16 | blocks have a space at exactly every fifth position, digits elsewhere, length n + (n−1)/4, and end in a digit |
| FrontendUtils.BlocksKeepDigits | frontend/src/lib/utils.ts:16 | removing the non-digits from the blocks gives the digits back |
| FrontendUtils.BlocksLoseBlanks | frontend/src/lib/utils.ts:16 | removing the whitespace from the blocks gives the digits back |
| FrontendUtils.FormatAadhaarShape | frontend/src/lib/utils.ts:8-17 | the output has at most 14 characters, digits with a space exactly at every fifth position, and no trailing space |
| FrontendUtils.FormatAadhaarKeepsDigits | frontend/src/lib/utils.ts:10-16 | removing the spaces (or the non-digits) from the output gives the input's first 12 digits |
| FrontendUtils.FormatAadhaarIdempotent | frontend/src/lib/utils.ts:8-17 | formatting a formatted value changes nothing |
| FrontendUtils.FormatTwelveDigits | frontend/src/lib/utils.ts:8-17 | twelve digits come out as `XXXX XXXX XXXX` |
| FrontendUtils.FormatPanNormalises | frontend/src/lib/utils.ts:19-22 | the output has no whitespace and no lower-case letter; the function is idempotent; a PAN stays a PAN |
| FrontendUtils.MaskAadhaar | frontend/src/lib/utils.ts:24-27 | input not 12 long: returned unchanged; otherwise the result is `"XXXX XXXX "` followed by the input's last four characters, so no digit appears in the first ten |
| FrontendUtils.MaskHidesPrefix | frontend/src/lib/utils.ts:24-27 | two 12-character values with the same last four characters mask identically |
| FrontendUtils.ValidateStep | frontend/src/lib/utils.ts:29-38 | true only for steps 1 and 2; step 1 needs truthy values under both `aadhaarNumber` and `otp`; step 2 needs truthy values under both `panNumber` and `nameAsPerPan` |
| FrontendUtils.ValidateStepRefusesFalsyField | frontend/src/lib/utils.ts:29-38 | a field of the step that is missing, `null`, `false`, `0` or `""` makes the step fail |
| FrontendUtils.ValidateStepAcceptsFilledFields | frontend/src/lib/utils.ts:29-38 | truthy values (in particular non-empty text) in both fields of a step make it pass; with the contract of `ValidateStep` this is an if-and-only-if for every JSON value |
| CrossChecks.StepTitlesAgree | backend/src/controllers/formController.js:274-283 | the browser's titles for steps 1 and 2 are the titles the server's progress reply gives the two steps |
| FrontendUtils.GetStepTitle | frontend/src/lib/utils.ts:40-46 | step 1 and step 2 have their titles, and "Unknown Step" is returned exactly for every other step |
| FrontendValidation.ParseFields | frontend/src/lib/validation.ts:3-36 | the output holds exactly the schema's fields, and every issue's path is a schema field |
| FrontendValidation.SafeParse | frontend/src/lib/validation.ts:3-36 | success gives a value with exactly the schema's fields; failure gives a non-empty issue list whose paths are schema fields |
| FrontendValidation.TwoFields | frontend/src/lib/validation.ts:14-35 | a form of two distinct fields is accepted exactly when both fields are, and outputs both transformed values |
| FrontendValidation.OtpNumberFieldAccepts | frontend/src/lib/validation.ts:15 | the OTP form's Aadhaar field passes exactly on 12 digits and is not transformed |
| FrontendValidation.OtpCodeFieldAccepts | frontend/src/lib/validation.ts:16-19 | the code field passes exactly on 6 digits and is not transformed |
| FrontendValidation.Failures | frontend/src/lib/validation.ts:28-33 | no message exactly when every check passes; at most one message per check |
| FrontendValidation.ParseField | frontend/src/lib/validation.ts:5-11 | an absent field gives only "Required"; a field with no issue passed every check, and its value is the transformed input |
| FrontendValidation.Issues | frontend/src/lib/validation.ts:3-36 | one issue per message, with the field as path |
| FrontendValidation.FieldAcceptsIff | frontend/src/lib/validation.ts:5-11 | a field draws no issue exactly when it is present, passes every check, and passes the refinement after the transform |
| FrontendValidation.NoIssuesIff | frontend/src/lib/validation.ts:3-36 | a form has no issue exactly when none of its fields has one |
| FrontendValidation.ParseOne | frontend/src/lib/validation.ts:4-12 | a one-field form outputs that field's value |
| FrontendValidation.ParseTwo | frontend/src/lib/validation.ts:14-20 | a two-field form outputs both fields' values |
| FrontendValidation.AadhaarFormAccepts | frontend/src/lib/validation.ts:4-12 | accepted exactly when the input without whitespace is 12 digits; the output is that digit string |
| FrontendValidation.AadhaarFormAcceptsGrouped | frontend/src/lib/validation.ts:5-11 | twelve digits typed in groups of four are accepted as the bare digits |
| FrontendValidation.AadhaarFormExample | frontend/src/lib/validation.ts:5-11 | "1234 5678 9012" is accepted as "123456789012" |
| FrontendValidation.AadhaarFormEmpty | frontend/src/lib/validation.ts:5-11 | an empty box draws both "Aadhaar number is required" and "Aadhaar number must be 12 digits" |
| FrontendValidation.OtpFormAccepts | frontend/src/lib/validation.ts:14-20 | accepted exactly when the Aadhaar number is 12 digits and the code is 6 digits; both pass unchanged |
| FrontendValidation.PanFieldAccepts | frontend/src/lib/validation.ts:23-27 | the PAN field passes exactly on a PAN shape of either case |
| FrontendValidation.NameFieldAccepts | frontend/src/lib/validation.ts:28-34 | the name field passes exactly on 2–100 letters or whitespace, counted before trimming |
| FrontendValidation.PanFormAccepts | frontend/src/lib/validation.ts:22-35 | the form is accepted exactly on a PAN shape and an untrimmed name shape; the output is the PAN upper-cased and the name trimmed |
| FrontendValidation.PanFormTrimsAfterChecks | frontend/src/lib/validation.ts:28-34 | " a" passes the form and is output as the one-letter "a" |
| CrossChecks.FormattedAadhaarAccepted | frontend/src/components/forms/step1-aadhaar.tsx:141-145 | the value the Aadhaar box stores (the formatted text without its spaces) passes the browser's check exactly when at least 12 digits were typed, and the value passed on is the first 12 digits |
| CrossChecks.BrowserAadhaarAcceptedByServer | backend/src/utils/validation.js:5-13 | what the browser's Aadhaar form outputs, the server accepts unchanged |
| CrossChecks.OtpFormsAgree | backend/src/utils/validation.js:15-26 | the browser and the server accept the same OTP forms |
| CrossChecks.StepOneData | frontend/src/components/forms/step1-aadhaar.tsx:72-76 | the step data holds the Aadhaar number, the code under the key `otp`, and the user id of the reply |
| CrossChecks.FilledOtpFormStepCheck | frontend/src/components/forms/step1-aadhaar.tsx:72-76 | a filled-in Aadhaar form passes `validateStep(1, …)` once its code is under `otp`, and fails under its own key `otpCode` |
| CrossChecks.OtpStepDataPassesStepCheck | frontend/src/components/forms/step1-aadhaar.tsx:72-76 | for every accepted OTP form the handed-on step data passes `validateStep(1, …)`, while the form's output with its `otpCode` key would not |
| CrossChecks.PanNumbersAgree | backend/src/utils/validation.js:29-36 | the browser and the server accept the same PAN strings, and the server outputs the upper-cased PAN |
| CrossChecks.BrowserPanAcceptedByServer | backend/src/utils/validation.js:28-45 | what the browser's PAN form outputs, the server accepts unchanged, provided the trimmed name keeps two characters |
| CrossChecks.ShortNameRefusedOnlyByServer | backend/src/utils/validation.js:37-39 | " a" passes the browser, but the "a" it sends is refused by the server |
| CrossChecks.ValidatedPanPassesCheck | backend/src/controllers/formController.js:141-148 | every body the `pan` schema accepts passes `simulatePanVerification`, so that 400 branch is unreachable on the route |

## Left out

- **Persistence and ids.** Prisma persistence is a map or sequence held in fields; ids are consecutive naturals, not database-generated strings. Database errors and the `next(error)` paths are not modelled.
- **Hashing.** bcrypt `hash` and `compare` (`otpService.js:17-24`) are replaced by equality with the issued code; the hash is not stored separately.
- **Console and timers.** The console log of the code and the one-second delay in `simulatePanVerification` are left out.
- **Record order.** `findFirst … orderBy createdAt desc` is modelled as "the latest inserted active row". Ties between equal `createdAt` values are not modelled; under the proved at-most-one-open invariant there is only one candidate anyway.
- **Concurrency.** Two requests interleaving between invalidation and insert is not modelled; each operation is atomic.
- **Audit log.** Audit entries keep user, action, resource, success and message; IP address, user agent, resource id and metadata are left out.
- **Out of scope.** Rate limiting, the audit middleware, the error handler, the route wiring and `getFormStructure` are not part of this model.
- FormFlow.FormController.SubmitForm: the submission's user id is a natural-number parameter standing for `formData.userId`. `ipAddress || req.ip`, `userAgent || req.get(...)` and the stored form payload are left out, because they are request metadata with no behaviour.
- FormFlow.FormController.GetFormProgress: takes the id as a natural number; the string route parameter and the ordering of the included submissions are left out, because only their count is reported.
- **Upper-casing.** The browser's `toUpperCase` and Joi's `uppercase()` (which calls `toLocaleUpperCase`) are both modelled as mapping only the ASCII letters; the full Unicode and locale mapping (e.g. `ß` to `SS`, or the Turkish dotted `i`) is not modelled. The server upper-cases the PAN before matching it, so a PAN written with a non-ASCII letter whose upper case is ASCII (`ı` becomes `I`, `ſ` becomes `S`) is accepted by Joi but refused by the model.
- **Length units.** String lengths count characters, not UTF-16 code units, so zod's `max(100)` and Joi's `max(500)` differ from JavaScript only for characters outside the Basic Multilingual Plane.
- **Floating point.** `Math.random() * 900000` is computed on reals, not doubles.
- JsNumber.EnvIntOr: `parseInt` results are exact integers; the loss of precision above 2^53 is not modelled.
- BackendValidation.ValidateKey: Joi converts a numeric string such as `"1"` for `step` to a number; the model refuses it as "must be a number". The `ip()` check is a parameter, and Joi's full rule set beyond what the four schemas use is not modelled.
- BackendValidation.DefaultMessage: the default message templates come from the Joi library, which is not part of this model; they are written out as Joi documents them.
- FrontendValidation.ParseField: form inputs are strings; zod's handling of non-string values other than "absent" (reported as "Required") is not modelled.
- FrontendUtils.ValidateStep: the step is an integer; a fractional step would also return false, and the model does not take one.
