# Job application form: a verified model of the form state and validator

This project models the state and logic of the job application form component in
`src/screen/Application.jsx`. The form holds a draft of nine fields, an error map
and the snapshot that a successful submission stores. The model covers:

- the draft and the component state, as the class `ApplicationForm.Application`.
  Its fields are the eight text fields, the skill list, the error map and the
  optional snapshot;
- the event handlers, as methods on that class: the position selector, the skill
  checkboxes, the plain inputs, validation and submission;
- the validation rules, as functions on a `Validation.Draft` value. `Errors` maps a
  draft to its field-to-message map. The regular expressions and JavaScript's
  numeric coercion are written out as string predicates in `Patterns`;
- the skill toggle (filter out if present, append if absent), in `Skills`.

Each `if` block of `validate` is one rule function per field (`FullNameRule`,
`EmailRule`, …). Each has the same conditions and messages as the source.
`Application.Validate` runs the rules in the source's order and records each
outcome in a fresh map. It then stores the map and reports whether it is empty.
`RunRulesIsErrors` proves that this ordered run equals the declarative error map
`Errors`. No rule is skipped, and no rule overwrites another rule's entry.

Three behaviours of the code worth knowing:

- Skills are a list. A checkbox filters out every occurrence of its skill or
  appends it. `ToggleMembership` shows that membership behaves as in a set.
- Experience is tested with `experience <= 0`, which converts the string with
  JavaScript's `Number()`. Surrounding whitespace is trimmed, and a blank string
  converts to 0 and is reported. A string that is not a number converts to NaN
  and is not reported.
- The email check is exactly the regular expression at line 39.

The class invariant `Valid()` says two things. The skill list has no duplicates,
and a stored snapshot always passes validation.

## Model

| member | source | states |
|---|---|---|
| `ApplicationForm.Application.constructor` | src/screen/Application.jsx:4-14 | the form starts with every text field empty, no skills, an empty error map and no snapshot, and satisfies the invariant |
| `ApplicationForm.Application.CurrentDraft` | src/screen/Application.jsx:76-86 | the nine state values the snapshot object collects, as one draft |
| `ApplicationForm.Application.HandlePositionChange` | src/screen/Application.jsx:16-21 | position becomes the chosen value; experience, portfolio and management experience become empty; the other five draft fields, the errors and the snapshot are unchanged; the invariant is kept |
| `Validation.WithPosition` | src/screen/Application.jsx:16-21 | the draft after a position change: new position, the three dependent fields empty, all other fields as before |
| `Validation.PositionChangeRequiresReentry` | src/screen/Application.jsx:16-21 | right after a position change, every field the new position switches on is reported, with its "required" message |
| `ApplicationForm.Application.HandleSkillChange` | src/screen/Application.jsx:23-30 | the skill list becomes its toggle by the value; nothing else changes; the list stays duplicate-free |
| `Skills.ToggleSkill` | src/screen/Application.jsx:25-29 | the value is in the result iff it was not in the list; every other skill keeps its number of occurrences; an absent value is appended at the end; a present value shortens the list |
| `Skills.RemoveAll` | src/screen/Application.jsx:27 | the filter leaves no occurrence of the value and never lengthens the list |
| `Skills.RemoveAllCount` | src/screen/Application.jsx:27 | the filter drops every occurrence of the value and keeps every other element's number of occurrences |
| `Skills.RemoveAllLength` | src/screen/Application.jsx:27 | the length shrinks by exactly the number of occurrences of the value |
| `Skills.RemoveAllAppend` | src/screen/Application.jsx:27 | filtering distributes over concatenation, so the kept skills stay in their original order |
| `Skills.RemoveAllAbsent` | src/screen/Application.jsx:27 | filtering out a value that does not occur returns the list unchanged |
| `Skills.RemoveAllKeepsNoDuplicates` | src/screen/Application.jsx:27 | filtering a duplicate-free list leaves it duplicate-free |
| `Skills.ToggleMembership` | src/screen/Application.jsx:25-29 | membership flips for the toggled value and is unchanged for every other value |
| `Skills.ToggleOffKeepsOrder` | src/screen/Application.jsx:26-27 | unchecking a skill that sits between two runs of other skills leaves exactly those runs, in order |
| `Skills.ToggleTwiceRestores` | src/screen/Application.jsx:25-29 | checking then unchecking an absent skill restores the list |
| `Skills.TogglePreservesNoDuplicates` | src/screen/Application.jsx:25-29 | a duplicate-free skill list stays duplicate-free under toggling |
| `ApplicationForm.Application.HandleInput` | src/screen/Application.jsx:98-256 | an input, textarea or date picker stores the typed value in its field (the onChange setters at lines 105, 116, 127, 166, 179, 192 and 255); nothing else changes |
| `Validation.Errors` | src/screen/Application.jsx:32-67 | full name, skills and interview time are reported iff empty; email iff empty or not matched by the email regular expression; phone iff not one or more digits; experience iff the position is Developer or Designer and it is empty or not positive; portfolio iff the position is Designer and it is empty or not an http(s) URL; management experience iff the position is Manager and it is empty; never the position; each reported field carries the source's message |
| `Validation.FullNameRule` | src/screen/Application.jsx:35 | an empty full name gives "Full Name is required."; any other gives nothing |
| `Validation.EmailRule` | src/screen/Application.jsx:36-41 | an empty email gives "Email is required."; one the email check rejects gives "Email must be a valid email format." |
| `Validation.PhoneRule` | src/screen/Application.jsx:42-47 | an empty phone gives "Phone Number is required."; one that is not all digits gives "Phone Number must be a valid number." |
| `Validation.ExperienceRule` | src/screen/Application.jsx:48-54 | only for Developer or Designer: an empty experience gives "Relevant Experience is required.", a non-positive one gives "Relevant Experience must be a number greater than 0." |
| `Validation.PortfolioRule` | src/screen/Application.jsx:55-62 | only for Designer: an empty portfolio gives "Portfolio URL is required.", one that is not an http(s) URL gives "Portfolio URL must be a valid URL." |
| `Validation.ManagementExperienceRule` | src/screen/Application.jsx:63-65 | only for Manager, and only when empty: "Management Experience is required." |
| `Validation.SkillsRule` | src/screen/Application.jsx:66 | an empty skill list gives "At least one skill must be selected." |
| `Validation.InterviewTimeRule` | src/screen/Application.jsx:67 | an empty interview time gives "Preferred Interview Time is required." |
| `Validation.ErrorFor` | src/screen/Application.jsx:32-67 | the rule attached to each field, and no rule for the position |
| `Validation.RunRules` | src/screen/Application.jsx:33-67 | the validator's run: starting from an empty map, the eight rules in source order each add their message, if any |
| `Validation.Passes` | src/screen/Application.jsx:70 | a draft passes when its error map has no keys |
| `Validation.RunRulesIsErrors` | src/screen/Application.jsx:32-70 | running all eight rules in source order and recording each failure gives exactly the error map: no rule is skipped or overwritten |
| `Validation.RecordEntry` | src/screen/Application.jsx:33-67 | recording a rule's outcome adds its field exactly when the rule failed and leaves every other entry as it was |
| `ApplicationForm.Application.Validate` | src/screen/Application.jsx:32-71 | the error map is replaced wholesale by the map of the current draft, and the result is true iff that map is empty; the draft is not modified |
| `ApplicationForm.ValidateTwice` | src/screen/Application.jsx:32-71 | validating an unchanged draft twice stores the same map and returns the same answer |
| `Validation.PassesIffRulesHold` | src/screen/Application.jsx:32-70 | a draft has an empty error map iff every rule that applies to its position holds |
| `Validation.ConditionalFields` | src/screen/Application.jsx:48-65 | the position-dependent fields form a subset of experience, portfolio and management experience, and are none when no position is chosen |
| `Validation.ActivationMatchesTable` | src/screen/Application.jsx:48-63 | the lookup table from position to dependent fields agrees with the inline conditions of the experience, portfolio and management experience rules |
| `Validation.UnsetPositionIgnoresConditionalFields` | src/screen/Application.jsx:48-65 | with no position chosen, experience, portfolio and management experience are never reported |
| `Validation.InactiveFieldsIgnored` | src/screen/Application.jsx:48-65 | two drafts that agree on every field their position validates have the same error map |
| `Validation.DeveloperWithoutNameAndExperience` | src/screen/Application.jsx:35-54 | a developer draft with an empty name, a valid email and phone, and a zero or negative whole number as experience reports exactly full name and experience, with the "must be a number greater than 0" message |
| `Validation.EmailWithoutAt` | src/screen/Application.jsx:36-41 | a non-empty email without an `@` is reported with the format message |
| `Validation.FilledDesignerPasses` | src/screen/Application.jsx:32-71 | a designer draft with a name, a valid email, phone and portfolio URL, a positive whole number as experience, a skill and an interview time passes |
| `Validation.EmptyDraftErrors` | src/screen/Application.jsx:4-14 | the form as first rendered fails exactly the five rules that always apply |
| `ApplicationForm.Application.HandleSubmit` | src/screen/Application.jsx:73-89 | the error map becomes that of the draft; if it is empty the snapshot becomes the nine current values, otherwise the previous snapshot stays; the draft is never cleared; the invariant is kept |
| `ApplicationForm.SubmitEmptyForm` | src/screen/Application.jsx:73-89 | submitting an untouched form stores no snapshot and reports the five always-required fields |
| `Patterns.IsEmailIffRegex` | src/screen/Application.jsx:39-40 | the scan used by the validator accepts exactly the strings the email regular expression matches: a non-empty run of characters that are neither whitespace nor `@`, an `@`, and a remainder of such characters with a `.` that is neither first nor last |
| `Patterns.IsEmail` | src/screen/Application.jsx:39-40 | the scan the model runs for the email pattern: split at the first `@`; both sides are runs of characters that are neither whitespace nor `@`, and the right side has a `.` that is neither its first nor its last character |
| `Patterns.ScanMatchesRegex` | src/screen/Application.jsx:39-40 | a string the scan accepts matches the email regular expression |
| `Patterns.RegexMatchesScan` | src/screen/Application.jsx:39-40 | a string that matches the email regular expression at a given `@` and `.` is accepted by the scan |
| `Patterns.SampleEmail` | src/screen/Application.jsx:39-40 | "a@b.com" passes the email check |
| `Patterns.SamplePhone` | src/screen/Application.jsx:45-46 | "123" passes the phone check; "+123" and "12 3" fail it |
| `Patterns.SampleUrl` | src/screen/Application.jsx:59-60 | "https://x.com" passes the portfolio check; "https://" with nothing after it fails |
| `Patterns.IsPhoneNumber` | src/screen/Application.jsx:45-46 | `/^[0-9]+$/`: one or more ASCII digits and nothing else |
| `Patterns.IsPortfolioUrl` | src/screen/Application.jsx:59-60 | the URL pattern: `http://` or `https://` followed by one or more characters, none a space or a double quote |
| `Patterns.NotPositive` | src/screen/Application.jsx:51 | `experience <= 0`: false when the conversion gives NaN; otherwise true iff the numeral carries a minus sign or all its mantissa digits are zero |
| `Patterns.ParseNumeral` | src/screen/Application.jsx:51 | `Number()` on the experience string: surrounding whitespace is trimmed, a blank string is 0, and otherwise the rest must be a decimal literal; a numeral it returns has a non-empty mantissa made only of digits |
| `Patterns.ParseLiteral` | src/screen/Application.jsx:51 | reads an optional sign, digits with an optional fraction (at least one digit in all) and an optional exponent; anything else is NaN; a numeral it returns has a non-empty, all-digit mantissa |
| `Patterns.TrimStartShape` | src/screen/Application.jsx:51 | trimming the start removes a prefix made only of whitespace and stops at a non-whitespace character |
| `Patterns.TrimEndShape` | src/screen/Application.jsx:51 | trimming the end removes a suffix made only of whitespace and stops at a non-whitespace character |
| `Patterns.TrimmedUnchanged` | src/screen/Application.jsx:51 | a string with no whitespace at either end is unchanged by trimming |
| `Patterns.TrimStartBlank` | src/screen/Application.jsx:51 | a string made only of whitespace trims to the empty string |
| `Patterns.BlankIsZero` | src/screen/Application.jsx:51 | a blank experience converts to 0, so it counts as not positive |
| `Patterns.IntegerLiteral` | src/screen/Application.jsx:51 | the decimal rendering of an integer reads back as a numeral with the integer's sign and digits |
| `Patterns.IntegerUntrimmed` | src/screen/Application.jsx:51 | the decimal rendering of an integer has no surrounding whitespace, so the conversion reads it as a literal |
| `Patterns.SamplePaddedExperience` | src/screen/Application.jsx:51 | " 5 " converts to 5 and is not reported |
| `Patterns.SampleTextExperience` | src/screen/Application.jsx:51 | "five" converts to NaN and is not reported |
| `Patterns.NotPositiveIffValue` | src/screen/Application.jsx:51 | `experience <= 0` holds iff the string is a decimal numeral whose signed value is at most zero; a non-numeric string (NaN) never holds |
| `Patterns.IntegerExperience` | src/screen/Application.jsx:51 | for an integer typed as decimal digits with an optional minus sign, the not-positive test holds iff the integer is at most zero |
| `Patterns.AllZerosIffZero` | src/screen/Application.jsx:51 | a run of digits is all zeros iff its value is zero |
| `Patterns.NatString` | src/screen/Application.jsx:51 | the decimal rendering of a natural number is a non-empty digit string whose value is that number |
| `Patterns.IndexOfAny` | src/screen/Application.jsx:39 | the returned index is the first position holding one of the given characters, or the length when there is none |

## Left out

- `src/screen/main.jsx` is not part of this model. Its rules are a `yup` schema resolved by `react-hook-form`, and their behaviour lives in those libraries. Its submit handler only raises an alert.
- Rendering is not modelled: the JSX markup, the Bootstrap modal (it opens on every click of the submit button, whether or not validation passes), the uncontrolled file input and cover letter textarea, and `event.preventDefault()`.
- React's asynchronous and batched state updates are not modelled. Each handler is one atomic update. Both `setErrors` and the `validate()` return value are computed from the same draft.
- The interview time is an opaque string. The date-time widget's format is not modelled.
- Patterns.ParseNumeral: the conversion is modelled for decimal numerals and blank strings only. Hexadecimal, octal and binary literals (`0x10`) and `Infinity` are treated as NaN here, so they never count as not positive. A positive numeral so small that it underflows to zero (such as `1e-400`) is taken as positive.
