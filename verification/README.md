# Contact form validation, modelled in Dafny

This project models the client-side logic of the page's contact form,
`js/contact.js`. The form has four fields: name, email address, phone
number and comment. The model covers:

- **`validationRules` and `validationCheck`**, the live check run on every
  `input` event. It looks up the field's rule by the element id. When the
  rule has a cleanup pattern, it deletes the characters outside the allowed
  class and writes the cleaned text back. It then tests the trimmed text
  against the rule's anchored regular expression. Finally it sets
  `is-valid`/`is-invalid` and shows or hides the rule's message in the
  `<id>-error` element.
- **`checkInput`**, the required-field check run at submit time. A field
  passes when its trimmed value is non-empty. Otherwise it shows
  "This field is required".
- **The submit handler**:
  - every field gets `checkInput`, without stopping at the first failure;
  - when any field is blank, nothing is sent;
  - otherwise it builds the payload object of trimmed values under the keys
    `nameInput`, `emailAddress`, `phoneNumber`, `commentBox`;
  - it writes that object to `localStorage`; when the write throws, the
    handler stops there and nothing is sent;
  - otherwise the loader replaces the submit button and the request is made.
- **`resetForm`**, `hideToggleHandle`, `updatedMessage` with its
  `messageContent` table, and the `hideMessage` timer callback.
- **The outcome branches of `updateSheet`**:
  - a response whose status is `"SUCCESS"`;
  - the abort raised by the 30-second timer;
  - a response with any other status;
  - any other failure.

Modules, one per file:

| file | module | contents |
|---|---|---|
| `wrappers.dfy` | `Wrappers` | `Option` |
| `chars.dfy` | `Chars` | ECMAScript white space and line terminators, and the character classes of the regular expressions |
| `strings.dfy` | `Strings` | `replace(/[^…]/g, '')` as `Keep`, `trim` as `Trim`, and `FirstIndex` |
| `patterns.dfy` | `Patterns` | the four anchored regular expressions as recognisers; the email expression's language (`EmailRegex`) proved equal to the recogniser (`EmailMatches`) |
| `rules.dfy` | `Rules` | the `validationRules` table, its ids and error texts |
| `validation.dfy` | `Validation` | `validationCheck` and `checkInput` on a field |
| `form.dfy` | `Form` | the page, the submit gate and payload, `resetForm`, and the outcome dispatch |
| `examples.dfy` | `Examples` | concrete inputs evaluated on the model |

Modelling choices:

- A field is an immutable value: its id, its value, a marker and an optional
  error element. The marker stands for the two marker classes. Every
  operation sets or clears both classes together, so the marker has three
  states: `Unmarked`, `MarkedValid` and `MarkedInvalid`.
- An error element is represented by its `hide` class and its text.
- Each operation is a function from the old page to the new page.
- The outcome of the network request is an input to the model, `Outcome`.
- The 4-second hide is the separate callback `HideMessage`.

Behaviour of the code worth knowing:

- The submit handler re-runs only the required check, not the patterns. A
  form whose phone number fails `/^\d{10,15}$/`, but where no field is
  blank, is sent anyway. `Examples.MismatchPageSent` shows this.
- `validationCheck` has no "This field is required" case. A blank name,
  checked as it is typed, shows the name rule's own message instead.
  `Examples.BlankName` shows this.
- A response whose status is not `"SUCCESS"`, and a failure other than the
  abort, change nothing on the page. The loader keeps showing, no message
  appears and the fields keep their values.
- `\s` in the name pattern, and in `trim`, covers all ECMAScript white space
  and line terminators, not only the space character.

## Model

| member | source | states |
|---|---|---|
| Strings.Keep | js/contact.js:111-114 | the cleaned text holds only characters of the kept class and is no longer than the input |
| Strings.KeepCounts | js/contact.js:111-114 | cleanup keeps every allowed character exactly as many times as the input has it and drops every other character |
| Strings.KeepAppend | js/contact.js:111-114 | cleanup works character by character in order: cleaning a concatenation is concatenating the cleaned parts |
| Strings.KeepIdentity | js/contact.js:111-114 | cleanup leaves a text unchanged exactly when every character is already allowed |
| Strings.KeepIdempotent | js/contact.js:111-114 | cleaning an already cleaned text changes nothing |
| Strings.TrimStart | js/contact.js:117 | the leading half of `trim`; its meaning is fixed by Strings.TrimStartSpec |
| Strings.TrimEnd | js/contact.js:117 | the trailing half of `trim`; its meaning is fixed by Strings.TrimEndSpec |
| Strings.Trim | js/contact.js:117 | `trim`; Strings.TrimIsTrimOf and Strings.TrimOfUnique show it is exactly the slice with white space only around it and none at its ends |
| Strings.TrimStartSpec | js/contact.js:117 | the start of trimming drops a leading run of white space only, and stops at the first other character |
| Strings.TrimEndSpec | js/contact.js:117 | the end of trimming drops a trailing run of white space only, and stops at the last other character |
| Strings.TrimIsTrimOf | js/contact.js:117 | the trimmed text is a slice of the input with only white space around it and none at its own ends |
| Strings.TrimOfUnique | js/contact.js:117 | any slice with that property is the trimmed text, so trim is fully determined by it |
| Strings.TrimEmptyIff | js/contact.js:55-58 | the trimmed value is empty exactly when the value is white space only |
| Strings.TrimNoOp | js/contact.js:117 | a text with no white space at either end is its own trim |
| Strings.AllInTrim | js/contact.js:117 | trimming adds no character, so a class every character was in still holds afterwards |
| Strings.TrimIdempotent | js/contact.js:117 | trimming a trimmed text changes nothing |
| Patterns.NameMatches | js/contact.js:83 | `/^[a-zA-Z\s]{2,30}$/`: 2 to 30 characters, each an ASCII letter or white space; used through Validation.NameRule |
| Patterns.PhoneMatches | js/contact.js:92 | `/^\d{10,15}$/`: 10 to 15 characters, each an ASCII digit; used through Validation.PhoneRule |
| Patterns.CommentMatches | js/contact.js:97 | `/^.{5,300}$/`: 5 to 300 characters, none a line terminator; used through Validation.CommentRule |
| Patterns.DomainMatches | js/contact.js:88 | the domain part, read label by label up to each first dot; Patterns.DomainEquivalence shows it accepts exactly the expression's domain language |
| Patterns.EmailMatches | js/contact.js:88 | a local part, the first `@`, and a domain; Patterns.EmailEquivalence shows it accepts exactly the expression's language |
| Patterns.DomainMatchesIsRegex | js/contact.js:88 | every domain the first-dot recogniser accepts is in the language of `(?:[a-zA-Z0-9-]+\.)+[a-zA-Z]{2,}` |
| Patterns.DomainRegexMatches | js/contact.js:88 | every domain in that language is accepted by the recogniser |
| Patterns.DomainEquivalence | js/contact.js:88 | the recogniser accepts a domain if and only if it is in the expression's language |
| Patterns.EmailMatchesIsRegex | js/contact.js:88 | every address the recogniser accepts is in the language of the full email expression |
| Patterns.EmailRegexMatches | js/contact.js:88 | every address in that language is accepted, because the `@` after a local part is the first `@` |
| Patterns.EmailEquivalence | js/contact.js:88 | the recogniser accepts an address if and only if it is in the expression's language |
| Rules.Matches | js/contact.js:119 | `rule.regex.test(value)`: each rule's pattern is tested by its recogniser; Validation.NameRule, EmailRule, PhoneRule and CommentRule state each case |
| Validation.Mark | js/contact.js:119-135 | the two branches' writes to the marker classes and the error element; stated through Validation.ValidationCheck and Validation.CheckInput |
| Validation.ValidationCheck | js/contact.js:103-136 | a field without a rule is returned unchanged; a field with a rule is marked; a present error element is hidden and empty when the field passes, and shows the rule's message when it fails; the id and the presence of the error element are kept |
| Validation.NameRule | js/contact.js:82-86 | the name keeps only its letters and white space, in order, as its new value, and passes if and only if that value, trimmed, is 2 to 30 characters |
| Validation.EmailRule | js/contact.js:87-90 | the email value is never rewritten, and it passes if and only if its trimmed text is in the email expression's language |
| Validation.PhoneRule | js/contact.js:91-95 | the phone keeps only its digits, in order, as its new value; that value needs no trimming; it passes if and only if it has 10 to 15 digits |
| Validation.CommentRule | js/contact.js:96-99 | the comment is never rewritten, and it passes if and only if its trimmed text is 5 to 300 characters with no line terminator |
| Validation.ValidationCheckIdempotent | js/contact.js:103-136 | checking a field twice gives the same field as checking it once |
| Validation.ValidationCheckForgetsPrior | js/contact.js:119-135 | for a field with a rule, the result depends only on the id, the value and whether an error element exists, not on the marker or message shown before |
| Validation.CheckInput | js/contact.js:54-71 | the check passes if and only if the value has a character that is not white space; a pass marks the field valid and hides and empties its error element; a failure marks it invalid and shows "This field is required"; the value is untouched |
| Form.CheckAll | js/contact.js:20-26 | every field is checked, including those after a failure, and the form is valid if and only if no field is blank |
| Form.Submit | js/contact.js:17-45 | a submission is sent if and only if no field is blank and the `localStorage` write succeeds; every field shows its required-check result; the payload holds each field's trimmed value under its key; a sent form shows the loader in place of the button; a blocked one leaves both as they were |
| Form.OnInput | js/contact.js:47-49 | an input event re-validates only the field it came from and leaves every other field and the controls alone; it works on a page whose fields lack error elements, and each field keeps its id and whether it has one |
| Form.ResetForm | js/contact.js:74-79 | every field is emptied and unmarked, and keeps its id and error element |
| Form.ShowLoader | js/contact.js:146-149 | the loader replaces the submit button and nothing else changes |
| Form.ShowSubmit | js/contact.js:146-149 | the submit button replaces the loader and nothing else changes |
| Form.MessageContent | js/contact.js:201-210 | the success and error entries differ in both text and colour (Form.MessageContentDistinct); their exact values are stated by Form.SuccessOutcome and Form.AbortOutcome |
| Form.MessageContentDistinct | js/contact.js:201-210 | the two kinds of message have different texts and different colours |
| Form.UpdatedMessage | js/contact.js:212-217 | the message element is shown with the chosen kind's text and colour, and the fields and controls are left alone |
| Form.HideMessage | js/contact.js:139-143 | the timer callback hides the message element and changes nothing else |
| Form.Dispatch | js/contact.js:180-198 | the success message shows if and only if the status is "SUCCESS"; the error message shows if and only if the request was aborted; the form is cleared, the submit button restored and the hiding scheduled exactly when a message shows |
| Form.Apply | js/contact.js:180-198 | carries out the dispatched actions on the page; its effect is stated by Form.SuccessOutcome, Form.AbortOutcome and Form.OtherOutcome |
| Form.OnOutcome | js/contact.js:180-198 | what an outcome does to the page; fixed by Form.SuccessOutcome, Form.AbortOutcome and Form.OtherOutcome |
| Form.SuccessOutcome | js/contact.js:180-185 | after a "SUCCESS" response every field is empty and unmarked, the success text and colour show, and the submit button replaces the loader |
| Form.AbortOutcome | js/contact.js:189-194 | after the abort the same clearing and restoring happens, with the error text and colour |
| Form.OtherOutcome | js/contact.js:185-187 | any other status, and any other failure, leaves the page exactly as it was |
| Form.SubmitThenSuccess | js/contact.js:180-184 | a sent submission answered with "SUCCESS" leaves every field empty and unmarked with its error element hidden and empty |
| Form.ClearedFormBlocks | js/contact.js:54-63 | once the form has been cleared, submitting again is blocked and every field says it is required |
| Examples.NameWithDigits | js/contact.js:83-84 | "John123" is cleaned to "John" and accepted |
| Examples.NameLengths | js/contact.js:83 | "Jo" is accepted and "J" is rejected as too short |
| Examples.PhoneWithPunctuation | js/contact.js:92-93 | "abc123-456-7890" is cleaned to "1234567890" and accepted |
| Examples.PhoneTooShort | js/contact.js:92-94 | "12345" is rejected with the phone rule's message |
| Examples.EmailAccepted | js/contact.js:88 | "a@b.com" is accepted |
| Examples.EmailRejected | js/contact.js:88 | "a@b", with a single domain label, is rejected |
| Examples.BlankName | js/contact.js:58-62 | a blank name shows the name rule's message while typing, and "This field is required" at submit |
| Examples.MismatchPageSent | js/contact.js:20-38 | a form whose phone number fails its pattern, with no field blank, is still sent, with the short number in the payload |

## Left out

- The `localStorage` round trip (js/contact.js:40-42) is modelled only by
  whether the write succeeds, the input `stored` of `Form.Submit`. When
  `setItem` throws (storage full or blocked), the handler stops after the
  required checks: the loader does not replace the button and no request is
  made, and `Form.Submit` returns `Blocked` with the checked fields. When the
  write succeeds, the JSON text is parsed straight back, and for an object of
  four strings that gives the same object, so the model sends the payload
  directly.
- The request itself (js/contact.js:152-177) is not modelled. This covers the
  `Headers`, the JSON body with its sheet name and column, `fetch`, and
  `response.json()`. The model takes the request's outcome as the input
  `Outcome`.
- Timers are not modelled as time. The 30 000 ms abort appears only as the
  `Aborted` outcome. The 4 000 ms hide appears only as the callback
  `Form.HideMessage`. Cancelling the abort timer after a response has no
  visible effect.
- Event wiring is not modelled (js/contact.js:14-18, 47-49). This covers
  `DOMContentLoaded`, `addEventListener` and `preventDefault`. The model
  gives the handlers as functions `Form.Submit` and `Form.OnInput`.
- Pending requests and running timers are not part of the page state. The
  page-to-page functions compose in any order, but the model does not track
  which request or timer an event belongs to. Two consequences are not
  captured: the 4 s hide timer of an earlier message can hide a later
  message early, and a "SUCCESS" outcome clears input typed while its
  request was pending (`Form.OnOutcome` clears whatever page it is given,
  but nothing ties that page to the submission). A second submit while a
  request is pending is likewise not distinguished.
- Console logging is not modelled. It has no effect on the page.
- Characters are Dafny `char`s. JavaScript strings are UTF-16 code units, and
  the `{2,30}`, `{5,300}` and `{10,15}` counts are in code units. A character
  outside the Basic Multilingual Plane counts as two there and as one here.
- Validation.CheckInput: requires the field to have its error element. The
  source dereferences `errorSpan` without a guard, so a field without one
  throws there. `validationCheck` guards, and `Validation.ValidationCheck`
  handles the missing element.
- The marker classes are one three-valued marker. Nothing in the source
  sets one marker class without clearing the other.
