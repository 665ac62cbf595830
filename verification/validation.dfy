/** Per-field validation: the live check run on every input event,
    `validationCheck` (js/contact.js:103-136), and the required-field check
    run at submit, `checkInput` (js/contact.js:54-71). */
module Validation {
  import opened Wrappers
  import opened Chars
  import opened Strings
  import opened Patterns
  import opened Rules

  /** The field's `is-valid` / `is-invalid` classes. Every operation sets or
      clears both together, so three states cover what the form can show. */
  datatype Marker = Unmarked | MarkedValid | MarkedInvalid

  /** The `<id>-error` element next to a field: whether it carries the
      `hide` class, and its text. */
  datatype ErrorSpan = ErrorSpan(hidden: bool, text: string)

  /** One input element: its id, its current value, its marker classes and
      its error element, which the page may lack. */
  datatype Field = Field(id: string, value: string, marker: Marker, span: Option<ErrorSpan>)

  const RequiredMessage := "This field is required"

  /** Record a verdict on a field: a pass marks it valid and hides and empties
      its error element; a failure marks it invalid and shows `message`. */
  function Mark(f: Field, ok: bool, message: string): Field {
    f.(marker := if ok then MarkedValid else MarkedInvalid,
       span := if f.span.None? then None
               else if ok then Some(ErrorSpan(true, ""))
               else Some(ErrorSpan(false, message)))
  }

  /** `validationCheck`: a field whose id has no rule is left as it is;
      otherwise the cleaned text is stored back, and the field is marked by
      whether the trimmed text matches the rule, showing the rule's message
      when it does not. */
  function ValidationCheck(f: Field): (g: Field)
    ensures g.id == f.id && g.span.Some? == f.span.Some?
    ensures f.id !in ValidationRules ==> g == f
    ensures f.id in ValidationRules ==> g.marker != Unmarked
    ensures f.id in ValidationRules && g.span.Some? ==>
              && (g.span.value.hidden <==> g.marker == MarkedValid)
              && g.span.value.text == if g.marker == MarkedValid then "" else ValidationRules[f.id].error
  {
    if f.id !in ValidationRules then f
    else
      var rule := ValidationRules[f.id];
      var cleaned := if rule.keep.Some? then Keep(f.value, rule.keep.value) else f.value;
      Mark(f.(value := cleaned), Matches(rule.pattern, Trim(cleaned)), rule.error)
  }

  /** The name field keeps its letters and white space, in order, as its new
      value, and passes exactly when that text, trimmed, is 2 to 30
      characters long. */
  lemma NameRule(f: Field)
    requires f.id == NameId
    ensures var g := ValidationCheck(f);
      && g.value == Keep(f.value, LetterOrSpace)
      && (g.marker == MarkedValid <==> NameMinLength <= |Trim(g.value)| <= NameMaxLength)
  {
    AllInTrim(Keep(f.value, LetterOrSpace), LetterOrSpace);
  }

  /** The phone field keeps its digits, in order, as its new value; that
      value has nothing to trim, and the field passes exactly when it holds
      10 to 15 digits. */
  lemma PhoneRule(f: Field)
    requires f.id == PhoneId
    ensures var g := ValidationCheck(f);
      && g.value == Keep(f.value, Digit)
      && Trim(g.value) == g.value
      && (g.marker == MarkedValid <==> PhoneMinDigits <= |g.value| <= PhoneMaxDigits)
  {
    var d := Keep(f.value, Digit);
    assert |d| > 0 ==> IsDigit(d[0]) && IsDigit(d[|d| - 1]);
    TrimNoOp(d);
  }

  /** The email field's value is never rewritten, and the field passes
      exactly when its trimmed text is in the language of the email regular
      expression, that is, when it is a non-empty local part over
      `[a-zA-Z0-9._%+-]`, one `@`, and at least two dot-separated labels over
      `[a-zA-Z0-9-]`, the last of them two or more letters. */
  lemma EmailRule(f: Field)
    requires f.id == EmailId
    ensures var g := ValidationCheck(f);
      && g.value == f.value
      && (g.marker == MarkedValid <==> EmailRegex(Trim(f.value)))
      && (g.marker == MarkedValid <==> EmailMatches(Trim(f.value)))
  {
    assert ValidationRules[EmailId] == Rule(EmailPattern, None, EmailError);
    EmailEquivalence(Trim(f.value));
  }

  /** The comment field's value is never rewritten, and the field passes
      exactly when its trimmed text is 5 to 300 characters with no line
      terminator among them. */
  lemma CommentRule(f: Field)
    requires f.id == CommentId
    ensures var g := ValidationCheck(f);
      var t := Trim(f.value);
      && g.value == f.value
      && (g.marker == MarkedValid <==>
            CommentMinLength <= |t| <= CommentMaxLength
            && forall i :: 0 <= i < |t| ==> !IsLineTerminator(t[i]))
  {
    assert ValidationRules[CommentId] == Rule(CommentPattern, None, CommentError);
  }

  /** Checking a field a second time changes nothing: cleanup is idempotent
      and the verdict depends only on the cleaned text. */
  lemma ValidationCheckIdempotent(f: Field)
    ensures ValidationCheck(ValidationCheck(f)) == ValidationCheck(f)
  {
    if f.id in ValidationRules {
      var rule := ValidationRules[f.id];
      if rule.keep.Some? {
        KeepIdempotent(f.value, rule.keep.value);
      }
    }
  }

  /** The verdict is recomputed, not merged: what the field showed before
      has no bearing on the result. */
  lemma ValidationCheckForgetsPrior(f: Field, f': Field)
    requires f.id in ValidationRules
    requires f.id == f'.id && f.value == f'.value && f.span.Some? == f'.span.Some?
    ensures ValidationCheck(f) == ValidationCheck(f')
  {
  }

  /** The outcome of `checkInput`: whether the field passed, and the field as
      it is left. */
  datatype Checked = Checked(ok: bool, field: Field)

  /** `checkInput`: a field passes when its trimmed value is non-empty, that
      is, when it holds a character that is not white space. A failure shows
      "This field is required"; a pass hides and empties the error element.
      The value itself is not changed. The source reads the error element
      without a guard, so the field must have one. */
  function CheckInput(f: Field): (r: Checked)
    requires f.span.Some?
    ensures r.field.id == f.id && r.field.value == f.value && r.field.span.Some?
    ensures r.ok <==> !AllIn(f.value, Whitespace)
    ensures r.field.marker == if r.ok then MarkedValid else MarkedInvalid
    ensures r.field.span.value == if r.ok then ErrorSpan(true, "") else ErrorSpan(false, RequiredMessage)
  {
    TrimEmptyIff(f.value);
    var ok := Trim(f.value) != [];
    Checked(ok, Mark(f, ok, RequiredMessage))
  }
}
