/** The form's table of validation rules, `validationRules`
    (js/contact.js:81-100). */
module Rules {
  import opened Wrappers
  import opened Chars
  import opened Patterns

  /** Which of the four regular expressions a rule tests. */
  datatype Pattern = NamePattern | EmailPattern | PhonePattern | CommentPattern

  /** A rule: the pattern the trimmed value must match, the class of
      characters its cleanup keeps (the source writes the complement, the
      class of characters it deletes), and the message shown on a mismatch. */
  datatype Rule = Rule(pattern: Pattern, keep: Option<CharClass>, error: string)

  predicate Matches(p: Pattern, t: string) {
    match p
    case NamePattern => NameMatches(t)
    case EmailPattern => EmailMatches(t)
    case PhonePattern => PhoneMatches(t)
    case CommentPattern => CommentMatches(t)
  }

  const NameId := "name"
  const EmailId := "email-address"
  const PhoneId := "phone-number"
  const CommentId := "comment-box"

  const NameError := "Name must be 2\U{2013}30 letters only."
  const EmailError := "Enter a valid email address."
  const PhoneError := "Phone number must be 10\U{2013}15 digits."
  const CommentError := "Comment must be between 5 and 300 characters."

  /** The rules, keyed by the id of the input element they apply to. */
  const ValidationRules: map<string, Rule> := map[
    NameId := Rule(NamePattern, Some(LetterOrSpace), NameError),
    EmailId := Rule(EmailPattern, None, EmailError),
    PhoneId := Rule(PhonePattern, Some(Digit), PhoneError),
    CommentId := Rule(CommentPattern, None, CommentError)
  ]
}
