/** Character classes of the contact form's regular expressions (js/contact.js).
    A `char` stands for one character of the field's text. */
module Chars {

  /** The line terminators of ECMAScript: LF, CR, LINE SEPARATOR and
      PARAGRAPH SEPARATOR. A regular-expression `.` matches any character but
      these. */
  predicate IsLineTerminator(c: char) {
    c == '\n' || c == '\r' || c == '\U{2028}' || c == '\U{2029}'
  }

  /** ECMAScript white space and line terminators. The same set is matched by
      the regular-expression class `\s` and stripped by `String.prototype.trim`,
      so the model uses this one predicate for both. */
  predicate IsWhitespace(c: char) {
    || c == '\t' || c == '\U{000B}' || c == '\U{000C}' || c == ' '
    || c == '\U{00A0}' || c == '\U{FEFF}' || c == '\U{1680}'
    || ('\U{2000}' <= c <= '\U{200A}')
    || c == '\U{202F}' || c == '\U{205F}' || c == '\U{3000}'
    || IsLineTerminator(c)
  }

  /** `[a-zA-Z]` */
  predicate IsAsciiLetter(c: char) {
    'a' <= c <= 'z' || 'A' <= c <= 'Z'
  }

  /** `\d`, the ASCII digits `[0-9]`. */
  predicate IsDigit(c: char) {
    '0' <= c <= '9'
  }

  /** The character classes the form's rules are written with. */
  datatype CharClass =
    | Whitespace       // \s
    | AsciiLetter      // [a-zA-Z]
    | Digit            // \d
    | LetterOrSpace    // [a-zA-Z\s], what the name cleanup keeps
    | LocalPartChar    // [a-zA-Z0-9._%+-], the email local part
    | LabelChar        // [a-zA-Z0-9-], one email domain label
    | NotLineTerminator // ., without the `s` flag

  predicate In(k: CharClass, c: char) {
    match k
    case Whitespace => IsWhitespace(c)
    case AsciiLetter => IsAsciiLetter(c)
    case Digit => IsDigit(c)
    case LetterOrSpace => IsAsciiLetter(c) || IsWhitespace(c)
    case LocalPartChar =>
      IsAsciiLetter(c) || IsDigit(c) || c == '.' || c == '_' || c == '%' || c == '+' || c == '-'
    case LabelChar => IsAsciiLetter(c) || IsDigit(c) || c == '-'
    case NotLineTerminator => !IsLineTerminator(c)
  }
}
