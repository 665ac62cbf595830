/** The four anchored regular expressions of the form's validation rules
    (js/contact.js:83, 88, 92, 97), as recognisers over a whole string. */
module Patterns {
  import opened Chars
  import opened Strings

  const NameMinLength := 2
  const NameMaxLength := 30
  const PhoneMinDigits := 10
  const PhoneMaxDigits := 15
  const CommentMinLength := 5
  const CommentMaxLength := 300
  const TopLevelMinLength := 2

  /** `/^[a-zA-Z\s]{2,30}$/` */
  predicate NameMatches(t: string) {
    NameMinLength <= |t| <= NameMaxLength && AllIn(t, LetterOrSpace)
  }

  /** `/^\d{10,15}$/` */
  predicate PhoneMatches(t: string) {
    PhoneMinDigits <= |t| <= PhoneMaxDigits && AllIn(t, Digit)
  }

  /** `/^.{5,300}$/`: no flags, so `.` stops at a line terminator. */
  predicate CommentMatches(t: string) {
    CommentMinLength <= |t| <= CommentMaxLength && AllIn(t, NotLineTerminator)
  }

  /** One domain label, `[a-zA-Z0-9-]+`. */
  predicate IsLabel(l: string) {
    |l| >= 1 && AllIn(l, LabelChar)
  }

  /** The final label, `[a-zA-Z]{2,}`. */
  predicate IsTopLevel(l: string) {
    |l| >= TopLevelMinLength && AllIn(l, AsciiLetter)
  }

  /** The local part, `[a-zA-Z0-9._%+-]+`. */
  predicate IsLocalPart(l: string) {
    |l| >= 1 && AllIn(l, LocalPartChar)
  }

  /** A domain, read left to right: the text up to the first dot is a
      label, and what follows that dot is either another domain or, when it
      holds no dot, the final label. */
  predicate DomainMatches(d: string)
    decreases |d|
  {
    && '.' in d
    && var k := FirstIndex(d, '.');
    && IsLabel(d[..k])
    && var rest := d[k + 1..];
    && if '.' in rest then DomainMatches(rest) else IsTopLevel(rest)
  }

  /** An address is a local part, `@`, and a domain. */
  predicate EmailMatches(s: string) {
    && '@' in s
    && var i := FirstIndex(s, '@');
    && IsLocalPart(s[..i])
    && DomainMatches(s[i + 1..])
  }

  /** The language of `(?:[a-zA-Z0-9-]+\.)+[a-zA-Z]{2,}`, read off the
      regular expression: one label and a dot, followed either by the final
      letters or by another match of the same group. */
  ghost predicate DomainRegex(d: string)
    decreases |d|
  {
    exists k :: 0 < k < |d| && d[k] == '.' && IsLabel(d[..k])
      && (IsTopLevel(d[k + 1..]) || DomainRegex(d[k + 1..]))
  }

  /** The language of
      `/^[a-zA-Z0-9._%+-]+@(?:[a-zA-Z0-9-]+\.)+[a-zA-Z]{2,}$/`: some split of
      the text at an `@` into a local part and a domain. */
  ghost predicate EmailRegex(s: string) {
    exists i :: 0 <= i < |s| && s[i] == '@' && IsLocalPart(s[..i]) && DomainRegex(s[i + 1..])
  }

  lemma NoneOutside(s: string, k: CharClass, c: char)
    requires AllIn(s, k) && !In(k, c)
    ensures c !in s
  {
  }

  lemma {:induction false} DomainMatchesIsRegex(d: string)
    requires DomainMatches(d)
    ensures DomainRegex(d)
    decreases |d|
  {
    var k := FirstIndex(d, '.');
    var rest := d[k + 1..];
    if '.' in rest {
      DomainMatchesIsRegex(rest);
    }
    assert 0 < k < |d| && d[k] == '.' && IsLabel(d[..k])
      && (IsTopLevel(rest) || DomainRegex(rest));
  }

  /** A dot after a label is the first dot. */
  lemma FirstDotAt(d: string, k: nat)
    requires k < |d| && d[k] == '.' && IsLabel(d[..k])
    ensures '.' in d && FirstIndex(d, '.') == k
  {
    NoneOutside(d[..k], LabelChar, '.');
    FirstIndexUnique(d, '.', k);
  }

  lemma {:induction false} DomainRegexMatches(d: string)
    requires DomainRegex(d)
    ensures DomainMatches(d)
    decreases |d|
  {
    var k :| 0 < k < |d| && d[k] == '.' && IsLabel(d[..k])
      && (IsTopLevel(d[k + 1..]) || DomainRegex(d[k + 1..]));
    var rest := d[k + 1..];
    FirstDotAt(d, k);
    if IsTopLevel(rest) {
      NoneOutside(rest, AsciiLetter, '.');
    } else {
      DomainRegexMatches(rest);
    }
  }

  /** The first-dot reading of the domain is the regular expression's. */
  lemma DomainEquivalence(d: string)
    ensures DomainMatches(d) <==> DomainRegex(d)
  {
    if DomainMatches(d) {
      DomainMatchesIsRegex(d);
    }
    if DomainRegex(d) {
      DomainRegexMatches(d);
    }
  }

  lemma EmailMatchesIsRegex(s: string)
    requires EmailMatches(s)
    ensures EmailRegex(s)
  {
    var i := FirstIndex(s, '@');
    DomainMatchesIsRegex(s[i + 1..]);
  }

  /** An `@` after a local part is the first `@`. */
  lemma FirstAtSignAt(s: string, i: nat)
    requires i < |s| && s[i] == '@' && IsLocalPart(s[..i])
    ensures '@' in s && FirstIndex(s, '@') == i
  {
    NoneOutside(s[..i], LocalPartChar, '@');
    FirstIndexUnique(s, '@', i);
  }

  lemma EmailRegexMatches(s: string)
    requires EmailRegex(s)
    ensures EmailMatches(s)
  {
    var i :| 0 <= i < |s| && s[i] == '@' && IsLocalPart(s[..i]) && DomainRegex(s[i + 1..]);
    FirstAtSignAt(s, i);
    DomainRegexMatches(s[i + 1..]);
  }

  /** The executable recogniser accepts exactly the regular expression's
      language. */
  lemma EmailEquivalence(s: string)
    ensures EmailMatches(s) <==> EmailRegex(s)
  {
    if EmailMatches(s) {
      EmailMatchesIsRegex(s);
    }
    if EmailRegex(s) {
      EmailRegexMatches(s);
    }
  }
}
