/** Worked inputs for each rule and for the submit gate, evaluated on the
    model. */
module Examples {
  import opened Wrappers
  import opened Chars
  import opened Strings
  import opened Patterns
  import opened Rules
  import opened Validation
  import opened Form

  /** A field as the page first shows it. */
  function Fresh(id: string, value: string): Field {
    Field(id, value, Unmarked, Some(ErrorSpan(true, "")))
  }

  // Facts about concrete strings, each proved on its own so that no proof
  // has to evaluate more than a few characters at once.

  lemma KeepLettersOfJohn()
    ensures Keep("John", LetterOrSpace) == "John"
  {
  }

  lemma KeepLettersOf123()
    ensures Keep("123", LetterOrSpace) == []
  {
  }

  lemma CleanJohn()
    ensures Keep("John123", LetterOrSpace) == "John"
  {
    assert "John123" == "John" + "123";
    KeepLettersOfJohn();
    KeepLettersOf123();
    KeepAppend("John", "123", LetterOrSpace);
  }

  lemma TrimJohn()
    ensures Trim("John") == "John"
  {
  }

  lemma ShortNames()
    ensures Keep("Jo", LetterOrSpace) == "Jo" && Trim("Jo") == "Jo"
    ensures Keep("J", LetterOrSpace) == "J" && Trim("J") == "J"
  {
  }

  lemma KeepConcat4(a: string, b: string, c: string, d: string, k: CharClass)
    ensures Keep(a + (b + (c + d)), k) == Keep(a, k) + (Keep(b, k) + (Keep(c, k) + Keep(d, k)))
  {
    KeepAppend(c, d, k);
    KeepAppend(b, c + d, k);
    KeepAppend(a, b + (c + d), k);
  }

  lemma PhonePieces()
    ensures "abc123-456-7890" == "abc" + ("123-" + ("456-" + "7890"))
    ensures "1234567890" == [] + ("123" + ("456" + "7890"))
  {
  }

  lemma KeepDigitsOfAbc()
    ensures Keep("abc", Digit) == []
  {
  }

  lemma KeepDigitsOf123()
    ensures Keep("123-", Digit) == "123"
  {
  }

  lemma KeepDigitsOf456()
    ensures Keep("456-", Digit) == "456"
  {
  }

  lemma KeepDigitsOf7890()
    ensures Keep("7890", Digit) == "7890"
  {
  }

  lemma CleanPhone()
    ensures Keep("abc123-456-7890", Digit) == "1234567890"
  {
    PhonePieces();
    KeepDigitsOfAbc();
    KeepDigitsOf123();
    KeepDigitsOf456();
    KeepDigitsOf7890();
    KeepConcat4("abc", "123-", "456-", "7890", Digit);
  }

  lemma CleanShortPhone()
    ensures Keep("12345", Digit) == "12345"
  {
  }

  lemma TrimShortPhone()
    ensures Trim("12345") == "12345"
  {
  }

  /** A label, a dot and a final label make a domain. */
  lemma TwoLabelDomain(l: string, t: string)
    requires IsLabel(l) && IsTopLevel(t)
    ensures DomainMatches(l + ['.'] + t)
  {
    var d := l + ['.'] + t;
    NoneOutside(l, LabelChar, '.');
    NoneOutside(t, AsciiLetter, '.');
    assert d[|l|] == '.' && d[..|l|] == l && d[|l| + 1..] == t;
    FirstIndexUnique(d, '.', |l|);
  }

  /** A local part, `@` and a domain make an address, and an address split
      at its only `@` has a domain after it. */
  lemma Address(l: string, d: string)
    requires IsLocalPart(l)
    ensures EmailMatches(l + ['@'] + d) <==> DomainMatches(d)
  {
    var s := l + ['@'] + d;
    NoneOutside(l, LocalPartChar, '@');
    assert s[|l|] == '@' && s[..|l|] == l && s[|l| + 1..] == d;
    FirstIndexUnique(s, '@', |l|);
  }

  lemma AddressPieces()
    ensures "a@b.com" == "a" + ['@'] + ("b" + ['.'] + "com")
    ensures "a@b" == "a" + ['@'] + "b"
  {
  }

  lemma AddressParts()
    ensures IsLocalPart("a") && IsLabel("b") && IsTopLevel("com")
  {
  }

  lemma AddressesTrimmed()
    ensures Trim("a@b.com") == "a@b.com" && Trim("a@b") == "a@b"
  {
  }

  lemma SingleLabel()
    ensures !DomainMatches("b")
  {
  }

  /** "John123" is cleaned to "John" and accepted. */
  lemma NameWithDigits()
    ensures ValidationCheck(Fresh(NameId, "John123")) == Field(NameId, "John", MarkedValid, Some(ErrorSpan(true, "")))
  {
    CleanJohn();
    TrimJohn();
    NameRule(Fresh(NameId, "John123"));
  }

  /** "Jo" is accepted and "J" is too short. */
  lemma NameLengths()
    ensures ValidationCheck(Fresh(NameId, "Jo")).marker == MarkedValid
    ensures ValidationCheck(Fresh(NameId, "J")).marker == MarkedInvalid
  {
    ShortNames();
    NameRule(Fresh(NameId, "Jo"));
    NameRule(Fresh(NameId, "J"));
  }

  /** "abc123-456-7890" is cleaned to ten digits and accepted. */
  lemma PhoneWithPunctuation()
    ensures ValidationCheck(Fresh(PhoneId, "abc123-456-7890")) ==
            Field(PhoneId, "1234567890", MarkedValid, Some(ErrorSpan(true, "")))
  {
    CleanPhone();
    PhoneAccepted(Fresh(PhoneId, "abc123-456-7890"), "1234567890");
  }

  lemma PhoneAccepted(f: Field, digits: string)
    requires f.id == PhoneId && f.span.Some?
    requires Keep(f.value, Digit) == digits && PhoneMinDigits <= |digits| <= PhoneMaxDigits
    ensures ValidationCheck(f) == Field(PhoneId, digits, MarkedValid, Some(ErrorSpan(true, "")))
  {
    PhoneRule(f);
  }

  /** "12345" is too short for a phone number. */
  lemma PhoneTooShort()
    ensures ValidationCheck(Fresh(PhoneId, "12345")) ==
            Field(PhoneId, "12345", MarkedInvalid, Some(ErrorSpan(false, PhoneError)))
  {
    CleanShortPhone();
    PhoneRule(Fresh(PhoneId, "12345"));
  }

  /** "a@b.com" is an address ... */
  lemma EmailAccepted()
    ensures ValidationCheck(Fresh(EmailId, "a@b.com")).marker == MarkedValid
  {
    AddressPieces();
    AddressParts();
    AddressesTrimmed();
    TwoLabelDomain("b", "com");
    Address("a", "b" + ['.'] + "com");
    EmailRule(Fresh(EmailId, "a@b.com"));
  }

  /** ... while "a@b" has a single domain label and is not. */
  lemma EmailRejected()
    ensures ValidationCheck(Fresh(EmailId, "a@b")).marker == MarkedInvalid
  {
    AddressPieces();
    AddressParts();
    AddressesTrimmed();
    SingleLabel();
    Address("a", "b");
    EmailRule(Fresh(EmailId, "a@b"));
  }

  /** A blank name, checked as it is typed, shows the name rule's message;
      only the submit-time check says "This field is required". */
  lemma BlankName()
    ensures ValidationCheck(Fresh(NameId, "  ")).span == Some(ErrorSpan(false, NameError))
    ensures CheckInput(Fresh(NameId, "  ")).field.span == Some(ErrorSpan(false, RequiredMessage))
  {
    assert Keep("  ", LetterOrSpace) == "  ";
    TrimAllWhitespace("  ");
    NameRule(Fresh(NameId, "  "));
  }

  /** A page whose phone number the pattern rejects, every field filled. */
  function MismatchPage(): Page {
    Page([Fresh(NameId, "John"), Fresh(EmailId, "a@b.com"),
          Fresh(PhoneId, "12345"), Fresh(CommentId, "Hello there")],
         false, true, Banner(true, "", ""))
  }

  /** The phone number of that page fails its pattern as it is typed ... */
  lemma MismatchPhoneRejected()
    ensures ValidationCheck(MismatchPage().fields[2]).marker == MarkedInvalid
  {
    assert MismatchPage().fields[2] == Fresh(PhoneId, "12345");
    PhoneTooShort();
  }

  lemma NoneBlank()
    ensures !AllIn("John", Whitespace) && !AllIn("a@b.com", Whitespace)
    ensures !AllIn("12345", Whitespace) && !AllIn("Hello there", Whitespace)
  {
    assert !IsWhitespace("John"[0]);
    assert !IsWhitespace("a@b.com"[0]);
    assert !IsWhitespace("12345"[0]);
    assert !IsWhitespace("Hello there"[0]);
  }

  /** ... yet submitting the page, with storage working, sends it: of the
      checks, only blank fields block. */
  lemma MismatchPageSent()
    ensures Submit(MismatchPage(), true).Sent?
    ensures Submit(MismatchPage(), true).payload.phoneNumber == "12345"
  {
    var p := MismatchPage();
    NoneBlank();
    assert forall i :: 0 <= i < |p.fields| ==> !AllIn(p.fields[i].value, Whitespace);
    TrimShortPhone();
    assert p.fields[2].value == "12345";
  }
}
