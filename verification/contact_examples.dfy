/** Worked submissions for the contact form's rules
    (src/utils/contactValidation.ts:14-51): a valid sample, missing fields,
    malformed email and phone, an empty optional phone, and sanitizing. */
module ContactExamples {
  import opened Optional
  import opened JsString
  import opened EmailPattern
  import opened ContactValidation

  /** The form's usual valid submission. */
  const SampleValues := ContactFormValues(
    "Taylor Strong",
    "taylor@example.com",
    Some("201-555-1234"),
    "Interested in a 1:1 " + "training session next week.")

  /** The sample address matches the email pattern. */
  lemma SampleEmailMatches()
    ensures Matches("taylor@example.com")
  {
    assert IsAtom("taylor") && IsLabel("example") && IsTld("com");
    assert Join(["example", "com"], '.') == "example" + ['.'] + Join(["com"], '.');
    assert ["example"] + ["com"] == ["example", "com"];
    assert Compose(["taylor"], ["example"], "com") == "taylor@example.com";
    ComposedMatches(["taylor"], ["example"], "com");
  }

  lemma SampleNameAccepted()
    ensures NameError(SampleValues.name) == None
  {
    assert !IsWhitespace(SampleValues.name[0]);
  }

  lemma SampleEmailAccepted()
    ensures EmailError(SampleValues.email) == None
  {
    TrimmedFixed(SampleValues.email);
    SampleEmailMatches();
  }

  lemma SamplePhoneAccepted()
    ensures PhoneError(SampleValues.phone) == None
  {
    TrimmedFixed(SampleValues.phone.value);
    assert PhoneMatches(SampleValues.phone.value);
  }

  lemma SampleMessageAccepted()
    ensures MessageError(SampleValues.message) == None
  {
    var m := SampleValues.message;
    assert |m| == 47 && m[0] == 'I' && m[46] == '.';
    TrimmedFixed(m);
  }

  /** The sample submission has no errors. */
  lemma SampleIsValid()
    ensures ValidateContactForm(SampleValues) == map[]
  {
    SampleNameAccepted();
    SampleEmailAccepted();
    SamplePhoneAccepted();
    SampleMessageAccepted();
    assert ValidateContactForm(SampleValues).Keys == {};
  }

  /** Blank name, email and phone with a five-letter message. */
  const MissingFields := SampleValues.(name := "", email := "", phone := Some(""), message := "short")

  /** A trimmed, non-empty message shorter than 10 code units is too short. */
  lemma ShortMessageReported(m: string)
    requires IsTrimmed(m) && m != [] && Utf16Length(m) < MinMessageLength
    ensures MessageError(m) == Some(MessageTooShort)
  {
    TrimmedFixed(m);
  }

  /** The name and the email are reported as missing, the message as too
      short, and the blank phone is not reported. */
  lemma MissingFieldsReported()
    ensures var errors := ValidateContactForm(MissingFields);
      && Name in errors
      && errors[Email] == EmailRequired
      && Phone !in errors
      && errors[Message] == MessageTooShort
      && !IsValid(errors)
  {
    assert Utf16Length("short") == 5;
    ShortMessageReported("short");
    assert NameError(MissingFields.name).Some?;
    assert EmailError(MissingFields.email) == Some(EmailRequired);
    assert PhoneError(MissingFields.phone).None?;
  }

  /** A trimmed, non-empty email without "@" is invalid. */
  lemma MalformedEmailReported(e: string)
    requires IsTrimmed(e) && e != [] && '@' !in e
    ensures EmailError(e) == Some(EmailInvalid)
  {
    TrimmedFixed(e);
  }

  /** A trimmed, non-empty phone that does not match is invalid. */
  lemma MalformedPhoneReported(p: string)
    requires IsTrimmed(p) && p != [] && !PhoneMatches(p)
    ensures PhoneError(Some(p)) == Some(PhoneInvalid)
  {
    TrimmedFixed(p);
  }

  /** An email without "@" is reported as invalid. */
  lemma InvalidEmailReported()
    ensures EmailError("invalid-email") == Some(EmailInvalid)
  {
    MalformedEmailReported("invalid-email");
  }

  /** A three-letter phone is reported as invalid. */
  lemma InvalidPhoneReported()
    ensures PhoneError(Some("abc")) == Some(PhoneInvalid)
  {
    MalformedPhoneReported("abc");
  }

  /** An empty phone leaves the sample submission valid. */
  lemma EmptyPhoneIgnored()
    ensures var errors := ValidateContactForm(SampleValues.(phone := Some("")));
      && Phone !in errors
      && IsValid(errors)
  {
    SampleIsValid();
    ValidIffAcceptable(SampleValues);
    ValidIffAcceptable(SampleValues.(phone := Some("")));
  }

  /** Sanitizing trims the sample text. */
  lemma SanitizeSamples()
    ensures SanitizeValue(TextEntry("   hello  ")) == "hello"
  {
    var s := "   hello  ";
    assert s[..3] == "   " && s[3..8] == "hello" && s[8..] == "  ";
    assert IsBlank("   ") && IsBlank("  ") && IsTrimmed("hello");
    TrimUnique(s, 3, 8);
  }

  /** Sanitizing `null` or `undefined`, both a missing entry, gives the empty
      string. */
  lemma SanitizeMissing()
    ensures SanitizeValue(NoEntry) == ""
  {
  }
}
