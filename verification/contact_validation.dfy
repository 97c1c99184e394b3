/** The contact form's validation rules (src/utils/contactValidation.ts):
    reading a form entry, the four field rules with their messages, the
    error record they build, and the validity test on it. */
module ContactValidation {
  import opened Optional
  import opened JsString
  import opened EmailPattern

  /** What `FormData.get` can hand over: a text value, an uploaded file, or
      nothing (`null` or `undefined`). */
  datatype FormEntry = TextEntry(text: string) | FileEntry | NoEntry

  /** `sanitizeValue`: a text entry is returned trimmed, anything else as
      the empty text. The result never has whitespace at its ends, it is empty exactly when there was
      no text or only whitespace, and sanitizing it again changes nothing. */
  function SanitizeValue(value: FormEntry): (r: string)
    ensures value.TextEntry? ==> r == Trim(value.text)
    ensures !value.TextEntry? ==> r == []
    ensures IsTrimmed(r)
    ensures r == [] <==> !value.TextEntry? || IsBlank(value.text)
    ensures value.TextEntry? ==> |r| <= |value.text|
    ensures Trim(r) == r
  {
    match value
    case TextEntry(text) =>
      TrimIdempotent(text);
      Trim(text)
    case _ => []
  }

  /** The phone pattern's class `[+()\-.\s\d]`. */
  predicate IsPhoneChar(c: char) {
    c in "+()-." || IsWhitespace(c) || IsAsciiDigit(c)
  }

  /** `phonePattern.test(s)`: seven or more phone characters and nothing else.
      Every phone character is a single UTF-16 code unit, so the pattern's
      `{7,}` counts characters. */
  predicate PhoneMatches(s: string)
    ensures PhoneMatches(s) ==> Utf16Length(s) == |s|
  {
    |s| >= 7 && forall k :: 0 <= k < |s| ==> IsPhoneChar(s[k])
  }

  datatype Field = Name | Email | Phone | Message

  datatype ContactFormValues = ContactFormValues(
    name: string,
    email: string,
    phone: Option<string>,
    message: string)

  /** The error record: the fields that failed, each with its message. */
  type ContactFormErrors = map<Field, string>

  const NameRequired := "Please enter your name."
  const EmailRequired := "Please enter your email address."
  const EmailInvalid := "Enter a valid email address."
  const PhoneInvalid := "Enter a valid phone number or leave it blank."
  const MessageRequired := "Let us know how we can help."
  const MessageTooShort := "Message should be at least 10 characters."
  const MinMessageLength := 10

  /** The name is required: it fails exactly when it is blank. */
  function NameError(name: string): (e: Option<string>)
    ensures e.Some? <==> IsBlank(name)
    ensures e.Some? ==> e.value == NameRequired
  {
    if Trim(name) == [] then Some(NameRequired) else None
  }

  /** The email is required and, trimmed, must match the email pattern. A
      blank email gets the "required" message and only a non-blank one the
      "invalid" message; it passes exactly when its trimmed text matches. */
  function EmailError(email: string): (e: Option<string>)
    ensures IsBlank(email) ==> e == Some(EmailRequired)
    ensures !IsBlank(email) && e.Some? ==> e.value == EmailInvalid
    ensures e.None? <==> Matches(Trim(email))
  {
    var t := Trim(email);
    if t == [] then Some(EmailRequired)
    else if !Matches(t) then Some(EmailInvalid)
    else None
  }

  /** The phone is optional: an absent or blank phone always passes, and a
      non-blank one fails exactly when its trimmed text does not match the
      phone pattern. */
  function PhoneError(phone: Option<string>): (e: Option<string>)
    ensures e.Some? <==> phone.Some? && !IsBlank(phone.value) && !PhoneMatches(Trim(phone.value))
    ensures e.Some? ==> e.value == PhoneInvalid
  {
    var t := if phone.Some? then Trim(phone.value) else [];
    if t != [] && !PhoneMatches(t) then Some(PhoneInvalid) else None
  }

  /** The message is required and, trimmed, must be at least 10 UTF-16 code
      units long. A blank message gets the "required" message and only a
      non-blank short one the "too short" message. */
  function MessageError(message: string): (e: Option<string>)
    ensures IsBlank(message) ==> e == Some(MessageRequired)
    ensures !IsBlank(message) && e.Some? ==> e.value == MessageTooShort
    ensures e.None? <==> Utf16Length(Trim(message)) >= MinMessageLength
  {
    var t := Trim(message);
    if t == [] then Some(MessageRequired)
    else if Utf16Length(t) < MinMessageLength then Some(MessageTooShort)
    else None
  }

  /** The rule of one field. */
  function FieldError(values: ContactFormValues, f: Field): Option<string> {
    match f
    case Name => NameError(values.name)
    case Email => EmailError(values.email)
    case Phone => PhoneError(values.phone)
    case Message => MessageError(values.message)
  }

  /** Records a failed rule's message under its field. */
  function Note(errors: ContactFormErrors, f: Field, e: Option<string>): ContactFormErrors {
    if e.Some? then errors[f := e.value] else errors
  }

  /** The record the four rules' outcomes build, in the source's order. */
  function NoteAll(name: Option<string>, email: Option<string>, phone: Option<string>, message: Option<string>)
    : ContactFormErrors
  {
    Note(Note(Note(Note(map[], Name, name), Email, email), Phone, phone), Message, message)
  }

  /** Each field of the built record carries exactly its own rule's outcome. */
  lemma NoteAllFields(name: Option<string>, email: Option<string>, phone: Option<string>, message: Option<string>)
    ensures var errors := NoteAll(name, email, phone, message);
      && errors.Keys <= {Name, Email, Phone, Message}
      && (Name in errors <==> name.Some?) && (Name in errors ==> errors[Name] == name.value)
      && (Email in errors <==> email.Some?) && (Email in errors ==> errors[Email] == email.value)
      && (Phone in errors <==> phone.Some?) && (Phone in errors ==> errors[Phone] == phone.value)
      && (Message in errors <==> message.Some?) && (Message in errors ==> errors[Message] == message.value)
  {
  }

  /** `validateContactForm`: the rules run name, email, phone, message, each
      adding its field when it fails. The record holds exactly the fields
      whose rule fails, each with that rule's message. */
  function ValidateContactForm(values: ContactFormValues): (errors: ContactFormErrors)
    ensures errors.Keys <= {Name, Email, Phone, Message}
    ensures Name in errors <==> NameError(values.name).Some?
    ensures Email in errors <==> EmailError(values.email).Some?
    ensures Phone in errors <==> PhoneError(values.phone).Some?
    ensures Message in errors <==> MessageError(values.message).Some?
    ensures Name in errors ==> errors[Name] == NameError(values.name).value
    ensures Email in errors ==> errors[Email] == EmailError(values.email).value
    ensures Phone in errors ==> errors[Phone] == PhoneError(values.phone).value
    ensures Message in errors ==> errors[Message] == MessageError(values.message).value
  {
    var name, email, phone, message :=
      NameError(values.name), EmailError(values.email), PhoneError(values.phone), MessageError(values.message);
    NoteAllFields(name, email, phone, message);
    NoteAll(name, email, phone, message)
  }

  /** The entry of any one field is that field's rule outcome. */
  lemma FieldEntry(values: ContactFormValues, f: Field)
    ensures f in ValidateContactForm(values) <==> FieldError(values, f).Some?
    ensures f in ValidateContactForm(values) ==> ValidateContactForm(values)[f] == FieldError(values, f).value
  {
    match f
    case Name =>
    case Email =>
    case Phone =>
    case Message =>
  }

  /** `isValid`: the record has no fields. */
  function IsValid(errors: ContactFormErrors): (r: bool)
    ensures r <==> errors == map[]
  {
    |errors| == 0
  }

  /** A submission the form accepts, stated field by field on the raw
      values: a non-blank name, a trimmed email that matches the email
      pattern, a phone that is absent, blank or a trimmed match of the phone
      pattern, and a trimmed message of at least 10 code units. */
  predicate Acceptable(values: ContactFormValues) {
    && !IsBlank(values.name)
    && Matches(Trim(values.email))
    && (values.phone.None? || IsBlank(values.phone.value) || PhoneMatches(Trim(values.phone.value)))
    && Utf16Length(Trim(values.message)) >= MinMessageLength
  }

  /** A submission is valid exactly when it is acceptable. */
  lemma ValidIffAcceptable(values: ContactFormValues)
    ensures IsValid(ValidateContactForm(values)) <==> Acceptable(values)
  {
    var errors := ValidateContactForm(values);
    if IsValid(errors) {
      assert Name !in errors && Email !in errors && Phone !in errors && Message !in errors;
    } else {
      var f :| f in errors;
      FieldEntry(values, f);
    }
  }

  /** Each field's entry depends on that field alone: changing one field
      leaves the other fields' entries as they were. */
  lemma FieldLocality(values: ContactFormValues, changed: ContactFormValues, f: Field)
    requires f == Name ==> changed.name == values.name
    requires f == Email ==> changed.email == values.email
    requires f == Phone ==> changed.phone == values.phone
    requires f == Message ==> changed.message == values.message
    ensures f in ValidateContactForm(changed) <==> f in ValidateContactForm(values)
    ensures f in ValidateContactForm(values) ==> ValidateContactForm(changed)[f] == ValidateContactForm(values)[f]
  {
    FieldEntry(values, f);
    FieldEntry(changed, f);
    assert FieldError(changed, f) == FieldError(values, f);
  }

  /** The values with every field's text passed through `sanitizeValue`; an
      absent phone stays absent. */
  function SanitizedValues(values: ContactFormValues): ContactFormValues {
    ContactFormValues(
      SanitizeValue(TextEntry(values.name)),
      SanitizeValue(TextEntry(values.email)),
      if values.phone.Some? then Some(SanitizeValue(TextEntry(values.phone.value))) else None,
      SanitizeValue(TextEntry(values.message)))
  }

  /** Each rule looks only at the trimmed text of its field. */
  lemma RulesSeeTrimmedText(a: string, b: string)
    requires Trim(a) == Trim(b)
    ensures NameError(a) == NameError(b)
    ensures EmailError(a) == EmailError(b)
    ensures PhoneError(Some(a)) == PhoneError(Some(b))
    ensures MessageError(a) == MessageError(b)
  {
    NameSeesTrimmedText(a, b);
    EmailSeesTrimmedText(a, b);
    PhoneSeesTrimmedText(a, b);
    MessageSeesTrimmedText(a, b);
  }

  lemma NameSeesTrimmedText(a: string, b: string)
    requires Trim(a) == Trim(b)
    ensures NameError(a) == NameError(b)
  {
  }

  lemma EmailSeesTrimmedText(a: string, b: string)
    requires Trim(a) == Trim(b)
    ensures EmailError(a) == EmailError(b)
  {
  }

  lemma PhoneSeesTrimmedText(a: string, b: string)
    requires Trim(a) == Trim(b)
    ensures PhoneError(Some(a)) == PhoneError(Some(b))
  {
  }

  lemma MessageSeesTrimmedText(a: string, b: string)
    requires Trim(a) == Trim(b)
    ensures MessageError(a) == MessageError(b)
  {
  }

  /** The record is built from the four rules' outcomes alone. */
  lemma RecordOfOutcomes(values: ContactFormValues)
    ensures ValidateContactForm(values) ==
      NoteAll(NameError(values.name), EmailError(values.email), PhoneError(values.phone), MessageError(values.message))
  {
  }

  /** Two submissions whose four rules end alike get the same record. */
  lemma SameOutcomesSameRecord(a: ContactFormValues, b: ContactFormValues)
    requires NameError(a.name) == NameError(b.name)
    requires EmailError(a.email) == EmailError(b.email)
    requires PhoneError(a.phone) == PhoneError(b.phone)
    requires MessageError(a.message) == MessageError(b.message)
    ensures ValidateContactForm(a) == ValidateContactForm(b)
  {
    RecordOfOutcomes(a);
    RecordOfOutcomes(b);
  }

  /** Each rule judges a sanitized field as it judges the raw one. */
  lemma SanitizedFieldAlike(s: string)
    ensures var clean := SanitizeValue(TextEntry(s));
      && NameError(clean) == NameError(s)
      && EmailError(clean) == EmailError(s)
      && PhoneError(Some(clean)) == PhoneError(Some(s))
      && MessageError(clean) == MessageError(s)
  {
    TrimIdempotent(s);
    RulesSeeTrimmedText(SanitizeValue(TextEntry(s)), s);
  }

  /** Validating values that were already sanitized gives the same record
      as validating the raw ones. */
  lemma SanitizedValidatesAlike(values: ContactFormValues)
    ensures ValidateContactForm(SanitizedValues(values)) == ValidateContactForm(values)
  {
    SanitizedFieldAlike(values.name);
    SanitizedFieldAlike(values.email);
    SanitizedFieldAlike(values.message);
    if values.phone.Some? {
      SanitizedFieldAlike(values.phone.value);
    }
    SameOutcomesSameRecord(SanitizedValues(values), values);
  }
}
