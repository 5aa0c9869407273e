/**
 * The contact form: four text fields, the per-field regex rules applied to
 * the trimmed values, the validator that turns a form into an error record,
 * and the form component's state changes on typing and on submit.
 */
module ContactForm {
  import opened Wrappers
  import opened JsText

  datatype Field = Name | Email | Subject | Message

  datatype FormData = FormData(name: string, email: string, subject: string, message: string) {

    function Get(f: Field): string {
      match f
      case Name => name
      case Email => email
      case Subject => subject
      case Message => message
    }

    /** `{ ...prev, [f]: v }`: the named field replaced, the others kept. */
    function With(f: Field, v: string): (r: FormData)
      ensures r.Get(f) == v
      ensures forall g :: g != f ==> r.Get(g) == Get(g)
    {
      match f
      case Name => this.(name := v)
      case Email => this.(email := v)
      case Subject => this.(subject := v)
      case Message => this.(message := v)
    }
  }

  const EmptyForm := FormData("", "", "", "")

  // ------------------------------------------------------------- patterns

  predicate IsNameChar(c: char) {
    IsAsciiLetter(c) || IsSpace(c)
  }

  /** `[a-zA-Z0-9._%+-]` */
  predicate IsLocalChar(c: char) {
    IsAsciiLetter(c) || IsDigit(c) || c == '.' || c == '_' || c == '%' || c == '+' || c == '-'
  }

  /** `[a-zA-Z0-9.-]` */
  predicate IsDomainChar(c: char) {
    IsAsciiLetter(c) || IsDigit(c) || c == '.' || c == '-'
  }

  predicate AllLocal(s: string) {
    forall i :: 0 <= i < |s| ==> IsLocalChar(s[i])
  }

  predicate AllDomain(s: string) {
    forall i :: 0 <= i < |s| ==> IsDomainChar(s[i])
  }

  predicate AllLetters(s: string) {
    forall i :: 0 <= i < |s| ==> IsAsciiLetter(s[i])
  }

  /** `/^[a-zA-Z\s]{2,50}$/` */
  predicate NamePattern(t: string) {
    2 <= |t| <= 50 && forall i :: 0 <= i < |t| ==> IsNameChar(t[i])
  }

  /** `/^.{lo,hi}$/`: without the `s` flag, `.` matches anything but a line terminator. */
  predicate LinePattern(t: string, lo: nat, hi: nat) {
    lo <= |t| <= hi && forall i :: 0 <= i < |t| ==> !IsLineTerminator(t[i])
  }

  /** The language of `/^[a-zA-Z0-9._%+-]+@[a-zA-Z0-9.-]+\.[a-zA-Z]{2,}$/`:
      a non-empty local part, `@`, a non-empty domain part, `.`, and two or
      more letters up to the end. */
  ghost predicate EmailLanguage(t: string) {
    exists i, j ::
      && 0 < i && i + 1 < j && j + 2 < |t|
      && t[i] == '@' && t[j] == '.'
      && AllLocal(t[..i]) && AllDomain(t[i + 1..j]) && AllLetters(t[j + 1..])
  }

  /** A matcher for the email regex: split at the first `@`, then at the
      last `.` of what follows it. */
  predicate MatchesEmail(t: string) {
    var i := IndexOf(t, '@');
    && 0 < i
    && AllLocal(t[..i])
    && var rest := t[i + 1..];
       var j := LastIndexOf(rest, '.');
       && 0 < j && j + 2 < |rest|
       && AllDomain(rest) && AllLetters(rest[j + 1..])
  }

  /** The matcher accepts exactly the language of the regex. */
  lemma MatchesEmailIff(t: string)
    ensures MatchesEmail(t) <==> EmailLanguage(t)
  {
    if MatchesEmail(t) {
      MatchesEmailSound(t);
    }
    if EmailLanguage(t) {
      var i, j :| && 0 < i && i + 1 < j && j + 2 < |t|
                  && t[i] == '@' && t[j] == '.'
                  && AllLocal(t[..i]) && AllDomain(t[i + 1..j]) && AllLetters(t[j + 1..]);
      MatchesEmailComplete(t, i, j);
    }
  }

  lemma MatchesEmailSound(t: string)
    requires MatchesEmail(t)
    ensures EmailLanguage(t)
  {
    var i := IndexOf(t, '@');
    var rest := t[i + 1..];
    var j := LastIndexOf(rest, '.');
    var j' := i + 1 + j;
    assert t[i + 1..j'] == rest[..j];
    assert t[j' + 1..] == rest[j + 1..];
    assert t[j'] == '.';
  }

  lemma MatchesEmailComplete(t: string, i: nat, j: nat)
    requires && 0 < i && i + 1 < j && j + 2 < |t|
             && t[i] == '@' && t[j] == '.'
             && AllLocal(t[..i]) && AllDomain(t[i + 1..j]) && AllLetters(t[j + 1..])
    ensures MatchesEmail(t)
  {
    FirstAt(t, i);
    var rest := t[i + 1..];
    LastDot(rest, j - i - 1);
    assert rest[j - i..] == t[j + 1..];
    forall k | 0 <= k < |rest| ensures IsDomainChar(rest[k]) {
      if k < j - i - 1 {
        assert rest[k] == t[i + 1..j][k];
      } else if k > j - i - 1 {
        assert rest[k] == t[j + 1..][k - (j - i)];
      }
    }
  }

  lemma FirstAt(t: string, i: nat)
    requires i < |t| && t[i] == '@' && AllLocal(t[..i])
    ensures IndexOf(t, '@') == i
  {
    var k := IndexOf(t, '@');
  }

  lemma LastDot(rest: string, j: nat)
    requires j < |rest| && rest[j] == '.' && AllLetters(rest[j + 1..])
    ensures LastIndexOf(rest, '.') == j
  {
    var k := LastIndexOf(rest, '.');
  }

  /** No accepted email has two `@`: the local part and the domain part both exclude it. */
  lemma EmailSingleAt(t: string, k: nat)
    requires MatchesEmail(t) && k < |t| && t[k] == '@'
    ensures k == IndexOf(t, '@')
  {
    var i := IndexOf(t, '@');
  }

  /** The pattern each field's trimmed value must match. */
  predicate Accepts(f: Field, t: string) {
    match f
    case Name => NamePattern(t)
    case Email => MatchesEmail(t)
    case Subject => LinePattern(t, 3, 100)
    case Message => LinePattern(t, 10, 500)
  }

  // ------------------------------------------------------------ validator

  function RequiredMessage(f: Field): string {
    match f
    case Name => "Name is required"
    case Email => "Email is required"
    case Subject => "Subject is required"
    case Message => "Message is required"
  }

  function PatternMessage(f: Field): string {
    match f
    case Name => "Name must be 2-50 characters long and contain only letters and spaces"
    case Email => "Please enter a valid email address"
    case Subject => "Subject must be 3-100 characters long"
    case Message => "Message must be 10-500 characters long"
  }

  /** One field's block of the validator: required first, then the pattern. */
  function FieldError(f: Field, value: string): Option<string> {
    var t := Trim(value);
    if t == [] then Some(RequiredMessage(f))
    else if !Accepts(f, t) then Some(PatternMessage(f))
    else None
  }

  /** `ValidationErrors`: each field's message, or `undefined`. */
  datatype ValidationErrors = ValidationErrors(
    name: Option<string>, email: Option<string>, subject: Option<string>, message: Option<string>)
  {
    function Get(f: Field): Option<string> {
      match f
      case Name => name
      case Email => email
      case Subject => subject
      case Message => message
    }

    /** `{ ...prev, [f]: e }` */
    function With(f: Field, e: Option<string>): (r: ValidationErrors)
      ensures r.Get(f) == e
      ensures forall g :: g != f ==> r.Get(g) == Get(g)
    {
      match f
      case Name => this.(name := e)
      case Email => this.(email := e)
      case Subject => this.(subject := e)
      case Message => this.(message := e)
    }

    /** `Object.keys(errors).length` for a record whose absent fields were never assigned. */
    function KeyCount(): (n: nat)
      ensures n == 0 <==> forall f :: Get(f) == None
    {
      assert Get(Name) == name && Get(Email) == email;
      assert Get(Subject) == subject && Get(Message) == message;
      (if name.Some? then 1 else 0) + (if email.Some? then 1 else 0)
      + (if subject.Some? then 1 else 0) + (if message.Some? then 1 else 0)
    }
  }

  const NoErrors := ValidationErrors(None, None, None, None)

  datatype Validation = Validation(isValid: bool, errors: ValidationErrors)

  /** `validateFormData`: the four field blocks in order, each assigning its
      message to `newErrors`, then the verdict from the number of keys. */
  function ValidateFormData(fd: FormData): (v: Validation)
    ensures v.isValid <==> v.errors == NoErrors
    ensures forall f :: v.errors.Get(f) == FieldError(f, fd.Get(f))
  {
    var newErrors := NoErrors
      .With(Name, FieldError(Name, fd.name))
      .With(Email, FieldError(Email, fd.email))
      .With(Subject, FieldError(Subject, fd.subject))
      .With(Message, FieldError(Message, fd.message));
    Validation(newErrors.KeyCount() == 0, newErrors)
  }

  /** A blank field (empty after trimming) gets exactly its "is required"
      message; its pattern is never consulted. */
  lemma BlankIsRequired(fd: FormData, f: Field)
    requires AllSpace(fd.Get(f))
    ensures ValidateFormData(fd).errors.Get(f) == Some(RequiredMessage(f))
  {
  }

  /** A field is free of errors iff its trimmed value matches its pattern
      (each pattern's lower bound already excludes the empty string). */
  lemma AcceptedIff(fd: FormData, f: Field)
    ensures ValidateFormData(fd).errors.Get(f) == None <==> Accepts(f, Trim(fd.Get(f)))
  {
    if Trim(fd.Get(f)) == [] {
      assert !Accepts(f, []) by {
        if f == Email { assert IndexOf([], '@') == -1; }
      }
    }
  }

  /** The name rule spelled out: 2 to 50 characters after trimming, each an
      ASCII letter or a whitespace character. */
  lemma NameAcceptedIff(fd: FormData)
    ensures ValidateFormData(fd).errors.name == None <==>
      var t := Trim(fd.name);
      2 <= |t| <= 50 && forall i :: 0 <= i < |t| ==> IsAsciiLetter(t[i]) || IsSpace(t[i])
  {
    AcceptedIff(fd, Name);
  }

  /** The email rule is the regex's language on the trimmed value. */
  lemma EmailAcceptedIff(fd: FormData)
    ensures ValidateFormData(fd).errors.email == None <==> EmailLanguage(Trim(fd.email))
  {
    AcceptedIff(fd, Email);
    MatchesEmailIff(Trim(fd.email));
  }

  /** Subject and message: length bounds after trimming, and a single line. */
  lemma SubjectMessageAcceptedIff(fd: FormData)
    ensures ValidateFormData(fd).errors.subject == None <==>
      var t := Trim(fd.subject);
      3 <= |t| <= 100 && forall i :: 0 <= i < |t| ==> !IsLineTerminator(t[i])
    ensures ValidateFormData(fd).errors.message == None <==>
      var t := Trim(fd.message);
      10 <= |t| <= 500 && forall i :: 0 <= i < |t| ==> !IsLineTerminator(t[i])
  {
    AcceptedIff(fd, Subject);
    AcceptedIff(fd, Message);
  }

  /** The whole form is valid iff every field's trimmed value matches its pattern. */
  lemma ValidIffAllAccepted(fd: FormData)
    ensures ValidateFormData(fd).isValid <==> forall f :: Accepts(f, Trim(fd.Get(f)))
  {
    var v := ValidateFormData(fd);
    forall f ensures v.errors.Get(f) == None <==> Accepts(f, Trim(fd.Get(f))) {
      AcceptedIff(fd, f);
    }
    if !v.isValid {
      var f: Field :| v.errors.Get(f) != None;
    }
  }

  /** A field's error depends on that field's value alone. */
  lemma ErrorIsLocal(fd1: FormData, fd2: FormData, f: Field)
    requires fd1.Get(f) == fd2.Get(f)
    ensures ValidateFormData(fd1).errors.Get(f) == ValidateFormData(fd2).errors.Get(f)
  {
  }

  /** Examples: `"Jane2"` is not a name, `"Jane Doe"` is. */
  lemma NameExamples()
    ensures !NamePattern("Jane2")
    ensures NamePattern("Jane Doe")
  {
    assert !IsNameChar("Jane2"[4]);
  }

  /** Example: `"foo@bar"` has no dot after the `@`, so it is not an email. */
  lemma EmailExampleRejected()
    ensures !MatchesEmail("foo@bar")
  {
    var t := "foo@bar";
    FirstAt(t, 3);
    assert t[4..] == "bar";
    assert '.' !in "bar";
  }

  /** Example: `"foo@bar.com"` is an email. */
  lemma EmailExampleAccepted()
    ensures MatchesEmail("foo@bar.com")
  {
    var t := "foo@bar.com";
    assert t[..3] == "foo" && t[4..7] == "bar" && t[8..] == "com";
    MatchesEmailComplete(t, 3, 7);
  }

  /** The message bound is inclusive: 10 characters pass, 9 do not. */
  lemma MessageBoundary()
    ensures LinePattern("0123456789", 10, 500)
    ensures !LinePattern("012345678", 10, 500)
  {
  }

  // -------------------------------------------------------- form component

  /** The component's state: the field values, the displayed errors and the
      submitting flag. */
  class ContactSection {
    var formData: FormData
    var errors: ValidationErrors
    var isSubmitting: bool

    /** Every displayed error is the validator's current verdict on that
        field: it appears only after a failed submit and is cleared as soon
        as the field is edited. */
    ghost predicate Valid()
      reads this
    {
      forall f :: errors.Get(f).Some? ==> errors.Get(f) == FieldError(f, formData.Get(f))
    }

    constructor ()
      ensures Valid()
      ensures formData == EmptyForm && errors == NoErrors && !isSubmitting
    {
      formData := EmptyForm;
      errors := NoErrors;
      isSubmitting := false;
    }

    /** `handleChange`: store the typed value; clear that field's error if
        one is shown. */
    method HandleChange(f: Field, value: string)
      requires Valid()
      modifies this
      ensures Valid()
      ensures formData == old(formData).With(f, value)
      ensures errors == if old(errors).Get(f).Some? then old(errors).With(f, None) else old(errors)
      ensures isSubmitting == old(isSubmitting)
    {
      formData := formData.With(f, value);
      if errors.Get(f).Some? && errors.Get(f).value != "" {
        errors := errors.With(f, None);
      }
    }

    /** `handleSubmit`: on valid data the fields are reset and the errors
        left alone (they are then already empty); otherwise the errors are
        replaced by the validator's and the data kept. */
    method HandleSubmit()
      requires Valid()
      modifies this
      ensures Valid()
      ensures var v := ValidateFormData(old(formData));
        if v.isValid then formData == EmptyForm && errors == old(errors)
        else formData == old(formData) && errors == v.errors
      ensures ValidateFormData(old(formData)).isValid ==> errors == NoErrors
      ensures !isSubmitting
    {
      isSubmitting := true;
      var validation := ValidateFormData(formData);
      if validation.isValid {
        formData := EmptyForm;
      } else {
        errors := validation.errors;
      }
      isSubmitting := false;
    }
  }
}
