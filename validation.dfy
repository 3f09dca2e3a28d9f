/**
 * The decision the contact form's submit handler makes (script.js lines 293-351):
 * four independent field checks that collect an error map, and the choice
 * between showing those errors and submitting the trimmed values.
 */
module Validation {
  import opened Text
  import opened EmailAddress

  datatype Field = Name | Email | Subject | Message

  /** The four values of the contact form, as typed. */
  datatype Form = Form(name: string, email: string, subject: string, message: string)

  const NameMissing := "Please enter your full name"
  const EmailMissing := "Please enter your email address"
  const EmailInvalid := "Please enter a valid email address"
  const SubjectMissing := "Please enter a subject"
  const MessageMissing := "Please enter your message"

  function Value(f: Form, field: Field): string {
    match field
    case Name => f.name
    case Email => f.email
    case Subject => f.subject
    case Message => f.message
  }

  /**
   * The `errors` object the handler builds. Every check runs, whatever the others
   * found; a text field fails when it is blank (nothing but whitespace), the e-mail
   * field says it is missing when blank and otherwise that it is invalid when the
   * pattern rejects the value as typed, untrimmed.
   */
  function Validate(f: Form): (errors: map<Field, string>)
    ensures Name in errors <==> AllWs(f.name)
    ensures Subject in errors <==> AllWs(f.subject)
    ensures Message in errors <==> AllWs(f.message)
    ensures Email in errors <==> AllWs(f.email) || !EmailPattern(f.email)
    ensures Name in errors ==> errors[Name] == NameMissing
    ensures Subject in errors ==> errors[Subject] == SubjectMissing
    ensures Message in errors ==> errors[Message] == MessageMissing
    ensures Email in errors ==> errors[Email] == if AllWs(f.email) then EmailMissing else EmailInvalid
  {
    var afterName := if Trim(f.name) == [] then map[Name := NameMissing] else map[];
    var afterEmail :=
      if Trim(f.email) == [] then afterName[Email := EmailMissing]
      else if !EmailPattern(f.email) then afterName[Email := EmailInvalid]
      else afterName;
    var afterSubject := if Trim(f.subject) == [] then afterEmail[Subject := SubjectMissing] else afterEmail;
    if Trim(f.message) == [] then afterSubject[Message := MessageMissing] else afterSubject
  }

  /** The values handed to `submitForm`. */
  function Trimmed(f: Form): (r: Form)
    ensures Tight(r.name) && Tight(r.email) && Tight(r.subject) && Tight(r.message)
    ensures |r.name| <= |f.name| && |r.email| <= |f.email| && |r.subject| <= |f.subject| && |r.message| <= |f.message|
  {
    Form(Trim(f.name), Trim(f.email), Trim(f.subject), Trim(f.message))
  }

  /** What one submit event does: show the errors, or submit. */
  datatype Decision = Rejected(errors: map<Field, string>) | Submitted(payload: Form)

  /**
   * The handler's `isValid` flag: the form is submitted exactly when no check
   * recorded an error, and then with every value non-blank, trimmed, and an
   * e-mail address that the pattern accepts and that trimming did not change.
   */
  function Decide(f: Form): (d: Decision)
    ensures d.Rejected? <==> Validate(f) != map[]
    ensures d.Rejected? ==> d.errors == Validate(f)
    ensures d.Submitted? ==> d.payload == Trimmed(f)
    ensures d.Submitted? ==> d.payload.email == f.email && EmailPattern(d.payload.email)
    ensures d.Submitted? ==> d.payload.name != [] && d.payload.email != [] && d.payload.subject != [] && d.payload.message != []
  {
    var errors := Validate(f);
    if errors != map[] then
      Rejected(errors)
    else
      assert Name !in errors && Email !in errors && Subject !in errors && Message !in errors;
      EmailPatternHasNoWs(f.email);
      Submitted(Trimmed(f))
  }

  /** Every recorded error carries a message, so the handler's `if (errors.name)` tests see each of them. */
  lemma MessagesAreNonEmpty(f: Form)
    ensures forall field | field in Validate(f) :: Validate(f)[field] != ""
  {
    var errors := Validate(f);
    forall field | field in errors ensures errors[field] != "" {
      match field
      case Name =>
      case Email =>
      case Subject =>
      case Message =>
    }
  }

  /**
   * The checks do not short-circuit: the verdict on one field depends on that
   * field's value alone, never on what the other fields hold.
   */
  lemma ChecksAreIndependent(f: Form, g: Form, field: Field)
    requires Value(f, field) == Value(g, field)
    ensures field in Validate(f) <==> field in Validate(g)
    ensures field in Validate(f) ==> Validate(f)[field] == Validate(g)[field]
  {
  }

  /** A field value that passes its own check. */
  predicate Acceptable(field: Field, v: string) {
    !AllWs(v) && (field == Email ==> EmailPattern(v))
  }

  /** Which fields of `f` are empty, given that the rest are acceptable. */
  predicate EmptyExactly(f: Form, empty: set<Field>) {
    && (if Name in empty then f.name == "" else Acceptable(Name, f.name))
    && (if Email in empty then f.email == "" else Acceptable(Email, f.email))
    && (if Subject in empty then f.subject == "" else Acceptable(Subject, f.subject))
    && (if Message in empty then f.message == "" else Acceptable(Message, f.message))
  }

  /**
   * Leaving any subset of the fields empty, the others acceptable, reports
   * exactly that subset.
   */
  lemma {:induction false} EmptyFieldsReported(f: Form, empty: set<Field>)
    requires EmptyExactly(f, empty)
    ensures Validate(f).Keys == empty
  {
    var errors := Validate(f);
    assert AllWs("");
    assert Name in errors <==> Name in empty;
    assert Email in errors <==> Email in empty;
    assert Subject in errors <==> Subject in empty;
    assert Message in errors <==> Message in empty;
    forall field ensures field in errors <==> field in empty {
      match field
      case Name =>
      case Email =>
      case Subject =>
      case Message =>
    }
  }

  /**
   * With any subset of the fields empty and the others acceptable, an empty
   * e-mail field is reported as missing, not as invalid, and nothing is
   * submitted unless the subset is empty.
   */
  lemma {:induction false} EmptyFieldsBlockSubmission(f: Form, empty: set<Field>)
    requires EmptyExactly(f, empty)
    ensures Email in empty ==> Validate(f)[Email] == EmailMissing
    ensures Decide(f).Rejected? <==> empty != {}
  {
    EmptyFieldsReported(f, empty);
    var errors := Validate(f);
    assert AllWs("");
    if empty != {} {
      var field :| field in empty;
      assert field in errors;
    } else {
      assert errors == map[];
    }
  }

  /**
   * An address typed with surrounding blanks, at one end or both, is refused as
   * invalid, although its trimmed value, the one that would be submitted, matches
   * the pattern: the emptiness check trims, the format check does not.
   */
  lemma {:induction false} PaddedAddressIsInvalid(f: Form)
    requires EmailPattern(Trim(f.email))
    requires f.email != Trim(f.email)
    ensures Email in Validate(f) && Validate(f)[Email] == EmailInvalid
    ensures Decide(f).Rejected?
  {
    if Tight(f.email) {
      TrimOfTight(f.email);
    }
    PaddedNeverMatches(f.email);
    EmailPatternHasNoWs(Trim(f.email));
  }
}
