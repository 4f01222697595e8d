/**
 * The standalone schemas of src/utils/validation.ts. The visitor schema here
 * differs from the one on the visitor form: it has no `source` rule, it
 * requires `branch`, and its messages are worded differently.
 */
module Validation {
  import opened Types
  import opened SchemaRules

  const NameMessage := "Name must be at least 2 characters"
  const EmailMessage := "Invalid email address"
  const PhoneMessage := "Phone number must be at least 10 digits"
  const PurposeMessage := "Please select a purpose for your visit"
  const PhotoMessage := "Photo is required"
  const SignatureMessage := "Signature is required"
  const BranchMessage := "Please select a branch"
  const PasswordMessage := "Password must be at least 6 characters"

  /** A visitor record that `visitorFormSchema` accepts (the schema ignores `source` and `timestamp`). */
  predicate VisitorValid(isEmail: EmailSyntax, v: Visitor)
  {
    && MinLength(v.name, 2)
    && OptionalEmail(isEmail, v.email)
    && MinLength(v.phone, 10)
    && MinLength(v.purpose, 1)
    && MinLength(v.photo, 1)
    && MinLength(v.signature, 1)
    && MinLength(v.branch, 1)
  }

  /** The message `visitorFormSchema` gives field `f` of `v`, if that field fails. */
  function VisitorVerdict(isEmail: EmailSyntax, v: Visitor, f: Field): Option<string>
  {
    match f
    case NameField => Check(MinLength(v.name, 2), NameMessage)
    case EmailField => Check(OptionalEmail(isEmail, v.email), EmailMessage)
    case PhoneField => Check(MinLength(v.phone, 10), PhoneMessage)
    case PurposeField => Check(MinLength(v.purpose, 1), PurposeMessage)
    case PhotoField => Check(MinLength(v.photo, 1), PhotoMessage)
    case SignatureField => Check(MinLength(v.signature, 1), SignatureMessage)
    case BranchField => Check(MinLength(v.branch, 1), BranchMessage)
    case SourceField => None
    case PasswordField => None
  }

  /** The field errors `visitorFormSchema` reports for a record. */
  function VisitorErrors(isEmail: EmailSyntax, v: Visitor): (e: Errors)
    ensures NameField in e <==> |v.name| < 2
    ensures EmailField in e <==> !OptionalEmail(isEmail, v.email)
    ensures PhoneField in e <==> |v.phone| < 10
    ensures PurposeField in e <==> v.purpose == ""
    ensures PhotoField in e <==> v.photo == ""
    ensures SignatureField in e <==> v.signature == ""
    ensures BranchField in e <==> v.branch == ""
    ensures SourceField !in e && PasswordField !in e
    ensures NameField in e ==> e[NameField] == NameMessage
    ensures EmailField in e ==> e[EmailField] == EmailMessage
    ensures PhoneField in e ==> e[PhoneField] == PhoneMessage
    ensures PurposeField in e ==> e[PurposeField] == PurposeMessage
    ensures PhotoField in e ==> e[PhotoField] == PhotoMessage
    ensures SignatureField in e ==> e[SignatureField] == SignatureMessage
    ensures BranchField in e ==> e[BranchField] == BranchMessage
  {
    ErrorMap(f => VisitorVerdict(isEmail, v, f))
  }

  /** Credentials that `loginSchema` accepts. */
  predicate LoginValid(isEmail: EmailSyntax, c: LoginCredentials)
  {
    isEmail(c.email) && MinLength(c.password, 6) && MinLength(c.branch, 1)
  }

  function LoginVerdict(isEmail: EmailSyntax, c: LoginCredentials, f: Field): Option<string>
  {
    match f
    case EmailField => Check(isEmail(c.email), EmailMessage)
    case PasswordField => Check(MinLength(c.password, 6), PasswordMessage)
    case BranchField => Check(MinLength(c.branch, 1), BranchMessage)
    case _ => None
  }

  /** The field errors `loginSchema` reports for a set of credentials. */
  function LoginErrors(isEmail: EmailSyntax, c: LoginCredentials): (e: Errors)
    ensures e.Keys <= {EmailField, PasswordField, BranchField}
    ensures EmailField in e <==> !isEmail(c.email)
    ensures PasswordField in e <==> |c.password| < 6
    ensures BranchField in e <==> c.branch == ""
    ensures EmailField in e ==> e[EmailField] == EmailMessage
    ensures PasswordField in e ==> e[PasswordField] == PasswordMessage
    ensures BranchField in e ==> e[BranchField] == BranchMessage
  {
    ErrorMap(f => LoginVerdict(isEmail, c, f))
  }

  /** The schema reports no error exactly when it accepts the record. */
  lemma VisitorErrorsEmptyIff(isEmail: EmailSyntax, v: Visitor)
    ensures VisitorErrors(isEmail, v) == map[] <==> VisitorValid(isEmail, v)
  {
    ErrorMapEmptyIff(f => VisitorVerdict(isEmail, v, f));
    if !VisitorValid(isEmail, v) {
      assert exists f :: VisitorVerdict(isEmail, v, f).Some? by {
        if !MinLength(v.name, 2) {
          assert VisitorVerdict(isEmail, v, NameField).Some?;
        } else if !OptionalEmail(isEmail, v.email) {
          assert VisitorVerdict(isEmail, v, EmailField).Some?;
        } else if !MinLength(v.phone, 10) {
          assert VisitorVerdict(isEmail, v, PhoneField).Some?;
        } else if !MinLength(v.purpose, 1) {
          assert VisitorVerdict(isEmail, v, PurposeField).Some?;
        } else if !MinLength(v.photo, 1) {
          assert VisitorVerdict(isEmail, v, PhotoField).Some?;
        } else if !MinLength(v.signature, 1) {
          assert VisitorVerdict(isEmail, v, SignatureField).Some?;
        } else {
          assert VisitorVerdict(isEmail, v, BranchField).Some?;
        }
      }
    }
  }

  /** The schema reports no error exactly when it accepts the credentials. */
  lemma LoginErrorsEmptyIff(isEmail: EmailSyntax, c: LoginCredentials)
    ensures LoginErrors(isEmail, c) == map[] <==> LoginValid(isEmail, c)
  {
    ErrorMapEmptyIff(f => LoginVerdict(isEmail, c, f));
    if !LoginValid(isEmail, c) {
      assert exists f :: LoginVerdict(isEmail, c, f).Some? by {
        if !isEmail(c.email) {
          assert LoginVerdict(isEmail, c, EmailField).Some?;
        } else if !MinLength(c.password, 6) {
          assert LoginVerdict(isEmail, c, PasswordField).Some?;
        } else {
          assert LoginVerdict(isEmail, c, BranchField).Some?;
        }
      }
    }
  }

  /** The empty string passes the optional e-mail rule whatever the address syntax. */
  lemma EmptyEmailAccepted(isEmail: EmailSyntax, v: Visitor)
    requires v.email == Some("")
    ensures EmailField !in VisitorErrors(isEmail, v)
  {
  }

  /** The phone rule counts characters only: any ten characters pass it, digits or not. */
  lemma PhoneIsLengthOnly(isEmail: EmailSyntax, v: Visitor)
    requires |v.phone| == 10
    ensures PhoneField !in VisitorErrors(isEmail, v)
  {
  }
}
