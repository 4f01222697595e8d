/**
 * The data side of the visitor form (src/screens/VisitorFormScreen.tsx): the
 * form's own schema, the record that a submit prepends to the visitor log,
 * and the handlers that change the form's values step by step (photo,
 * signature capture and clearing, the reset after a successful submit, and
 * the reset button with its "has data" test).
 */
module VisitorFormScreen {
  import opened Types
  import opened Text
  import opened SchemaRules
  import Validation
  import VisitPurposes
  import Sources
  import VisitorStore

  // ---------------------------------------------------------------- schema

  const NameMessage := "Name must be at least 2 characters"
  const EmailMessage := "Please enter a valid email address"
  const PhoneMessage := "Please enter a valid phone number"
  const PurposeMessage := "Please select a purpose of visit"
  const SourceMessage := "Please select how you heard about us"
  const PhotoMessage := "Please take a photo"
  const SignatureMessage := "Please provide your signature"

  /** The seven values the form collects (`VisitorFormData` as inferred from the form schema). */
  datatype FormData = FormData(
    name: string,
    email: Option<string>,
    phone: string,
    purpose: string,
    source: string,
    photo: string,
    signature: string)

  /** Form data that the form's `visitorFormSchema` accepts; it has no `branch` rule. */
  predicate ScreenValid(isEmail: EmailSyntax, d: FormData)
  {
    && MinLength(d.name, 2)
    && OptionalEmail(isEmail, d.email)
    && MinLength(d.phone, 10)
    && MinLength(d.purpose, 1)
    && MinLength(d.source, 1)
    && MinLength(d.photo, 1)
    && MinLength(d.signature, 1)
  }

  function ScreenVerdict(isEmail: EmailSyntax, d: FormData, f: Field): Option<string>
  {
    match f
    case NameField => Check(MinLength(d.name, 2), NameMessage)
    case EmailField => Check(OptionalEmail(isEmail, d.email), EmailMessage)
    case PhoneField => Check(MinLength(d.phone, 10), PhoneMessage)
    case PurposeField => Check(MinLength(d.purpose, 1), PurposeMessage)
    case SourceField => Check(MinLength(d.source, 1), SourceMessage)
    case PhotoField => Check(MinLength(d.photo, 1), PhotoMessage)
    case SignatureField => Check(MinLength(d.signature, 1), SignatureMessage)
    case BranchField => None
    case PasswordField => None
  }

  /** The field errors the form shows for the current values. */
  function ScreenErrors(isEmail: EmailSyntax, d: FormData): (e: Errors)
    ensures NameField in e <==> |d.name| < 2
    ensures EmailField in e <==> !OptionalEmail(isEmail, d.email)
    ensures PhoneField in e <==> |d.phone| < 10
    ensures PurposeField in e <==> d.purpose == ""
    ensures SourceField in e <==> d.source == ""
    ensures PhotoField in e <==> d.photo == ""
    ensures SignatureField in e <==> d.signature == ""
    ensures BranchField !in e && PasswordField !in e
    ensures NameField in e ==> e[NameField] == NameMessage
    ensures EmailField in e ==> e[EmailField] == EmailMessage
    ensures PhoneField in e ==> e[PhoneField] == PhoneMessage
    ensures PurposeField in e ==> e[PurposeField] == PurposeMessage
    ensures SourceField in e ==> e[SourceField] == SourceMessage
    ensures PhotoField in e ==> e[PhotoField] == PhotoMessage
    ensures SignatureField in e ==> e[SignatureField] == SignatureMessage
  {
    ErrorMap(f => ScreenVerdict(isEmail, d, f))
  }

  /** The form reports no error exactly when its schema accepts the values. */
  lemma ScreenErrorsEmptyIff(isEmail: EmailSyntax, d: FormData)
    ensures ScreenErrors(isEmail, d) == map[] <==> ScreenValid(isEmail, d)
  {
    ErrorMapEmptyIff(f => ScreenVerdict(isEmail, d, f));
    if !ScreenValid(isEmail, d) {
      assert exists f :: ScreenVerdict(isEmail, d, f).Some? by {
        if !MinLength(d.name, 2) {
          assert ScreenVerdict(isEmail, d, NameField).Some?;
        } else if !OptionalEmail(isEmail, d.email) {
          assert ScreenVerdict(isEmail, d, EmailField).Some?;
        } else if !MinLength(d.phone, 10) {
          assert ScreenVerdict(isEmail, d, PhoneField).Some?;
        } else if !MinLength(d.purpose, 1) {
          assert ScreenVerdict(isEmail, d, PurposeField).Some?;
        } else if !MinLength(d.source, 1) {
          assert ScreenVerdict(isEmail, d, SourceField).Some?;
        } else if !MinLength(d.photo, 1) {
          assert ScreenVerdict(isEmail, d, PhotoField).Some?;
        } else {
          assert ScreenVerdict(isEmail, d, SignatureField).Some?;
        }
      }
    }
  }

  /** The form's default values: every field empty. */
  const Defaults := FormData("", Some(""), "", "", "", "", "")

  /** A fresh form cannot be submitted: every field but the e-mail reports its message. */
  lemma DefaultsRejected(isEmail: EmailSyntax)
    ensures ScreenErrors(isEmail, Defaults).Keys == {NameField, PhoneField, PurposeField, SourceField, PhotoField, SignatureField}
    ensures !ScreenValid(isEmail, Defaults)
  {
    var e := ScreenErrors(isEmail, Defaults);
    var failing := {NameField, PhoneField, PurposeField, SourceField, PhotoField, SignatureField};
    forall f ensures f in e <==> f in failing {
      match f
      case NameField =>
      case EmailField =>
      case PhoneField =>
      case PurposeField =>
      case SourceField =>
      case PhotoField =>
      case SignatureField =>
      case BranchField =>
      case PasswordField =>
    }
  }

  /**
   * The form does not look its choices up: any non-empty purpose and source pass,
   * including values that are in neither option table.
   */
  lemma ScreenAcceptsUnlistedChoices(isEmail: EmailSyntax)
    ensures var d := FormData("Al", None, "0123456789", "lunch", "radio", "p", "s");
      ScreenValid(isEmail, d) && !VisitPurposes.IsPurposeValue(d.purpose) && !Sources.IsSourceValue(d.source)
  {
    assert forall i :: 0 <= i < |VisitPurposes.VisitPurposeTable| ==> VisitPurposes.VisitPurposeTable[i].value != "lunch";
    assert forall i :: 0 <= i < |Sources.SourceTable| ==> Sources.SourceTable[i].value != "radio";
  }

  // ---------------------------------------------------------------- the submitted record

  /** `user?.branch || ''`: the session's branch, or the empty text without a session. */
  function SessionBranch(session: Option<AuthUser>): (b: string)
    ensures session.None? ==> b == ""
    ensures session.Some? ==> b == session.value.branch
  {
    match session
    case None => ""
    case Some(user) => user.branch
  }

  /** `{ ...data, branch: user?.branch || '', timestamp: new Date() }`. */
  function SubmittedRecord(d: FormData, session: Option<AuthUser>, now: Timestamp): (r: Visitor)
    ensures FormOf(r) == d
    ensures r.branch == SessionBranch(session) && r.timestamp == now
  {
    Visitor(d.name, d.email, d.phone, d.purpose, d.source, d.photo, d.signature, SessionBranch(session), now)
  }

  /** The form data a stored record carries (everything but `branch` and `timestamp`). */
  function FormOf(v: Visitor): FormData
  {
    FormData(v.name, v.email, v.phone, v.purpose, v.source, v.photo, v.signature)
  }

  /** Conversely, every record value is `SubmittedRecord` of its own form data, branch and time. */
  lemma RecordFromForm(v: Visitor)
    ensures exists session :: v == SubmittedRecord(FormOf(v), session, v.timestamp)
  {
    var session := Some(AuthUser("", "", v.branch, ""));
    assert v == SubmittedRecord(FormOf(v), session, v.timestamp);
  }

  /**
   * A record submitted from accepted form data also passes the standalone
   * visitor schema exactly when the session supplied a non-empty branch.
   */
  lemma SubmittedRecordAgainstStandaloneSchema(isEmail: EmailSyntax, d: FormData, session: Option<AuthUser>, now: Timestamp)
    requires ScreenValid(isEmail, d)
    ensures Validation.VisitorValid(isEmail, SubmittedRecord(d, session, now)) <==> session.Some? && session.value.branch != ""
  {
  }

  /** The two visitor schemas differ: the standalone one ignores `source`, which the form requires. */
  lemma StandaloneSchemaIgnoresSource(isEmail: EmailSyntax, v: Visitor)
    requires Validation.VisitorValid(isEmail, v) && v.source == ""
    ensures !ScreenValid(isEmail, FormOf(v))
    ensures ScreenErrors(isEmail, FormOf(v)) == map[SourceField := SourceMessage]
  {
    var e := ScreenErrors(isEmail, FormOf(v));
    forall f ensures f in e <==> f == SourceField {
      match f
      case NameField =>
      case EmailField =>
      case PhoneField =>
      case PurposeField =>
      case SourceField =>
      case PhotoField =>
      case SignatureField =>
      case BranchField =>
      case PasswordField =>
    }
  }

  /**
   * The two visitor schemas test the e-mail, phone, purpose, photo and signature
   * alike but word those messages differently; only the name message is shared.
   */
  lemma SchemaMessagesDiffer(isEmail: EmailSyntax, v: Visitor)
    ensures var u, e := Validation.VisitorErrors(isEmail, v), ScreenErrors(isEmail, FormOf(v));
      && (NameField in u <==> NameField in e)
      && (NameField in u ==> u[NameField] == e[NameField])
      && (EmailField in u <==> EmailField in e)
      && (EmailField in u ==> u[EmailField] != e[EmailField])
      && (PhoneField in u <==> PhoneField in e)
      && (PhoneField in u ==> u[PhoneField] != e[PhoneField])
      && (PurposeField in u <==> PurposeField in e)
      && (PurposeField in u ==> u[PurposeField] != e[PurposeField])
      && (PhotoField in u <==> PhotoField in e)
      && (PhotoField in u ==> u[PhotoField] != e[PhotoField])
      && (SignatureField in u <==> SignatureField in e)
      && (SignatureField in u ==> u[SignatureField] != e[SignatureField])
  {
  }

  /** No seed record could have come from the form: each has an empty signature. */
  lemma SeedNotFromForm(isEmail: EmailSyntax)
    ensures forall i :: 0 <= i < |VisitorStore.Seed| ==> !ScreenValid(isEmail, FormOf(VisitorStore.Seed[i]))
  {
    VisitorStore.SeedSignaturesEmpty();
  }

  // ---------------------------------------------------------------- handlers

  /** What the camera hands back: a cancel, the captured assets, or a failure. */
  datatype Asset = Asset(base64: Option<string>)
  datatype CameraResult = Canceled | Captured(assets: seq<Asset>) | CameraFailed

  /** The photo value an asset provides: `asset.base64 || ''`. */
  function PhotoValue(a: Asset): (p: string)
    ensures a.base64.None? ==> p == ""
    ensures a.base64.Some? ==> p == a.base64.value
  {
    match a.base64
    case None => ""
    case Some(text) => text
  }

  /** One value counts as data when it is non-blank after `trim()`. */
  predicate Filled(value: string)
  {
    Trim(value) != ""
  }

  /** `hasData`: some value counts as data. */
  function AnyFilled(values: seq<string>): (r: bool)
    ensures r <==> exists i :: 0 <= i < |values| && Filled(values[i])
  {
    if values == [] then false
    else if Filled(values[0]) then true
    else
      var rest := AnyFilled(values[1..]);
      assert forall i :: 1 <= i < |values| ==> values[i] == values[1..][i - 1];
      rest
  }

  /** The state of one visitor form: the seven form values, the captured signature and the panel flag. */
  class VisitorForm {
    var name: string
    var email: string
    var phone: string
    var purpose: string
    var source: string
    var photo: string
    var signature: string
    var signatureData: string
    var showSignaturePanel: bool
    var isLoading: bool

    /** The values `handleSubmit` passes on (the e-mail input always holds a text). */
    function Values(): FormData
      reads this
    {
      FormData(name, Some(email), phone, purpose, source, photo, signature)
    }

    /** `watch()`'s values, in field order. */
    function Texts(): seq<string>
      reads this
    {
      [name, email, phone, purpose, source, photo, signature]
    }

    /** Every value and the captured signature are empty. */
    predicate Cleared()
      reads this
    {
      Values() == Defaults && signatureData == ""
    }

    constructor ()
      ensures Cleared() && !showSignaturePanel && !isLoading
    {
      name, email, phone, purpose, source, photo, signature := "", "", "", "", "", "", "";
      signatureData := "";
      showSignaturePanel := false;
      isLoading := false;
    }

    /**
     * `takePhoto` once the camera returns: without permission nothing changes; a
     * capture with a first asset stores that asset's base64 text, or `''` when it has none.
     */
    method TakePhoto(granted: bool, result: CameraResult)
      modifies this
      ensures granted && result.Captured? && |result.assets| > 0 ==>
        Values() == old(Values()).(photo := PhotoValue(result.assets[0]))
      ensures !(granted && result.Captured? && |result.assets| > 0) ==> Values() == old(Values())
      ensures signatureData == old(signatureData) && showSignaturePanel == old(showSignaturePanel)
      ensures isLoading == old(isLoading)
    {
      if !granted {
        return;
      }
      match result {
        case Captured(assets) =>
          if |assets| > 0 {
            photo := PhotoValue(assets[0]);
          }
        case Canceled =>
        case CameraFailed =>
      }
    }

    /** The signature button opens the capture panel, and its back button closes it; the values stay. */
    method SetSignaturePanel(open: bool)
      modifies this
      ensures showSignaturePanel == open
      ensures Values() == old(Values()) && signatureData == old(signatureData) && isLoading == old(isLoading)
    {
      showSignaturePanel := open;
    }

    /** `handleSignatureOK`: keeps the captured signature and closes the panel. */
    method HandleSignatureOK(captured: string)
      modifies this
      ensures Values() == old(Values()).(signature := captured)
      ensures signatureData == captured && !showSignaturePanel
      ensures isLoading == old(isLoading)
    {
      signatureData := captured;
      signature := captured;
      showSignaturePanel := false;
    }

    /** `handleSignatureClear`: forgets the signature; the panel stays as it is. */
    method HandleSignatureClear()
      modifies this
      ensures Values() == old(Values()).(signature := "")
      ensures signatureData == ""
      ensures showSignaturePanel == old(showSignaturePanel) && isLoading == old(isLoading)
    {
      signatureData := "";
      signature := "";
    }

    /**
     * `onSubmit`, reached only with values the schema accepts: prepends the record
     * built from the values, the session's branch and the time. The form keeps its
     * values until the success notice is acknowledged.
     */
    method Submit(isEmail: EmailSyntax, store: VisitorStore.Store, session: Option<AuthUser>, now: Timestamp)
      requires ScreenValid(isEmail, Values())
      modifies this, store
      ensures store.visitors == [SubmittedRecord(old(Values()), session, now)] + old(store.visitors)
      ensures store.isLoading == old(store.isLoading)
      ensures Values() == old(Values()) && signatureData == old(signatureData)
      ensures showSignaturePanel == old(showSignaturePanel) && !isLoading
    {
      isLoading := true;
      var record := SubmittedRecord(Values(), session, now);
      store.AddVisitor(record);
      isLoading := false;
    }

    /** The OK button of the success notice: every value and the captured signature are emptied. */
    method AcknowledgeSuccess()
      modifies this
      ensures Cleared()
      ensures showSignaturePanel == old(showSignaturePanel) && isLoading == old(isLoading)
    {
      name := "";
      email := "";
      phone := "";
      purpose := "";
      source := "";
      photo := "";
      signature := "";
      signatureData := "";
    }

    /**
     * `handleReset`: when some value is non-blank it asks first (`asked`) and resets
     * only on `confirmed`; with nothing filled it resets straight away.
     */
    method HandleReset(confirmed: bool) returns (asked: bool)
      modifies this
      ensures asked == AnyFilled(old(Texts()))
      ensures !asked || confirmed ==> Cleared()
      ensures asked && !confirmed ==> Values() == old(Values()) && signatureData == old(signatureData)
      ensures showSignaturePanel == old(showSignaturePanel) && isLoading == old(isLoading)
    {
      asked := AnyFilled(Texts());
      if !asked || confirmed {
        name, email, phone, purpose, source, photo, signature := "", "", "", "", "", "", "";
        signatureData := "";
        signature := "";
      }
    }
  }

  /** Clearing the signature always leaves the form unsubmittable. */
  lemma ClearedSignatureRejected(isEmail: EmailSyntax, d: FormData)
    requires d.signature == ""
    ensures !ScreenValid(isEmail, d)
    ensures ScreenErrors(isEmail, d)[SignatureField] == SignatureMessage
  {
  }

  /** A captured photo without base64 text stores `''`, which the photo rule rejects. */
  lemma PhotoWithoutTextRejected(isEmail: EmailSyntax, d: FormData, a: Asset)
    requires a.base64.None? || a.base64 == Some("")
    ensures !ScreenValid(isEmail, d.(photo := PhotoValue(a)))
    ensures ScreenErrors(isEmail, d.(photo := PhotoValue(a)))[PhotoField] == PhotoMessage
  {
  }

  /** Values made only of blanks do not count as data, so the form is reset without asking. */
  lemma BlankValuesNotFilled(values: seq<string>)
    requires forall i :: 0 <= i < |values| ==> AllWhitespace(values[i])
    ensures !AnyFilled(values)
  {
    forall i | 0 <= i < |values| ensures !Filled(values[i]) {
      TrimEmptyIff(values[i]);
    }
  }

  /** A client run of the form: fill, sign, submit, acknowledge; the log gains exactly the submitted record. */
  method FormSession(isEmail: EmailSyntax, store: VisitorStore.Store, session: Option<AuthUser>, now: Timestamp)
    returns (submitted: Visitor)
    requires isEmail("ann@example.com")
    modifies store
    ensures store.visitors == [submitted] + old(store.visitors)
    ensures submitted.branch == SessionBranch(session) && submitted.signature == "sig"
    ensures ScreenValid(isEmail, FormOf(submitted))
  {
    var form := new VisitorForm();
    form.name, form.email, form.phone := "Ann Lee", "ann@example.com", "0123456789";
    form.purpose, form.source := "meeting", "website";
    form.TakePhoto(true, Captured([Asset(Some("base64-photo"))]));
    form.HandleSignatureOK("sig");
    submitted := SubmittedRecord(form.Values(), session, now);
    form.Submit(isEmail, store, session, now);
    form.AcknowledgeSuccess();
    assert form.Cleared();
  }
}
