/**
 * The building blocks shared by the app's Zod schemas: the fields a schema can
 * report on, the field-to-message error map, and the two kinds of rule used
 * (a minimum length, and an optional e-mail address).
 */
module SchemaRules {
  import opened Types

  /**
   * Zod's `.email()` check is a library regular expression that is not part of
   * this model; every schema takes it as this parameter.
   */
  type EmailSyntax = string -> bool

  datatype Field =
    | NameField | EmailField | PhoneField | PurposeField | SourceField
    | PhotoField | SignatureField | BranchField | PasswordField

  /** What a failed parse reports: one message per failing field. */
  type Errors = map<Field, string>

  /** `z.string().min(n)`: at least `n` characters. */
  predicate MinLength(s: string, n: nat)
  {
    |s| >= n
  }

  /** `z.string().email().optional().or(z.literal(''))`: absent, empty, or an address. */
  predicate OptionalEmail(isEmail: EmailSyntax, e: Option<string>)
  {
    e.None? || e.value == "" || isEmail(e.value)
  }

  const AllFields: set<Field> := {
    NameField, EmailField, PhoneField, PurposeField, SourceField,
    PhotoField, SignatureField, BranchField, PasswordField
  }

  /** A rule's verdict on one field: `Some(message)` when the field fails it. */
  function Check(ok: bool, message: string): (r: Option<string>)
    ensures r.None? <==> ok
    ensures r.Some? ==> r.value == message
  {
    if ok then None else Some(message)
  }

  lemma AllFieldsComplete(f: Field)
    ensures f in AllFields
  {
  }

  /** Collects the per-field verdicts of a schema into its error map. */
  function ErrorMap(verdict: Field -> Option<string>): (e: Errors)
    ensures forall f :: f in e <==> verdict(f).Some?
    ensures forall f :: f in e ==> e[f] == verdict(f).value
  {
    assert forall f :: f in AllFields by {
      forall f ensures f in AllFields {
        AllFieldsComplete(f);
      }
    }
    map f | f in AllFields && verdict(f).Some? :: verdict(f).value
  }

  /** An error map is empty exactly when every field passes. */
  lemma ErrorMapEmptyIff(verdict: Field -> Option<string>)
    ensures ErrorMap(verdict) == map[] <==> forall f :: verdict(f).None?
  {
    var e := ErrorMap(verdict);
    if forall f :: verdict(f).None? {
      assert e.Keys == {};
    } else {
      var f :| verdict(f).Some?;
      assert f in e;
    }
  }
}
