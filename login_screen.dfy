/**
 * The data side of the sign-in screen (src/screens/LoginScreen.tsx): the
 * screen's own login schema, its default values, and what a submit does with
 * credentials the schema accepts: it builds a demonstration session user,
 * hands it to the auth store's `login`, and replaces the screen with "Main".
 * The auth store itself is not part of this model; the user handed to it is
 * the submit's result.
 */
module LoginScreen {
  import opened Types
  import opened Text
  import opened SchemaRules
  import Validation
  import Branches

  // ---------------------------------------------------------------- schema

  const EmailMessage := "Please enter a valid email address"
  const PasswordMessage := "Password must be at least 6 characters"
  const BranchMessage := "Please select a branch"

  /** Credentials that the screen's `loginSchema` accepts. */
  predicate ScreenValid(isEmail: EmailSyntax, c: LoginCredentials)
  {
    isEmail(c.email) && MinLength(c.password, 6) && MinLength(c.branch, 1)
  }

  function ScreenVerdict(isEmail: EmailSyntax, c: LoginCredentials, f: Field): Option<string>
  {
    match f
    case EmailField => Check(isEmail(c.email), EmailMessage)
    case PasswordField => Check(MinLength(c.password, 6), PasswordMessage)
    case BranchField => Check(MinLength(c.branch, 1), BranchMessage)
    case _ => None
  }

  /** The field errors the sign-in screen shows for the current values. */
  function ScreenErrors(isEmail: EmailSyntax, c: LoginCredentials): (e: Errors)
    ensures e.Keys <= {EmailField, PasswordField, BranchField}
    ensures EmailField in e <==> !isEmail(c.email)
    ensures PasswordField in e <==> |c.password| < 6
    ensures BranchField in e <==> c.branch == ""
    ensures EmailField in e ==> e[EmailField] == EmailMessage
    ensures PasswordField in e ==> e[PasswordField] == PasswordMessage
    ensures BranchField in e ==> e[BranchField] == BranchMessage
  {
    ErrorMap(f => ScreenVerdict(isEmail, c, f))
  }

  /** The screen reports no error exactly when its schema accepts the credentials. */
  lemma ScreenErrorsEmptyIff(isEmail: EmailSyntax, c: LoginCredentials)
    ensures ScreenErrors(isEmail, c) == map[] <==> ScreenValid(isEmail, c)
  {
    ErrorMapEmptyIff(f => ScreenVerdict(isEmail, c, f));
    if !ScreenValid(isEmail, c) {
      assert exists f :: ScreenVerdict(isEmail, c, f).Some? by {
        if !isEmail(c.email) {
          assert ScreenVerdict(isEmail, c, EmailField).Some?;
        } else if !MinLength(c.password, 6) {
          assert ScreenVerdict(isEmail, c, PasswordField).Some?;
        } else {
          assert ScreenVerdict(isEmail, c, BranchField).Some?;
        }
      }
    }
  }

  /**
   * The screen's schema and the standalone `loginSchema` of src/utils/validation.ts
   * flag the same fields; only the e-mail message is worded differently.
   */
  lemma ScreenMatchesStandalone(isEmail: EmailSyntax, c: LoginCredentials)
    ensures ScreenValid(isEmail, c) <==> Validation.LoginValid(isEmail, c)
    ensures ScreenErrors(isEmail, c).Keys == Validation.LoginErrors(isEmail, c).Keys
    ensures PasswordField in ScreenErrors(isEmail, c) ==>
      ScreenErrors(isEmail, c)[PasswordField] == Validation.LoginErrors(isEmail, c)[PasswordField]
    ensures BranchField in ScreenErrors(isEmail, c) ==>
      ScreenErrors(isEmail, c)[BranchField] == Validation.LoginErrors(isEmail, c)[BranchField]
    ensures EmailField in ScreenErrors(isEmail, c) ==>
      ScreenErrors(isEmail, c)[EmailField] != Validation.LoginErrors(isEmail, c)[EmailField]
  {
    var e := ScreenErrors(isEmail, c);
    var u := Validation.LoginErrors(isEmail, c);
    forall f ensures f in e <==> f in u {
      match f
      case NameField =>
      case EmailField =>
      case PhoneField =>
      case PurposeField =>
      case SourceField =>
      case PhotoField =>
      case SignatureField =>
      case BranchField =>
      case PasswordField =>
    }
  }

  /** An empty branch is rejected with the branch message, whatever the other fields hold. */
  lemma EmptyBranchRejected(isEmail: EmailSyntax, c: LoginCredentials)
    requires c.branch == ""
    ensures BranchField in ScreenErrors(isEmail, c)
    ensures ScreenErrors(isEmail, c)[BranchField] == "Please select a branch"
    ensures !ScreenValid(isEmail, c)
  {
  }

  /** Whichever branch the dropdown offers, the branch rule passes. */
  lemma ListedBranchPasses(isEmail: EmailSyntax, c: LoginCredentials)
    requires Branches.IsBranchName(c.branch)
    ensures BranchField !in ScreenErrors(isEmail, c)
  {
    var i :| 0 <= i < |Branches.BranchTable| && Branches.BranchTable[i].name == c.branch;
    Branches.BranchTableShape();
  }

  // ---------------------------------------------------------------- defaults

  const DefaultEmail := "admin@24karat.co.in"
  const DefaultPassword := "password123"
  const DefaultBranch := "Main Office"

  /** The values the form opens with. */
  const Defaults := LoginCredentials(DefaultEmail, DefaultPassword, DefaultBranch)

  /**
   * The defaults pass the password and branch rules, the branch is one the
   * dropdown offers, and the form can be submitted as it opens whenever the
   * default address is accepted by the e-mail check.
   */
  lemma DefaultsPassLengthRules(isEmail: EmailSyntax)
    ensures |Defaults.password| == 11
    ensures PasswordField !in ScreenErrors(isEmail, Defaults)
    ensures BranchField !in ScreenErrors(isEmail, Defaults)
    ensures Branches.IsBranchName(Defaults.branch)
    ensures ScreenValid(isEmail, Defaults) <==> isEmail(DefaultEmail)
  {
    assert Branches.BranchTable[0].name == Defaults.branch;
  }

  // ---------------------------------------------------------------- submit

  const TokenPrefix := "mock-token-"

  /** The route the screen replaces itself with after signing in. */
  const MainRoute := "Main"

  /**
   * `mockUser`: id "1", the e-mail and branch as entered, and a token made of
   * "mock-token-" and the clock's milliseconds written in decimal. The
   * password is not carried over.
   */
  function MockUser(c: LoginCredentials, nowMillis: nat): (u: AuthUser)
    ensures u.id == "1" && u.email == c.email && u.branch == c.branch
    ensures TokenPrefix <= u.token
    ensures |u.token| > |TokenPrefix| && AllDigits(u.token[|TokenPrefix|..])
    ensures DecimalValue(u.token[|TokenPrefix|..]) == nowMillis
  {
    var token := TokenPrefix + Decimal(nowMillis);
    DecimalRoundTrip(nowMillis);
    assert token[|TokenPrefix|..] == Decimal(nowMillis);
    AuthUser("1", c.email, c.branch, token)
  }

  /** The session user is built without the password: two passwords give the same user. */
  lemma PasswordNotInSession(c: LoginCredentials, other: string, nowMillis: nat)
    ensures MockUser(c, nowMillis) == MockUser(c.(password := other), nowMillis)
  {
  }

  /** Two sign-ins at different milliseconds get different tokens. */
  lemma TokensDifferByMillisecond(c: LoginCredentials, t1: nat, t2: nat)
    requires t1 != t2
    ensures MockUser(c, t1).token != MockUser(c, t2).token
  {
  }

  /**
   * `handleSubmit(onSubmit)`: credentials the schema rejects stop at the
   * schema (the field messages are shown and nobody is signed in); any others
   * sign in, since the screen does no credential check of its own.
   */
  function SignIn(isEmail: EmailSyntax, c: LoginCredentials, nowMillis: nat): (r: Option<AuthUser>)
    ensures r.Some? <==> ScreenErrors(isEmail, c) == map[]
    ensures r.Some? ==> r.value.email == c.email && r.value.branch == c.branch
  {
    ScreenErrorsEmptyIff(isEmail, c);
    if ScreenValid(isEmail, c) then Some(MockUser(c, nowMillis)) else None
  }

  /** Any two schema-valid credentials with the same address and branch sign in as the same user. */
  lemma NoCredentialCheck(isEmail: EmailSyntax, c1: LoginCredentials, c2: LoginCredentials, nowMillis: nat)
    requires ScreenValid(isEmail, c1) && ScreenValid(isEmail, c2)
    requires c1.email == c2.email && c1.branch == c2.branch
    ensures SignIn(isEmail, c1, nowMillis).Some? && SignIn(isEmail, c1, nowMillis) == SignIn(isEmail, c2, nowMillis)
  {
  }

  /** The screen's own state: the submit spinner and the password visibility toggle. */
  class LoginForm {
    var isLoading: bool
    var showPassword: bool

    constructor ()
      ensures !isLoading && !showPassword
    {
      isLoading := false;
      showPassword := false;
    }

    /** The eye icon: flips whether the password is shown. */
    method TogglePassword()
      modifies this
      ensures showPassword == !old(showPassword)
      ensures isLoading == old(isLoading)
    {
      showPassword := !showPassword;
    }

    /**
     * `onSubmit`, reached only with schema-valid data: turns the spinner on,
     * hands the mock user to `login`, replaces the screen with "Main", and
     * turns the spinner off again. The one-second delay is not modelled.
     */
    method OnSubmit(isEmail: EmailSyntax, data: LoginCredentials, nowMillis: nat)
      returns (loggedIn: AuthUser, route: string)
      requires ScreenValid(isEmail, data)
      modifies this
      ensures SignIn(isEmail, data, nowMillis) == Some(loggedIn)
      ensures loggedIn == MockUser(data, nowMillis)
      ensures route == MainRoute
      ensures !isLoading && showPassword == old(showPassword)
    {
      isLoading := true;
      loggedIn := MockUser(data, nowMillis);
      route := MainRoute;
      isLoading := false;
    }
  }

  /** A client run: sign in with the defaults under an address check that accepts them. */
  method DefaultSignIn(isEmail: EmailSyntax, nowMillis: nat) returns (user: AuthUser)
    requires isEmail(DefaultEmail)
    ensures user.email == "admin@24karat.co.in" && user.branch == "Main Office" && user.id == "1"
  {
    var form := new LoginForm();
    DefaultsPassLengthRules(isEmail);
    var route;
    user, route := form.OnSubmit(isEmail, Defaults, nowMillis);
    assert !form.isLoading;
  }
}
