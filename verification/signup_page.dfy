/** The registration form (src/pages/SignUpPage.tsx): five text fields, a
    client-side password check that runs before the sign-up call, and the
    navigation to the verification page once the account exists. */
module SignUpPage {
  import opened Basics
  import opened AuthSlice

  const PasswordsDontMatch: string := "Passwords don't match"
  const PasswordTooShort: string := "Password must be at least 8 characters long"
  const MinPasswordLength: nat := 8
  const VerifyRoute: string := "/verify"

  datatype SignUpForm = SignUpForm(
    firstName: string,
    lastName: string,
    email: string,
    password: string,
    confirmPassword: string)

  const EmptyForm: SignUpForm := SignUpForm("", "", "", "", "")

  /** The `name` attribute of the input that changed. */
  datatype Field = FirstName | LastName | Email | Password | ConfirmPassword

  function FieldOf(f: SignUpForm, field: Field): string {
    match field
    case FirstName => f.firstName
    case LastName => f.lastName
    case Email => f.email
    case Password => f.password
    case ConfirmPassword => f.confirmPassword
  }

  /** The page's own state together with the auth store it reads. */
  datatype Screen = Screen(form: SignUpForm, validationError: Option<string>, auth: AuthState)

  /** `validateForm`: None when the form may be sent, otherwise the message
      it shows. A mismatch is reported before a short password. */
  function Validate(f: SignUpForm): (r: Option<string>)
    ensures r.None? <==> f.password == f.confirmPassword && |f.password| >= MinPasswordLength
    ensures f.password != f.confirmPassword ==> r == Some(PasswordsDontMatch)
    ensures f.password == f.confirmPassword && |f.password| < MinPasswordLength ==> r == Some(PasswordTooShort)
  {
    if f.password != f.confirmPassword then Some(PasswordsDontMatch)
    else if |f.password| < MinPasswordLength then Some(PasswordTooShort)
    else None
  }

  /** `handleChange`: the field takes the typed value, every other field is
      kept, the page's validation message is cleared, and a store error is
      cleared through `clearError`; nothing else in the store changes. */
  function HandleChange(sc: Screen, field: Field, value: string): (r: Screen)
    ensures FieldOf(r.form, field) == value
    ensures forall g: Field :: g != field ==> FieldOf(r.form, g) == FieldOf(sc.form, g)
    ensures r.validationError.None?
    ensures !Truthy(r.auth.error) && r.auth.(error := sc.auth.error) == sc.auth
  {
    var form := match field
      case FirstName => sc.form.(firstName := value)
      case LastName => sc.form.(lastName := value)
      case Email => sc.form.(email := value)
      case Password => sc.form.(password := value)
      case ConfirmPassword => sc.form.(confirmPassword := value);
    var auth := if Truthy(sc.auth.error) then Reduce(sc.auth, ClearError) else sc.auth;
    Screen(form, None, auth)
  }

  /** The banner above the form: the store's error, else the validation
      message. */
  function Banner(sc: Screen): (b: Option<string>)
    ensures Truthy(sc.auth.error) ==> b == sc.auth.error
    ensures !Truthy(sc.auth.error) && Truthy(sc.validationError) ==> b == sc.validationError
    ensures b.None? <==> !Truthy(sc.auth.error) && !Truthy(sc.validationError)
  {
    if Truthy(sc.auth.error) then sc.auth.error
    else if Truthy(sc.validationError) then sc.validationError
    else None
  }

  /** Typing into any field removes the banner. */
  lemma ChangeClearsBanner(sc: Screen, field: Field, value: string)
    ensures Banner(HandleChange(sc, field, value)).None?
  {
  }

  datatype SubmitOutcome = SubmitOutcome(screen: Screen, navigateTo: Option<string>)

  /** `handleSubmit`, with the backend's answer to the sign-up call as an
      input. An invalid form shows its message and calls nothing; a valid
      one dispatches sign-up with the form's e-mail, and only a fulfilled
      sign-up leads to the verification page. */
  function HandleSubmit(sc: Screen, response: Response<()>): (o: SubmitOutcome)
    ensures Validate(sc.form).Some? ==>
      o.screen == sc.(validationError := Validate(sc.form)) && o.navigateTo.None?
    ensures Validate(sc.form).None? ==>
      && o.screen.form == sc.form
      && o.screen.validationError == sc.validationError
      && o.screen.auth == DispatchSignUp(sc.auth, sc.form.email, response)
    ensures o.navigateTo.Some? <==> Validate(sc.form).None? && response.Ok?
    ensures o.navigateTo.Some? ==> o.navigateTo.value == VerifyRoute && o.screen.auth.verificationEmail == Some(sc.form.email)
  {
    var invalid := Validate(sc.form);
    if invalid.Some? then SubmitOutcome(sc.(validationError := invalid), None)
    else
      var settled := SignUpThunk(sc.form.email, response);
      var auth := Reduce(Reduce(sc.auth, SignUpPending), settled);
      SubmitOutcome(sc.(auth := auth), if settled.SignUpFulfilled? then Some(VerifyRoute) else None)
  }

  /** A rejected sign-up stays on the page and shows the backend's reason
      (or "Registration failed") in the banner. */
  lemma RejectedSignUpShowsReason(sc: Screen, e: ServiceError)
    requires Validate(sc.form).None?
    ensures var o := HandleSubmit(sc, Err(e));
      o.navigateTo.None? && Banner(o.screen) == Some(RejectionText(e, RegistrationFailed))
  {
    var o := HandleSubmit(sc, Err(e));
    assert o.screen.auth.error == Some(RejectionText(e, RegistrationFailed));
  }
}
