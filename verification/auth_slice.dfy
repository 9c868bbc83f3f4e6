/** The authentication slice of the store (src/store/slices/authSlice.ts):
    the signed-in user, a loading flag for sign-up and sign-in, the last
    error, the e-mail awaiting verification, and three request status
    machines (verification, code resend, grade update).

    Each of the five backend calls is a thunk: a function from the backend's
    response to the settling action it dispatches. A dispatch from the page
    is the pending action followed by that settling action. Writing the
    tokens to localStorage is left out. */
module AuthSlice {
  import opened Basics

  datatype User = User(
    firstName: Option<string>,
    lastName: Option<string>,
    email: string,
    grade: Option<string>,
    profilePhoto: Option<string>)

  /** `'idle' | 'pending' | 'success' | 'failed'`. */
  datatype Status = Idle | Pending | Success | Failed

  datatype AuthState = AuthState(
    user: Option<User>,
    isAuthenticated: bool,
    isLoading: bool,
    error: Option<string>,
    verificationEmail: Option<string>,
    verificationStatus: Status,
    resendStatus: Status,
    gradeUpdateStatus: Status)

  const InitialAuthState: AuthState :=
    AuthState(None, false, false, None, None, Idle, Idle, Idle)

  /** What sign-in and code verification return: the two tokens and the user. */
  datatype TokenResponse = TokenResponse(access: Option<string>, refresh: Option<string>, user: Option<User>)

  datatype Action =
    | SetAuthState(authenticated: bool, newUser: Option<User>)
    | ClearError
    | Logout
    | ResetGradeStatus
    | SignUpPending
    | SignUpFulfilled(argEmail: string)
    | SignUpRejected(payload: string)
    | SignInPending
    | SignInFulfilled(signedIn: TokenResponse)
    | SignInRejected(payload: string)
    | UpdateGradePending
    | UpdateGradeFulfilled(argGrade: string)
    | UpdateGradeRejected(payload: string)
    | VerifyPending
    | VerifyFulfilled(verified: TokenResponse)
    | VerifyRejected(payload: string)
    | ResendPending
    | ResendFulfilled
    | ResendRejected(payload: string)
  {
    predicate IsPending() {
      SignUpPending? || SignInPending? || UpdateGradePending? || VerifyPending? || ResendPending?
    }

    predicate IsRejected() {
      SignUpRejected? || SignInRejected? || UpdateGradeRejected? || VerifyRejected? || ResendRejected?
    }
  }

  /** The actions that own the loading flag: sign-up and sign-in. */
  predicate TouchesLoading(a: Action) {
    a.SignUpPending? || a.SignUpFulfilled? || a.SignUpRejected? ||
    a.SignInPending? || a.SignInFulfilled? || a.SignInRejected?
  }

  const RegistrationFailed: string := "Registration failed"
  const LoginFailed: string := "Login failed"
  const GradeUpdateFailed: string := "Failed to update grade. Please try again."
  const VerificationFailed: string := "Verification failed"
  const ResendFailed: string := "Failed to resend verification code"

  /** The rejection value of four of the thunks: the body's `error`, else
      its `detail`, else the thunk's own default. */
  function RejectionText(e: ServiceError, fallback: string): (m: string)
    requires fallback != ""
    ensures m != ""
    ensures Truthy(e.error) ==> m == e.error.value
    ensures !Truthy(e.error) && Truthy(e.detail) ==> m == e.detail.value
    ensures !Truthy(e.error) && !Truthy(e.detail) ==> m == fallback
  {
    OrElse(e.error, OrElse(e.detail, fallback))
  }

  /** `signUp`: the settling action for the e-mail the form submitted. */
  function SignUpThunk(email: string, response: Response<()>): (a: Action)
    ensures a.SignUpFulfilled? <==> response.Ok?
    ensures a.SignUpFulfilled? ==> a.argEmail == email
    ensures a.SignUpRejected? <==> response.Err?
    ensures a.SignUpRejected? ==> a.payload == RejectionText(response.err, RegistrationFailed)
  {
    if response.Ok? then SignUpFulfilled(email) else SignUpRejected(RejectionText(response.err, RegistrationFailed))
  }

  function SignInThunk(response: Response<TokenResponse>): (a: Action)
    ensures a.SignInFulfilled? <==> response.Ok?
    ensures a.SignInFulfilled? ==> a.signedIn == response.value
    ensures a.SignInRejected? <==> response.Err?
    ensures a.SignInRejected? ==> a.payload == RejectionText(response.err, LoginFailed)
  {
    if response.Ok? then SignInFulfilled(response.value) else SignInRejected(RejectionText(response.err, LoginFailed))
  }

  /** `updateGrade`: unlike the others, its rejection ignores `detail`. */
  function UpdateGradeThunk(grade: string, response: Response<()>): (a: Action)
    ensures a.UpdateGradeFulfilled? <==> response.Ok?
    ensures a.UpdateGradeFulfilled? ==> a.argGrade == grade
    ensures a.UpdateGradeRejected? <==> response.Err?
    ensures a.UpdateGradeRejected? ==> a.payload != ""
    ensures a.UpdateGradeRejected? && Truthy(response.err.error) ==> a.payload == response.err.error.value
    ensures a.UpdateGradeRejected? && !Truthy(response.err.error) ==> a.payload == GradeUpdateFailed
  {
    if response.Ok? then UpdateGradeFulfilled(grade) else UpdateGradeRejected(OrElse(response.err.error, GradeUpdateFailed))
  }

  function VerifyThunk(response: Response<TokenResponse>): (a: Action)
    ensures a.VerifyFulfilled? <==> response.Ok?
    ensures a.VerifyFulfilled? ==> a.verified == response.value
    ensures a.VerifyRejected? <==> response.Err?
    ensures a.VerifyRejected? ==> a.payload == RejectionText(response.err, VerificationFailed)
  {
    if response.Ok? then VerifyFulfilled(response.value) else VerifyRejected(RejectionText(response.err, VerificationFailed))
  }

  function ResendThunk(response: Response<()>): (a: Action)
    ensures a.ResendFulfilled? <==> response.Ok?
    ensures a.ResendRejected? <==> response.Err?
    ensures a.ResendRejected? ==> a.payload == RejectionText(response.err, ResendFailed)
  {
    if response.Ok? then ResendFulfilled else ResendRejected(RejectionText(response.err, ResendFailed))
  }

  /** The error field never holds an empty message. */
  predicate ErrorIsMeaningful(s: AuthState) {
    s.error.None? || s.error.value != ""
  }

  /** An action a thunk can produce carries a non-empty rejection text. */
  predicate WellFormedAction(a: Action) {
    a.IsRejected() ==> a.payload != ""
  }

  /** The reducer, with the slice's four plain reducers and the fifteen
      cases of its extra reducers. */
  function Reduce(s: AuthState, a: Action): (r: AuthState)
    // plain reducers
    ensures a.ClearError? ==> r == s.(error := None)
    ensures a.Logout? ==> r.user.None? && !r.isAuthenticated && r.(user := s.user, isAuthenticated := s.isAuthenticated) == s
    ensures a.ResetGradeStatus? ==>
      r.gradeUpdateStatus == Idle && r.error.None? && r.(gradeUpdateStatus := s.gradeUpdateStatus, error := s.error) == s
    ensures a.SetAuthState? ==> r.isAuthenticated == a.authenticated && r.user == a.newUser
    ensures a.SetAuthState? && a.newUser.Some? && a.newUser.value.email != "" ==>
      r.verificationEmail == Some(a.newUser.value.email)
    ensures a.SetAuthState? && !(a.newUser.Some? && a.newUser.value.email != "") ==>
      r.verificationEmail == s.verificationEmail
    // every pending case clears the error; every rejection sets it
    ensures a.IsPending() ==> r.error.None?
    ensures a.IsRejected() ==> r.error == Some(a.payload)
    // the loading flag belongs to sign-up and sign-in alone
    ensures a.SignUpPending? || a.SignInPending? ==> r.isLoading
    ensures a.SignUpFulfilled? || a.SignUpRejected? || a.SignInFulfilled? || a.SignInRejected? ==> !r.isLoading
    ensures TouchesLoading(a) || r.isLoading == s.isLoading
  {
    match a
    case SetAuthState(authenticated, newUser) =>
      var s1 := s.(isAuthenticated := authenticated, user := newUser);
      if newUser.Some? && newUser.value.email != "" then s1.(verificationEmail := Some(newUser.value.email)) else s1
    case ClearError => s.(error := None)
    case Logout => s.(user := None, isAuthenticated := false)
    case ResetGradeStatus => s.(gradeUpdateStatus := Idle, error := None)
    case SignUpPending => s.(isLoading := true, error := None)
    case SignUpFulfilled(email) => s.(isLoading := false, verificationEmail := Some(email))
    case SignUpRejected(payload) => s.(isLoading := false, error := Some(payload))
    case SignInPending => s.(isLoading := true, error := None)
    case SignInFulfilled(result) => s.(isLoading := false, isAuthenticated := true, user := result.user, error := None)
    case SignInRejected(payload) => s.(isLoading := false, error := Some(payload))
    case UpdateGradePending => s.(gradeUpdateStatus := Pending, error := None)
    case UpdateGradeFulfilled(grade) =>
      var s1 := s.(gradeUpdateStatus := Success);
      if s.user.Some? then s1.(user := Some(s.user.value.(grade := Some(grade)))) else s1
    case UpdateGradeRejected(payload) => s.(gradeUpdateStatus := Failed, error := Some(payload))
    case VerifyPending => s.(verificationStatus := Pending, error := None)
    case VerifyFulfilled(result) => s.(verificationStatus := Success, isAuthenticated := true, user := result.user)
    case VerifyRejected(payload) => s.(verificationStatus := Failed, error := Some(payload))
    case ResendPending => s.(resendStatus := Pending, error := None)
    case ResendFulfilled => s.(resendStatus := Success)
    case ResendRejected(payload) => s.(resendStatus := Failed, error := Some(payload))
  }

  /** Each status machine moves to pending, success or failed on its own
      three actions (the grade status also back to idle on its reset) and
      stays put on every other action. */
  lemma StatusMachines(s: AuthState, a: Action)
    ensures var r := Reduce(s, a);
      && (a.VerifyPending? ==> r.verificationStatus == Pending)
      && (a.VerifyFulfilled? ==> r.verificationStatus == Success)
      && (a.VerifyRejected? ==> r.verificationStatus == Failed)
      && (!(a.VerifyPending? || a.VerifyFulfilled? || a.VerifyRejected?) ==> r.verificationStatus == s.verificationStatus)
      && (a.ResendPending? ==> r.resendStatus == Pending)
      && (a.ResendFulfilled? ==> r.resendStatus == Success)
      && (a.ResendRejected? ==> r.resendStatus == Failed)
      && (!(a.ResendPending? || a.ResendFulfilled? || a.ResendRejected?) ==> r.resendStatus == s.resendStatus)
      && (a.UpdateGradePending? ==> r.gradeUpdateStatus == Pending)
      && (a.UpdateGradeFulfilled? ==> r.gradeUpdateStatus == Success)
      && (a.UpdateGradeRejected? ==> r.gradeUpdateStatus == Failed)
      && (!(a.UpdateGradePending? || a.UpdateGradeFulfilled? || a.UpdateGradeRejected? || a.ResetGradeStatus?) ==>
          r.gradeUpdateStatus == s.gradeUpdateStatus)
  {
  }

  /** Only set-auth-state, sign-in and verification can authenticate; only
      those, logout and a fulfilled grade update can change the user; only
      set-auth-state and a fulfilled sign-up can change the e-mail awaiting
      verification. */
  lemma WhoChangesIdentity(s: AuthState, a: Action)
    ensures var r := Reduce(s, a);
      && (r.isAuthenticated && !s.isAuthenticated ==> a.SetAuthState? || a.SignInFulfilled? || a.VerifyFulfilled?)
      && (a.SignInFulfilled? ==> r.isAuthenticated && r.user == a.signedIn.user && r.error.None?)
      && (a.VerifyFulfilled? ==> r.isAuthenticated && r.user == a.verified.user)
      && (r.user != s.user ==>
          a.SetAuthState? || a.Logout? || a.SignInFulfilled? || a.VerifyFulfilled? || a.UpdateGradeFulfilled?)
      && (a.UpdateGradeFulfilled? && s.user.Some? ==> r.user == Some(s.user.value.(grade := Some(a.argGrade))))
      && (a.UpdateGradeFulfilled? && s.user.None? ==> r.user.None?)
      && (r.verificationEmail != s.verificationEmail ==> a.SetAuthState? || a.SignUpFulfilled?)
      && (a.SignUpFulfilled? ==> r.verificationEmail == Some(a.argEmail))
  {
  }

  /** A well-formed action never leaves an empty error message behind. */
  lemma ReduceKeepsErrorMeaningful(s: AuthState, a: Action)
    requires WellFormedAction(a) && ErrorIsMeaningful(s)
    ensures ErrorIsMeaningful(Reduce(s, a))
  {
  }

  function ReduceAll(s: AuthState, actions: seq<Action>): AuthState
    decreases |actions|
  {
    if actions == [] then s else ReduceAll(Reduce(s, actions[0]), actions[1..])
  }

  /** Starting from the initial state, a run of actions the thunks can
      produce never leaves an empty error message behind. */
  lemma {:induction false} ErrorMeaningfulAfterAnyActions(s: AuthState, actions: seq<Action>)
    requires ErrorIsMeaningful(s)
    requires forall i | 0 <= i < |actions| :: WellFormedAction(actions[i])
    ensures ErrorIsMeaningful(ReduceAll(s, actions))
    decreases |actions|
  {
    if actions != [] {
      assert WellFormedAction(actions[0]);
      ReduceKeepsErrorMeaningful(s, actions[0]);
      ErrorMeaningfulAfterAnyActions(Reduce(s, actions[0]), actions[1..]);
    }
  }

  /** Every thunk's settling action is well formed. */
  lemma ThunksAreWellFormed(email: string, grade: string, unit: Response<()>, tokens: Response<TokenResponse>)
    ensures WellFormedAction(SignUpThunk(email, unit))
    ensures WellFormedAction(SignInThunk(tokens))
    ensures WellFormedAction(UpdateGradeThunk(grade, unit))
    ensures WellFormedAction(VerifyThunk(tokens))
    ensures WellFormedAction(ResendThunk(unit))
  {
  }

  /** `dispatch(signUp(data))`: pending, then the outcome. Loading is over
      either way; on success the submitted e-mail awaits verification, on
      failure the error is the rejection text. */
  function DispatchSignUp(s: AuthState, email: string, response: Response<()>): (r: AuthState)
    ensures !r.isLoading
    ensures response.Ok? ==> r.verificationEmail == Some(email) && r.error.None?
    ensures response.Err? ==> r.verificationEmail == s.verificationEmail
    ensures response.Err? ==> r.error == Some(RejectionText(response.err, RegistrationFailed))
    ensures r.user == s.user && r.isAuthenticated == s.isAuthenticated
  {
    Reduce(Reduce(s, SignUpPending), SignUpThunk(email, response))
  }

  function DispatchSignIn(s: AuthState, response: Response<TokenResponse>): (r: AuthState)
    ensures !r.isLoading
    ensures response.Ok? ==> r.isAuthenticated && r.user == response.value.user && r.error.None?
    ensures response.Err? ==> r.isAuthenticated == s.isAuthenticated && r.user == s.user
    ensures response.Err? ==> r.error == Some(RejectionText(response.err, LoginFailed))
  {
    Reduce(Reduce(s, SignInPending), SignInThunk(response))
  }

  function DispatchUpdateGrade(s: AuthState, grade: string, response: Response<()>): (r: AuthState)
    ensures r.gradeUpdateStatus == (if response.Ok? then Success else Failed)
    ensures response.Ok? ==> r.error.None?
    ensures response.Ok? && s.user.Some? ==> r.user.Some? && r.user.value.grade == Some(grade)
    ensures response.Ok? && s.user.Some? ==> r.user.value.(grade := s.user.value.grade) == s.user.value
    ensures response.Err? ==> r.user == s.user && r.error.Some? && r.error.value != ""
    ensures r.isLoading == s.isLoading
  {
    Reduce(Reduce(s, UpdateGradePending), UpdateGradeThunk(grade, response))
  }

  function DispatchVerify(s: AuthState, response: Response<TokenResponse>): (r: AuthState)
    ensures r.verificationStatus == (if response.Ok? then Success else Failed)
    ensures response.Ok? ==> r.isAuthenticated && r.user == response.value.user && r.error.None?
    ensures response.Err? ==> r.isAuthenticated == s.isAuthenticated && r.user == s.user
    ensures response.Err? ==> r.error == Some(RejectionText(response.err, VerificationFailed))
    ensures r.isLoading == s.isLoading && r.verificationEmail == s.verificationEmail
  {
    Reduce(Reduce(s, VerifyPending), VerifyThunk(response))
  }

  function DispatchResend(s: AuthState, response: Response<()>): (r: AuthState)
    ensures r.resendStatus == (if response.Ok? then Success else Failed)
    ensures response.Ok? ==> r.error.None?
    ensures response.Err? ==> r.error == Some(RejectionText(response.err, ResendFailed))
    ensures r.(resendStatus := s.resendStatus, error := s.error) == s
  {
    Reduce(Reduce(s, ResendPending), ResendThunk(response))
  }

  /** Signing out undoes signing in: after a successful sign-in followed by
      logout nobody is signed in and no user is held, and nothing but the
      loading flag and the error differs from before the sign-in. */
  lemma SignInThenLogout(s: AuthState, result: TokenResponse)
    ensures var r := Reduce(DispatchSignIn(s, Ok(result)), Logout);
      !r.isAuthenticated && r.user.None? &&
      r == s.(isAuthenticated := false, user := None, isLoading := false, error := None)
  {
  }
}
