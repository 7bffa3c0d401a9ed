/** The authentication slice of the client store: the session token, the
    pending-2FA temp token, and the loading and error flags of the four
    request thunks. The reducers assign fields of the state in place. */
module AuthSlice {
  import opened Common

  /** `AuthState`; `None` stands for null. */
  datatype AuthState = AuthState(
    token: Option<string>,
    isLoading: bool,
    error: Option<string>,
    otpRequired: bool,
    tempToken: Option<string>)

  /** The body of a login or verification response as the reducers read it. */
  datatype LoginResponse = LoginResponse(token: string, otpRequired: Option<bool>, tempToken: Option<string>)

  datatype Thunk = LoginUser | RegisterUser | VerifyOtpLogin | VerifyBackupCode

  /** The two thunks of the second login step. */
  datatype SecondStep = WithOtp | WithBackupCode

  /** The message a rejected thunk falls back to when its error has none. */
  function Fallback(thunk: Thunk): string
  {
    match thunk
    case LoginUser => "Erreur inconnue"
    case RegisterUser => "Erreur inconnue"
    case VerifyOtpLogin => "Code OTP invalide"
    case VerifyBackupCode => "Code de secours invalide"
  }

  datatype AuthAction =
    | Logout
    | ClearError
    | Pending(thunk: Thunk)
    | LoginFulfilled(login: LoginResponse)
    | RegisterFulfilled(registered: LoginResponse)
    | VerifyFulfilled(step: SecondStep, verified: LoginResponse)
    | Rejected(thunk: Thunk, message: Option<string>)

  /** The store's promise to the pages: a temp token is only held while the
      second login step is pending. */
  predicate Consistent(s: AuthState)
  {
    s.tempToken.Some? ==> s.otpRequired
  }

  const InitialState := AuthState(None, false, None, false, None)

  /** The slice's reducer: the state after one action. */
  function Reduce(s: AuthState, action: AuthAction): (r: AuthState)
    ensures action.Pending? ==>
      r.isLoading && r.error.None? && r.token == s.token && r.otpRequired == s.otpRequired && r.tempToken == s.tempToken
    ensures action.Rejected? ==>
      && !r.isLoading && r.token == s.token && r.tempToken == s.tempToken && r.otpRequired == s.otpRequired
      && r.error == Some(if Truthy(action.message) then action.message.value else Fallback(action.thunk))
      && r.error.value != ""
    ensures action.LoginFulfilled? && action.login.otpRequired == Some(true) ==>
      && r.otpRequired && r.token == s.token && !r.isLoading && r.error == s.error
      && r.tempToken == (if Truthy(action.login.tempToken) then action.login.tempToken else None)
    ensures action.LoginFulfilled? && action.login.otpRequired != Some(true) ==>
      r.token == Some(action.login.token) && !r.otpRequired && r.tempToken.None? && !r.isLoading && r.error == s.error
    ensures action.VerifyFulfilled? ==>
      r.token == Some(action.verified.token) && !r.otpRequired && r.tempToken.None? && !r.isLoading && r.error == s.error
    ensures action.RegisterFulfilled? ==>
      r == s.(isLoading := false, token := Some(action.registered.token))
    ensures action.Logout? ==>
      r.token.None? && !r.otpRequired && r.tempToken.None? && r.isLoading == s.isLoading && r.error == s.error
    ensures action.ClearError? ==> r == s.(error := None)
    ensures Consistent(s) ==> Consistent(r)
  {
    match action
    case Logout => s.(token := None, otpRequired := false, tempToken := None)
    case ClearError => s.(error := None)
    case Pending(_) => s.(isLoading := true, error := None)
    case LoginFulfilled(payload) =>
      if payload.otpRequired == Some(true) then
        s.(isLoading := false, otpRequired := true, tempToken := if Truthy(payload.tempToken) then payload.tempToken else None)
      else
        s.(isLoading := false, token := Some(payload.token), otpRequired := false, tempToken := None)
    case RegisterFulfilled(payload) => s.(isLoading := false, token := Some(payload.token))
    case VerifyFulfilled(_, payload) => s.(isLoading := false, token := Some(payload.token), otpRequired := false, tempToken := None)
    case Rejected(thunk, message) =>
      s.(isLoading := false, error := Some(if Truthy(message) then message.value else Fallback(thunk)))
  }

  /** The store is consistent from its initial state on, whatever actions
      it receives. */
  lemma {:induction false} ConsistentAfterAll(actions: seq<AuthAction>)
    ensures Consistent(ReduceAll(InitialState, actions))
  {
    ConsistentPreserved(InitialState, actions);
  }

  function ReduceAll(s: AuthState, actions: seq<AuthAction>): AuthState
    decreases |actions|
  {
    if actions == [] then s else ReduceAll(Reduce(s, actions[0]), actions[1..])
  }

  lemma {:induction false} ConsistentPreserved(s: AuthState, actions: seq<AuthAction>)
    requires Consistent(s)
    ensures Consistent(ReduceAll(s, actions))
    decreases |actions|
  {
    if actions != [] {
      ConsistentPreserved(Reduce(s, actions[0]), actions[1..]);
    }
  }

  /** The slice as the store holds it: one mutable state whose fields each
      reducer assigns. */
  class AuthStore {
    var token: Option<string>
    var isLoading: bool
    var error: Option<string>
    var otpRequired: bool
    var tempToken: Option<string>

    function State(): AuthState
      reads this
    {
      AuthState(token, isLoading, error, otpRequired, tempToken)
    }

    /** `initialState`: every field null or false. */
    constructor ()
      ensures State() == InitialState
      ensures Consistent(State())
    {
      token, isLoading, error, otpRequired, tempToken := None, false, None, false, None;
    }

    method Logout()
      modifies this
      ensures State() == Reduce(old(State()), AuthAction.Logout)
    {
      token := None;
      otpRequired := false;
      tempToken := None;
    }

    method ClearError()
      modifies this
      ensures State() == Reduce(old(State()), AuthAction.ClearError)
    {
      error := None;
    }

    method Pending(thunk: Thunk)
      modifies this
      ensures State() == Reduce(old(State()), AuthAction.Pending(thunk))
    {
      isLoading := true;
      error := None;
    }

    method LoginFulfilled(payload: LoginResponse)
      modifies this
      ensures State() == Reduce(old(State()), AuthAction.LoginFulfilled(payload))
    {
      isLoading := false;
      if payload.otpRequired == Some(true) {
        otpRequired := true;
        tempToken := if Truthy(payload.tempToken) then payload.tempToken else None;
      } else {
        token := Some(payload.token);
        otpRequired := false;
        tempToken := None;
      }
    }

    method RegisterFulfilled(payload: LoginResponse)
      modifies this
      ensures State() == Reduce(old(State()), AuthAction.RegisterFulfilled(payload))
    {
      isLoading := false;
      token := Some(payload.token);
    }

    /** The fulfilled case of `verifyOtpLogin` and of `verifyBackupCode`:
        the two are the same. */
    method VerifyFulfilled(step: SecondStep, payload: LoginResponse)
      modifies this
      ensures State() == Reduce(old(State()), AuthAction.VerifyFulfilled(step, payload))
    {
      isLoading := false;
      token := Some(payload.token);
      otpRequired := false;
      tempToken := None;
    }

    method Rejected(thunk: Thunk, message: Option<string>)
      modifies this
      ensures State() == Reduce(old(State()), AuthAction.Rejected(thunk, message))
    {
      isLoading := false;
      error := Some(if Truthy(message) then message.value else Fallback(thunk));
    }
  }
}
