/** The user slice of the client store: the profile, and the state of the
    two-factor setup dialog (the secret to scan, the activation result with
    its backup codes, and the OTP requests' loading and error flags). */
module UserSlice {
  import opened Common

  datatype UserProfile = UserProfile(id: string, username: string, email: string, otpEnable: int, createdAt: string)

  datatype OtpSetupData = OtpSetupData(qrCodeDataUrl: string, manualKey: string)

  datatype OtpActivationResult = OtpActivationResult(success: bool, backupCodes: seq<string>)

  /** `UserState`; `None` stands for null. */
  datatype UserState = UserState(
    profile: Option<UserProfile>,
    isLoading: bool,
    error: Option<string>,
    otpSetup: Option<OtpSetupData>,
    otpActivationResult: Option<OtpActivationResult>,
    isOtpLoading: bool,
    otpError: Option<string>)

  const InitialState := UserState(None, false, None, None, None, false, None)

  /** The three two-factor thunks. */
  datatype OtpThunk = GenerateOtpSecret | VerifyAndActivateOtp | DisableOtp

  function OtpFallback(thunk: OtpThunk): string
  {
    match thunk
    case GenerateOtpSecret => "Erreur OTP"
    case VerifyAndActivateOtp => "Code OTP invalide"
    case DisableOtp => "Erreur lors de la désactivation"
  }

  const ProfileFallback := "Erreur lors du chargement du profil"

  datatype UserAction =
    | ClearProfile
    | ClearOtpSetup
    | ClearOtpError
    | ProfilePending
    | ProfileFulfilled(fetched: UserProfile)
    | ProfileRejected(message: Option<string>)
    | OtpPending(thunk: OtpThunk)
    | GenerateFulfilled(setup: OtpSetupData)
    | ActivateFulfilled(result: OtpActivationResult)
    | DisableFulfilled
    | OtpRejected(thunk: OtpThunk, message: Option<string>)

  predicate IsOtpAction(a: UserAction)
  {
    a.OtpPending? || a.GenerateFulfilled? || a.ActivateFulfilled? || a.DisableFulfilled? || a.OtpRejected?
  }

  predicate IsProfileAction(a: UserAction)
  {
    a.ProfilePending? || a.ProfileFulfilled? || a.ProfileRejected?
  }

  /** The profile with its two-factor flag set, when there is a profile. */
  function WithOtpEnable(profile: Option<UserProfile>, enable: int): (r: Option<UserProfile>)
    ensures r.Some? <==> profile.Some?
    ensures r.Some? ==> r.value == profile.value.(otpEnable := enable)
  {
    if profile.Some? then Some(profile.value.(otpEnable := enable)) else None
  }

  /** The slice's reducer. */
  function Reduce(s: UserState, action: UserAction): (r: UserState)
    ensures action.ClearProfile? ==> r == s.(profile := None)
    ensures action.ClearOtpSetup? ==> r == s.(otpSetup := None, otpActivationResult := None, otpError := None)
    ensures action.ClearOtpError? ==> r == s.(otpError := None)
    ensures action.ProfilePending? ==> r == s.(isLoading := true, error := None)
    ensures action.ProfileFulfilled? ==> r == s.(isLoading := false, profile := Some(action.fetched))
    ensures action.ProfileRejected? ==>
      r == s.(isLoading := false, error := Some(if Truthy(action.message) then action.message.value else ProfileFallback))
    ensures action.OtpPending? ==> r == s.(isOtpLoading := true, otpError := None)
    ensures action.GenerateFulfilled? ==> r == s.(isOtpLoading := false, otpSetup := Some(action.setup))
    ensures action.ActivateFulfilled? ==>
      && r == s.(isOtpLoading := false, otpActivationResult := Some(action.result), profile := r.profile)
      && (s.profile.Some? ==> r.profile == Some(s.profile.value.(otpEnable := 1)))
      && (s.profile.None? ==> r.profile.None?)
    ensures action.DisableFulfilled? ==>
      && r == s.(isOtpLoading := false, otpSetup := None, otpActivationResult := None, profile := r.profile)
      && (s.profile.Some? ==> r.profile == Some(s.profile.value.(otpEnable := 0)))
      && (s.profile.None? ==> r.profile.None?)
    ensures action.OtpRejected? ==>
      r == s.(isOtpLoading := false, otpError := Some(if Truthy(action.message) then action.message.value else OtpFallback(action.thunk)))
    ensures IsOtpAction(action) ==> r.isLoading == s.isLoading && r.error == s.error
    ensures IsProfileAction(action) ==>
      r.otpSetup == s.otpSetup && r.otpActivationResult == s.otpActivationResult
      && r.isOtpLoading == s.isOtpLoading && r.otpError == s.otpError
  {
    match action
    case ClearProfile => s.(profile := None)
    case ClearOtpSetup => s.(otpSetup := None, otpActivationResult := None, otpError := None)
    case ClearOtpError => s.(otpError := None)
    case ProfilePending => s.(isLoading := true, error := None)
    case ProfileFulfilled(fetched) => s.(isLoading := false, profile := Some(fetched))
    case ProfileRejected(message) =>
      s.(isLoading := false, error := Some(if Truthy(message) then message.value else ProfileFallback))
    case OtpPending(_) => s.(isOtpLoading := true, otpError := None)
    case GenerateFulfilled(setup) => s.(isOtpLoading := false, otpSetup := Some(setup))
    case ActivateFulfilled(result) =>
      s.(isOtpLoading := false, otpActivationResult := Some(result), profile := WithOtpEnable(s.profile, 1))
    case DisableFulfilled =>
      s.(isOtpLoading := false, profile := WithOtpEnable(s.profile, 0), otpSetup := None, otpActivationResult := None)
    case OtpRejected(thunk, message) =>
      s.(isOtpLoading := false, otpError := Some(if Truthy(message) then message.value else OtpFallback(thunk)))
  }

  /** The two-factor actions change no part of the profile other than its
      flag: name, e-mail and the rest stay as they were. */
  lemma OtpActionsKeepProfileIdentity(s: UserState, action: UserAction)
    requires IsOtpAction(action) && s.profile.Some?
    ensures var r := Reduce(s, action);
      r.profile.Some? && r.profile.value.(otpEnable := s.profile.value.otpEnable) == s.profile.value
  {
    var r := Reduce(s, action);
    assert r.profile.Some?;
  }

  /** The slice as the store holds it. */
  class UserStore {
    var profile: Option<UserProfile>
    var isLoading: bool
    var error: Option<string>
    var otpSetup: Option<OtpSetupData>
    var otpActivationResult: Option<OtpActivationResult>
    var isOtpLoading: bool
    var otpError: Option<string>

    function State(): UserState
      reads this
    {
      UserState(profile, isLoading, error, otpSetup, otpActivationResult, isOtpLoading, otpError)
    }

    /** `initialState`: every field null or false. */
    constructor ()
      ensures State() == InitialState
    {
      profile, isLoading, error := None, false, None;
      otpSetup, otpActivationResult, isOtpLoading, otpError := None, None, false, None;
    }

    method ClearProfile()
      modifies this
      ensures State() == Reduce(old(State()), UserAction.ClearProfile)
    {
      profile := None;
    }

    method ClearOtpSetup()
      modifies this
      ensures State() == Reduce(old(State()), UserAction.ClearOtpSetup)
    {
      otpSetup := None;
      otpActivationResult := None;
      otpError := None;
    }

    method ClearOtpError()
      modifies this
      ensures State() == Reduce(old(State()), UserAction.ClearOtpError)
    {
      otpError := None;
    }

    method ProfilePending()
      modifies this
      ensures State() == Reduce(old(State()), UserAction.ProfilePending)
    {
      isLoading := true;
      error := None;
    }

    method ProfileFulfilled(fetched: UserProfile)
      modifies this
      ensures State() == Reduce(old(State()), UserAction.ProfileFulfilled(fetched))
    {
      isLoading := false;
      profile := Some(fetched);
    }

    method ProfileRejected(message: Option<string>)
      modifies this
      ensures State() == Reduce(old(State()), UserAction.ProfileRejected(message))
    {
      isLoading := false;
      error := Some(if Truthy(message) then message.value else ProfileFallback);
    }

    method OtpPending(thunk: OtpThunk)
      modifies this
      ensures State() == Reduce(old(State()), UserAction.OtpPending(thunk))
    {
      isOtpLoading := true;
      otpError := None;
    }

    method GenerateFulfilled(setup: OtpSetupData)
      modifies this
      ensures State() == Reduce(old(State()), UserAction.GenerateFulfilled(setup))
    {
      isOtpLoading := false;
      otpSetup := Some(setup);
    }

    /** `state.profile.otp_enable = 1` when a profile is loaded. */
    method ActivateFulfilled(result: OtpActivationResult)
      modifies this
      ensures State() == Reduce(old(State()), UserAction.ActivateFulfilled(result))
    {
      isOtpLoading := false;
      otpActivationResult := Some(result);
      if profile.Some? {
        profile := Some(profile.value.(otpEnable := 1));
      }
    }

    method DisableFulfilled()
      modifies this
      ensures State() == Reduce(old(State()), UserAction.DisableFulfilled)
    {
      isOtpLoading := false;
      if profile.Some? {
        profile := Some(profile.value.(otpEnable := 0));
      }
      otpSetup := None;
      otpActivationResult := None;
    }

    method OtpRejected(thunk: OtpThunk, message: Option<string>)
      modifies this
      ensures State() == Reduce(old(State()), UserAction.OtpRejected(thunk, message))
    {
      isOtpLoading := false;
      otpError := Some(if Truthy(message) then message.value else OtpFallback(thunk));
    }
  }
}
