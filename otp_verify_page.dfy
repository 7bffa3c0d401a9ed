/** The second login step page: a six-digit OTP form, a backup-code form, a
    link switching between the two, and the guards in front of the two
    verification requests. */
module OtpVerifyPage {
  import opened Common
  import opened Text
  import AuthSlice

  const OtpLength := 6

  /** What a handler hands to the store. */
  datatype Dispatch =
    | ClearError
    | VerifyOtp(tempToken: string, otpToken: string)
    | VerifyBackup(tempToken: string, backupCode: string)

  /** The first action each dispatch puts through the auth reducer. */
  function Effect(d: Dispatch): (a: AuthSlice.AuthAction)
    ensures d.ClearError? <==> a.ClearError?
    ensures d.VerifyOtp? <==> a == AuthSlice.Pending(AuthSlice.VerifyOtpLogin)
    ensures d.VerifyBackup? <==> a == AuthSlice.Pending(AuthSlice.VerifyBackupCode)
  {
    match d
    case ClearError => AuthSlice.ClearError
    case VerifyOtp(_, _) => AuthSlice.Pending(AuthSlice.VerifyOtpLogin)
    case VerifyBackup(_, _) => AuthSlice.Pending(AuthSlice.VerifyBackupCode)
  }

  /** The page's local state. */
  datatype PageState = PageState(otpCode: string, backupMode: bool, backupCodeValue: string)

  const InitialPage := PageState([], false, [])

  /** The OTP field's `onChange`: keep the first six digits typed. */
  function OnOtpInput(p: PageState, raw: string): (r: PageState)
    ensures |r.otpCode| <= OtpLength && AllDigits(r.otpCode)
    ensures |r.otpCode| == if |KeepDigits(raw)| < OtpLength then |KeepDigits(raw)| else OtpLength
    ensures r.otpCode == KeepDigits(raw)[..|r.otpCode|]
    ensures r.backupMode == p.backupMode && r.backupCodeValue == p.backupCodeValue
  {
    p.(otpCode := DigitsPrefix(raw, OtpLength))
  }

  /** The backup field's `onChange`: store the value upper-cased. */
  function OnBackupInput(p: PageState, raw: string): (r: PageState)
    ensures |r.backupCodeValue| == |raw|
    ensures forall i :: 0 <= i < |raw| ==> r.backupCodeValue[i] == UpperChar(raw[i])
    ensures forall i :: 0 <= i < |r.backupCodeValue| ==> !IsLowerAscii(r.backupCodeValue[i])
    ensures r.otpCode == p.otpCode && r.backupMode == p.backupMode
  {
    p.(backupCodeValue := ToUpper(raw))
  }

  /** Typing the field's own content again changes nothing. */
  lemma InputsAreStable(p: PageState, raw: string)
    ensures OnOtpInput(OnOtpInput(p, raw), OnOtpInput(p, raw).otpCode) == OnOtpInput(p, raw)
    ensures OnBackupInput(OnBackupInput(p, raw), OnBackupInput(p, raw).backupCodeValue) == OnBackupInput(p, raw)
  {
    DigitsPrefixIdempotent(raw, OtpLength);
    ToUpperIdempotent(raw);
  }

  /** The OTP button's `disabled` negated. */
  predicate OtpSubmitEnabled(otpCode: string, isLoading: bool)
  {
    |otpCode| == OtpLength && !isLoading
  }

  /** The backup button's `disabled` negated. */
  predicate BackupSubmitEnabled(backupCodeValue: string, isLoading: bool)
  {
    Trim(backupCodeValue) != [] && !isLoading
  }

  /** Whatever is typed, the OTP button lights up exactly when six digits
      were among it and no request is running. */
  lemma OtpButtonAfterInput(p: PageState, raw: string, isLoading: bool)
    ensures OtpSubmitEnabled(OnOtpInput(p, raw).otpCode, isLoading) <==> |KeepDigits(raw)| >= OtpLength && !isLoading
  {
  }

  /** `handleOtpSubmit`: nothing without a temp token or a code; otherwise
      clear the error, then request the verification. */
  function OtpSubmit(tempToken: Option<string>, otpCode: string): (r: seq<Dispatch>)
    ensures r == [] <==> !Truthy(tempToken) || otpCode == []
    ensures r != [] ==> |r| == 2 && r[0] == ClearError && r[1] == VerifyOtp(tempToken.value, otpCode)
  {
    if !Truthy(tempToken) || otpCode == [] then [] else [ClearError, VerifyOtp(tempToken.value, otpCode)]
  }

  /** `handleBackupSubmit`, the same guard in front of the backup request. */
  function BackupSubmit(tempToken: Option<string>, backupCodeValue: string): (r: seq<Dispatch>)
    ensures r == [] <==> !Truthy(tempToken) || backupCodeValue == []
    ensures r != [] ==> |r| == 2 && r[0] == ClearError && r[1] == VerifyBackup(tempToken.value, backupCodeValue)
  {
    if !Truthy(tempToken) || backupCodeValue == [] then [] else [ClearError, VerifyBackup(tempToken.value, backupCodeValue)]
  }

  /** The auth state after the dispatched actions went through the reducer. */
  function Apply(s: AuthSlice.AuthState, ds: seq<Dispatch>): AuthSlice.AuthState
    decreases |ds|
  {
    if ds == [] then s else Apply(AuthSlice.Reduce(s, Effect(ds[0])), ds[1..])
  }

  /** An enabled OTP button always sends the code, and sending it clears the
      error and disables the button until the request settles. */
  lemma OtpButtonSubmits(s: AuthSlice.AuthState, otpCode: string)
    requires Truthy(s.tempToken) && OtpSubmitEnabled(otpCode, s.isLoading)
    ensures OtpSubmit(s.tempToken, otpCode) == [ClearError, VerifyOtp(s.tempToken.value, otpCode)]
    ensures var r := Apply(s, OtpSubmit(s.tempToken, otpCode));
      r.isLoading && r.error.None? && r.tempToken == s.tempToken && !OtpSubmitEnabled(otpCode, r.isLoading)
  {
    var ds := OtpSubmit(s.tempToken, otpCode);
    var s1 := AuthSlice.Reduce(s, AuthSlice.ClearError);
    assert ds[1..] == [VerifyOtp(s.tempToken.value, otpCode)] && ds[1..][1..] == [];
    assert Apply(s, ds) == Apply(s1, ds[1..]) == AuthSlice.Reduce(s1, AuthSlice.Pending(AuthSlice.VerifyOtpLogin));
  }

  /** The same for the backup button: a value that is not blank is sent. */
  lemma BackupButtonSubmits(s: AuthSlice.AuthState, backupCodeValue: string)
    requires Truthy(s.tempToken) && BackupSubmitEnabled(backupCodeValue, s.isLoading)
    ensures BackupSubmit(s.tempToken, backupCodeValue) == [ClearError, VerifyBackup(s.tempToken.value, backupCodeValue)]
    ensures var r := Apply(s, BackupSubmit(s.tempToken, backupCodeValue));
      r.isLoading && r.error.None? && r.tempToken == s.tempToken && !BackupSubmitEnabled(backupCodeValue, r.isLoading)
  {
    assert backupCodeValue != [];
    var ds := BackupSubmit(s.tempToken, backupCodeValue);
    var s1 := AuthSlice.Reduce(s, AuthSlice.ClearError);
    assert ds[1..] == [VerifyBackup(s.tempToken.value, backupCodeValue)] && ds[1..][1..] == [];
    assert Apply(s, ds) == Apply(s1, ds[1..]) == AuthSlice.Reduce(s1, AuthSlice.Pending(AuthSlice.VerifyBackupCode));
  }

  /** `toggleBackupMode`: flips the mode and clears the error; the typed
      values stay. */
  function ToggleBackupMode(p: PageState): (r: (PageState, seq<Dispatch>))
    ensures r.0.backupMode == !p.backupMode
    ensures r.0.otpCode == p.otpCode && r.0.backupCodeValue == p.backupCodeValue
    ensures r.1 == [ClearError]
  {
    (p.(backupMode := !p.backupMode), [ClearError])
  }

  /** Toggling twice brings the page back to the form it showed, with the
      error gone. */
  lemma ToggleTwice(p: PageState, s: AuthSlice.AuthState)
    ensures ToggleBackupMode(ToggleBackupMode(p).0).0 == p
    ensures Apply(s, ToggleBackupMode(p).1) == s.(error := None)
  {
    assert ToggleBackupMode(p).1[1..] == [];
  }
}
