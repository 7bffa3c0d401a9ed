/** The dialog that switches two-factor authentication on or off: which of
    its four panels shows for the current user state, the activation code
    field, and the verify and close handlers. */
module TwoFactorModal {
  import opened Common
  import opened Text
  import UserSlice

  const OtpLength := 6

  /** The `mode` prop. */
  datatype Mode = Activate | Deactivate

  /** Which panels the dialog renders: generate the QR code, scan it and
      verify a code, show the backup codes, confirm deactivation. */
  datatype Panels = Panels(generate: bool, verify: bool, backupCodes: bool, deactivate: bool)

  function Shown(p: Panels): nat
  {
    (if p.generate then 1 else 0) + (if p.verify then 1 else 0)
    + (if p.backupCodes then 1 else 0) + (if p.deactivate then 1 else 0)
  }

  /** The four render conditions. Exactly one panel shows at any time; the
      generate and verify panels never show together; once an activation
      result exists only the backup codes show; the verify panel only
      shows a secret that exists; deactivation is only offered in
      deactivate mode. */
  function VisiblePanels(mode: Mode, s: UserSlice.UserState): (p: Panels)
    ensures Shown(p) == 1
    ensures !(p.generate && p.verify)
    ensures s.otpActivationResult.Some? ==> p.backupCodes && !p.generate && !p.verify && !p.deactivate
    ensures p.backupCodes ==> s.otpActivationResult.Some?
    ensures p.verify ==> s.otpSetup.Some?
    ensures p.generate || p.verify ==> mode.Activate?
    ensures p.deactivate ==> mode.Deactivate?
  {
    Panels(
      mode.Activate? && s.otpSetup.None? && s.otpActivationResult.None?,
      mode.Activate? && s.otpSetup.Some? && s.otpActivationResult.None?,
      s.otpActivationResult.Some?,
      mode.Deactivate? && s.otpActivationResult.None?)
  }

  /** Activation walks the dialog through its panels in order: generate,
      then verify once the secret arrived, then the backup codes. */
  lemma ActivationWalksThePanels(s: UserSlice.UserState, setup: UserSlice.OtpSetupData, result: UserSlice.OtpActivationResult)
    requires s.otpSetup.None? && s.otpActivationResult.None?
    ensures VisiblePanels(Activate, s).generate
    ensures var s1 := UserSlice.Reduce(s, UserSlice.GenerateFulfilled(setup));
      VisiblePanels(Activate, s1).verify
      && VisiblePanels(Activate, UserSlice.Reduce(s1, UserSlice.ActivateFulfilled(result))).backupCodes
  {
  }

  /** The code field's `onChange`: keep the first six digits typed. */
  function OnCodeInput(raw: string): (r: string)
    ensures |r| <= OtpLength && AllDigits(r)
    ensures |r| == if |KeepDigits(raw)| < OtpLength then |KeepDigits(raw)| else OtpLength
    ensures r == KeepDigits(raw)[..|r|]
  {
    DigitsPrefix(raw, OtpLength)
  }

  /** The activate button's `disabled` negated. */
  predicate ActivateEnabled(otpCode: string, isOtpLoading: bool)
  {
    |otpCode| == OtpLength && !isOtpLoading
  }

  /** Whatever is typed, the activate button lights up exactly when six
      digits were among it and no request is running. */
  lemma ActivateButtonAfterInput(raw: string, isOtpLoading: bool)
    ensures ActivateEnabled(OnCodeInput(raw), isOtpLoading) <==> |KeepDigits(raw)| >= OtpLength && !isOtpLoading
  {
  }

  /** `handleVerify`: the code to send, or nothing on an empty code. */
  function HandleVerify(otpCode: string): (r: Option<string>)
    ensures r.None? <==> otpCode == []
    ensures r.Some? ==> r.value == otpCode
  {
    if otpCode == [] then None else Some(otpCode)
  }

  /** An enabled activate button always sends the code, and the pending
      request then disables it and clears the error. */
  lemma ActivateButtonSends(s: UserSlice.UserState, otpCode: string)
    requires ActivateEnabled(otpCode, s.isOtpLoading)
    ensures HandleVerify(otpCode) == Some(otpCode)
    ensures var r := UserSlice.Reduce(s, UserSlice.OtpPending(UserSlice.VerifyAndActivateOtp));
      r.otpError.None? && !ActivateEnabled(otpCode, r.isOtpLoading)
  {
  }

  /** `handleClose`: clear the setup and the OTP error in the store, and the
      local code. */
  function HandleClose(s: UserSlice.UserState): (r: (UserSlice.UserState, string))
    ensures r.0.otpSetup.None? && r.0.otpActivationResult.None? && r.0.otpError.None?
    ensures r.0.profile == s.profile && r.0.isLoading == s.isLoading && r.0.error == s.error
    ensures r.0.isOtpLoading == s.isOtpLoading
    ensures r.1 == []
  {
    (UserSlice.Reduce(UserSlice.Reduce(s, UserSlice.ClearOtpSetup), UserSlice.ClearOtpError), [])
  }

  /** After closing, the dialog opens again on its first panel, whichever
      mode it is opened in. */
  lemma CloseResetsTheDialog(s: UserSlice.UserState)
    ensures VisiblePanels(Activate, HandleClose(s).0).generate
    ensures VisiblePanels(Deactivate, HandleClose(s).0).deactivate
  {
  }
}
