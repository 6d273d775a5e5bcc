/** Token checks: credential submission and the privileged stepper action are
    gated by the device token issued at boot. */
module Access {

  /** `isValidToken`: exact equality with the device token, and non-empty. */
  predicate IsValidToken(token: string, deviceToken: string)
  {
    token == deviceToken && |token| > 0
  }

  /** The stepper handler's policy: in setup mode the presented token must pass
      `IsValidToken`; otherwise it only has to equal the device token. */
  predicate StepperAuthorized(apMode: bool, token: string, deviceToken: string)
  {
    if apMode then IsValidToken(token, deviceToken) else token == deviceToken
  }

  /** An empty presented token is rejected whatever the device token is, and a
      token is accepted exactly when the device token is non-empty and equal to it. */
  lemma IsValidTokenIff(token: string, deviceToken: string)
    ensures !IsValidToken("", deviceToken)
    ensures IsValidToken(token, deviceToken) <==> deviceToken != "" && token == deviceToken
  {
  }

  /** With a non-empty device token (every token issued at boot has 12 symbols)
      the two policies coincide in both modes. */
  lemma StepperAuthorizedIsValidToken(apMode: bool, token: string, deviceToken: string)
    requires deviceToken != ""
    ensures StepperAuthorized(apMode, token, deviceToken) <==> IsValidToken(token, deviceToken)
  {
  }

  /** The policies differ exactly for the empty token presented outside setup
      mode to a device whose token is empty: the stepper handler accepts it. */
  lemma StepperPolicyDiffersOnEmptyToken(apMode: bool, token: string, deviceToken: string)
    ensures StepperAuthorized(apMode, token, deviceToken) != IsValidToken(token, deviceToken)
      <==> !apMode && token == "" && deviceToken == ""
  {
  }
}
