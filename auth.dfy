/** The shared-secret check every route depends on. */
module Auth {
  import opened Wrappers
  import opened Domain

  const MisconfiguredDetail: string := "Server misconfigured: API_TOKEN not set in .env"
  const InvalidTokenDetail: string := "Invalid or missing API token"

  datatype Outcome = Pass | Fail(error: Error)

  /** An unset or empty configured token counts as not configured. */
  predicate Configured(apiToken: Option<string>) { apiToken.Some? && apiToken.value != "" }

  /**
   * `verify_token`: the configured token (read once at start-up) is compared
   * with the `x-token` header.  A missing configuration is reported before
   * any comparison; otherwise only an exact match passes.
   */
  function VerifyToken(apiToken: Option<string>, xToken: string): (r: Outcome)
    ensures r == Pass <==> Configured(apiToken) && xToken == apiToken.value
    ensures r == Fail(Misconfigured(MisconfiguredDetail)) <==> !Configured(apiToken)
    ensures r == Fail(Unauthorized(InvalidTokenDetail)) <==> Configured(apiToken) && xToken != apiToken.value
  {
    if !Configured(apiToken) then Fail(Misconfigured(MisconfiguredDetail))
    else if xToken != apiToken.value then Fail(Unauthorized(InvalidTokenDetail))
    else Pass
  }

  /** Without a configured token every header, even an empty one, is refused as a misconfiguration. */
  lemma MisconfigurationPrecedes(apiToken: Option<string>, xToken: string, other: string)
    requires !Configured(apiToken)
    ensures VerifyToken(apiToken, xToken) == VerifyToken(apiToken, other)
    ensures VerifyToken(apiToken, xToken).Fail? && VerifyToken(apiToken, xToken).error.Misconfigured?
  {
  }

  /** The three outcomes are exhaustive. */
  lemma ThreeOutcomes(apiToken: Option<string>, xToken: string)
    ensures var r := VerifyToken(apiToken, xToken);
      r == Pass || r == Fail(Misconfigured(MisconfiguredDetail)) || r == Fail(Unauthorized(InvalidTokenDetail))
  {
  }
}
