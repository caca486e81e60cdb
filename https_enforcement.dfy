/**
 * The HTTPS redirect and the start-up security check
 * (server/src/middleware/httpsEnforcement.ts, with `NODE_ENV` read as in
 * server/src/config/env.ts).
 */
module HttpsEnforcement {
  import opened Common

  /** `process.env.NODE_ENV || 'development'` */
  function NodeEnv(variable: Option<string>): (e: string)
    ensures SomeTruthy(variable) ==> e == variable.value
    ensures !SomeTruthy(variable) ==> e == "development"
  {
    OrElse(variable, "development")
  }

  /** What the middleware does with a request. */
  datatype HttpsAction = Next | Redirect(status: int, location: string)

  /** `enforceHTTPS`. A missing Host header prints as `undefined` in the template string. */
  function EnforceHttps(nodeEnv: string, secure: bool, forwardedProto: Option<string>, host: Option<string>, url: string): (a: HttpsAction)
    ensures nodeEnv == "development" ==> a == Next
    ensures nodeEnv != "development" && (secure || forwardedProto == Some("https")) ==> a == Next
    ensures nodeEnv != "development" && !secure && forwardedProto != Some("https") ==>
      a == Redirect(301, "https://" + host.GetOr("undefined") + url)
  {
    if nodeEnv == "development" then Next
    else
      var isSecure := secure || forwardedProto == Some("https");
      if !isSecure then Redirect(301, "https://" + host.GetOr("undefined") + url)
      else Next
  }

  /** The redirect keeps the host and the path: the location is the https URL of the very request. */
  lemma RedirectKeepsHostAndPath(nodeEnv: string, forwardedProto: Option<string>, host: string, url: string)
    requires nodeEnv != "development" && forwardedProto != Some("https")
    ensures var a := EnforceHttps(nodeEnv, false, forwardedProto, Some(host), url);
      a.Redirect? && a.location[..8] == "https://" && a.location[8..8 + |host|] == host && a.location[8 + |host|..] == url
  {
    var loc := "https://" + host + url;
    assert loc[..8] == "https://";
    assert loc[8..8 + |host|] == host;
    assert loc[8 + |host|..] == url;
  }

  /** Only a plain-HTTP request outside development is redirected; nothing is redirected twice. */
  lemma RedirectedOnlyWhenInsecure(nodeEnv: string, secure: bool, forwardedProto: Option<string>, host: Option<string>, url: string)
    ensures EnforceHttps(nodeEnv, secure, forwardedProto, host, url).Redirect? <==>
      nodeEnv != "development" && !secure && forwardedProto != Some("https")
    ensures EnforceHttps(nodeEnv, secure, Some("https"), host, url) == Next
  {
  }

  /** The start-up report of `validateSecurityConfig`. */
  datatype SecurityReport = DevelopmentNotice | ProductionReport(weakSecretWarning: bool)

  const MinSecretLength := 32

  /** `validateSecurityConfig`: the secret warning appears exactly in production with a missing or short secret. */
  function ValidateSecurityConfig(nodeEnv: string, jwtSecret: Option<string>): (r: SecurityReport)
    ensures r.ProductionReport? <==> nodeEnv == "production"
    ensures r.ProductionReport? ==>
      (r.weakSecretWarning <==> jwtSecret.None? || |jwtSecret.value| < 32)
  {
    if nodeEnv == "production" then
      ProductionReport(!SomeTruthy(jwtSecret) || |jwtSecret.value| < MinSecretLength)
    else DevelopmentNotice
  }

  /**
   * The environment object reads no `jwtSecret`, so `env.jwtSecret` is always
   * undefined: in production the weak-secret warning is printed whatever the
   * configured secret is, and in any other environment only the notice.
   */
  lemma ShippedConfigAlwaysWarns(nodeEnv: string)
    ensures nodeEnv == "production" ==> ValidateSecurityConfig(nodeEnv, None) == ProductionReport(true)
    ensures nodeEnv != "production" ==> ValidateSecurityConfig(nodeEnv, None) == DevelopmentNotice
  {
  }
}
