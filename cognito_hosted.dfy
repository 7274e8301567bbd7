/**
 * The hosted-login hand-off (cognito-hosted.js): on return from the identity
 * provider the page exchanges the authorization code in its URL for tokens at
 * the provider's token endpoint (section 4.1.3 of RFC 6749), stores both
 * tokens in the durable store, scrubs the code from the URL and moves on to
 * the quotes page. Logout forgets both tokens; the login/quotes/logout buttons
 * follow the stored identity token.
 */
module CognitoHosted {
  import opened Wrappers
  import opened Json
  import Text
  import opened Browser
  import AppGateway

  const ACCESS_TOKEN := "accessToken"
  const ID_TOKEN := "idToken"
  const LOGIN_FAILED := "Login failed. Please try again."
  const LOGGED_OUT := "You have been logged out successfully."
  const QUOTES_PAGE := "quotes.html"
  const HOME_PAGE := "index.html"

  /** `window.COGNITO_CONFIG`; a field that is not set is None. */
  datatype CognitoConfig = CognitoConfig(
    userPoolId: Option<string>, accountId: Option<string>, region: Option<string>, clientId: Option<string>)

  /** A value interpolated into a template literal: an unset field reads "undefined". */
  function Interpolated(v: Option<string>): string {
    if v.Some? then v.value else "undefined"
  }

  /**
   * `getCognitoDomain`: null without a configuration or without a (non-empty)
   * user pool id; otherwise the hosted-UI domain of the account and region.
   */
  function GetCognitoDomain(config: Option<CognitoConfig>): (r: Option<string>)
    ensures r.None? <==> config.None? || config.value.userPoolId.None? || config.value.userPoolId.value == ""
    ensures r.Some? ==> Text.StartsWith(r.value, "insurance-quotes-") && Text.EndsWith(r.value, ".amazoncognito.com")
  {
    if config.None? || config.value.userPoolId.None? || config.value.userPoolId.value == "" then None
    else
      var middle := Interpolated(config.value.accountId) + ".auth." + Interpolated(config.value.region);
      var domain := "insurance-quotes-" + middle + ".amazoncognito.com";
      assert domain[..17] == "insurance-quotes-";
      assert domain[|domain| - 18..] == ".amazoncognito.com";
      Some(domain)
  }

  /** Only the user pool id is checked: an unset account id still yields a domain, naming "undefined". */
  lemma UnsetAccountIdNamesUndefined(poolId: string, region: string, clientId: Option<string>)
    requires poolId != ""
    ensures GetCognitoDomain(Some(CognitoConfig(Some(poolId), None, Some(region), clientId))) ==
            Some("insurance-quotes-undefined.auth." + region + ".amazoncognito.com")
  {
    assert "insurance-quotes-" + ("undefined" + ".auth." + region) + ".amazoncognito.com" ==
           "insurance-quotes-undefined.auth." + region + ".amazoncognito.com";
  }

  /** `getClientId`: the configured client id, or null without a configuration. */
  function GetClientId(config: Option<CognitoConfig>): (r: Option<string>)
    ensures config.None? ==> r.None?
    ensures config.Some? ==> r == config.value.clientId
  {
    if config.Some? then config.value.clientId else None
  }

  /** `REDIRECT_URI`: the page's origin and path, without query or fragment. */
  function RedirectUri(origin: string, pathname: string): string {
    origin + pathname
  }

  /** `isTokenValid`, as this script defines it for itself. */
  function IsTokenValid(token: string, nowMs: nat, decode: AppGateway.ExpDecoder): bool
  {
    var segments := Text.Split(token, '.');
    |segments| >= 2 &&
    match decode(segments[1])
    case Some(exp) => exp > nowMs / 1000
    case None => false
  }

  /** The two scripts judge every token alike. */
  lemma SameRuleAsGateway(token: string, nowMs: nat, decode: AppGateway.ExpDecoder)
    ensures IsTokenValid(token, nowMs, decode) == AppGateway.IsTokenValid(token, nowMs, decode)
  {
  }

  /** The token request: the endpoint and the form fields of its body, in order. */
  datatype TokenRequest = TokenRequest(url: string, form: seq<(string, string)>)

  /** The configuration is complete enough to send a token request. */
  predicate Configured(config: Option<CognitoConfig>) {
    GetCognitoDomain(config).Some? && GetClientId(config).Some? && GetClientId(config).value != ""
  }

  /** The provider issued tokens: a successful status and a truthy `access_token`. */
  predicate TokensIssued(reply: FetchReply) {
    reply.Reply? && reply.ok && reply.body.Some? && reply.body.value != JNull &&
    JsTruthy(Prop(reply.body.value, "access_token"))
  }

  /** The durable store after a successful exchange: both tokens, as `setItem` turns them into text. */
  function StoreTokens(local: map<string, string>, tokens: Value): map<string, string> {
    local[ACCESS_TOKEN := JsString(Prop(tokens, "access_token"))][ID_TOKEN := JsString(Prop(tokens, "id_token"))]
  }

  /**
   * `exchangeCodeForTokens`: without a domain or client id nothing is sent.
   * Otherwise the authorization-code grant is posted to the token endpoint; on
   * a reply that issues tokens both are stored, the query string is dropped
   * from the URL and the page moves to the quotes page. Every failure ends in
   * one alert and writes no token.
   */
  method ExchangeCodeForTokens(page: Page, code: string, config: Option<CognitoConfig>, reply: FetchReply)
    returns (request: Option<TokenRequest>)
    modifies page`localStore, page`search, page`href, page`alerts
    ensures request.Some? <==> Configured(config)
    ensures request.Some? ==> request.value == TokenRequest(
              "https://" + GetCognitoDomain(config).value + "/oauth2/token",
              [("grant_type", "authorization_code"), ("client_id", GetClientId(config).value),
               ("code", code), ("redirect_uri", RedirectUri(page.origin, page.pathname))])
    ensures request.Some? && TokensIssued(reply) ==>
              page.localStore == StoreTokens(old(page.localStore), reply.body.value) &&
              page.search == [] && page.href == Some(QUOTES_PAGE) && page.alerts == old(page.alerts)
    ensures !(request.Some? && TokensIssued(reply)) ==>
              page.localStore == old(page.localStore) && page.search == old(page.search) &&
              page.href == old(page.href) && page.alerts == old(page.alerts) + [LOGIN_FAILED]
  {
    var domain := GetCognitoDomain(config);
    var clientId := GetClientId(config);
    if domain.None? || clientId.None? || clientId.value == "" {
      page.alerts := page.alerts + [LOGIN_FAILED];
      return None;
    }
    request := Some(TokenRequest(
      "https://" + domain.value + "/oauth2/token",
      [("grant_type", "authorization_code"), ("client_id", clientId.value),
       ("code", code), ("redirect_uri", RedirectUri(page.origin, page.pathname))]));
    if reply.Reply? && reply.body.Some? && reply.body.value != JNull {
      var tokens := reply.body.value;
      if reply.ok && JsTruthy(Prop(tokens, "access_token")) {
        page.localStore := page.localStore[ACCESS_TOKEN := JsString(Prop(tokens, "access_token"))];
        page.localStore := page.localStore[ID_TOKEN := JsString(Prop(tokens, "id_token"))];
        page.search := [];
        page.href := Some(QUOTES_PAGE);
        return;
      }
    }
    // the fetch rejected, json() rejected, `tokens.access_token` was read from null,
    // or the reply issued no token: the error is caught and reported
    page.alerts := page.alerts + [LOGIN_FAILED];
  }

  /**
   * `handleOAuthCallback`: exchanges the `code` query parameter when it is
   * present and non-empty; otherwise sends nothing and changes nothing.
   */
  method HandleOAuthCallback(page: Page, config: Option<CognitoConfig>, reply: FetchReply)
    returns (request: Option<TokenRequest>)
    modifies page`localStore, page`search, page`href, page`alerts
    ensures var code := GetParam(old(page.search), "code");
      (code.None? || code.value == "") ==>
        request.None? && page.localStore == old(page.localStore) && page.search == old(page.search) &&
        page.href == old(page.href) && page.alerts == old(page.alerts)
    ensures var code := GetParam(old(page.search), "code");
      code.Some? && code.value != "" ==>
        (request.Some? <==> Configured(config)) &&
        (request.Some? ==> request.value == TokenRequest(
           "https://" + GetCognitoDomain(config).value + "/oauth2/token",
           [("grant_type", "authorization_code"), ("client_id", GetClientId(config).value),
            ("code", code.value), ("redirect_uri", RedirectUri(page.origin, page.pathname))])) &&
        (request.Some? && TokensIssued(reply) ==>
           page.localStore == StoreTokens(old(page.localStore), reply.body.value) &&
           page.search == [] && page.href == Some(QUOTES_PAGE) && page.alerts == old(page.alerts)) &&
        (!(request.Some? && TokensIssued(reply)) ==>
           page.localStore == old(page.localStore) && page.search == old(page.search) &&
           page.href == old(page.href) && page.alerts == old(page.alerts) + [LOGIN_FAILED])
  {
    var code := GetParam(page.search, "code");
    if code.Some? && code.value != "" {
      request := ExchangeCodeForTokens(page, code.value, config, reply);
    } else {
      request := None;
    }
  }

  /** `logout`: forgets both tokens, says so, and goes to the home page. */
  method Logout(page: Page)
    modifies page`localStore, page`alerts, page`href
    ensures page.localStore == old(page.localStore) - {ACCESS_TOKEN, ID_TOKEN}
    ensures page.alerts == old(page.alerts) + [LOGGED_OUT]
    ensures page.href == Some(HOME_PAGE)
  {
    page.localStore := page.localStore - {ACCESS_TOKEN};
    page.localStore := page.localStore - {ID_TOKEN};
    page.alerts := page.alerts + [LOGGED_OUT];
    page.href := Some(HOME_PAGE);
  }

  /** Which of the three buttons are displayed. */
  datatype Buttons = Buttons(login: bool, quotes: bool, logout: bool)

  predicate LoggedIn(local: map<string, string>, nowMs: nat, decode: AppGateway.ExpDecoder) {
    ID_TOKEN in local && local[ID_TOKEN] != "" && IsTokenValid(local[ID_TOKEN], nowMs, decode)
  }

  /**
   * The decision of `updateUIBasedOnLoginStatus`: the login button shows
   * exactly when the quotes and logout buttons are hidden, and those show
   * exactly when the stored identity token is present and valid.
   */
  function ButtonsFor(local: map<string, string>, nowMs: nat, decode: AppGateway.ExpDecoder): (b: Buttons)
    ensures b.login == !b.quotes && b.quotes == b.logout
    ensures b.quotes <==> LoggedIn(local, nowMs, decode)
  {
    if ID_TOKEN in local && local[ID_TOKEN] != "" && IsTokenValid(local[ID_TOKEN], nowMs, decode)
    then Buttons(false, true, true)
    else Buttons(true, false, false)
  }

  /** The buttons show "logged in" exactly when the access gate sees an authenticated visitor. */
  lemma ButtonsAgreeWithGate(local: map<string, string>, session: map<string, string>,
                             nowMs: nat, decode: AppGateway.ExpDecoder)
    ensures ButtonsFor(local, nowMs, decode).quotes <==>
            AppGateway.Access(local, session, nowMs, decode) == AppGateway.Authenticated
  {
    if ID_TOKEN in local {
      SameRuleAsGateway(local[ID_TOKEN], nowMs, decode);
    }
  }

  /** After logout the visitor is no longer authenticated; only a session grant can still let them in. */
  lemma LogoutEndsAuthentication(local: map<string, string>, session: map<string, string>,
                                 nowMs: nat, decode: AppGateway.ExpDecoder)
    ensures AppGateway.Access(local - {ACCESS_TOKEN, ID_TOKEN}, session, nowMs, decode) ==
            (if AppGateway.SessionIsGranted(session) then AppGateway.SessionGranted else AppGateway.Anonymous)
    ensures ButtonsFor(local - {ACCESS_TOKEN, ID_TOKEN}, nowMs, decode).login
  {
  }

  /** A successful exchange whose identity token is unexpired makes the gate see an authenticated visitor. */
  lemma ExchangeAuthenticates(local: map<string, string>, session: map<string, string>, tokens: Value,
                              idToken: string, nowMs: nat, decode: AppGateway.ExpDecoder)
    requires Prop(tokens, "id_token") == Some(JStr(idToken))
    requires AppGateway.IsTokenValid(idToken, nowMs, decode)
    ensures AppGateway.Access(StoreTokens(local, tokens), session, nowMs, decode) == AppGateway.Authenticated
  {
    assert idToken != "" by {
      assert Text.Split("", '.') == [""];
    }
  }

  /**
   * A reply that issues an access token but no identity token still counts as a
   * success: the text "undefined" is stored as the identity token, which is never
   * valid, so the visitor lands on the quotes page without being logged in.
   */
  lemma MissingIdTokenIsStoredAsUndefined(local: map<string, string>, tokens: Value,
                                          nowMs: nat, decode: AppGateway.ExpDecoder)
    requires Prop(tokens, "id_token").None?
    ensures StoreTokens(local, tokens)[ID_TOKEN] == "undefined"
    ensures !LoggedIn(StoreTokens(local, tokens), nowMs, decode)
  {
    AppGateway.NoSegmentsIsInvalid("undefined", nowMs, decode);
  }
}
