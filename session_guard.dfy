/** The session guard of `GET /gpt` (`has_auth_token`): a request is let in
    when it carries a cookie named `authToken`, whatever its value. */
module SessionGuard {
  import opened Outcomes
  import opened TokenGate

  /** `request.cookies.get(name)`. */
  function Get(cookies: map<string, string>, name: string): (r: Option<string>)
    ensures r.Some? <==> name in cookies
    ensures r.Some? ==> r.value == cookies[name]
  {
    if name in cookies then Some(cookies[name]) else None
  }

  /** `has_auth_token`: the cookie lookup is not `None`. */
  function HasAuthToken(cookies: map<string, string>): (b: bool)
    ensures b <==> AuthCookieName in cookies
  {
    Get(cookies, AuthCookieName) != None
  }

  /** Any value is accepted, the empty string included: the guard checks
      presence only, not that the server ever issued the token. */
  lemma AnyValueAccepted(cookies: map<string, string>, value: string)
    ensures HasAuthToken(cookies[AuthCookieName := value])
    ensures HasAuthToken(map[AuthCookieName := ""])
  {
  }

  /** Cookies with other names neither grant nor withdraw access. */
  lemma OtherCookiesIrrelevant(cookies: map<string, string>, name: string, value: string)
    requires name != AuthCookieName
    ensures HasAuthToken(cookies[name := value]) == HasAuthToken(cookies)
    ensures HasAuthToken(cookies - {name}) == HasAuthToken(cookies)
  {
  }

  /** A client's cookie jar after it applies `Set-Cookie` directives in order. */
  function StoreCookies(jar: map<string, string>, cs: seq<Cookie>): map<string, string>
    decreases |cs|
  {
    if cs == [] then jar else StoreCookies(jar[cs[0].name := cs[0].value], cs[1..])
  }

  /** The gate and the guard agree: a client that stores what a successful
      authentication sends passes the guard, whatever else it holds. */
  lemma {:induction false} GrantedClientPassesGuard(jar: map<string, string>, signature: string,
                                                    recover: (string, string) -> Outcome<Address>,
                                                    balanceOf: Address -> Outcome<int>, token: string)
    requires AuthOutcome(signature, recover, balanceOf, token).Ok?
    requires AuthOutcome(signature, recover, balanceOf, token).value.Redirected?
    ensures var reply := AuthOutcome(signature, recover, balanceOf, token).value;
      HasAuthToken(StoreCookies(jar, reply.cookies)) &&
      StoreCookies(jar, reply.cookies)[AuthCookieName] == token
  {
    var reply := AuthOutcome(signature, recover, balanceOf, token).value;
    GrantNeedsBalance(signature, recover, balanceOf, token);
    assert reply.cookies == [SessionCookie(token)];
    assert StoreCookies(jar, reply.cookies) == StoreCookies(jar[AuthCookieName := token], []);
  }
}
