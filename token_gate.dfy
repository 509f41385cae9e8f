/** The token gate behind `GET /auth` (`authenticate`): recover the wallet
    address that signed the fixed challenge, read its token balance, and
    either issue a session cookie with a redirect to the chat page or answer
    with a fixed denial text.

    Signature recovery (EIP-191 `personal_sign` hashing and secp256k1
    recovery), the `balanceOf` contract call and `uuid4().hex` are outside the
    model: the first two are oracle parameters, the token is a parameter. */
module TokenGate {
  import opened Outcomes

  type Address = string

  /** The message every client signs; the same on every attempt. */
  const Challenge: string := "Access to chat bot"
  const AuthCookieName: string := "authToken"
  const ChatPath: string := "/gpt"
  const DenialText: string := "You don't have the required NFT!"
  /** The status Flask's `redirect` uses by default. */
  const RedirectStatus: nat := 302

  datatype SameSite = Unset | Strict | Lax | NoRestriction

  /** One `Set-Cookie` directive. `maxAge == None` is a session cookie with
      no expiry, Werkzeug's default. */
  datatype Cookie = Cookie(name: string, value: string, httpOnly: bool, secure: bool,
                           sameSite: SameSite, maxAge: Option<nat>)

  /** What `authenticate` hands back to Flask, as a value: a redirect response
      with its cookies, or a bare string that Flask sends as the body. */
  datatype Reply =
    | Redirected(status: nat, location: string, cookies: seq<Cookie>)
    | PlainText(body: string)

  /** The cookie a successful authentication sets. */
  function SessionCookie(token: string): Cookie
  {
    Cookie(AuthCookieName, token, true, true, Strict, None)
  }

  /** A cookie that only the server can read, only over TLS, only on
      same-site requests, with the session credential as its value. */
  predicate Hardened(c: Cookie)
  {
    c.name == AuthCookieName && c.httpOnly && c.secure && c.sameSite == Strict
  }

  /** The balance decision of `authenticate`: a positive balance is the only
      way to a session; anything else gets the fixed denial. */
  function Decide(balance: int, token: string): (r: Reply)
    ensures r.Redirected? <==> balance > 0
    ensures r.Redirected? ==>
      r.status == RedirectStatus && r.location == ChatPath &&
      |r.cookies| == 1 && Hardened(r.cookies[0]) && r.cookies[0].value == token &&
      r.cookies[0].maxAge == None
    ensures r.PlainText? ==> r.body == DenialText
  {
    if balance > 0 then Redirected(RedirectStatus, ChatPath, [SessionCookie(token)])
    else PlainText(DenialText)
  }

  /** `authenticate(signature)` as a value: recovery over the fixed
      challenge, then the balance of the recovered address, then the
      decision. An exception from either call is not caught. */
  function AuthOutcome(signature: string, recover: (string, string) -> Outcome<Address>,
                       balanceOf: Address -> Outcome<int>, token: string): (r: Outcome<Reply>)
    ensures recover(Challenge, signature).Raise? ==> r == Raise(recover(Challenge, signature).error)
    ensures recover(Challenge, signature).Ok? ==>
      var owner := recover(Challenge, signature).value;
      match balanceOf(owner)
      case Raise(e) => r == Raise(e)
      case Ok(balance) => r.Ok? && (r.value.Redirected? <==> balance > 0)
  {
    match recover(Challenge, signature)
    case Raise(e) => Raise(e)
    case Ok(owner) =>
      match balanceOf(owner)
      case Raise(e) => Raise(e)
      case Ok(balance) => Ok(Decide(balance, token))
  }

  /** A session is issued only for an address that holds a token, and it is
      the one hardened cookie holding the fresh token. */
  lemma GrantNeedsBalance(signature: string, recover: (string, string) -> Outcome<Address>,
                          balanceOf: Address -> Outcome<int>, token: string)
    requires AuthOutcome(signature, recover, balanceOf, token).Ok?
    ensures var r := AuthOutcome(signature, recover, balanceOf, token).value;
      var owner := recover(Challenge, signature).value;
      recover(Challenge, signature).Ok? && balanceOf(owner).Ok? &&
      (r.Redirected? <==> balanceOf(owner).value > 0) &&
      (r.Redirected? ==> r.cookies == [SessionCookie(token)] && r.location == ChatPath) &&
      (r.PlainText? ==> r.body == DenialText)
  {
  }

  /** A denial happens only when both calls succeed and the signer holds no
      token; its body is the fixed text. */
  lemma DenialMeansNoBalance(signature: string, recover: (string, string) -> Outcome<Address>,
                             balanceOf: Address -> Outcome<int>, token: string)
    requires AuthOutcome(signature, recover, balanceOf, token).Ok?
    requires AuthOutcome(signature, recover, balanceOf, token).value.PlainText?
    ensures AuthOutcome(signature, recover, balanceOf, token).value.body == DenialText
    ensures var owner := recover(Challenge, signature).value;
      recover(Challenge, signature).Ok? && balanceOf(owner).Ok? && balanceOf(owner).value <= 0
  {
  }

  /** The response object Flask builds for a redirect, updated in place by
      `set_cookie`. */
  class HttpResponse {
    var status: nat
    var location: string
    var cookies: seq<Cookie>

    /** `make_response(redirect(target))`. */
    constructor Redirect(target: string)
      ensures status == RedirectStatus && location == target && cookies == []
    {
      status := RedirectStatus;
      location := target;
      cookies := [];
    }

    /** `response.set_cookie(name, value, httponly=…, secure=…, samesite=…)`
        appends one `Set-Cookie` directive and changes nothing else. */
    method SetCookie(name: string, value: string, httpOnly: bool, secure: bool, sameSite: SameSite)
      modifies this
      ensures cookies == old(cookies) + [Cookie(name, value, httpOnly, secure, sameSite, None)]
      ensures status == old(status) && location == old(location)
    {
      cookies := cookies + [Cookie(name, value, httpOnly, secure, sameSite, None)];
    }

    function Snapshot(): Reply
      reads this
    {
      Redirected(status, location, cookies)
    }
  }

  /** What the Python function returns: a response object or a string. */
  datatype Returned = ResponseObject(response: HttpResponse) | StringReturned(body: string)

  function Observe(r: Outcome<Returned>): Outcome<Reply>
    reads if r.Ok? && r.value.ResponseObject? then {r.value.response} else {}
  {
    match r
    case Raise(e) => Raise(e)
    case Ok(ResponseObject(response)) => Ok(response.Snapshot())
    case Ok(StringReturned(body)) => Ok(PlainText(body))
  }

  /** `authenticate` step by step: the response object is created fresh and
      mutated by `set_cookie`; what it holds afterwards is `AuthOutcome`. */
  method Authenticate(signature: string, recover: (string, string) -> Outcome<Address>,
                      balanceOf: Address -> Outcome<int>, token: string)
    returns (r: Outcome<Returned>)
    ensures r.Ok? && r.value.ResponseObject? ==> fresh(r.value.response)
    ensures Observe(r) == AuthOutcome(signature, recover, balanceOf, token)
  {
    var message := Challenge;
    var recovered := recover(message, signature);
    if recovered.Raise? {
      return Raise(recovered.error);
    }
    var balance := balanceOf(recovered.value);
    if balance.Raise? {
      return Raise(balance.error);
    }
    if balance.value > 0 {
      var response := new HttpResponse.Redirect(ChatPath);
      response.SetCookie(AuthCookieName, token, true, true, Strict);
      assert response.Snapshot() == Decide(balance.value, token);
      r := Ok(ResponseObject(response));
    } else {
      r := Ok(StringReturned(DenialText));
    }
  }
}
