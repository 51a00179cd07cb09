/** Sign-in credentials and the parameter map they are sent as. */
module Credentials {

  import opened Wrappers
  import opened Json
  import opened Macros

  /** A login token: a `#[serde(transparent)]` wrapper around its text. */
  datatype Token = Token(s: string)

  /** `Token::to_string`. */
  function TokenToString(t: Token): (s: string)
    ensures Token(s) == t
  {
    t.s
  }

  /** `Token::from_str`. Its error type `Impossible` has no values; the unit
      type stands in for it, and no input reaches it. */
  function TokenFromStr(s: string): (r: Result<Token, ()>)
    ensures r.Ok?
    ensures TokenToString(r.value) == s
  {
    Ok(Token(s))
  }

  /** Reading a token's text back gives the same token. */
  lemma TokenRoundTrip(t: Token)
    ensures TokenFromStr(TokenToString(t)) == Ok(t)
  {
  }

  datatype EmailAndPassword = EmailAndPassword(email: string, password: string)

  /** `Credentials::Password` and `Credentials::Token`. */
  datatype Credentials = Password(login: EmailAndPassword) | WithToken(token: Token)

  /** `From<Token> for Credentials`. */
  function FromToken(t: Token): (c: Credentials)
    ensures c.WithToken? && c.token == t
  {
    WithToken(t)
  }

  /** `From<EmailAndPassword> for Credentials`. */
  function FromEmailAndPassword(login: EmailAndPassword): (c: Credentials)
    ensures c.Password? && c.login == login
  {
    Password(login)
  }

  /** `From<Credentials> for BTreeMap<&str, JsonValue>`: the sign-in parameters. */
  function ToParams(c: Credentials): (params: map<string, JsonValue>)
    ensures c.Password? ==> params == map["email" := String(c.login.email),
                                          "password" := String(c.login.password)]
    ensures c.WithToken? ==> params == map["token" := String(c.token.s)]
  {
    match c
    case Password(EmailAndPassword(email, password)) =>
      ArgsMapOfTwo("email", String(email), "password", String(password));
      ArgsMap([("email", String(email)), ("password", String(password))])
    case WithToken(Token(token)) =>
      ArgsMapOfOne("token", String(token));
      ArgsMap([("token", String(token))])
  }

  /** What a server reads the sign-in parameters as: the reference inverse of
      `ToParams`. */
  function FromParams(params: map<string, JsonValue>): Option<Credentials> {
    if params.Keys == {"email", "password"} && params["email"].String? && params["password"].String? then
      Some(Password(EmailAndPassword(params["email"].s, params["password"].s)))
    else if params.Keys == {"token"} && params["token"].String? then
      Some(WithToken(Token(params["token"].s)))
    else None
  }

  /** The parameters determine the credentials: no two credentials are sent alike. */
  lemma ParamsRoundTrip(c: Credentials)
    ensures FromParams(ToParams(c)) == Some(c)
  {
    var params := ToParams(c);
    if c.Password? {
      assert params.Keys == {"email", "password"};
    } else {
      assert params.Keys == {"token"};
    }
  }

  /** `sign_in`: `session.signIn` with the credentials as its parameters, so
      the server can tell which credentials were sent. */
  function SignInRequest(c: Credentials): (req: Request)
    ensures req.procedure == "session.signIn"
    ensures FromParams(req.params) == Some(c)
  {
    ParamsRoundTrip(c);
    Request("session.signIn", ToParams(c))
  }

  /** `create_token`: `token.create` without parameters. */
  function CreateTokenRequest(): (req: Request)
    ensures req.procedure == "token.create" && req.params == map[]
  {
    Request("token.create", map[])
  }

  /** The reply to `token.create` is the token's text. */
  function CreateTokenOutcome(reply: Result<JsonValue, RpcError>): (r: Result<Token, RpcError>)
    ensures reply.Err? ==> r == Err(reply.error)
    ensures reply.Ok? && reply.value.String? ==> r == Ok(Token(reply.value.s))
    ensures r.Ok? ==> reply == Ok(String(TokenToString(r.value)))
  {
    match reply
    case Err(e) => Err(e)
    case Ok(String(s)) => Ok(Token(s))
    case Ok(_) => Err(ParseError("invalid type: expected a string"))
  }
}
