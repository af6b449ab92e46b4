/**
 * `POST /api/auth/signin` (src/app/api/auth/signin/route.ts): a lookup, a
 * password comparison and a token; the table is only read.
 */
module Signin {
  import opened Wrappers
  import opened Users
  import Jwt
  import Bcrypt

  datatype Request = Request(email: Option<string>, password: Option<string>)

  /** The awaited calls that can throw: `req.json()`, `findUnique`, `bcrypt.compare`, `jwt.sign`. */
  datatype Stage = ReadBody | FindUser | ComparePassword | SignToken

  const AllFieldsRequired := "All fields are required"
  const InvalidCredentials := "Invalid credentials"
  const LoginSuccessful := "Login successful"
  const LoginFailed := "Failed to login"

  /** Unknown email and wrong password share this one response. */
  const Rejected := Response(401, ErrorBody(InvalidCredentials))

  /** The credentials match a stored user. */
  predicate Matches(users: map<string, User>, hasher: Bcrypt.Hasher, email: string, password: string) {
    email in users && hasher.compare(password, users[email].password)
  }

  function Signin(users: map<string, User>, req: Request, hasher: Bcrypt.Hasher, lib: Jwt.Lib,
                  env: Option<string>, fault: Option<Stage>): (r: Response)
    ensures r.status in {200, 400, 401, 500}
    ensures r.status == 400 <==> fault != Some(ReadBody) && !(Filled(req.email) && Filled(req.password))
    ensures r.status == 401 <==>
              && fault !in {Some(ReadBody), Some(FindUser)}
              && Filled(req.email) && Filled(req.password)
              && (req.email.value in users ==> fault != Some(ComparePassword))
              && !Matches(users, hasher, req.email.value, req.password.value)
    ensures r.status == 400 ==> r == Response(400, ErrorBody(AllFieldsRequired))
    ensures r.status == 401 ==> r == Rejected
    ensures r.status == 500 ==> r == Response(500, ErrorBody(LoginFailed))
    ensures r.status == 200 <==>
              && fault.None? && Filled(req.email) && Filled(req.password)
              && Matches(users, hasher, req.email.value, req.password.value)
    ensures r.status == 200 ==> var u := users[req.email.value];
                                r == Response(200, TokenBody(LoginSuccessful, TokenFor(lib, IssuerSecret(env), u), u))
  {
    if fault == Some(ReadBody) then Response(500, ErrorBody(LoginFailed))
    else if !Filled(req.email) || !Filled(req.password) then Response(400, ErrorBody(AllFieldsRequired))
    else if fault == Some(FindUser) then Response(500, ErrorBody(LoginFailed))
    else if req.email.value !in users then Response(401, ErrorBody(InvalidCredentials))
    else
      var user := users[req.email.value];
      if fault == Some(ComparePassword) then Response(500, ErrorBody(LoginFailed))
      else if !hasher.compare(req.password.value, user.password) then Response(401, ErrorBody(InvalidCredentials))
      else if fault.Some? then
        assert fault == Some(SignToken) by {
          var stage := fault.value;
          assert stage.ReadBody? || stage.FindUser? || stage.ComparePassword? || stage.SignToken?;
        }
        Response(500, ErrorBody(LoginFailed))
      else Response(200, TokenBody(LoginSuccessful, TokenFor(lib, IssuerSecret(env), user), user))
  }

  /**
   * No user enumeration: an unknown email and a known email with a wrong
   * password get the same response.
   */
  lemma UnknownEmailLooksLikeWrongPassword(users: map<string, User>, hasher: Bcrypt.Hasher, lib: Jwt.Lib,
                                           env: Option<string>, unknown: Request, wrong: Request)
    requires Filled(unknown.email) && Filled(unknown.password) && unknown.email.value !in users
    requires Filled(wrong.email) && Filled(wrong.password) && wrong.email.value in users
    requires !hasher.compare(wrong.password.value, users[wrong.email.value].password)
    ensures Signin(users, unknown, hasher, lib, env, None) == Signin(users, wrong, hasher, lib, env, None) == Rejected
  {
  }

  /** The token issued on success verifies, with the issuing secret, to the user's id and email for one hour. */
  lemma IssuedTokenCarriesIdentity(users: map<string, User>, req: Request, hasher: Bcrypt.Hasher, lib: Jwt.Lib,
                                   env: Option<string>)
    requires Jwt.Lawful(lib)
    requires Signin(users, req, hasher, lib, env, None).status == 200
    ensures var r := Signin(users, req, hasher, lib, env, None);
            lib.verify(r.body.token, IssuerSecret(env))
            == Some(Jwt.Payload(Jwt.Claims(r.body.user.id, r.body.user.email), Jwt.OneHour))
  {
  }
}
