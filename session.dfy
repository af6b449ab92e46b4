/**
 * How the three pieces of authentication fit together: a signup followed by a
 * signin, and a token from either route presented to `verifyToken`.
 */
module Session {
  import opened Wrappers
  import opened Users
  import Jwt
  import Bcrypt
  import Auth
  import Signup
  import Signin

  /**
   * After a successful signup, signing in with the same email and password
   * succeeds as the same user, and its token verifies to the same claims and
   * lifetime as the signup token.
   */
  lemma SignupThenSignin(users: map<string, User>, nextId: int, name: string, email: string, password: string,
                         salt: nat, hasher: Bcrypt.Hasher, lib: Jwt.Lib, env: Option<string>)
    requires Bcrypt.Lawful(hasher)
    requires Jwt.Lawful(lib)
    requires Signup.Step(users, nextId, Signup.Request(Some(name), Some(email), Some(password)),
                         salt, hasher, lib, env, None).response.status == 200
    ensures var o := Signup.Step(users, nextId, Signup.Request(Some(name), Some(email), Some(password)),
                                 salt, hasher, lib, env, None);
            var r := Signin.Signin(o.users, Signin.Request(Some(email), Some(password)), hasher, lib, env, None);
            && r.status == 200
            && r.body.user == o.response.body.user
            && r.body.user.id == nextId
            && lib.verify(r.body.token, IssuerSecret(env)) == lib.verify(o.response.body.token, IssuerSecret(env))
            && lib.verify(r.body.token, IssuerSecret(env)) == Some(Jwt.Payload(Jwt.Claims(nextId, email), Jwt.OneHour))
  {
    var req := Signup.Request(Some(name), Some(email), Some(password));
    var o := Signup.Step(users, nextId, req, salt, hasher, lib, env, None);
    assert o.users[email] == Signup.NewUser(req, nextId, hasher, salt);
    assert hasher.compare(password, hasher.hash(password, salt));
  }

  /**
   * `verifyToken` with the secret resolved the way the issuing routes resolve
   * theirs (`JWT_SECRET || "your_jwt_secret"`), so that both sides agree.
   */
  function VerifyRequestShared(lib: Jwt.Lib, env: Option<string>, authorization: Option<string>)
    : (r: Result<Jwt.Payload, string>)
    ensures r.Failure? ==> r.error == Auth.Unauthorized
  {
    Auth.VerifyToken(lib, IssuerSecret(env), authorization)
  }

  /**
   * As written: with `JWT_SECRET` unset, the routes sign with "your_jwt_secret"
   * and `verifyToken` checks against "your_secret_key", so every token the
   * routes issue is refused.
   */
  lemma DefaultSecretsDisagree(lib: Jwt.Lib, env: Option<string>, u: User)
    requires Jwt.Lawful(lib)
    requires env.None? || env.value == []
    ensures Auth.VerifyRequest(lib, env, Some(Auth.BearerPrefix + TokenFor(lib, IssuerSecret(env), u)))
            == Failure(Auth.Unauthorized)
  {
    assert IssuerSecret(env) != Auth.VerifierSecret(env) by {
      assert IssuerSecret(env)[5] != Auth.VerifierSecret(env)[5];
    }
    Auth.RejectsForeignTokens(lib, IssuerSecret(env), Auth.VerifierSecret(env), Jwt.Claims(u.id, u.email), Jwt.OneHour);
  }

  /** With `JWT_SECRET` set, both sides use it and an issued token is accepted. */
  lemma ConfiguredSecretAgrees(lib: Jwt.Lib, env: Option<string>, u: User)
    requires Jwt.Lawful(lib)
    requires env.Some? && env.value != []
    ensures Auth.VerifyRequest(lib, env, Some(Auth.BearerPrefix + TokenFor(lib, IssuerSecret(env), u)))
            == Success(Jwt.Payload(Jwt.Claims(u.id, u.email), Jwt.OneHour))
  {
    Auth.AcceptsOwnTokens(lib, env.value, Jwt.Claims(u.id, u.email), Jwt.OneHour);
  }

  /** Corrected: with one secret on both sides, every issued token is accepted whatever the environment. */
  lemma SharedSecretAcceptsIssuedTokens(lib: Jwt.Lib, env: Option<string>, u: User)
    requires Jwt.Lawful(lib)
    ensures VerifyRequestShared(lib, env, Some(Auth.BearerPrefix + TokenFor(lib, IssuerSecret(env), u)))
            == Success(Jwt.Payload(Jwt.Claims(u.id, u.email), Jwt.OneHour))
  {
    Auth.AcceptsOwnTokens(lib, IssuerSecret(env), Jwt.Claims(u.id, u.email), Jwt.OneHour);
  }

  /** Corrected, end to end: the token a signin returns is accepted and names the signed-in user. */
  lemma SigninTokenVerifies(users: map<string, User>, nextId: int, req: Signin.Request, hasher: Bcrypt.Hasher,
                            lib: Jwt.Lib, env: Option<string>)
    requires Jwt.Lawful(lib)
    requires TableValid(users, nextId)
    requires Signin.Signin(users, req, hasher, lib, env, None).status == 200
    ensures var r := Signin.Signin(users, req, hasher, lib, env, None);
            VerifyRequestShared(lib, env, Some(Auth.BearerPrefix + r.body.token))
            == Success(Jwt.Payload(Jwt.Claims(users[req.email.value].id, req.email.value), Jwt.OneHour))
  {
    var u := users[req.email.value];
    SharedSecretAcceptsIssuedTokens(lib, env, u);
  }
}
