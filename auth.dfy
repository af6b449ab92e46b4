/**
 * `verifyToken` (src/lib/auth.ts): reads the `authorization` header, requires the
 * `Bearer ` prefix, takes the second space-separated field as the token and
 * verifies it with the process secret. Every failure is the one error
 * `"Unauthorized"`.
 */
module Auth {
  import opened Wrappers
  import Jwt

  const Unauthorized := "Unauthorized"
  const BearerPrefix := "Bearer "

  /** The fallback secret of src/lib/auth.ts when `JWT_SECRET` is unset. */
  const VerifierDefaultSecret := "your_secret_key"

  /** Index of the first `c` in `s`, or `|s|` when there is none. */
  function IndexOf(s: string, c: char): (i: nat)
    ensures i <= |s|
    ensures i < |s| ==> s[i] == c
    ensures forall k :: 0 <= k < i ==> s[k] != c
  {
    if s == [] then 0
    else if s[0] == c then 0
    else 1 + IndexOf(s[1..], c)
  }

  /** JavaScript's `s.split(sep)` for a one-character separator: every field, empty ones included. */
  function Split(s: string, sep: char): (fields: seq<string>)
    ensures |fields| >= 1
    ensures forall k :: 0 <= k < |fields| ==> sep !in fields[k]
    ensures fields[0] == s[..IndexOf(s, sep)]
    decreases |s|
  {
    var i := IndexOf(s, sep);
    if i == |s| then [s]
    else [s[..i]] + Split(s[i + 1..], sep)
  }

  /** `fields.join(sep)`, the inverse of `Split`. */
  function Join(fields: seq<string>, sep: char): string
    requires |fields| >= 1
  {
    if |fields| == 1 then fields[0]
    else fields[0] + [sep] + Join(fields[1..], sep)
  }

  lemma {:induction false} JoinSplit(s: string, sep: char)
    ensures Join(Split(s, sep), sep) == s
    decreases |s|
  {
    var i := IndexOf(s, sep);
    if i < |s| {
      JoinSplit(s[i + 1..], sep);
      assert s == s[..i] + [sep] + s[i + 1..];
    }
  }

  lemma {:induction false} SplitJoin(fields: seq<string>, sep: char)
    requires |fields| >= 1
    requires forall k :: 0 <= k < |fields| ==> sep !in fields[k]
    ensures Split(Join(fields, sep), sep) == fields
    decreases |fields|
  {
    if |fields| > 1 {
      var s := Join(fields, sep);
      IndexOfStopsAtSeparator(fields[0], sep, Join(fields[1..], sep));
      assert s[..|fields[0]|] == fields[0];
      assert s[|fields[0]| + 1..] == Join(fields[1..], sep);
      SplitJoin(fields[1..], sep);
    } else {
      assert IndexOf(fields[0], sep) == |fields[0]|;
    }
  }

  lemma IndexOfStopsAtSeparator(a: string, sep: char, b: string)
    requires sep !in a
    ensures IndexOf(a + [sep] + b, sep) == |a|
  {
    var s := a + [sep] + b;
    assert s[|a|] == sep;
    assert forall k :: 0 <= k < |a| ==> s[k] == a[k];
  }

  /** `header.split(" ")[1]`: the second field, or `undefined` when there is none. */
  function ExtractToken(header: string): (token: Option<string>)
    ensures token.Some? <==> ' ' in header
  {
    var fields := Split(header, ' ');
    if |fields| >= 2 then Some(fields[1])
    else
      assert fields == [header];
      None
  }

  /** After `Bearer `, the token is the text up to the next space (all of it when there is none). */
  lemma BearerToken(rest: string)
    ensures ExtractToken(BearerPrefix + rest) == Some(rest[..IndexOf(rest, ' ')])
  {
    var header := BearerPrefix + rest;
    assert header == "Bearer" + [' '] + rest;
    IndexOfStopsAtSeparator("Bearer", ' ', rest);
    assert header[..6] == "Bearer";
    assert header[7..] == rest;
    var fields := Split(header, ' ');
    assert fields == [header[..6]] + Split(header[7..], ' ');
    assert fields[1] == Split(rest, ' ')[0];
  }

  /** Round trip: a token without spaces comes back unchanged from `Bearer <token>`. */
  lemma BearerRoundTrip(token: string)
    requires ' ' !in token
    ensures ExtractToken(BearerPrefix + token) == Some(token)
  {
    BearerToken(token);
    assert IndexOf(token, ' ') == |token|;
    assert token[..|token|] == token;
  }

  /** `verifyToken(req)` with the header value and the resolved secret as inputs. */
  function VerifyToken(lib: Jwt.Lib, secret: string, authorization: Option<string>): (r: Result<Jwt.Payload, string>)
    ensures r.Failure? ==> r.error == Unauthorized
    ensures authorization.None? ==> r.Failure?
    ensures authorization.Some? && !(BearerPrefix <= authorization.value) ==> r.Failure?
    ensures r.Success? ==>
              && authorization.Some?
              && ExtractToken(authorization.value).Some?
              && lib.verify(ExtractToken(authorization.value).value, secret) == Some(r.value)
  {
    if authorization.None? || authorization.value == [] || !(BearerPrefix <= authorization.value) then
      Failure(Unauthorized)
    else
      match ExtractToken(authorization.value)
      case None => Failure(Unauthorized)
      case Some(token) =>
        match lib.verify(token, secret)
        case Some(decoded) => Success(decoded)
        case None => Failure(Unauthorized)
  }

  /** The module's own secret: `process.env.JWT_SECRET || "your_secret_key"`. */
  function VerifierSecret(env: Option<string>): string {
    Jwt.SecretFrom(env, VerifierDefaultSecret)
  }

  /** `verifyToken` as written, with the secret src/lib/auth.ts resolves. */
  function VerifyRequest(lib: Jwt.Lib, env: Option<string>, authorization: Option<string>): (r: Result<Jwt.Payload, string>)
    ensures r.Failure? ==> r.error == Unauthorized
  {
    VerifyToken(lib, VerifierSecret(env), authorization)
  }

  /** A token signed with the verifying secret is accepted, and its payload is returned unchanged. */
  lemma AcceptsOwnTokens(lib: Jwt.Lib, secret: string, claims: Jwt.Claims, ttl: nat)
    requires Jwt.Lawful(lib)
    ensures VerifyToken(lib, secret, Some(BearerPrefix + lib.sign(claims, secret, ttl)))
            == Success(Jwt.Payload(claims, ttl))
  {
    BearerRoundTrip(lib.sign(claims, secret, ttl));
  }

  /** A token signed with any other secret is rejected. */
  lemma RejectsForeignTokens(lib: Jwt.Lib, signer: string, verifier: string, claims: Jwt.Claims, ttl: nat)
    requires Jwt.Lawful(lib)
    requires signer != verifier
    ensures VerifyToken(lib, verifier, Some(BearerPrefix + lib.sign(claims, signer, ttl))) == Failure(Unauthorized)
  {
    BearerRoundTrip(lib.sign(claims, signer, ttl));
  }

  /** `Bearer ` alone gives the empty token, which fails like every other bad token. */
  lemma EmptyTokenUnauthorized(lib: Jwt.Lib, secret: string)
    requires Jwt.Lawful(lib)
    ensures VerifyToken(lib, secret, Some(BearerPrefix)) == Failure(Unauthorized)
  {
    BearerToken([]);
    assert BearerPrefix + [] == BearerPrefix;
    Jwt.EmptyTokenRejected(lib, secret);
  }

  /** `"Bearer a b"` yields the token `"a"`. */
  lemma SecondFieldOnly()
    ensures ExtractToken("Bearer a b") == Some("a")
  {
    var rest := "a b";
    assert rest == "a" + [' '] + "b";
    IndexOfStopsAtSeparator("a", ' ', "b");
    assert rest[..IndexOf(rest, ' ')] == "a";
    BearerToken(rest);
    assert "Bearer a b" == BearerPrefix + rest;
  }

  /** The prefix test is case-sensitive: `bearer <token>` is refused whatever the token. */
  lemma LowerCaseSchemeRejected(lib: Jwt.Lib, secret: string, token: string)
    ensures VerifyToken(lib, secret, Some("bearer " + token)) == Failure(Unauthorized)
  {
    assert ("bearer " + token)[0] != BearerPrefix[0];
  }
}
