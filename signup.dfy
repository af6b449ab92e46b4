/**
 * `POST /api/auth/signup` (src/app/api/auth/signup/route.ts): ordered checks,
 * then hash the password, insert the user and issue a token.
 */
module Signup {
  import opened Wrappers
  import opened Users
  import Jwt
  import Bcrypt

  datatype Request = Request(name: Option<string>, email: Option<string>, password: Option<string>)

  /** The awaited calls that can throw: `req.json()`, `findUnique`, `bcrypt.hash`, `create`, `jwt.sign`. */
  datatype Stage = ReadBody | FindUser | HashPassword | CreateUser | SignToken

  /** The response together with the table after the request. */
  datatype Outcome = Outcome(response: Response, users: map<string, User>, nextId: int)

  const AllFieldsRequired := "All fields are required"
  const UserAlreadyExists := "User already exist"
  const Created := "User created successfully"
  const RegisterFailed := "Failed to register user"

  predicate AllFilled(req: Request) {
    Filled(req.name) && Filled(req.email) && Filled(req.password)
  }

  /** The row a successful signup inserts. */
  function NewUser(req: Request, id: int, hasher: Bcrypt.Hasher, salt: nat): User
    requires AllFilled(req)
  {
    User(id, req.name.value, req.email.value, hasher.hash(req.password.value, salt))
  }

  /**
   * What the route does to a table, with `fault` naming the step that throws
   * (if it is reached). Every thrown error becomes 500 "Failed to register user".
   */
  function Step(users: map<string, User>, nextId: int, req: Request, salt: nat,
                hasher: Bcrypt.Hasher, lib: Jwt.Lib, env: Option<string>, fault: Option<Stage>): (o: Outcome)
    // at most one row is added, under the new email, and no existing row changes
    ensures (o.users == users && o.nextId == nextId) ||
            (AllFilled(req) && req.email.value !in users &&
             o.users == users[req.email.value := NewUser(req, nextId, hasher, salt)] && o.nextId == nextId + 1)
    ensures o.response.status in {200, 400, 409, 500}
    ensures o.response.status == 400 <==> fault != Some(ReadBody) && !AllFilled(req)
    ensures o.response.status == 409 <==>
              fault !in {Some(ReadBody), Some(FindUser)} && AllFilled(req) && req.email.value in users
    ensures o.response.status == 200 <==> fault.None? && AllFilled(req) && req.email.value !in users
    ensures o.response.status == 400 ==> o.response.body == ErrorBody(AllFieldsRequired)
    ensures o.response.status == 409 ==> o.response.body == ErrorBody(UserAlreadyExists)
    ensures o.response.status == 500 ==> o.response.body == ErrorBody(RegisterFailed)
    // the table only grows when the insert is reached: on success, or when signing throws afterwards
    ensures o.users != users <==> o.response.status == 200 || (fault == Some(SignToken) && AllFilled(req) && req.email.value !in users)
    ensures TableValid(users, nextId) ==> TableValid(o.users, o.nextId)
  {
    if fault == Some(ReadBody) then Outcome(Response(500, ErrorBody(RegisterFailed)), users, nextId)
    else if !AllFilled(req) then Outcome(Response(400, ErrorBody(AllFieldsRequired)), users, nextId)
    else if fault == Some(FindUser) then Outcome(Response(500, ErrorBody(RegisterFailed)), users, nextId)
    else if req.email.value in users then Outcome(Response(409, ErrorBody(UserAlreadyExists)), users, nextId)
    else if fault == Some(HashPassword) || fault == Some(CreateUser) then
      Outcome(Response(500, ErrorBody(RegisterFailed)), users, nextId)
    else
      var u := NewUser(req, nextId, hasher, salt);
      var users' := users[u.email := u];
      assert users' != users by { assert u.email in users'; }
      if fault.Some? then
        // the only step left to throw is `jwt.sign`; the new row is already stored
        assert fault == Some(SignToken) by {
          var stage := fault.value;
          assert stage.ReadBody? || stage.FindUser? || stage.HashPassword? || stage.CreateUser? || stage.SignToken?;
        }
        Outcome(Response(500, ErrorBody(RegisterFailed)), users', nextId + 1)
      else
        Outcome(Response(200, TokenBody(Created, TokenFor(lib, IssuerSecret(env), u), u)), users', nextId + 1)
  }

  /** The user table, updated in place by the route. */
  class UserTable {
    var users: map<string, User>
    var nextId: int

    ghost predicate Valid()
      reads this
    {
      TableValid(users, nextId)
    }

    constructor ()
      ensures Valid() && users == map[] && nextId == 1
    {
      users := map[];
      nextId := 1;
    }

    method Signup(req: Request, salt: nat, hasher: Bcrypt.Hasher, lib: Jwt.Lib,
                  env: Option<string>, fault: Option<Stage>) returns (response: Response)
      requires Valid()
      modifies this
      ensures Valid()
      ensures Outcome(response, users, nextId) == Step(old(users), old(nextId), req, salt, hasher, lib, env, fault)
    {
      if fault == Some(ReadBody) {
        return Response(500, ErrorBody(RegisterFailed));
      }
      if !Filled(req.name) || !Filled(req.email) || !Filled(req.password) {
        return Response(400, ErrorBody(AllFieldsRequired));
      }
      if fault == Some(FindUser) {
        return Response(500, ErrorBody(RegisterFailed));
      }
      var email := req.email.value;
      if email in users {
        return Response(409, ErrorBody(UserAlreadyExists));
      }
      if fault == Some(HashPassword) {
        return Response(500, ErrorBody(RegisterFailed));
      }
      var hashed := hasher.hash(req.password.value, salt);
      if fault == Some(CreateUser) {
        return Response(500, ErrorBody(RegisterFailed));
      }
      var newUser := User(nextId, req.name.value, email, hashed);
      users := users[email := newUser];
      nextId := nextId + 1;
      if fault == Some(SignToken) {
        return Response(500, ErrorBody(RegisterFailed));
      }
      var token := TokenFor(lib, IssuerSecret(env), newUser);
      return Response(200, TokenBody(Created, token, newUser));
    }
  }

  /** On success the response carries the stored row, hash included, and a one-hour token for it. */
  lemma SuccessResponse(users: map<string, User>, nextId: int, req: Request, salt: nat,
                        hasher: Bcrypt.Hasher, lib: Jwt.Lib, env: Option<string>)
    requires Jwt.Lawful(lib)
    requires AllFilled(req) && req.email.value !in users
    ensures var o := Step(users, nextId, req, salt, hasher, lib, env, None);
            && o.response.status == 200
            && o.response.body.TokenBody?
            && o.response.body.user == o.users[req.email.value]
            && o.response.body.user == User(nextId, req.name.value, req.email.value, hasher.hash(req.password.value, salt))
            && lib.verify(o.response.body.token, IssuerSecret(env))
               == Some(Jwt.Payload(Jwt.Claims(nextId, req.email.value), Jwt.OneHour))
  {
  }

  /** The duplicate check ignores name and password. */
  lemma ConflictIgnoresNameAndPassword(users: map<string, User>, nextId: int, r1: Request, r2: Request, salt: nat,
                                       hasher: Bcrypt.Hasher, lib: Jwt.Lib, env: Option<string>)
    requires AllFilled(r1) && AllFilled(r2) && r1.email == r2.email && r1.email.value in users
    ensures Step(users, nextId, r1, salt, hasher, lib, env, None) == Step(users, nextId, r2, salt, hasher, lib, env, None)
    ensures Step(users, nextId, r1, salt, hasher, lib, env, None).response == Response(409, ErrorBody(UserAlreadyExists))
  {
  }

  /** Signing up twice with one email: the second attempt is refused and changes nothing. */
  lemma SecondSignupConflicts(users: map<string, User>, nextId: int, req: Request, again: Request, s1: nat, s2: nat,
                              hasher: Bcrypt.Hasher, lib: Jwt.Lib, env: Option<string>)
    requires AllFilled(again) && again.email == req.email
    requires Step(users, nextId, req, s1, hasher, lib, env, None).response.status == 200
    ensures var o := Step(users, nextId, req, s1, hasher, lib, env, None);
            var o2 := Step(o.users, o.nextId, again, s2, hasher, lib, env, None);
            o2.response.status == 409 && o2.users == o.users && o2.nextId == o.nextId
  {
  }
}
