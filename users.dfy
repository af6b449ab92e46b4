/**
 * The user table the two authentication routes share (Prisma's `user` model),
 * the responses they send, and the points at which they can throw.
 */
module Users {
  import opened Wrappers
  import Jwt

  /** A stored user; `password` holds the bcrypt hash, never the plain password. */
  datatype User = User(id: int, name: string, email: string, password: string)

  /**
   * The table: rows keyed by their (unique) email. Ids are assigned from an
   * auto-increment counter starting at 1, so every stored id is below it and
   * no two rows share one.
   */
  ghost predicate TableValid(users: map<string, User>, nextId: int) {
    && 1 <= nextId
    && (forall e :: e in users ==> users[e].email == e && 1 <= users[e].id < nextId)
    && (forall e1, e2 :: e1 in users && e2 in users && users[e1].id == users[e2].id ==> e1 == e2)
  }

  datatype Body =
    | ErrorBody(error: string)
    | TokenBody(message: string, token: string, user: User)

  datatype Response = Response(status: int, body: Body)

  /** The fallback secret both routes sign with when `JWT_SECRET` is unset. */
  const IssuerDefaultSecret := "your_jwt_secret"

  /** `process.env.JWT_SECRET || "your_jwt_secret"`. */
  function IssuerSecret(env: Option<string>): string {
    Jwt.SecretFrom(env, IssuerDefaultSecret)
  }

  /** JavaScript truthiness of a request field: present and not the empty string. */
  predicate Filled(field: Option<string>) {
    field.Some? && field.value != []
  }

  /** The token both routes issue for a user: `{userId, email}` for one hour. */
  function TokenFor(lib: Jwt.Lib, secret: string, u: User): string {
    lib.sign(Jwt.Claims(u.id, u.email), secret, Jwt.OneHour)
  }
}
