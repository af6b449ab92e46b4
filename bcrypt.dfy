/**
 * The part of the `bcrypt` library the routes rely on, kept abstract.
 *
 * `hash(password, salt)` stands for `bcrypt.hash(password, 10)`: the random salt
 * bcrypt draws is made a parameter. `compare(password, stored)` stands for
 * `bcrypt.compare`. The one law assumed: a password matches any hash of itself.
 */
module Bcrypt {

  /** The cost factor the signup route passes to `bcrypt.hash`. */
  const SaltRounds: nat := 10

  datatype Hasher = Hasher(hash: (string, nat) -> string, compare: (string, string) -> bool)

  ghost predicate Lawful(h: Hasher) {
    forall password, salt :: h.compare(password, h.hash(password, salt))
  }
}
