/**
 * The libraries the registration handler calls and the per-request facts the
 * model cannot compute itself.
 *
 * Every library (validator.js `isEmail`, `gravatar.url`, bcryptjs,
 * jsonwebtoken) is an uninterpreted function here: a field of the
 * `Libraries` record, which the registry receives once when it is built.
 * What varies from one request to the next (which calls reject, the random
 * bytes behind a salt, the id Mongoose assigns, the clock) arrives in an
 * `Environment`.
 */
module Collaborators {

  type UserId = string

  /** The options object handed to `gravatar.url`: size, rating, default image. */
  datatype GravatarOptions = GravatarOptions(s: string, r: string, d: string)

  /** The `user` claim of the token payload. */
  datatype UserClaim = UserClaim(id: UserId)

  /** The token payload `{ user: { id } }`. */
  datatype Payload = Payload(user: UserClaim)

  /** The options object handed to `jwt.sign`. */
  datatype SignOptions = SignOptions(expiresIn: int)

  /** The foreign functions the handler relies on, none of whose internals are modelled. */
  datatype Libraries = Libraries(
    // validator.js isEmail: the email grammar
    isEmail: string -> bool,
    // gravatar.url(email, options): a protocol-relative URL ("//www.gravatar.com/...")
    gravatarUrl: (string, GravatarOptions) -> string,
    // bcrypt.genSalt(rounds), given the random bytes it draws
    genSalt: (nat, nat) -> string,
    // bcrypt.hash(plaintext, salt)
    hash: (string, string) -> string,
    // jwt.sign(payload, secret, options), given the clock reading it stamps as issue time
    sign: (Payload, string, SignOptions, int) -> string)

  /** The collaborator calls the handler makes, in the order it makes them. */
  datatype Step = FindOne | GravatarUrl | GenSalt | Hash | Save | Sign

  /** The calls of one complete registration, lines 37, 45, 83, 84, 85 and 93. */
  const Pipeline: seq<Step> := [FindOne, GravatarUrl, GenSalt, Hash, Save, Sign]

  /**
   * What the outside world does during one request: the calls made inside
   * the handler's `try` that reject (signing is modelled as total, so `Sign`
   * in this set has no effect), the random bytes bcrypt
   * draws for the salt, the id `new User(...)` assigns and the clock reading
   * `jwt.sign` takes.
   */
  datatype Environment = Environment(throws: set<Step>, randomness: nat, objectId: UserId, now: int)
}
