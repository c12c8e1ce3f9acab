# User registration (`POST /api/users`)

A Dafny model of the registration route of a MERN "developer connector" back end. The route checks the
request body against an express-validator chain: a name, a valid email and a password of at least six
characters. It then refuses an email that is already registered. Otherwise it builds a gravatar avatar
URL, replaces the password with a bcrypt hash, saves the new user and answers with a JSON Web Token
whose payload is `{ user: { id } }` and whose lifetime is 360000 seconds (100 hours). Any rejection
inside the handler's `try` becomes `500 Server error`.

Files and modules:

- `collaborators.dfy`, module `Collaborators`. The foreign libraries are uninterpreted functions,
  held as fields of a `Libraries` record: validator.js `isEmail`, `gravatar.url`, bcrypt `genSalt` and
  `hash`, and `jwt.sign`. `Environment` holds what one request cannot compute itself: which calls made
  inside the `try` reject, the random bytes behind the salt, the id `new User(...)` assigns, and the clock reading
  `jwt.sign` uses.
- `validation.dfy`, module `Validation`. The check chain is data (`Check`: field, message, `.not()`,
  validator). `ValidationResult` is the error list `validationResult(req).array()` returns.
- `registration.dfy`, module `Registration`:
  - `Handle` gives the outcome of one request as a function of the store before it: the response,
    the store after it, and the collaborator calls made, in order.
  - `UserDocument` is the in-memory Mongoose document. It is built with the plaintext password, which
    is then overwritten in place with the hash.
  - `Registry` holds the user collection in a `map` field keyed by email. Its `Register` method runs
    the steps one by one and is proved to agree with `Handle`.
  - The lemmas state what the handler promises.

Choices where the design specification and the code differ (the model follows the code):

- The name rule is `.not().isEmpty()`: the name must be non-empty. A name made only of whitespace is
  accepted. The design specification asks for a non-whitespace character.
- A failing `gravatar.url` is not replaced by a fallback URL. It reaches the same 500 handler as a
  failing hash.
- `save()` has no duplicate handling. Nothing in the route turns a store-level uniqueness error into
  "User already exists".
- Signing is modelled as total. An error that `jwt.sign` delivers asynchronously is thrown inside
  its callback, outside the `try`, and never becomes a 500 response. An argument error that
  `jwt.sign` delivers synchronously (an empty secret, say) is thrown at line 98 while still inside
  the `try`, and gives a 500 after line 85 has saved the record; that case is not modelled.

A missing body field reads as the empty string, which is how express-validator's validators see it.
Password length is counted in Unicode scalar values (Dafny's `char`). This is close to validator.js's
`isLength`, which counts a surrogate pair as one character; newer versions of it also skip the
variation selectors U+FE0E and U+FE0F, which the model counts.

## Model

| member | source | states |
|---|---|---|
| `Validation.ValidationResult` | routes/api/users.js:27-30 | at most one error per check; the list is empty exactly when every check of the chain passes; every entry is a field error |
| `Validation.ValidationResultAppend` | routes/api/users.js:16-30 | every check is evaluated: the errors of two chains run one after the other are the first chain's errors followed by the second's |
| `Validation.SingleCheck` | routes/api/users.js:17-24 | a single check reports its own message, value and parameter exactly when it fails |
| `Validation.RegisterChainErrors` | routes/api/users.js:16-30 | the route's chain (`RegisterChain`, lines 16-25, written as data) reports the name error, then the email error, then the password error, each exactly when its rule (non-empty, `isEmail`, length at least 6) is broken |
| `Validation.RegisterChainAccepts` | routes/api/users.js:17-31 | the chain reports no error exactly when the name is non-empty, the email satisfies `isEmail` and the password has at least 6 characters |
| `Validation.AllRulesBroken` | routes/api/users.js:17-30 | input that breaks all three rules gets all three messages, in declaration order |
| `Registration.Handle` | routes/api/users.js:26-106 | the reference outcome of one request, which `Register` is proved equal to: the calls made are a prefix of the six steps, the status is 200, 400 or 500, the store changes only on a 200 for a new email, and signing happens exactly on a 200 |
| `Registration.UserDocument.constructor` | routes/api/users.js:75-80 | the new document holds the given id, name, email, avatar and plaintext password |
| `Registration.Registry.Register` | routes/api/users.js:26-106 | the response, the new collection and the calls made are those of `Handle` on the old collection; the store invariant is kept |
| `Registration.ValidationFailureRejects` | routes/api/users.js:29-31 | rejected input gets 400 with the chain's non-empty error list; no collaborator is called and the store is unchanged |
| `Registration.DuplicateRejected` | routes/api/users.js:37-42 | an acceptable request for a registered email gets 400 with the single message "User already exists"; only the lookup is made (neither avatar nor hash), and the store is unchanged |
| `Registration.SuccessIff` | routes/api/users.js:29-99 | a request gets a token exactly when it is acceptable, its email is new and none of lookup, avatar, salt, hash or save rejects |
| `Registration.SuccessInsertsOne` | routes/api/users.js:45-85 | on success the store gains exactly one record under the new email, all others untouched. The record holds the given name and email, avatar `"https:" + gravatarUrl(email, {s: "200", r: "pg", d: "mm"})` and password `hash(password, genSalt(10))` |
| `Registration.SuccessToken` | routes/api/users.js:88-99 | on success the response is the token signed over `{ user: { id } }` for the saved record's id, with the secret and `expiresIn: 360000`, after all six calls were made |
| `Registration.LifetimeIsHundredHours` | routes/api/users.js:96 | the token lifetime of 360000 seconds is 100 hours |
| `Registration.ServerErrorFromLastCall` | routes/api/users.js:102-105 | a 500 comes from the last call made, which rejected after all earlier calls succeeded; the input was acceptable, no token is signed and the store is unchanged |
| `Registration.ServerErrorIff` | routes/api/users.js:35-105 | the response is 500 "Server error" exactly when one of the calls made inside the `try` (other than signing) rejects |
| `Registration.CallsFollowPipeline` | routes/api/users.js:37-99 | the calls made are a prefix of lookup, avatar, salt, hash, save, sign; the store changes exactly when save is reached and succeeds, before the token is signed; a token is signed exactly on a 200 |
| `Registration.HandleKeepsOtherAccounts` | routes/api/users.js:75-85 | a request adds at most the record for its own email and changes no existing record |
| `Registration.StoreAfter` | routes/api/users.js:29-85 | a request either leaves the store alone or files the new account of an acceptable request under its email |
| `Registration.InsertPreservesInvariant` | routes/api/users.js:75-85 | filing an account that passed the rules under its own email keeps the store invariant |
| `Registration.HandlePreservesInvariant` | routes/api/users.js:17-85 | every request keeps the invariant: each account is filed under its own email, has a non-empty name and a valid email, an avatar derived from its email, and a cost-10 hash of a password of at least 6 characters |
| `Registration.ReplayPreservesInvariant` | routes/api/users.js:17-85 | the invariant holds after any sequence of requests |
| `Registration.ReplayKeepsAccounts` | routes/api/users.js:37-85 | no sequence of requests removes or alters an existing account |
| `Registration.ThreeErrorsScenario` | routes/api/users.js:17-30 | an empty name, "not-an-email" and "123" get the three messages in order, and the store is unchanged |
| `Registration.SubmitTwice` | routes/api/users.js:37-99 | the same acceptable request sent twice to an empty collection: the first gets the token for the new id, the second "User already exists", and one account is stored |

## Left out

- Express routing, the request and response objects and status plumbing: a response is a status plus a body value.
- The `location` field of express-validator error entries (always "body" here) is not modelled. Error entries keep value, message and parameter.
- The email grammar of `isEmail`, gravatar's URL construction, bcrypt's algorithm and salt randomness, and JWT encoding are uninterpreted functions. No cryptographic property is stated: not irreversibility of the hash, and not verification of a token or of a password.
- `config.get('jwtSecret')` is a constant given to the registry when it is built. The `User` schema and the MongoDB engine are not part of this model. The store is a map keyed by email, and the schema's default fields (such as a creation date) are not modelled.
- The interleaving of concurrent requests between the lookup (line 37) and the save (line 85) is not modelled; each request runs to completion alone.
- Signing failures (line 98) are not modelled; signing is total. A synchronous argument error from `jwt.sign`, such as an empty secret, would be thrown inside the `try` and answered with 500 after the record was saved (line 85); an asynchronous one is thrown outside the `try` and answers nothing. In the model "saved but no token" does not arise.
- Request fields are strings taken from the JSON body only. `check`'s other locations (cookies, headers, params, query, each of which must also pass), non-string JSON values (a numeric password passes `isLength` but makes `bcrypt.hash` reject) and the raw `undefined` `value` of an absent field in an error entry are not modelled.
- The uniqueness of the id Mongoose assigns (`Environment.objectId`) is assumed and not modelled: two successful requests may be given the same id, and a token names its account only by that id.
- `console.error` (line 103) is not modelled.
