/**
 * The `POST /api/users` handler of routes/api/users.js (lines 26-106):
 * validate, look the email up, build the avatar URL, hash the password,
 * save the new user and sign a token for it; any rejection inside the
 * `try` becomes a 500 response.
 *
 * `Handle` states the whole outcome of one request as a function of the
 * store before it; `Registry.Register` performs the same steps one by one
 * on a store held in a field, and is proved to agree with `Handle`. The
 * lemmas after them state what the handler promises.
 */
module Registration {
  import opened Collaborators
  import opened Validation

  /** A stored user document. */
  datatype Account = Account(id: UserId, name: string, email: string, avatar: string, password: string)

  /** The JSON or text a response carries. */
  datatype Body =
    | Errors(errors: seq<ErrorEntry>)   // { errors: [...] }
    | Text(text: string)                // a plain-text body
    | TokenJson(token: string)          // { token }

  datatype Response = Response(status: int, body: Body)

  /** The user collection, keyed by email, the key `findOne({ email })` searches by. */
  type Store = map<string, Account>

  const AvatarOptions := GravatarOptions("200", "pg", "mm")
  const SaltRounds: nat := 10
  /** Token lifetime in seconds: 100 hours. */
  const ExpiresIn: int := 360000

  const UserExists := Response(400, Errors([Message("User already exists")]))
  const ServerError := Response(500, Text("Server error"))

  /** The avatar URL: gravatar's protocol-relative URL with the scheme put in front. */
  function Avatar(lib: Libraries, email: string): string
  {
    "https:" + lib.gravatarUrl(email, AvatarOptions)
  }

  /** What is stored in place of the plaintext: its bcrypt hash under a fresh cost-10 salt. */
  function StoredPassword(lib: Libraries, password: string, env: Environment): string
  {
    lib.hash(password, lib.genSalt(SaltRounds, env.randomness))
  }

  /** The token for a new user: payload `{ user: { id } }`, the secret and `expiresIn: 360000`. */
  function TokenFor(lib: Libraries, secret: string, id: UserId, env: Environment): string
  {
    lib.sign(Payload(UserClaim(id)), secret, SignOptions(ExpiresIn), env.now)
  }

  /** The record a successful registration saves. */
  function NewAccount(lib: Libraries, req: Request, env: Environment): Account
  {
    Account(env.objectId, req.name, req.email, Avatar(lib, req.email), StoredPassword(lib, req.password, env))
  }

  /** What one request produces: the response, the store afterwards and the calls made, in order. */
  datatype Outcome = Outcome(response: Response, store: Store, calls: seq<Step>)

  /** The outcome of one registration request against `store`. */
  function Handle(lib: Libraries, secret: string, store: Store, req: Request, env: Environment): (o: Outcome)
    ensures o.calls <= Pipeline
    ensures o.response.status == 200 || o.response.status == 400 || o.response.status == 500
    ensures o.store == store || (o.response.status == 200 && req.email !in store)
    ensures o.response.status == 200 <==> Sign in o.calls
  {
    var errors := ValidationResult(lib.isEmail, RegisterChain, req);
    if errors != [] then Outcome(Response(400, Errors(errors)), store, [])
    else if FindOne in env.throws then Outcome(ServerError, store, Pipeline[..1])
    else if req.email in store then Outcome(UserExists, store, Pipeline[..1])
    else if GravatarUrl in env.throws then Outcome(ServerError, store, Pipeline[..2])
    else if GenSalt in env.throws then Outcome(ServerError, store, Pipeline[..3])
    else if Hash in env.throws then Outcome(ServerError, store, Pipeline[..4])
    else if Save in env.throws then Outcome(ServerError, store, Pipeline[..5])
    else
      var account := NewAccount(lib, req, env);
      Outcome(Response(200, TokenJson(TokenFor(lib, secret, account.id, env))), store[req.email := account], Pipeline)
  }

  /** No call made inside the handler's `try`, other than signing, rejects. */
  predicate NoFault(env: Environment)
  {
    env.throws <= {Sign}
  }

  /** A stored password is a cost-10 bcrypt hash of some password the chain accepted. */
  ghost predicate Hashed(lib: Libraries, stored: string)
  {
    exists p: string, r: nat :: |p| >= MinPasswordLength && stored == lib.hash(p, lib.genSalt(SaltRounds, r))
  }

  /**
   * What every account the handler creates satisfies: it is filed under its
   * own email, it passed the name and email rules, its avatar is derived from
   * its email and its password is hashed.
   */
  ghost predicate StoreInvariant(lib: Libraries, store: Store)
  {
    forall e :: e in store ==>
      && store[e].email == e
      && store[e].name != ""
      && lib.isEmail(e)
      && store[e].avatar == Avatar(lib, e)
      && Hashed(lib, store[e].password)
  }

  /**
   * A user document as Mongoose holds it in memory: built from the request
   * with the plaintext password (line 75), which the handler then
   * overwrites with the hash (line 84) before saving it (line 85).
   */
  class UserDocument {
    const id: UserId
    var name: string
    var email: string
    var avatar: string
    var password: string

    constructor (id: UserId, name: string, email: string, avatar: string, password: string)
      ensures this.id == id && this.name == name && this.email == email
      ensures this.avatar == avatar && this.password == password
    {
      this.id := id;
      this.name := name;
      this.email := email;
      this.avatar := avatar;
      this.password := password;
    }

    /** The record `save()` writes. */
    function Persisted(): Account
      reads this
    {
      Account(id, name, email, avatar, password)
    }
  }

  /** The route with its collaborators: the libraries, the signing secret and the user collection. */
  class Registry {
    const lib: Libraries
    const secret: string
    var users: Store
    /** Every collaborator call made so far, in order. */
    ghost var calls: seq<Step>

    ghost predicate Valid()
      reads this
    {
      StoreInvariant(lib, users)
    }

    constructor (lib: Libraries, secret: string, accounts: Store)
      ensures this.lib == lib && this.secret == secret
      ensures users == accounts && calls == []
      ensures StoreInvariant(lib, accounts) ==> Valid()
    {
      this.lib := lib;
      this.secret := secret;
      users := accounts;
      calls := [];
    }

    /** Handles one `POST /api/users` request. */
    method Register(name: string, email: string, password: string, env: Environment) returns (res: Response)
      modifies this
      ensures var o := Handle(lib, secret, old(users), Request(name, email, password), env);
        res == o.response && users == o.store && calls == old(calls) + o.calls
      ensures old(Valid()) ==> Valid()
    {
      var req := Request(name, email, password);
      var errors := ValidationResult(lib.isEmail, RegisterChain, req);
      if errors != [] {
        return Response(400, Errors(errors));
      }
      HandlePreservesInvariant(lib, secret, users, req, env);

      calls := calls + [FindOne];
      if FindOne in env.throws {
        return ServerError;
      }
      if email in users {
        return UserExists;
      }

      calls := calls + [GravatarUrl];
      if GravatarUrl in env.throws {
        return ServerError;
      }
      var avatar := "https:" + lib.gravatarUrl(email, AvatarOptions);
      var user := new UserDocument(env.objectId, name, email, avatar, password);

      calls := calls + [GenSalt];
      if GenSalt in env.throws {
        return ServerError;
      }
      var salt := lib.genSalt(SaltRounds, env.randomness);
      calls := calls + [Hash];
      if Hash in env.throws {
        return ServerError;
      }
      user.password := lib.hash(password, salt);

      calls := calls + [Save];
      if Save in env.throws {
        return ServerError;
      }
      users := users[user.email := user.Persisted()];

      var payload := Payload(UserClaim(user.id));
      calls := calls + [Sign];
      var token := lib.sign(payload, secret, SignOptions(ExpiresIn), env.now);
      res := Response(200, TokenJson(token));
    }
  }

  /** Input the chain rejects gets a 400 with the chain's errors; nothing is looked up and the store is unchanged. */
  lemma ValidationFailureRejects(lib: Libraries, secret: string, store: Store, req: Request, env: Environment)
    requires !Acceptable(lib.isEmail, req)
    ensures var o := Handle(lib, secret, store, req, env);
      && o.response == Response(400, Errors(ValidationResult(lib.isEmail, RegisterChain, req)))
      && o.response.body.errors != []
      && o.store == store
      && o.calls == []
  {
    RegisterChainAccepts(lib.isEmail, req);
  }

  /**
   * An acceptable request for an email already in the store gets a 400 with
   * the single message "User already exists"; the store is unchanged and
   * neither the avatar nor the hash is computed.
   */
  lemma DuplicateRejected(lib: Libraries, secret: string, store: Store, req: Request, env: Environment)
    requires Acceptable(lib.isEmail, req) && FindOne !in env.throws
    requires req.email in store
    ensures var o := Handle(lib, secret, store, req, env);
      && o.response == Response(400, Errors([Message("User already exists")]))
      && o.store == store
      && o.calls == [FindOne]
  {
  }

  /** A request succeeds exactly when it is acceptable, its email is new and no call made inside the `try` rejects. */
  lemma SuccessIff(lib: Libraries, secret: string, store: Store, req: Request, env: Environment)
    ensures Handle(lib, secret, store, req, env).response.status == 200 <==>
      Acceptable(lib.isEmail, req) && req.email !in store && NoFault(env)
  {
    RegisterChainAccepts(lib.isEmail, req);
    var o := Handle(lib, secret, store, req, env);
    if Acceptable(lib.isEmail, req) && req.email !in store && !NoFault(env) {
      var s :| s in env.throws && s != Sign;
      assert s == FindOne || s == GravatarUrl || s == GenSalt || s == Hash || s == Save;
      assert o.response == ServerError;
    }
  }

  /**
   * A successful request adds exactly one record, under the new email, holding
   * the given name and email, the avatar derived from the email and the hash
   * of the password; every other record is untouched.
   */
  lemma SuccessInsertsOne(lib: Libraries, secret: string, store: Store, req: Request, env: Environment)
    requires Handle(lib, secret, store, req, env).response.status == 200
    ensures var o := Handle(lib, secret, store, req, env);
      && req.email !in store
      && o.store.Keys == store.Keys + {req.email}
      && |o.store| == |store| + 1
      && (forall e :: e in store ==> o.store[e] == store[e])
      && o.store[req.email] == Account(
           env.objectId, req.name, req.email,
           "https:" + lib.gravatarUrl(req.email, GravatarOptions("200", "pg", "mm")),
           lib.hash(req.password, lib.genSalt(10, env.randomness)))
  {
    var o := Handle(lib, secret, store, req, env);
    assert o.store == store[req.email := NewAccount(lib, req, env)];
  }

  /**
   * A successful response carries the token signed over `{ user: { id } }` for
   * the saved user's id, with the secret and `expiresIn: 360000`, after every
   * step of the handler has run.
   */
  lemma SuccessToken(lib: Libraries, secret: string, store: Store, req: Request, env: Environment)
    requires Handle(lib, secret, store, req, env).response.status == 200
    ensures var o := Handle(lib, secret, store, req, env);
      && o.store[req.email].id == env.objectId
      && o.response == Response(200, TokenJson(
           lib.sign(Payload(UserClaim(o.store[req.email].id)), secret, SignOptions(360000), env.now)))
      && o.calls == [FindOne, GravatarUrl, GenSalt, Hash, Save, Sign]
  {
  }

  /** The token lifetime is 100 hours. */
  lemma LifetimeIsHundredHours()
    ensures ExpiresIn == 100 * 60 * 60
  {
  }

  /**
   * A 500 comes from the last call made, which rejected after every earlier
   * call succeeded; no token is signed and the store is unchanged.
   */
  lemma ServerErrorFromLastCall(lib: Libraries, secret: string, store: Store, req: Request, env: Environment)
    requires Handle(lib, secret, store, req, env).response == ServerError
    ensures var o := Handle(lib, secret, store, req, env);
      && Acceptable(lib.isEmail, req)
      && o.store == store
      && 0 < |o.calls| && o.calls[|o.calls| - 1] in env.throws
      && (forall i :: 0 <= i < |o.calls| - 1 ==> o.calls[i] !in env.throws)
      && Sign !in o.calls
  {
    RegisterChainAccepts(lib.isEmail, req);
  }

  /** A failure inside the `try` is reported as a 500 exactly when one of the calls made inside the `try` rejects. */
  lemma ServerErrorIff(lib: Libraries, secret: string, store: Store, req: Request, env: Environment)
    ensures var o := Handle(lib, secret, store, req, env);
      o.response == ServerError <==> exists i :: 0 <= i < |o.calls| && o.calls[i] in env.throws && o.calls[i] != Sign
  {
    var o := Handle(lib, secret, store, req, env);
    if o.response == ServerError {
      assert o.calls[|o.calls| - 1] in env.throws;
    }
  }

  /**
   * The calls made are the handler's steps in order, stopping early; the store
   * changes exactly when `save` is reached and does not reject, which is before
   * the token is signed.
   */
  lemma CallsFollowPipeline(lib: Libraries, secret: string, store: Store, req: Request, env: Environment)
    ensures var o := Handle(lib, secret, store, req, env);
      && o.calls <= Pipeline
      && (o.store != store <==> Save in o.calls && Save !in env.throws)
      && (Sign in o.calls <==> o.response.status == 200)
  {
  }

  /** A request changes no record but the one it may add. */
  lemma HandleKeepsOtherAccounts(lib: Libraries, secret: string, store: Store, req: Request, env: Environment)
    ensures var o := Handle(lib, secret, store, req, env);
      && store.Keys <= o.store.Keys <= store.Keys + {req.email}
      && (forall e :: e in store ==> o.store[e] == store[e])
  {
  }

  /** Filing an account that passed the rules under its own email keeps the store invariant. */
  lemma InsertPreservesInvariant(lib: Libraries, store: Store, account: Account)
    requires StoreInvariant(lib, store)
    requires account.name != "" && lib.isEmail(account.email)
    requires account.avatar == Avatar(lib, account.email) && Hashed(lib, account.password)
    ensures StoreInvariant(lib, store[account.email := account])
  {
  }

  /** A request either leaves the store alone or files the new account of an acceptable request. */
  lemma StoreAfter(lib: Libraries, secret: string, store: Store, req: Request, env: Environment)
    ensures var after := Handle(lib, secret, store, req, env).store;
      after == store || (Acceptable(lib.isEmail, req) && after == store[req.email := NewAccount(lib, req, env)])
  {
    RegisterChainAccepts(lib.isEmail, req);
  }

  /** Every request keeps the store invariant. */
  lemma HandlePreservesInvariant(lib: Libraries, secret: string, store: Store, req: Request, env: Environment)
    ensures StoreInvariant(lib, store) ==> StoreInvariant(lib, Handle(lib, secret, store, req, env).store)
  {
    var after := Handle(lib, secret, store, req, env).store;
    StoreAfter(lib, secret, store, req, env);
    if StoreInvariant(lib, store) && after != store {
      var account := NewAccount(lib, req, env);
      assert Hashed(lib, account.password) by {
        assert account.password == lib.hash(req.password, lib.genSalt(SaltRounds, env.randomness));
      }
      InsertPreservesInvariant(lib, store, account);
    }
  }

  /** The store after a sequence of requests, each with its own environment. */
  function Replay(lib: Libraries, secret: string, store: Store, requests: seq<(Request, Environment)>): Store
    decreases |requests|
  {
    if requests == [] then store
    else Replay(lib, secret, Handle(lib, secret, store, requests[0].0, requests[0].1).store, requests[1..])
  }

  /** However many requests arrive, every stored account satisfies the invariant. */
  lemma {:induction false} ReplayPreservesInvariant(lib: Libraries, secret: string, store: Store, requests: seq<(Request, Environment)>)
    requires StoreInvariant(lib, store)
    ensures StoreInvariant(lib, Replay(lib, secret, store, requests))
    decreases |requests|
  {
    if requests != [] {
      HandlePreservesInvariant(lib, secret, store, requests[0].0, requests[0].1);
      ReplayPreservesInvariant(lib, secret, Handle(lib, secret, store, requests[0].0, requests[0].1).store, requests[1..]);
    }
  }

  /** No sequence of requests removes or alters an existing account. */
  lemma {:induction false} ReplayKeepsAccounts(lib: Libraries, secret: string, store: Store, requests: seq<(Request, Environment)>)
    ensures var after := Replay(lib, secret, store, requests);
      forall e :: e in store ==> e in after && after[e] == store[e]
    decreases |requests|
  {
    if requests != [] {
      HandleKeepsOtherAccounts(lib, secret, store, requests[0].0, requests[0].1);
      ReplayKeepsAccounts(lib, secret, Handle(lib, secret, store, requests[0].0, requests[0].1).store, requests[1..]);
    }
  }

  /**
   * Input that breaks all three rules, such as an empty name, "not-an-email"
   * and "123", gets three errors and leaves the store as it was.
   */
  lemma ThreeErrorsScenario(lib: Libraries, secret: string, store: Store, env: Environment)
    requires !lib.isEmail("not-an-email")
    ensures var o := Handle(lib, secret, store, Request("", "not-an-email", "123"), env);
      && o.response == Response(400, Errors([
           FieldError("", "Name is required", "name"),
           FieldError("not-an-email", "Please include a valid email", "email"),
           FieldError("123", "please enter a password with 6 or more characters", "password")]))
      && o.store == store
  {
    AllRulesBroken(lib.isEmail, Request("", "not-an-email", "123"));
  }

  /**
   * The same acceptable request submitted twice to an empty collection: the
   * first gets a token, the second "User already exists", and the collection
   * ends with the one account.
   */
  method SubmitTwice(lib: Libraries, secret: string, name: string, email: string, password: string,
                     env1: Environment, env2: Environment)
    returns (first: Response, second: Response, stored: nat)
    requires Acceptable(lib.isEmail, Request(name, email, password))
    requires NoFault(env1) && FindOne !in env2.throws
    ensures first == Response(200, TokenJson(TokenFor(lib, secret, env1.objectId, env1)))
    ensures second == UserExists
    ensures stored == 1
  {
    var req := Request(name, email, password);
    var registry := new Registry(lib, secret, map[]);
    SuccessIff(lib, secret, map[], req, env1);
    SuccessInsertsOne(lib, secret, map[], req, env1);
    SuccessToken(lib, secret, map[], req, env1);
    first := registry.Register(name, email, password, env1);
    var once := registry.users;
    assert email in once && |once| == 1;
    DuplicateRejected(lib, secret, once, req, env2);
    second := registry.Register(name, email, password, env2);
    stored := |registry.users|;
  }
}
