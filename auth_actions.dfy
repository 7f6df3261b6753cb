/** The server actions (src/actions/auth.ts): `loginAction`, a read-only
    lookup plus a hash comparison, and `registerAction`, a check-then-insert
    into the user store. The store is a map from e-mail to user record held
    by a `UserStore` object; bcrypt is a `Hasher` value passed in; every
    fault the foreign calls can raise is an explicit boolean parameter. */
module AuthActions {
  import opened Common
  import opened AuthForm

  /** The closed outcome vocabulary (besides success). */
  datatype AuthError = InvalidCredentials | EmailExists | LoginFailed | RegistrationFailed

  /** The code each error travels as, in results and in query strings. */
  function ErrorCode(e: AuthError): string
  {
    match e
    case InvalidCredentials => "invalid_credentials"
    case EmailExists => "email_exists"
    case LoginFailed => "login_failed"
    case RegistrationFailed => "registration_failed"
  }

  /** `{ success: true }` or `{ success: false, error: code }`. */
  datatype ActionResult = Success | Failure(error: AuthError)

  /** How the promise an action returns settles: with a value, or by
      throwing an exception that the action does not catch. */
  datatype Settled<T> = Returned(value: T) | Thrown

  /** A stored user; `password` holds the bcrypt hash, never the plaintext. */
  datatype User = User(email: string, password: string, name: string)

  /** bcrypt: `hash(plaintext, rounds, salt)` and `compare(plaintext, hash)`.
      The salt is random, so it is an argument of every hashing call. */
  datatype Hasher = Hasher(hash: (string, nat, string) -> string, compare: (string, string) -> bool)

  /** The cost factor `registerAction` hashes with. */
  const SaltRounds: nat := 10

  /** The one property of bcrypt the model relies on: a password is
      accepted by the hash made from it, whatever the cost and the salt. */
  ghost predicate AcceptsOwnHash(hasher: Hasher)
  {
    forall pw, rounds, salt :: hasher.compare(pw, hasher.hash(pw, rounds, salt))
  }

  /** Where `loginAction` can fault: the imports or `findUnique`, and
      `bcrypt.compare`. */
  datatype LoginFaults = LoginFaults(lookup: bool, compare: bool)

  /** Where `registerAction` can fault inside its try block: the imports or
      `findUnique`, `bcrypt.hash`, and `prisma.user.create`. */
  datatype RegisterFaults = RegisterFaults(lookup: bool, hash: bool, create: bool)

  const NoLoginFaults := LoginFaults(false, false)

  /** `loginAction`: every fault is caught and reported as `login_failed`;
      an unknown e-mail and a wrong password both give `invalid_credentials`. */
  function LoginAction(users: map<string, User>, values: LoginFormValues, hasher: Hasher, faults: LoginFaults): (r: ActionResult)
    ensures r == Success <==>
      && !faults.lookup && values.email in users && !faults.compare
      && hasher.compare(values.password, users[values.email].password)
    ensures r == Failure(LoginFailed) <==> faults.lookup || (values.email in users && faults.compare)
    ensures r.Failure? ==> r.error == InvalidCredentials || r.error == LoginFailed
  {
    if faults.lookup then Failure(LoginFailed)
    else if values.email !in users then Failure(InvalidCredentials)
    else if faults.compare then Failure(LoginFailed)
    else if hasher.compare(values.password, users[values.email].password) then Success
    else Failure(InvalidCredentials)
  }

  /** An e-mail that is not in the store always gives `invalid_credentials`
      unless the lookup itself faults, whatever the password. */
  lemma UnknownEmailRejected(users: map<string, User>, values: LoginFormValues, hasher: Hasher, faults: LoginFaults)
    requires values.email !in users && !faults.lookup
    ensures LoginAction(users, values, hasher, faults) == Failure(InvalidCredentials)
  {
  }

  /** No account enumeration: a wrong password for a stored user gives the
      same result as the same e-mail with no such user at all. */
  lemma WrongPasswordLooksLikeUnknownEmail(users: map<string, User>, values: LoginFormValues, hasher: Hasher, faults: LoginFaults)
    requires values.email in users && !faults.compare
    requires !hasher.compare(values.password, users[values.email].password)
    ensures LoginAction(users, values, hasher, faults) == LoginAction(users - {values.email}, values, hasher, faults)
  {
  }

  /** The record `registerAction` asks the store to create. */
  function NewUser(v: RegisterFormValues, hasher: Hasher, salt: string): (u: User)
    ensures u.email == v.email && u.name == v.name
    ensures AcceptsOwnHash(hasher) ==> hasher.compare(v.password, u.password)
  {
    User(v.email, hasher.hash(v.password, SaltRounds, salt), v.name)
  }

  /** The value `registerAction` settles with, given the store it finds. */
  function RegisterResult(users: map<string, User>, values: FormValues, faults: RegisterFaults): (r: Settled<ActionResult>)
    ensures r == Thrown <==> values.LoginValues?
    ensures r == Returned(Success) <==>
      && values.RegisterValues? && values.register.email !in users
      && !faults.lookup && !faults.hash && !faults.create
    ensures r == Returned(Failure(EmailExists)) <==>
      values.RegisterValues? && !faults.lookup && values.register.email in users
    ensures r.Returned? && r.value.Failure? ==>
      r.value.error == EmailExists || r.value.error == RegistrationFailed
  {
    if values.LoginValues? then Thrown
    else if faults.lookup then Returned(Failure(RegistrationFailed))
    else if values.register.email in users then Returned(Failure(EmailExists))
    else if faults.hash || faults.create then Returned(Failure(RegistrationFailed))
    else Returned(Success)
  }

  /** Whether `registerAction` reaches `bcrypt.hash`. */
  predicate Hashes(users: map<string, User>, values: FormValues, faults: RegisterFaults)
  {
    values.RegisterValues? && !faults.lookup && values.register.email !in users
  }

  /** Round trip: once a registration has inserted its record, logging in
      with the same e-mail and password succeeds, unless the login faults. */
  lemma RegisterThenLogin(users: map<string, User>, v: RegisterFormValues, hasher: Hasher, salt: string, remember: Option<bool>)
    requires AcceptsOwnHash(hasher)
    ensures LoginAction(users[v.email := NewUser(v, hasher, salt)],
                        LoginFormValues(v.email, v.password, remember), hasher, NoLoginFaults) == Success
  {
    var u := NewUser(v, hasher, salt);
    assert hasher.compare(v.password, u.password);
  }

  /** A second registration for an e-mail the first one inserted reports
      `email_exists`, whatever its password and name, unless its lookup
      faults. */
  lemma SecondRegistrationRefused(users: map<string, User>, first: RegisterFormValues, hasher: Hasher, salt: string,
                                  second: RegisterFormValues, faults: RegisterFaults)
    requires second.email == first.email && !faults.lookup
    ensures RegisterResult(users[first.email := NewUser(first, hasher, salt)], RegisterValues(second), faults)
            == Returned(Failure(EmailExists))
  {
  }

  /** A successful parse by the register schema always passes the type
      guard of `registerAction`: it never throws on the register form's
      own values. */
  lemma RegisterSchemaOutputPassesGuard(input: FormInput, isEmail: string -> bool, users: map<string, User>, faults: RegisterFaults)
    requires Resolve("register", input, isEmail).Accepted?
    ensures RegisterResult(users, Resolve("register", input, isEmail).values, faults).Returned?
  {
  }

  /** The user store: records keyed by their own e-mail. */
  class UserStore {
    var users: map<string, User>
    /** Number of calls made to the (deliberately slow) hashing primitive. */
    ghost var hashCalls: nat

    ghost predicate Valid()
      reads this
    {
      forall e :: e in users ==> users[e].email == e
    }

    constructor (initial: map<string, User>)
      requires forall e :: e in initial ==> initial[e].email == e
      ensures Valid() && users == initial && hashCalls == 0
    {
      users := initial;
      hashCalls := 0;
    }

    /** `registerAction`: the type guard throws before the try block; then
        lookup, uniqueness check, hash, insert. Only a complete success
        changes the store, and it adds exactly the new record. */
    method RegisterAction(values: FormValues, hasher: Hasher, salt: string, faults: RegisterFaults)
      returns (r: Settled<ActionResult>)
      requires Valid()
      modifies this
      ensures Valid()
      ensures r == RegisterResult(old(users), values, faults)
      ensures r == Returned(Success) ==>
        users == old(users)[values.register.email := NewUser(values.register, hasher, salt)]
      ensures r != Returned(Success) ==> users == old(users)
      ensures hashCalls == old(hashCalls) + (if Hashes(old(users), values, faults) then 1 else 0)
      ensures AcceptsOwnHash(hasher) && r == Returned(Success) ==>
        LoginAction(users, LoginFormValues(values.register.email, values.register.password, None),
                    hasher, NoLoginFaults) == Success
    {
      if !(values.RegisterValues?) {
        // thrown before the try block, so not mapped to registration_failed
        return Thrown;
      }
      var v := values.register;
      if faults.lookup {
        return Returned(Failure(RegistrationFailed));
      }
      if v.email in users {
        return Returned(Failure(EmailExists));
      }
      hashCalls := hashCalls + 1;
      if faults.hash {
        return Returned(Failure(RegistrationFailed));
      }
      var hashedPassword := hasher.hash(v.password, SaltRounds, salt);
      if faults.create {
        return Returned(Failure(RegistrationFailed));
      }
      users := users[v.email := User(v.email, hashedPassword, v.name)];
      r := Returned(Success);
      if AcceptsOwnHash(hasher) {
        RegisterThenLogin(old(users), v, hasher, salt, None);
      }
    }
  }

  /** Two registrations for the same e-mail: when the first succeeds, the
      second reports `email_exists` and leaves the store as the first left
      it, whatever the second's password and name. */
  method RegisterTwice(store: UserStore, first: RegisterFormValues, second: RegisterFormValues,
                       hasher: Hasher, salt1: string, salt2: string, faults1: RegisterFaults, faults2: RegisterFaults)
    returns (r1: Settled<ActionResult>, r2: Settled<ActionResult>)
    requires store.Valid() && first.email == second.email && !faults2.lookup
    modifies store
    ensures store.Valid()
    ensures r1 == Returned(Success) ==> r2 == Returned(Failure(EmailExists))
    ensures r1 == Returned(Success) ==> store.users == old(store.users)[first.email := NewUser(first, hasher, salt1)]
  {
    r1 := store.RegisterAction(RegisterValues(first), hasher, salt1, faults1);
    r2 := store.RegisterAction(RegisterValues(second), hasher, salt2, faults2);
  }
}
