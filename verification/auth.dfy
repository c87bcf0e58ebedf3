/**
 The authentication service: user registration (hash the password, then save
 the user) and login (fetch the user, check the password, fetch the
 application, issue a token).

 The three store capabilities the service depends on are function values in
 `Service`; bcrypt and the token signer are function values in `Crypto`. Each
 operation returns Go's `(value, error)` pair together with the sequence of
 collaborator calls it made, so that the order of the steps, and the steps
 that were skipped, can be stated.
 */
module Auth {
  import opened GoErrors
  import opened Models

  const RegisterOp: string := "Auth.RegisterNewUser"
  const LoginOp: string := "Auth.Login"

  /** bcrypt's default cost factor, the one registration hashes with. */
  const DefaultCost: int := 10

  /** The service's own sentinel for a rejected email/password pair. */
  const ErrInvalidCredentials: Origin := Origin("auth", "ErrInvalidCredentials", "invalid credentials")

  /** The store's sentinels for a missing user and a missing application. */
  const ErrUserNotFound: Origin := Origin("storage", "ErrUserNotFound", "user not found")
  const ErrAppNotFound: Origin := Origin("storage", "ErrAppNotFound", "app not found")

  /** The error both kinds of credential failure produce. */
  const InvalidCredentials: Error := Wrap(LoginOp, Base(ErrInvalidCredentials))

  /** The service: the user saver, user provider and app provider
      capabilities, and the lifetime of the tokens it issues. */
  datatype Service = Service(
    usrSaver: (string, Bytes) -> Result<Int64>,
    usrProvider: string -> Result<User>,
    appProvider: Int64 -> Result<App>,
    tokenTTL: Duration)

  /** The foreign libraries: bcrypt's hash generation (given the cost and the
      random salt bytes it draws) and comparison (nil when the password
      matches), and the token signer. */
  datatype Crypto = Crypto(
    generateFromPassword: (string, int, Bytes) -> Result<Bytes>,
    compareHashAndPassword: (Bytes, string) -> Option<Error>,
    newToken: (User, App, Duration) -> Result<string>)

  /** bcrypt's promise: a password matches every hash generated from it. */
  ghost predicate Sound(c: Crypto)
  {
    forall pass, cost, salt ::
      c.generateFromPassword(pass, cost, salt).Ok? ==>
        c.compareHashAndPassword(c.generateFromPassword(pass, cost, salt).value, pass).None?
  }

  /** A call the service makes to one of its collaborators. */
  datatype Call =
    | GenerateHash(password: string, cost: int)
    | StoreUser(email: string, passHash: Bytes)
    | FetchUser(email: string)
    | CompareHash(passHash: Bytes, password: string)
    | FetchApp(appID: Int64)
    | IssueToken(user: User, app: App, ttl: Duration)

  /** Go's `(value, error)` result, and the calls made to produce it. */
  datatype Outcome<T> = Outcome(value: T, err: Option<Error>, calls: seq<Call>)

  /** The user provider reports that no user has this email. */
  predicate UserUnknown(a: Service, email: string)
  {
    a.usrProvider(email).Fail? && Is(a.usrProvider(email).error, ErrUserNotFound)
  }

  /** The user exists and the password matches the stored hash. */
  predicate PasswordAccepted(a: Service, c: Crypto, email: string, password: string)
  {
    a.usrProvider(email).Ok? &&
    c.compareHashAndPassword(a.usrProvider(email).value.passHash, password).None?
  }

  /** The user exists and the comparison with the stored hash fails: a
      mismatch, or any other bcrypt error such as a malformed stored hash. */
  predicate PasswordRejected(a: Service, c: Crypto, email: string, password: string)
  {
    a.usrProvider(email).Ok? &&
    c.compareHashAndPassword(a.usrProvider(email).value.passHash, password).Some?
  }

  /** The email/password pair is refused: unknown email, or the comparison
      with the stored hash fails. */
  predicate CredentialsRejected(a: Service, c: Crypto, email: string, password: string)
  {
    UserUnknown(a, email) || PasswordRejected(a, c, email, password)
  }

  /** Every collaborator succeeds: the user exists, the password matches, the
      application exists and the token is signed. */
  predicate LoginGranted(a: Service, c: Crypto, email: string, password: string, appID: Int64)
  {
    PasswordAccepted(a, c, email, password) &&
    a.appProvider(appID).Ok? &&
    c.newToken(a.usrProvider(email).value, a.appProvider(appID).value, a.tokenTTL).Ok?
  }

  /** Registers a user and returns the id the store assigned to it. */
  function RegisterNewUser(a: Service, c: Crypto, salt: Bytes, email: string, pass: string): (out: Outcome<Int64>)
    // The hash is always computed first, at the default cost.
    ensures 1 <= |out.calls| <= 2 && out.calls[0] == GenerateHash(pass, DefaultCost)
    // The store is called exactly when hashing succeeded, with that hash.
    ensures |out.calls| == 2 <==> c.generateFromPassword(pass, DefaultCost, salt).Ok?
    ensures |out.calls| == 2 ==>
      out.calls[1] == StoreUser(email, c.generateFromPassword(pass, DefaultCost, salt).value)
    // Success: the id is the one the store assigned to this email and hash.
    ensures out.err.None? ==>
      |out.calls| == 2 && a.usrSaver(email, out.calls[1].passHash) == Ok(out.value)
    // Failure: id 0, and an error that names the operation.
    ensures out.err.Some? ==>
      out.value == 0 && out.err.value.Wrap? && out.err.value.op == RegisterOp
  {
    var hashCall := GenerateHash(pass, DefaultCost);
    match c.generateFromPassword(pass, DefaultCost, salt)
    case Fail(err) =>
      Outcome(0, Some(Wrap(RegisterOp, err)), [hashCall])
    case Ok(passHash) =>
      var saveCall := StoreUser(email, passHash);
      match a.usrSaver(email, passHash)
      case Fail(err) =>
        Outcome(0, Some(Wrap(RegisterOp, err)), [hashCall, saveCall])
      case Ok(id) =>
        Outcome(id, None, [hashCall, saveCall])
  }

  /** Checks the credentials and returns a token for the application. */
  function Login(a: Service, c: Crypto, email: string, password: string, appID: Int64): (out: Outcome<string>)
    // Every failure yields the empty token and an error that names the operation.
    ensures out.err.Some? ==>
      out.value == "" && out.err.value.Wrap? && out.err.value.op == LoginOp
    // Success exactly when every collaborator succeeds, with the signer's token.
    ensures out.err.None? <==> LoginGranted(a, c, email, password, appID)
    ensures out.err.None? ==>
      out.value == c.newToken(a.usrProvider(email).value, a.appProvider(appID).value, a.tokenTTL).value
    // The application is looked up and a token signed only for accepted credentials.
    ensures forall i | 0 <= i < |out.calls| ::
      (out.calls[i].FetchApp? || out.calls[i].IssueToken?) ==> PasswordAccepted(a, c, email, password)
    // Login writes nothing and hashes nothing.
    ensures forall i | 0 <= i < |out.calls| ::
      !out.calls[i].StoreUser? && !out.calls[i].GenerateHash?
  {
    var userCall := FetchUser(email);
    match a.usrProvider(email)
    case Fail(err) =>
      if Is(err, ErrUserNotFound) then
        Outcome("", Some(InvalidCredentials), [userCall])
      else
        Outcome("", Some(Wrap(LoginOp, err)), [userCall])
    case Ok(user) =>
      var compareCall := CompareHash(user.passHash, password);
      match c.compareHashAndPassword(user.passHash, password)
      case Some(_) =>
        Outcome("", Some(InvalidCredentials), [userCall, compareCall])
      case None =>
        var appCall := FetchApp(appID);
        match a.appProvider(appID)
        case Fail(err) =>
          Outcome("", Some(Wrap(LoginOp, err)), [userCall, compareCall, appCall])
        case Ok(app) =>
          var tokenCall := IssueToken(user, app, a.tokenTTL);
          match c.newToken(user, app, a.tokenTTL)
          case Fail(err) =>
            Outcome("", Some(Wrap(LoginOp, err)), [userCall, compareCall, appCall, tokenCall])
          case Ok(token) =>
            Outcome(token, None, [userCall, compareCall, appCall, tokenCall])
  }

  // ---------------------------------------------------------------------------
  // Registration

  /** A successful registration returns exactly the id the store assigned. */
  lemma RegisterSucceeds(a: Service, c: Crypto, salt: Bytes, email: string, pass: string)
    requires c.generateFromPassword(pass, DefaultCost, salt).Ok?
    requires a.usrSaver(email, c.generateFromPassword(pass, DefaultCost, salt).value).Ok?
    ensures var hash := c.generateFromPassword(pass, DefaultCost, salt).value;
            RegisterNewUser(a, c, salt, email, pass) ==
            Outcome(a.usrSaver(email, hash).value, None, [GenerateHash(pass, DefaultCost), StoreUser(email, hash)])
  {
  }

  /** A hashing failure skips the store and returns 0 with the cause wrapped. */
  lemma RegisterHashFailure(a: Service, c: Crypto, salt: Bytes, email: string, pass: string)
    requires c.generateFromPassword(pass, DefaultCost, salt).Fail?
    ensures var cause := c.generateFromPassword(pass, DefaultCost, salt).error;
            var out := RegisterNewUser(a, c, salt, email, pass);
            && out == Outcome(0, Some(Wrap(RegisterOp, cause)), [GenerateHash(pass, DefaultCost)])
            && (forall t :: Is(out.err.value, t) <==> Is(cause, t))
            && Message(out.err.value) == RegisterOp + ": " + Message(cause)
  {
  }

  /** A store failure (a duplicate email among them) returns 0 with the store's
      error wrapped, and the store's error kind is still visible. */
  lemma RegisterStoreFailure(a: Service, c: Crypto, salt: Bytes, email: string, pass: string)
    requires c.generateFromPassword(pass, DefaultCost, salt).Ok?
    requires a.usrSaver(email, c.generateFromPassword(pass, DefaultCost, salt).value).Fail?
    ensures var hash := c.generateFromPassword(pass, DefaultCost, salt).value;
            var cause := a.usrSaver(email, hash).error;
            var out := RegisterNewUser(a, c, salt, email, pass);
            && out == Outcome(0, Some(Wrap(RegisterOp, cause)),
                              [GenerateHash(pass, DefaultCost), StoreUser(email, hash)])
            && (forall t :: Is(out.err.value, t) <==> Is(cause, t))
            && Root(out.err.value) == Root(cause)
  {
  }

  // ---------------------------------------------------------------------------
  // Login

  /** An unknown email is reported as invalid credentials, without the store's
      not-found error in the chain. */
  lemma LoginUnknownUser(a: Service, c: Crypto, email: string, password: string, appID: Int64)
    requires UserUnknown(a, email)
    ensures var out := Login(a, c, email, password, appID);
            && out == Outcome("", Some(InvalidCredentials), [FetchUser(email)])
            && Is(out.err.value, ErrInvalidCredentials)
            && !Is(out.err.value, ErrUserNotFound)
  {
  }

  /** A password that does not match is reported as invalid credentials, after
      one comparison against the stored hash. */
  lemma LoginWrongPassword(a: Service, c: Crypto, email: string, password: string, appID: Int64)
    requires PasswordRejected(a, c, email, password)
    ensures var out := Login(a, c, email, password, appID);
            var user := a.usrProvider(email).value;
            && out == Outcome("", Some(InvalidCredentials), [FetchUser(email), CompareHash(user.passHash, password)])
            && Is(out.err.value, ErrInvalidCredentials)
  {
  }

  /** Unknown email and wrong password cannot be told apart by the result: the
      token and the error value (hence its message and kind) are identical. */
  lemma CredentialFailuresIndistinguishable(
    a1: Service, c1: Crypto, email1: string, password1: string, appID1: Int64,
    a2: Service, c2: Crypto, email2: string, password2: string, appID2: Int64)
    requires CredentialsRejected(a1, c1, email1, password1)
    requires CredentialsRejected(a2, c2, email2, password2)
    ensures Login(a1, c1, email1, password1, appID1).value == Login(a2, c2, email2, password2, appID2).value
    ensures Login(a1, c1, email1, password1, appID1).err == Login(a2, c2, email2, password2, appID2).err
  {
  }

  /** The two rejections differ in the work done: an unknown email skips the
      bcrypt comparison that a wrong password pays for. */
  lemma RejectionPathsDifferInWork(
    a1: Service, c1: Crypto, email1: string, password1: string, appID1: Int64,
    a2: Service, c2: Crypto, email2: string, password2: string, appID2: Int64)
    requires UserUnknown(a1, email1)
    requires PasswordRejected(a2, c2, email2, password2)
    ensures forall i | 0 <= i < |Login(a1, c1, email1, password1, appID1).calls| ::
      !Login(a1, c1, email1, password1, appID1).calls[i].CompareHash?
    ensures exists i | 0 <= i < |Login(a2, c2, email2, password2, appID2).calls| ::
      Login(a2, c2, email2, password2, appID2).calls[i].CompareHash?
  {
    assert Login(a2, c2, email2, password2, appID2).calls[1].CompareHash?;
  }

  /** Any other user-lookup error is passed through wrapped: it keeps its own
      kind and gains no other. */
  lemma LoginOtherLookupError(a: Service, c: Crypto, email: string, password: string, appID: Int64)
    requires a.usrProvider(email).Fail?
    requires !Is(a.usrProvider(email).error, ErrUserNotFound)
    ensures var cause := a.usrProvider(email).error;
            var out := Login(a, c, email, password, appID);
            && out == Outcome("", Some(Wrap(LoginOp, cause)), [FetchUser(email)])
            && (forall t :: Is(out.err.value, t) <==> Is(cause, t))
  {
  }

  /** An application-lookup failure after accepted credentials is passed through
      wrapped; it is not reported as invalid credentials unless the provider's
      own error already was one. */
  lemma LoginAppFailure(a: Service, c: Crypto, email: string, password: string, appID: Int64)
    requires PasswordAccepted(a, c, email, password)
    requires a.appProvider(appID).Fail?
    ensures var cause := a.appProvider(appID).error;
            var user := a.usrProvider(email).value;
            var out := Login(a, c, email, password, appID);
            && out == Outcome("", Some(Wrap(LoginOp, cause)),
                              [FetchUser(email), CompareHash(user.passHash, password), FetchApp(appID)])
            && (forall t :: Is(out.err.value, t) <==> Is(cause, t))
  {
  }

  /** A signing failure is passed through wrapped, with no token. */
  lemma LoginTokenFailure(a: Service, c: Crypto, email: string, password: string, appID: Int64)
    requires PasswordAccepted(a, c, email, password)
    requires a.appProvider(appID).Ok?
    requires c.newToken(a.usrProvider(email).value, a.appProvider(appID).value, a.tokenTTL).Fail?
    ensures var user := a.usrProvider(email).value;
            var app := a.appProvider(appID).value;
            var cause := c.newToken(user, app, a.tokenTTL).error;
            Login(a, c, email, password, appID) ==
            Outcome("", Some(Wrap(LoginOp, cause)),
                    [FetchUser(email), CompareHash(user.passHash, password), FetchApp(appID),
                     IssueToken(user, app, a.tokenTTL)])
  {
  }

  /** Login consults its collaborators in a fixed order, each step only after
      the previous one succeeded; rejected credentials stop before the
      application is looked up. */
  lemma LoginOrder(a: Service, c: Crypto, email: string, password: string, appID: Int64)
    ensures var out := Login(a, c, email, password, appID);
            && 1 <= |out.calls| <= 4
            && out.calls[0] == FetchUser(email)
            && (|out.calls| >= 2 ==>
                  a.usrProvider(email).Ok? &&
                  out.calls[1] == CompareHash(a.usrProvider(email).value.passHash, password))
            && (|out.calls| >= 3 ==>
                  PasswordAccepted(a, c, email, password) && out.calls[2] == FetchApp(appID))
            && (|out.calls| == 4 ==>
                  a.appProvider(appID).Ok? &&
                  out.calls[3] == IssueToken(a.usrProvider(email).value, a.appProvider(appID).value, a.tokenTTL))
            && (CredentialsRejected(a, c, email, password) ==> |out.calls| <= 2)
  {
  }

  /** With collaborators whose own errors are never of the invalid-credentials
      kind, Login reports that kind exactly when the credentials are rejected. */
  lemma LoginInvalidCredentialsIff(a: Service, c: Crypto, email: string, password: string, appID: Int64)
    requires a.usrProvider(email).Fail? ==> !Is(a.usrProvider(email).error, ErrInvalidCredentials)
    requires a.appProvider(appID).Fail? ==> !Is(a.appProvider(appID).error, ErrInvalidCredentials)
    requires a.usrProvider(email).Ok? && a.appProvider(appID).Ok? &&
             c.newToken(a.usrProvider(email).value, a.appProvider(appID).value, a.tokenTTL).Fail? ==>
               !Is(c.newToken(a.usrProvider(email).value, a.appProvider(appID).value, a.tokenTTL).error,
                   ErrInvalidCredentials)
    ensures var out := Login(a, c, email, password, appID);
            (out.err.Some? && Is(out.err.value, ErrInvalidCredentials)) <==>
            CredentialsRejected(a, c, email, password)
  {
  }

  /** A successful login returns exactly the signer's token for the fetched
      user, the fetched application and the configured lifetime. */
  lemma LoginSucceeds(a: Service, c: Crypto, email: string, password: string, appID: Int64)
    requires LoginGranted(a, c, email, password, appID)
    ensures var user := a.usrProvider(email).value;
            var app := a.appProvider(appID).value;
            Login(a, c, email, password, appID) ==
            Outcome(c.newToken(user, app, a.tokenTTL).value, None,
                    [FetchUser(email), CompareHash(user.passHash, password), FetchApp(appID),
                     IssueToken(user, app, a.tokenTTL)])
  {
  }
}
