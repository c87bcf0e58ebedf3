/**
 Registration followed by login against the in-memory store: the service's
 calls are replayed on the store between the two operations.
 */
module Scenarios {
  import opened GoErrors
  import opened Models
  import Auth
  import opened MemStore

  /** The store after registering `email` with `pass`. */
  function AfterRegister(s: Store, c: Auth.Crypto, ttl: Duration, salt: Bytes, email: string, pass: string): (r: Store)
    ensures Valid(s) ==> Valid(r)
    ensures r.apps == s.apps
  {
    Replay(s, Auth.RegisterNewUser(Wire(s, ttl), c, salt, email, pass).calls)
  }

  /** A user registered on a store logs in with the same password and gets
      the signer's token for the stored record and the requested application. */
  lemma RegisterThenLogin(s: Store, c: Auth.Crypto, ttl: Duration, salt: Bytes, email: string, pass: string, appID: Int64)
    requires Valid(s)
    requires Auth.Sound(c)
    requires email !in s.users && s.nextID <= MaxInt64
    requires c.generateFromPassword(pass, Auth.DefaultCost, salt).Ok?
    requires appID in s.apps
    requires c.newToken(User(s.nextID, email, c.generateFromPassword(pass, Auth.DefaultCost, salt).value),
                        s.apps[appID], ttl).Ok?
    ensures var reg := Auth.RegisterNewUser(Wire(s, ttl), c, salt, email, pass);
            var hash := c.generateFromPassword(pass, Auth.DefaultCost, salt).value;
            var login := Auth.Login(Wire(AfterRegister(s, c, ttl, salt, email, pass), ttl), c, email, pass, appID);
            && reg.err.None?
            && reg.value == s.nextID
            && login.err.None?
            && login.value == c.newToken(User(reg.value, email, hash), s.apps[appID], ttl).value
            && s.apps[appID].id == appID
  {
    var hash := c.generateFromPassword(pass, Auth.DefaultCost, salt).value;
    var reg := Auth.RegisterNewUser(Wire(s, ttl), c, salt, email, pass);
    Auth.RegisterSucceeds(Wire(s, ttl), c, salt, email, pass);
    RegisterAddsOneUser(s, c, ttl, salt, email, pass);
    var after := AfterRegister(s, c, ttl, salt, email, pass);
    assert after.users[email] == User(reg.value, email, hash);
    assert c.compareHashAndPassword(hash, pass).None?;
    Auth.LoginSucceeds(Wire(after, ttl), c, email, pass, appID);
  }

  /** After registration, a password the stored hash rejects, and an email
      that was never registered, get the same invalid-credentials error; an
      unknown application after correct credentials gets the store's
      not-found error instead. */
  lemma RegisterThenFailedLogins(
    s: Store, c: Auth.Crypto, ttl: Duration, salt: Bytes, email: string, pass: string,
    wrong: string, stranger: string, appID: Int64, missingApp: Int64)
    requires Valid(s)
    requires Auth.Sound(c)
    requires email !in s.users && s.nextID <= MaxInt64
    requires c.generateFromPassword(pass, Auth.DefaultCost, salt).Ok?
    requires c.compareHashAndPassword(c.generateFromPassword(pass, Auth.DefaultCost, salt).value, wrong).Some?
    requires stranger !in s.users && stranger != email
    requires missingApp !in s.apps
    ensures var after := AfterRegister(s, c, ttl, salt, email, pass);
            var badPassword := Auth.Login(Wire(after, ttl), c, email, wrong, appID);
            var badEmail := Auth.Login(Wire(after, ttl), c, stranger, pass, appID);
            var badApp := Auth.Login(Wire(after, ttl), c, email, pass, missingApp);
            && badPassword == badEmail.(calls := badPassword.calls)
            && badPassword.value == "" && badPassword.err == Some(Auth.InvalidCredentials)
            && badApp.value == ""
            && badApp.err.Some?
            && Is(badApp.err.value, Auth.ErrAppNotFound)
            && !Is(badApp.err.value, Auth.ErrInvalidCredentials)
  {
    var hash := c.generateFromPassword(pass, Auth.DefaultCost, salt).value;
    var reg := Auth.RegisterNewUser(Wire(s, ttl), c, salt, email, pass);
    Auth.RegisterSucceeds(Wire(s, ttl), c, salt, email, pass);
    RegisterAddsOneUser(s, c, ttl, salt, email, pass);
    var after := AfterRegister(s, c, ttl, salt, email, pass);
    assert after.users[email] == User(reg.value, email, hash);
    assert stranger !in after.users;
    Auth.LoginWrongPassword(Wire(after, ttl), c, email, wrong, appID);
    Auth.LoginUnknownUser(Wire(after, ttl), c, stranger, pass, appID);
    Auth.LoginAppFailure(Wire(after, ttl), c, email, pass, missingApp);
  }

  /** Of two registrations of one email, the first succeeds and the second
      fails with the duplicate sentinel; the store keeps the first record. */
  lemma SecondRegistrationRefused(
    s: Store, c: Auth.Crypto, ttl: Duration, salt1: Bytes, salt2: Bytes, email: string, pass1: string, pass2: string)
    requires Valid(s)
    requires email !in s.users && s.nextID <= MaxInt64
    requires c.generateFromPassword(pass1, Auth.DefaultCost, salt1).Ok?
    requires c.generateFromPassword(pass2, Auth.DefaultCost, salt2).Ok?
    ensures var first := Auth.RegisterNewUser(Wire(s, ttl), c, salt1, email, pass1);
            var mid := AfterRegister(s, c, ttl, salt1, email, pass1);
            var second := Auth.RegisterNewUser(Wire(mid, ttl), c, salt2, email, pass2);
            && first.err.None?
            && second.err.Some? && second.value == 0
            && Is(second.err.value, ErrUserExists)
            && AfterRegister(mid, c, ttl, salt2, email, pass2) == mid
            && mid.users[email].id == first.value
  {
    Auth.RegisterSucceeds(Wire(s, ttl), c, salt1, email, pass1);
    RegisterAddsOneUser(s, c, ttl, salt1, email, pass1);
    var mid := AfterRegister(s, c, ttl, salt1, email, pass1);
    DuplicateRegistrationFails(mid, c, ttl, salt2, email, pass2);
  }
}
