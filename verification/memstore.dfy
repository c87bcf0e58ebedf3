/**
 An in-memory implementation of the three store capabilities the
 authentication service depends on: users keyed by email (so one record per
 email), applications keyed by id, and a counter for the next user id.
 */
module MemStore {
  import opened GoErrors
  import opened Models
  import Auth

  const SaveOp: string := "storage.memory.SaveUser"
  const UserOp: string := "storage.memory.User"
  const AppOp: string := "storage.memory.App"

  /** The store's sentinel for a second registration of the same email. */
  const ErrUserExists: Origin := Origin("memstore", "ErrUserExists", "user already exists")

  /** Reported when the next id would not fit in an `int64`. */
  const ErrIdsExhausted: Origin := Origin("memstore", "ErrIdsExhausted", "user ids exhausted")

  datatype Store = Store(users: map<string, User>, apps: map<Int64, App>, nextID: nat)

  /** Each user is filed under its own email, ids are positive, below the
      counter and distinct, and each application is filed under its own id. */
  ghost predicate Valid(s: Store)
  {
    && 1 <= s.nextID
    && (forall e | e in s.users :: s.users[e].email == e && 1 <= s.users[e].id < s.nextID)
    && (forall e1, e2 | e1 in s.users && e2 in s.users && e1 != e2 :: s.users[e1].id != s.users[e2].id)
    && (forall id | id in s.apps :: s.apps[id].id == id)
  }

  /** The store after a call, and the call's result. */
  datatype Saved = Saved(store: Store, result: Result<Int64>)

  /** Inserts a user unless its email is taken; the new user gets a fresh id. */
  function SaveUser(s: Store, email: string, passHash: Bytes): (r: Saved)
    ensures Valid(s) ==> Valid(r.store)
    // A taken email is refused and nothing changes.
    ensures email in s.users ==>
      r.store == s && r.result.Fail? && Is(r.result.error, ErrUserExists)
    // On success exactly one record is added, under a fresh id.
    ensures r.result.Ok? ==>
      && email !in s.users
      && r.store.users == s.users[email := User(r.result.value, email, passHash)]
      && r.store.apps == s.apps
      && (Valid(s) ==> forall e | e in s.users :: s.users[e].id != r.result.value)
    ensures r.result.Fail? ==> r.store == s
    // A free email is accepted under the next id while ids remain.
    ensures email !in s.users && s.nextID <= MaxInt64 ==> r.result == Ok(s.nextID)
    ensures email !in s.users && s.nextID > MaxInt64 ==>
      r.result.Fail? && Is(r.result.error, ErrIdsExhausted)
  {
    if email in s.users then
      Saved(s, Fail(Wrap(SaveOp, Base(ErrUserExists))))
    else if s.nextID > MaxInt64 then
      Saved(s, Fail(Wrap(SaveOp, Base(ErrIdsExhausted))))
    else
      var user := User(s.nextID, email, passHash);
      Saved(s.(users := s.users[email := user], nextID := s.nextID + 1), Ok(s.nextID))
  }

  /** Looks a user up by email; a missing one is the not-found sentinel. */
  function GetUser(s: Store, email: string): (r: Result<User>)
    ensures r.Ok? <==> email in s.users
    ensures r.Ok? ==> r.value == s.users[email]
    ensures Valid(s) && r.Ok? ==> r.value.email == email
    ensures r.Fail? ==> Is(r.error, Auth.ErrUserNotFound)
  {
    if email in s.users then Ok(s.users[email])
    else Fail(Wrap(UserOp, Base(Auth.ErrUserNotFound)))
  }

  /** Looks an application up by id; a missing one is the not-found sentinel. */
  function GetApp(s: Store, id: Int64): (r: Result<App>)
    ensures r.Ok? <==> id in s.apps
    ensures r.Ok? ==> r.value == s.apps[id]
    ensures Valid(s) && r.Ok? ==> r.value.id == id
    ensures r.Fail? ==> Is(r.error, Auth.ErrAppNotFound)
  {
    if id in s.apps then Ok(s.apps[id])
    else Fail(Wrap(AppOp, Base(Auth.ErrAppNotFound)))
  }

  /** The service wired to this store. */
  function Wire(s: Store, ttl: Duration): Auth.Service
  {
    Auth.Service(
      (email: string, passHash: Bytes) => SaveUser(s, email, passHash).result,
      (email: string) => GetUser(s, email),
      (id: Int64) => GetApp(s, id),
      ttl)
  }

  /** The store after the service's calls: only saves change it. */
  function Replay(s: Store, calls: seq<Auth.Call>): (r: Store)
    ensures Valid(s) ==> Valid(r)
    ensures (forall i | 0 <= i < |calls| :: !calls[i].StoreUser?) ==> r == s
    ensures r.apps == s.apps
    ensures s.users.Keys <= r.users.Keys
    decreases |calls|
  {
    if calls == [] then s
    else
      var next := if calls[0].StoreUser? then SaveUser(s, calls[0].email, calls[0].passHash).store else s;
      Replay(next, calls[1..])
  }

  /** Login has no durable effect on the store. */
  lemma LoginLeavesStoreUnchanged(s: Store, c: Auth.Crypto, ttl: Duration, email: string, password: string, appID: Int64)
    ensures Replay(s, Auth.Login(Wire(s, ttl), c, email, password, appID).calls) == s
  {
  }

  /** Registering an email that is already stored fails with the duplicate
      sentinel visible through the service's wrap, returns id 0, and leaves
      the store as it was. */
  lemma DuplicateRegistrationFails(s: Store, c: Auth.Crypto, ttl: Duration, salt: Bytes, email: string, pass: string)
    requires email in s.users
    ensures var out := Auth.RegisterNewUser(Wire(s, ttl), c, salt, email, pass);
            && out.value == 0
            && out.err.Some?
            && (c.generateFromPassword(pass, Auth.DefaultCost, salt).Ok? ==> Is(out.err.value, ErrUserExists))
            && Replay(s, out.calls) == s
  {
  }

  /** A successful registration adds exactly one user, under the email given,
      with the generated hash and the returned id. */
  lemma RegisterAddsOneUser(s: Store, c: Auth.Crypto, ttl: Duration, salt: Bytes, email: string, pass: string)
    requires Valid(s)
    requires Auth.RegisterNewUser(Wire(s, ttl), c, salt, email, pass).err.None?
    ensures var out := Auth.RegisterNewUser(Wire(s, ttl), c, salt, email, pass);
            var hash := c.generateFromPassword(pass, Auth.DefaultCost, salt).value;
            var after := Replay(s, out.calls);
            && email !in s.users
            && after.users == s.users[email := User(out.value, email, hash)]
            && Valid(after)
  {
  }
}
