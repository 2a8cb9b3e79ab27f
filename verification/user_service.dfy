/** `UserService`: listing users and registering a new one. Registration checks that the
    e-mail is free, replaces the password by its hash and saves the user; the password
    encoder is a one-way function the caller supplies. */
module UserService {
  import opened Wrappers
  import opened UserModel
  import opened Repository

  /** Why a registration threw: the duplicate-e-mail check, or an exception raised inside
      the encoder (a null password) or the store (a null column). */
  datatype RegisterError = EmailInUse | Rejected

  /** The outcome of one registration and the user table after it. */
  datatype Registration = Registration(outcome: Result<User, RegisterError>, users: map<int, User>, nextUserId: int)

  /** The user object `registerUser` hands to `save`: the caller's body with its password
      replaced by the hash. A null password makes the encoder throw; it is kept null here,
      and the registration is refused like any other user that fails its constraints. */
  function Hashed(encode: string -> string, user: User): User
  {
    user.(password := if user.password.Some? then Some(encode(user.password.value)) else None)
  }

  /** `registerUser` on a user table, with the id the client sent cleared, so that the store
      always assigns a new one (see `RegisteredRowsAsWritten` for the code as written). On
      success the outcome holds the caller's user object as the call leaves it: password
      replaced by its hash, id assigned by the store. */
  function Register(users: map<int, User>, nextUserId: int, encode: string -> string, user: User): (g: Registration)
    requires UsersWellFormed(users, nextUserId)
    ensures UsersWellFormed(g.users, g.nextUserId)
    ensures g.outcome == Failure(EmailInUse) <==> EmailTaken(users, user.email)
    ensures g.outcome.Success? <==> !EmailTaken(users, user.email) && UserValid(Hashed(encode, user))
    ensures g.outcome.Failure? ==> g.users == users && g.nextUserId == nextUserId
    ensures g.outcome.Success? ==>
      var saved := g.outcome.value;
      && saved.id == nextUserId && saved.id !in users
      && g.users == users[saved.id := saved]
      && |g.users| == |users| + 1
      && user.password.Some? && saved.password == Some(encode(user.password.value))
      && saved.email == user.email && saved.firstName == user.firstName && saved.lastName == user.lastName
  {
    if EmailTaken(users, user.email) then
      Registration(Failure(EmailInUse), users, nextUserId)
    else
      var hashed := Hashed(encode, user).(id := 0);
      if !UserValid(hashed) then
        Registration(Failure(Rejected), users, nextUserId)
      else
        var saved := hashed.(id := nextUserId);
        ValidUserIsPersistable(saved);
        WriteKeepsEmailsUnique(users, nextUserId, saved);
        Registration(Success(saved), users[nextUserId := saved], nextUserId + 1)
  }

  /** The user table after a series of registrations, whatever each one's outcome. It stays
      well-formed (in particular, e-mails stay unique), every existing account is left as
      it was, and the table never shrinks. */
  function RegisterAll(users: map<int, User>, nextUserId: int, encode: string -> string, requests: seq<User>)
    : (final: (map<int, User>, int))
    requires UsersWellFormed(users, nextUserId)
    ensures UsersWellFormed(final.0, final.1)
    ensures forall k | k in users :: k in final.0 && final.0[k] == users[k]
    ensures |final.0| >= |users|
    decreases |requests|
  {
    if requests == [] then
      (users, nextUserId)
    else
      var g := Register(users, nextUserId, encode, requests[0]);
      RegisterAll(g.users, g.nextUserId, encode, requests[1..])
  }

  /** `getAllUsers`: every row of the user table; the store is not modified. */
  method GetAllUsers(db: Store) returns (rows: map<int, User>)
    ensures rows == db.users
  {
    rows := db.users;
  }

  /** `registerUser` on the store, proved against `Register`: the e-mail check, the hash,
      and `save` of the body with its id cleared. */
  method RegisterUser(db: Store, encode: string -> string, user: User) returns (outcome: Result<User, RegisterError>)
    requires db.Valid()
    modifies db
    ensures db.Valid()
    ensures db.products == old(db.products) && db.nextProductId == old(db.nextProductId)
    ensures Register(old(db.users), old(db.nextUserId), encode, user) == Registration(outcome, db.users, db.nextUserId)
  {
    if db.FindByEmailIsPresent(user.email) {
      return Failure(EmailInUse);
    }
    var saved := db.SaveUser(Hashed(encode, user).(id := 0));
    if saved.None? {
      return Failure(Rejected);
    }
    outcome := Success(saved.value);
  }

  /** The user table after `registerUser` as written: the body keeps the id the client
      sent, and `save` merges a non-zero id naming a stored account onto that account. */
  function RegisteredRowsAsWritten(users: map<int, User>, nextUserId: int, encode: string -> string, user: User)
    : (rows: map<int, User>)
    requires UsersWellFormed(users, nextUserId)
    ensures !EmailTaken(users, user.email) && UserValid(Hashed(encode, user)) && user.id != 0 && user.id in users ==>
      rows == users[user.id := Hashed(encode, user)]
  {
    var hashed := Hashed(encode, user);
    var k := UserSaveKey(users, nextUserId, hashed.id);
    if EmailTaken(users, user.email) || !UserValid(hashed) || EmailTakenByOther(users, k, hashed.email) then
      users
    else
      users[k := hashed.(id := k)]
  }

  /** As written, registering with a body that carries a stored account's id and an unused
      e-mail overwrites that account's e-mail and password with the caller's, and no new
      account is created. */
  lemma ClientIdTakesOverAccount(users: map<int, User>, nextUserId: int, encode: string -> string, user: User)
    requires UsersWellFormed(users, nextUserId)
    requires user.id in users && !EmailTaken(users, user.email) && UserValid(Hashed(encode, user))
    ensures var rows := RegisteredRowsAsWritten(users, nextUserId, encode, user);
      && user.id in rows && rows[user.id] != users[user.id]
      && rows[user.id].email == user.email
      && user.password.Some? && rows[user.id].password == Some(encode(user.password.value))
      && rows.Keys == users.Keys
  {
    assert users[user.id].email != user.email;
  }

  /** The concrete instance: account 5 belongs to ann@x.com; a registration body carrying
      id 5 and the e-mail eve@x.com leaves account 5 with Eve's e-mail and password. */
  lemma AccountFiveIsOverwritten(encode: string -> string)
    requires encode("evesecret") == "{hash}evesecret"
    ensures
      var ann := User(5, Some("Ann"), Some("Lee"), Some("ann@x.com"), Some("{hash}annsecret"));
      var eve := User(5, Some("Eve"), Some("Ray"), Some("eve@x.com"), Some("evesecret"));
      var rows := RegisteredRowsAsWritten(map[5 := ann], 6, encode, eve);
      5 in rows && rows[5].email == Some("eve@x.com") && rows[5].password == Some("{hash}evesecret")
  {
    var ann := User(5, Some("Ann"), Some("Lee"), Some("ann@x.com"), Some("{hash}annsecret"));
    var eve := User(5, Some("Eve"), Some("Ray"), Some("eve@x.com"), Some("evesecret"));
    var h := Hashed(encode, eve);
    assert h.firstName.value[0] > ' ' && h.lastName.value[0] > ' ';
    assert h.email.value[0] > ' ' && h.password.value[0] > ' ';
    assert h.email.value[3] == '@' && '@' !in h.email.value[4..];
    assert UserValid(h);
    assert ann.email.value[0] != eve.email.value[0];
    assert !EmailTaken(map[5 := ann], eve.email);
  }
}
