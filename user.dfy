/** The user record and the user store the OTP use cases read and write.
    The store is a map from id to record; it offers the lookups and writes of
    the user repository (`findById`, `findByEmail`, `login`, `create`,
    `updateOtpFields`) with the semantics of the database-backed one. */
module Users {
  import opened Common

  /** A user record. Dates are milliseconds since the epoch. `otpEnable` is the
      integer flag of the source (1 means enabled). */
  datatype User = User(
    id: string,
    username: string,
    email: string,
    password: string,
    salt: string,
    otpSecret: Option<string>,
    otpEnable: int,
    createdAt: int,
    updatedAt: int)

  /** The claims of a full session token. */
  datatype UserPayload = UserPayload(id: string, username: string, email: string, createdAt: int, updatedAt: int)

  /** The user as the API returns it: no password, salt or OTP secret. */
  datatype UserView = UserView(id: string, username: string, email: string, createdAt: int)

  function PayloadOf(u: User): UserPayload
  {
    UserPayload(u.id, u.username, u.email, u.createdAt, u.updatedAt)
  }

  function ViewOf(u: User): UserView
  {
    UserView(u.id, u.username, u.email, u.createdAt)
  }

  /** `user.otp_secret` is truthy: present and not the empty string. */
  predicate HasSecret(u: User)
  {
    Truthy(u.otpSecret)
  }

  /** Every record is stored under its own id, and no two records share an
      e-mail address (the database's unique constraint). */
  ghost predicate WellFormed(users: map<string, User>)
  {
    && (forall id :: id in users ==> users[id].id == id)
    && (forall a, b :: a in users && b in users && users[a].email == users[b].email ==> a == b)
  }

  /** `findById`. */
  function Lookup(users: map<string, User>, id: string): (r: Option<User>)
    ensures r.Some? <==> id in users
    ensures r.Some? ==> r.value == users[id]
  {
    if id in users then Some(users[id]) else None
  }

  /** The store after `updateOtpFields(id, secret, enable)`: only the two OTP
      fields of that one record change. */
  function WithOtpFields(users: map<string, User>, id: string, secret: Option<string>, enable: int): (r: map<string, User>)
    requires id in users
    ensures r.Keys == users.Keys
    ensures r[id].otpSecret == secret && r[id].otpEnable == enable
    ensures r[id] == users[id].(otpSecret := r[id].otpSecret, otpEnable := r[id].otpEnable)
    ensures forall other :: other in users && other != id ==> r[other] == users[other]
  {
    users[id := users[id].(otpSecret := secret, otpEnable := enable)]
  }

  lemma WithOtpFieldsWellFormed(users: map<string, User>, id: string, secret: Option<string>, enable: int)
    requires WellFormed(users) && id in users
    ensures WellFormed(WithOtpFields(users, id, secret, enable))
  {
    var r := WithOtpFields(users, id, secret, enable);
    forall a, b | a in r && b in r && r[a].email == r[b].email ensures a == b {
      assert r[a].email == users[a].email && r[b].email == users[b].email;
    }
  }

  /** `findByEmail`: the record with that exact e-mail address, if any. */
  function FindByEmail(users: map<string, User>, email: string): (r: Option<User>)
    requires WellFormed(users)
    ensures r.None? <==> forall id :: id in users ==> users[id].email != email
    ensures r.Some? ==> r.value.id in users && users[r.value.id] == r.value && r.value.email == email
  {
    if exists id :: id in users && users[id].email == email then
      var id :| id in users && users[id].email == email;
      Some(users[id])
    else
      None
  }

  /** `login(email, password)`: the record with that e-mail whose stored hash
      equals `hash(password, salt)`; `hash` stands for `bcrypt.hash`. */
  function Login(users: map<string, User>, email: string, password: string, hash: (string, string) -> string): (r: Option<User>)
    requires WellFormed(users)
    ensures r.Some? <==> FindByEmail(users, email).Some? && hash(password, FindByEmail(users, email).value.salt) == FindByEmail(users, email).value.password
    ensures r.Some? ==> r == FindByEmail(users, email)
  {
    match FindByEmail(users, email)
    case None => None
    case Some(u) => if hash(password, u.salt) == u.password then Some(u) else None
  }

  /** Inserting a record under a fresh id with an unregistered e-mail keeps
      the store well formed. */
  lemma InsertWellFormed(users: map<string, User>, user: User)
    requires WellFormed(users) && user.id !in users
    requires FindByEmail(users, user.email).None?
    ensures WellFormed(users[user.id := user])
  {
    var r := users[user.id := user];
    assert forall id :: id in users ==> users[id].email != user.email;
    forall a, b | a in r && b in r && r[a].email == r[b].email ensures a == b {
      if a != user.id && b != user.id {
        assert r[a] == users[a] && r[b] == users[b];
      }
    }
  }

  /** The user repository: a mutable store of records keyed by id. */
  class UserRepository {
    var users: map<string, User>

    ghost predicate Valid()
      reads this
    {
      WellFormed(users)
    }

    constructor ()
      ensures Valid() && users == map[]
    {
      users := map[];
    }

    /** `findById`. */
    function FindById(id: string): (r: Option<User>)
      reads this
      ensures r == Lookup(users, id)
    {
      Lookup(users, id)
    }

    /** `updateOtpFields(id, otpSecret, otpEnable)`. Every caller has just looked
        the id up, so the record exists (the database update would throw
        otherwise). */
    method UpdateOtpFields(id: string, otpSecret: Option<string>, otpEnable: int) returns (updated: User)
      requires Valid() && id in users
      modifies this
      ensures Valid()
      ensures users == WithOtpFields(old(users), id, otpSecret, otpEnable)
      ensures updated == users[id]
    {
      WithOtpFieldsWellFormed(users, id, otpSecret, otpEnable);
      users := users[id := users[id].(otpSecret := otpSecret, otpEnable := otpEnable)];
      updated := users[id];
    }

    /** `create(user)`: inserts a record whose id is fresh and whose e-mail is
        not yet registered (the register use case checks the e-mail; the id
        is a new UUID). */
    method Create(user: User) returns (created: User)
      requires Valid()
      requires user.id !in users
      requires FindByEmail(users, user.email).None?
      modifies this
      ensures Valid()
      ensures users == old(users)[user.id := user]
      ensures created == user
    {
      InsertWellFormed(users, user);
      users := users[user.id := user];
      created := user;
    }
  }
}
