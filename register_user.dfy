/** Account creation: three input checks, a duplicate e-mail check, then one
    insert of a user with two-factor login off. */
module RegisterUser {
  import opened Common
  import opened Text
  import opened Users
  import opened Tokens

  const UsernameRequired := "Username is required"
  const EmailRequired := "Email is required"
  const PasswordTooShort := "Password must be at least 6 characters"
  const EmailAlreadyRegistered := "Email already registered"

  const MinPasswordLength := 6

  datatype RegisterUserOutput = RegisterUserOutput(user: UserView, token: Token)

  /** The input checks, in source order: the message of the first that
      fails. */
  function CheckInput(username: string, email: string, password: string): (error: Option<string>)
    ensures error.None? <==> !IsBlank(username) && !IsBlank(email) && |password| >= MinPasswordLength
    ensures IsBlank(username) ==> error == Some(UsernameRequired)
    ensures !IsBlank(username) && IsBlank(email) ==> error == Some(EmailRequired)
    ensures !IsBlank(username) && !IsBlank(email) && |password| < MinPasswordLength ==> error == Some(PasswordTooShort)
  {
    if username == "" || Trim(username) == "" then Some(UsernameRequired)
    else if email == "" || Trim(email) == "" then Some(EmailRequired)
    else if password == "" || |password| < MinPasswordLength then Some(PasswordTooShort)
    else None
  }

  /** The record inserted: a fresh id, the input name and e-mail, the hashed
      password and its salt, no secret, two-factor login off. */
  function NewUser(id: string, username: string, email: string, password: string, salt: string,
                   hash: (string, string) -> string, now: int): (u: User)
    ensures u.id == id && u.username == username && u.email == email
    ensures u.password == hash(password, salt) && u.salt == salt
    ensures u.otpSecret.None? && u.otpEnable == 0 && !HasSecret(u)
  {
    User(id, username, email, hash(password, salt), salt, None, 0, now, now)
  }

  /** The use case on the user store: the outcome and the store after.
      `id` is the value `randomUUID()` returns, `salt` the one
      `bcrypt.genSalt()` returns, `now` the current time. */
  function Register(users: map<string, User>, username: string, email: string, password: string,
                    id: string, salt: string, hash: (string, string) -> string, now: int): (t: (Result<RegisterUserOutput>, map<string, User>))
    requires WellFormed(users) && id !in users
    ensures t.0.Err? ==> t.1 == users
    ensures CheckInput(username, email, password).Some? ==> t.0 == Err(CheckInput(username, email, password).value)
    ensures CheckInput(username, email, password).None? && FindByEmail(users, email).Some? ==> t.0 == Err(EmailAlreadyRegistered)
    ensures t.0.Ok? <==> CheckInput(username, email, password).None? && FindByEmail(users, email).None?
    ensures t.0.Ok? ==>
      && t.1 == users[id := NewUser(id, username, email, password, salt, hash, now)]
      && WellFormed(t.1)
      && t.0.value.user == UserView(id, username, email, now)
      && t.0.value.token == Jwt(SessionClaims(PayloadOf(t.1[id])), "1d")
  {
    var check := CheckInput(username, email, password);
    if check.Some? then (Err(check.value), users)
    else if FindByEmail(users, email).Some? then (Err(EmailAlreadyRegistered), users)
    else
      var created := NewUser(id, username, email, password, salt, hash, now);
      var users' := users[id := created];
      InsertWellFormed(users, created);
      (Ok(RegisterUserOutput(ViewOf(created), GenerateSignature(PayloadOf(created)))), users')
  }

  /** `execute` against the user repository: `create` runs once, and only
      after every check passed. */
  method Execute(userRepository: UserRepository, username: string, email: string, password: string,
                 id: string, salt: string, hash: (string, string) -> string, now: int)
    returns (r: Result<RegisterUserOutput>)
    requires userRepository.Valid() && id !in userRepository.users
    modifies userRepository
    ensures userRepository.Valid()
    ensures var t := Register(old(userRepository.users), username, email, password, id, salt, hash, now);
      r == t.0 && userRepository.users == t.1
  {
    var check := CheckInput(username, email, password);
    if check.Some? {
      return Err(check.value);
    }
    var existingUser := FindByEmail(userRepository.users, email);
    if existingUser.Some? {
      return Err(EmailAlreadyRegistered);
    }
    var hashedPassword := hash(password, salt);
    var user := User(id, username, email, hashedPassword, salt, None, 0, now, now);
    var createdUser := userRepository.Create(user);
    var token := GenerateSignature(PayloadOf(createdUser));
    r := Ok(RegisterUserOutput(ViewOf(createdUser), token));
  }

  /** Registering the same e-mail a second time fails, whatever the other
      inputs. */
  lemma SecondRegistrationRefused(
    users: map<string, User>, username: string, email: string, password: string, id: string, id2: string,
    username2: string, password2: string, salt: string, hash: (string, string) -> string, now: int)
    requires WellFormed(users) && id !in users
    requires Register(users, username, email, password, id, salt, hash, now).0.Ok?
    requires id2 !in Register(users, username, email, password, id, salt, hash, now).1
    requires CheckInput(username2, email, password2).None?
    ensures var after := Register(users, username, email, password, id, salt, hash, now).1;
      Register(after, username2, email, password2, id2, salt, hash, now).0 == Err(EmailAlreadyRegistered)
  {
    var after := Register(users, username, email, password, id, salt, hash, now).1;
    assert after[id].email == email;
  }
}
