/**
 * User accounts (service/UserService.java): lookups by name and e-mail,
 * registration with its duplicate checks, and the last-login stamp.
 */
module UserService {
  import opened Wrappers
  import opened Time
  import opened ServiceErrors

  /** A stored account; `password` holds the encoder's output, never the plain text. */
  datatype User = User(id: int, username: string, email: string, password: string, lastLogin: Option<Timestamp>)

  /** The registration request body. */
  datatype UserDto = UserDto(username: string, email: string, password: string)

  /** The `users` table, keyed by id. */
  type Users = map<int, User>

  predicate UsernameTaken(users: Users, name: string) {
    exists id :: id in users && users[id].username == name
  }

  predicate EmailTaken(users: Users, email: string) {
    exists id :: id in users && users[id].email == email
  }

  predicate UsernamesUnique(users: Users) {
    forall a, b :: a in users && b in users && users[a].username == users[b].username ==> a == b
  }

  predicate EmailsUnique(users: Users) {
    forall a, b :: a in users && b in users && users[a].email == users[b].email ==> a == b
  }

  /** Two different accounts have the username `name`. */
  predicate UsernameShared(users: Users, name: string) {
    exists a, b :: a in users && b in users && a != b && users[a].username == name && users[b].username == name
  }

  /** Two different accounts have the e-mail `email`. */
  predicate EmailShared(users: Users, email: string) {
    exists a, b :: a in users && b in users && a != b && users[a].email == email && users[b].email == email
  }

  /**
   * The duplicate checks of `registerUser` as written: the second check asks
   * whether the e-mail is in use as a USERNAME.
   */
  function RegistrationErrorAsWritten(users: Users, dto: UserDto): (e: Option<ServiceError>)
    ensures UsernameTaken(users, dto.username) ==> e == Some(DuplicateResource("Username is already taken"))
    ensures e.None? <==> !UsernameTaken(users, dto.username) && !UsernameTaken(users, dto.email)
  {
    if UsernameTaken(users, dto.username) then Some(DuplicateResource("Username is already taken"))
    else if UsernameTaken(users, dto.email) then Some(DuplicateResource("Email is already registered"))
    else None
  }

  /** The evidently intended checks: the username, then the e-mail against stored e-mails. */
  function RegistrationError(users: Users, dto: UserDto): (e: Option<ServiceError>)
    ensures UsernameTaken(users, dto.username) ==> e == Some(DuplicateResource("Username is already taken"))
    ensures !UsernameTaken(users, dto.username) && EmailTaken(users, dto.email) ==>
              e == Some(DuplicateResource("Email is already registered"))
    ensures e.None? <==> !UsernameTaken(users, dto.username) && !EmailTaken(users, dto.email)
  {
    if UsernameTaken(users, dto.username) then Some(DuplicateResource("Username is already taken"))
    else if EmailTaken(users, dto.email) then Some(DuplicateResource("Email is already registered"))
    else None
  }

  /** As written, a second account with an e-mail already on file is accepted. */
  lemma AsWrittenAdmitsDuplicateEmail()
    ensures var users := map[1 := User(1, "alice", "a@x.io", "h", None)];
            var dto := UserDto("bob", "a@x.io", "pw");
            RegistrationErrorAsWritten(users, dto) == None && EmailTaken(users, dto.email)
            && !EmailsUnique(users[2 := User(2, dto.username, dto.email, "h2", None)])
  {
    var users := map[1 := User(1, "alice", "a@x.io", "h", None)];
    var dto := UserDto("bob", "a@x.io", "pw");
    assert users[1].username == "alice";
    assert !UsernameTaken(users, "bob");
    assert !UsernameTaken(users, "a@x.io");
    assert EmailTaken(users, dto.email) by { assert users[1].email == dto.email; }
    var after := users[2 := User(2, dto.username, dto.email, "h2", None)];
    assert after[1].email == after[2].email;
  }

  /** As written, an unused e-mail is refused when some account's username is that text. */
  lemma AsWrittenRefusesFreshEmail()
    ensures var users := map[1 := User(1, "a@x.io", "alice@y.io", "h", None)];
            var dto := UserDto("carol", "a@x.io", "pw");
            !EmailTaken(users, dto.email)
            && RegistrationErrorAsWritten(users, dto) == Some(DuplicateResource("Email is already registered"))
  {
    var users := map[1 := User(1, "a@x.io", "alice@y.io", "h", None)];
    assert users[1].username == "a@x.io";
    assert !UsernameTaken(users, "carol");
    assert UsernameTaken(users, "a@x.io");
  }

  /** The intended checks keep both usernames and e-mails unique when the new account is stored. */
  lemma RegistrationKeepsKeysUnique(users: Users, dto: UserDto, id: int, password: string)
    requires UsernamesUnique(users) && EmailsUnique(users)
    requires RegistrationError(users, dto) == None && id !in users
    ensures var after := users[id := User(id, dto.username, dto.email, password, None)];
            UsernamesUnique(after) && EmailsUnique(after)
  {
  }

  /** `UserService` over the users table; `nextId` is the identity column's next value. */
  class UserService {
    var users: Users
    var nextId: int

    ghost predicate Valid()
      reads this
    {
      && (forall id :: id in users ==> users[id].id == id && id < nextId)
      && UsernamesUnique(users) && EmailsUnique(users)
    }

    constructor ()
      ensures Valid() && users == map[] && nextId == 1
    {
      users := map[];
      nextId := 1;
    }

    /** `existByUsername`. */
    predicate ExistByUsername(name: string)
      reads this
    {
      UsernameTaken(users, name)
    }

    /** `existByEmail`. */
    predicate ExistByEmail(email: string)
      reads this
    {
      EmailTaken(users, email)
    }

    /**
     * `findByUsername`, a Spring Data single-result query: the one matching
     * account, not-found when there is none, and an error when several match.
     */
    function FindByUsername(name: string): (r: Result<User, ServiceError>)
      reads this
      ensures r.Ok? ==> r.value.username == name && exists id :: id in users && users[id] == r.value
      ensures r.Ok? <==> UsernameTaken(users, name) && !UsernameShared(users, name)
      ensures !UsernameTaken(users, name) ==> r == Err(ResourceNotFound("User not found with username: +" + name))
      ensures UsernameShared(users, name) ==> r == Err(IncorrectResultSize)
    {
      if !UsernameTaken(users, name) then Err(ResourceNotFound("User not found with username: +" + name))
      else if UsernameShared(users, name) then Err(IncorrectResultSize)
      else
        var id :| id in users && users[id].username == name;
        Ok(users[id])
    }

    /** `findByEmail`, the same single-result query on the e-mail column. */
    function FindByEmail(email: string): (r: Result<User, ServiceError>)
      reads this
      ensures r.Ok? ==> r.value.email == email && exists id :: id in users && users[id] == r.value
      ensures r.Ok? <==> EmailTaken(users, email) && !EmailShared(users, email)
      ensures !EmailTaken(users, email) ==> r == Err(ResourceNotFound("User not found with email: " + email))
      ensures EmailShared(users, email) ==> r == Err(IncorrectResultSize)
    {
      if !EmailTaken(users, email) then Err(ResourceNotFound("User not found with email: " + email))
      else if EmailShared(users, email) then Err(IncorrectResultSize)
      else
        var id :| id in users && users[id].email == email;
        Ok(users[id])
    }

    /** In a valid table a username in use always finds its account. */
    lemma FindByUsernameFound(name: string)
      requires Valid()
      ensures FindByUsername(name).Ok? <==> ExistByUsername(name)
    {
    }

    /** In a valid table an e-mail in use always finds its account. */
    lemma FindByEmailFound(email: string)
      requires Valid()
      ensures FindByEmail(email).Ok? <==> ExistByEmail(email)
    {
    }

    /**
     * `registerUser`, with the e-mail check as intended: a duplicate is refused
     * and nothing is stored; otherwise the account is stored under a fresh id
     * with the encoded password and no last login.
     */
    method RegisterUser(dto: UserDto, encode: string -> string) returns (r: Result<User, ServiceError>)
      requires Valid()
      modifies this
      ensures Valid()
      ensures RegistrationError(old(users), dto).Some? ==>
                r == Err(RegistrationError(old(users), dto).value) && users == old(users) && nextId == old(nextId)
      ensures RegistrationError(old(users), dto).None? ==>
                && r == Ok(User(old(nextId), dto.username, dto.email, encode(dto.password), None))
                && old(nextId) !in old(users)
                && users == old(users)[old(nextId) := r.value] && nextId == old(nextId) + 1
    {
      if ExistByUsername(dto.username) {
        return Err(DuplicateResource("Username is already taken"));
      }
      if ExistByEmail(dto.email) {
        return Err(DuplicateResource("Email is already registered"));
      }
      var user := User(nextId, dto.username, dto.email, encode(dto.password), None);
      RegistrationKeepsKeysUnique(users, dto, nextId, user.password);
      users := users[nextId := user];
      nextId := nextId + 1;
      return Ok(user);
    }

    /** `updateLastLogin`: stamps the named account's last login and changes nothing else. */
    method UpdateLastLogin(username: string, now: Timestamp) returns (r: Result<(), ServiceError>)
      requires Valid()
      modifies this
      ensures Valid() && nextId == old(nextId)
      ensures old(FindByUsername(username)).Err? ==>
                r == Err(old(FindByUsername(username)).error) && users == old(users)
      ensures old(FindByUsername(username)).Ok? ==>
                var u := old(FindByUsername(username)).value;
                r.Ok? && u.id in old(users) && users == old(users)[u.id := u.(lastLogin := Some(now))]
      ensures r.Ok? <==> old(UsernameTaken(users, username))
    {
      FindByUsernameFound(username);
      var found := FindByUsername(username);
      if found.Err? {
        return Err(found.error);
      }
      var u := found.value;
      users := users[u.id := u.(lastLogin := Some(now))];
      return Ok(());
    }
  }
}
