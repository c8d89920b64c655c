/**
 * The mock authentication service: a user table kept in the `lovable.dev.users` storage slot and the
 * signed-in user in `lovable.dev.user`. Stored records carry a password; the records handed out never do.
 * The simulated network delay is not modelled; the id of a new user is a parameter.
 */
module AuthService {
  import opened Wrappers

  datatype Role = Admin | Member

  /** The user record the service hands out. */
  datatype User = User(id: string, name: string, email: string, role: Role)

  /** The record as stored, with its password. */
  datatype StoredUser = StoredUser(id: string, name: string, email: string, password: string, role: Role)

  /** `const { password: _, ...userWithoutPassword } = user`. */
  function WithoutPassword(u: StoredUser): (r: User)
    ensures r.id == u.id && r.name == u.name && r.email == u.email && r.role == u.role
  {
    User(u.id, u.name, u.email, u.role)
  }

  /** The two users `initAuthService` seeds. */
  const InitialUsers: seq<StoredUser> := [
    StoredUser("admin-1", "Admin User", "admin@certigen.com", "admin123", Admin),
    StoredUser("user-1", "Regular User", "user@example.com", "password123", Member)
  ]

  /** `initAuthService`: the seeded table when nothing is stored, the stored table otherwise. */
  function Seed(slot: Option<seq<StoredUser>>): (r: Option<seq<StoredUser>>)
    ensures slot.None? ==> r == Some(InitialUsers)
    ensures slot.Some? ==> r == slot
  {
    if slot.None? then Some(InitialUsers) else slot
  }

  /** Seeding twice is seeding once. */
  lemma SeedIdempotent(slot: Option<seq<StoredUser>>)
    ensures Seed(Seed(slot)) == Seed(slot)
  {
  }

  /** Some stored user has this email. */
  predicate EmailTaken(users: seq<StoredUser>, email: string) {
    exists i :: 0 <= i < |users| && users[i].email == email
  }

  /** No two stored users share an email. */
  predicate EmailsUnique(users: seq<StoredUser>) {
    forall i, j :: 0 <= i < |users| && 0 <= j < |users| && users[i].email == users[j].email ==> i == j
  }

  lemma InitialEmailsUnique()
    ensures EmailsUnique(InitialUsers)
  {
  }

  /**
   * `registerUser` on the table read from storage: an email already present is an error and the table
   * is left alone; otherwise one "user" with the given fields is appended.
   */
  function RegisterInto(users: seq<StoredUser>, id: string, name: string, email: string, password: string)
    : (r: Result<seq<StoredUser>, string>)
    ensures EmailTaken(users, email) <==> r.Err?
    ensures r.Err? ==> r.error == "User already exists"
    ensures r.Ok? ==> r.value == users + [StoredUser(id, name, email, password, Member)]
  {
    if EmailTaken(users, email) then Err("User already exists")
    else Ok(users + [StoredUser(id, name, email, password, Member)])
  }

  /** Registration keeps emails unique. */
  lemma RegisterKeepsEmailsUnique(users: seq<StoredUser>, id: string, name: string, email: string, password: string)
    requires EmailsUnique(users)
    ensures var r := RegisterInto(users, id, name, email, password);
      r.Ok? ==> EmailsUnique(r.value)
  {
    var r := RegisterInto(users, id, name, email, password);
    if r.Ok? {
      var t := r.value;
      assert forall i :: 0 <= i < |users| ==> t[i] == users[i] && users[i].email != email;
    }
  }

  /** `i` is the first user with these credentials. */
  predicate FirstMatch(users: seq<StoredUser>, email: string, password: string, i: int) {
    && 0 <= i < |users| && users[i].email == email && users[i].password == password
    && forall j :: 0 <= j < i ==> !(users[j].email == email && users[j].password == password)
  }

  /** There is only one first match. */
  lemma FirstMatchUnique(users: seq<StoredUser>, email: string, password: string, i: int, k: int)
    requires FirstMatch(users, email, password, i) && FirstMatch(users, email, password, k)
    ensures i == k
  {
  }

  /** `users.find(u => u.email === email && u.password === password)`. */
  function FindCredentials(users: seq<StoredUser>, email: string, password: string): (r: Option<StoredUser>)
    ensures r.Some? <==> exists i :: 0 <= i < |users| && users[i].email == email && users[i].password == password
    ensures r.Some? ==> exists i :: FirstMatch(users, email, password, i) && users[i] == r.value
    decreases |users|
  {
    if |users| == 0 then None
    else if users[0].email == email && users[0].password == password then
      assert FirstMatch(users, email, password, 0);
      Some(users[0])
    else
      var r := FindCredentials(users[1..], email, password);
      assert forall i :: 1 <= i < |users| ==> users[i] == users[1..][i - 1];
      if r.Some? then
        var k :| FirstMatch(users[1..], email, password, k) && users[1..][k] == r.value;
        assert FirstMatch(users, email, password, k + 1) by {
          forall j | 0 <= j < k + 1 ensures !(users[j].email == email && users[j].password == password) {
            if j > 0 { assert users[j] == users[1..][j - 1]; }
          }
        }
        r
      else
        r
  }

  /** `loginUser` on the table read from storage: the first match, without its password, or an error. */
  function LoginWith(users: seq<StoredUser>, email: string, password: string): (r: Result<User, string>)
    ensures r.Ok? <==> exists i :: 0 <= i < |users| && users[i].email == email && users[i].password == password
    ensures r.Err? ==> r.error == "Invalid credentials"
    ensures r.Ok? ==> exists i :: FirstMatch(users, email, password, i) && r.value == WithoutPassword(users[i])
  {
    match FindCredentials(users, email, password)
    case Some(u) => Ok(WithoutPassword(u))
    case None => Err("Invalid credentials")
  }

  /** A user registered with a fresh email can log in with the same credentials and gets the new record. */
  lemma RegisterThenLogin(users: seq<StoredUser>, id: string, name: string, email: string, password: string)
    requires !EmailTaken(users, email)
    ensures var r := RegisterInto(users, id, name, email, password);
      r.Ok? && LoginWith(r.value, email, password) == Ok(User(id, name, email, Member))
  {
    var t := users + [StoredUser(id, name, email, password, Member)];
    assert forall j :: 0 <= j < |users| ==> t[j] == users[j] && users[j].email != email;
    assert FirstMatch(t, email, password, |users|);
    var i :| FirstMatch(t, email, password, i) && LoginWith(t, email, password) == Ok(WithoutPassword(t[i]));
    FirstMatchUnique(t, email, password, i, |users|);
  }

  /** Registering never changes who can log in with credentials that already worked. */
  lemma RegisterKeepsLogins(users: seq<StoredUser>, id: string, name: string, email: string, password: string,
                            e: string, p: string)
    requires LoginWith(users, e, p).Ok?
    ensures var r := RegisterInto(users, id, name, email, password);
      r.Ok? ==> LoginWith(r.value, e, p) == LoginWith(users, e, p)
  {
    var r := RegisterInto(users, id, name, email, password);
    if r.Ok? {
      var t := r.value;
      var i :| FirstMatch(users, e, p, i) && LoginWith(users, e, p) == Ok(WithoutPassword(users[i]));
      assert forall j :: 0 <= j < |users| ==> t[j] == users[j];
      assert FirstMatch(t, e, p, i);
      var k :| FirstMatch(t, e, p, k) && LoginWith(t, e, p) == Ok(WithoutPassword(t[k]));
      FirstMatchUnique(t, e, p, i, k);
    }
  }

  /** The seeded administrator can log in and is an administrator; the seeded member is not. */
  lemma SeededLogins()
    ensures LoginWith(InitialUsers, "admin@certigen.com", "admin123") == Ok(User("admin-1", "Admin User", "admin@certigen.com", Admin))
    ensures IsAdmin(Some(LoginWith(InitialUsers, "admin@certigen.com", "admin123").value))
    ensures LoginWith(InitialUsers, "user@example.com", "password123") == Ok(User("user-1", "Regular User", "user@example.com", Member))
    ensures !IsAdmin(Some(LoginWith(InitialUsers, "user@example.com", "password123").value))
    ensures LoginWith(InitialUsers, "admin@certigen.com", "password123").Err?
  {
    assert InitialUsers[0].email == "admin@certigen.com" && InitialUsers[0].password == "admin123";
    assert FirstMatch(InitialUsers, "admin@certigen.com", "admin123", 0);
    assert InitialUsers[1].email == "user@example.com" && InitialUsers[1].password == "password123";
    assert InitialUsers[0].email != "user@example.com";
    assert FirstMatch(InitialUsers, "user@example.com", "password123", 1);
    assert InitialUsers[0].password != "password123" && InitialUsers[1].email != "admin@certigen.com";
  }

  /** `isAdmin(user)`: `user?.role === "admin"`. */
  function IsAdmin(user: Option<User>): (b: bool)
    ensures b <==> user.Some? && user.value.role == Admin
    ensures user.None? ==> !b
  {
    match user
    case None => false
    case Some(u) => u.role == Admin
  }

  /** The two storage slots the service uses. */
  class AuthStore {
    /** `lovable.dev.users`. */
    var usersSlot: Option<seq<StoredUser>>
    /** `lovable.dev.user`. */
    var userSlot: Option<User>

    constructor(users: Option<seq<StoredUser>>, current: Option<User>)
      ensures usersSlot == users && userSlot == current
    {
      usersSlot := users;
      userSlot := current;
    }

    /** The table a read sees: a missing slot reads as the empty table. */
    function Users(): seq<StoredUser>
      reads this
    {
      usersSlot.GetOr([])
    }

    /** `initAuthService`. */
    method Init()
      modifies this`usersSlot
      ensures usersSlot == Seed(old(usersSlot))
    {
      if usersSlot.None? {
        usersSlot := Some(InitialUsers);
      }
    }

    /** `registerUser`: the error leaves storage alone; success stores the longer table and returns the record without its password. */
    method Register(newId: string, name: string, email: string, password: string) returns (r: Result<User, string>)
      modifies this`usersSlot
      ensures var t := RegisterInto(old(Users()), newId, name, email, password);
        && (t.Err? ==> r == Err(t.error) && usersSlot == old(usersSlot))
        && (t.Ok? ==> r == Ok(User(newId, name, email, Member)) && usersSlot == Some(t.value))
    {
      var users := Users();
      if EmailTaken(users, email) {
        return Err("User already exists");
      }
      var newUser := StoredUser(newId, name, email, password, Member);
      users := users + [newUser];
      usersSlot := Some(users);
      r := Ok(WithoutPassword(newUser));
    }

    /** `loginUser`: success records the user, without password, as the current user. */
    method Login(email: string, password: string) returns (r: Result<User, string>)
      modifies this`userSlot
      ensures r == LoginWith(Users(), email, password)
      ensures r.Ok? ==> userSlot == Some(r.value)
      ensures r.Err? ==> userSlot == old(userSlot)
    {
      var found := FindCredentials(Users(), email, password);
      if found.None? {
        return Err("Invalid credentials");
      }
      var user := WithoutPassword(found.value);
      userSlot := Some(user);
      r := Ok(user);
    }

    /** `getCurrentUser`. */
    function CurrentUser(): Option<User>
      reads this
    {
      userSlot
    }

    /** `logout`: there is no current user afterwards. */
    method Logout()
      modifies this`userSlot
      ensures CurrentUser() == None
    {
      userSlot := None;
    }
  }

  /** Signing in as the seeded administrator on a fresh store: the current user is an administrator, and not after logging out. */
  method AdminSession() returns (s: AuthStore)
    ensures fresh(s)
    ensures s.usersSlot == Some(InitialUsers) && s.CurrentUser() == None
  {
    s := new AuthStore(None, None);
    s.Init();
    var r := s.Login("admin@certigen.com", "admin123");
    SeededLogins();
    assert IsAdmin(s.CurrentUser());
    s.Logout();
    assert !IsAdmin(s.CurrentUser());
  }
}
