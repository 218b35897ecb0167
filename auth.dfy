/** The mock authentication context (src/contexts/AuthContext.tsx): a
    registry of users that is only appended to, a single shared password, and
    the signed-in user persisted under one storage key. */
module Auth {
  import opened Wrappers
  import opened Seqs
  import opened Text
  import opened Storage

  datatype Role = Admin | Client
  datatype User = User(id: string, email: string, firstName: string, lastName: string, role: Role)

  /** How an asynchronous call settled: resolved with a boolean, or
      rejected because the storage write threw. */
  datatype Settled = Resolved(ok: bool) | Rejected

  const StorageKey := "auth_user"
  const Password := "password123"

  const InitialUsers: seq<User> := [
    User("1", "admin@example.com", "Admin", "User", Admin),
    User("2", "client@example.com", "Client", "User", Client)
  ]

  /** The registry's invariant: the user at position `i` has id `i + 1` in
      decimal, and no two users share an email. */
  ghost predicate RegistryValid(users: seq<User>) {
    && (forall i :: 0 <= i < |users| ==> users[i].id == NatToString(i + 1))
    && (forall i, j :: 0 <= i < j < |users| ==> users[i].email != users[j].email)
  }

  lemma InitialRegistryValid()
    ensures RegistryValid(InitialUsers)
  {
    assert NatToString(1) == "1" && NatToString(2) == "2";
  }

  /** Ids in a valid registry are pairwise distinct. */
  lemma RegistryIdsDistinct(users: seq<User>, i: nat, j: nat)
    requires RegistryValid(users) && i < |users| && j < |users| && users[i].id == users[j].id
    ensures i == j
  {
    NatToStringInjective(i + 1, j + 1);
  }

  /** `mockUsers.find(u => u.email === email)`. */
  function FindByEmail(users: seq<User>, email: string): (r: Option<User>)
    ensures r.None? <==> forall i :: 0 <= i < |users| ==> users[i].email != email
    ensures r.Some? ==> r.value in users && r.value.email == email
  {
    Find((u: User) => u.email == email, users)
  }

  /** The credential check of `login`: some user has the email and the
      password is the shared one. What the user registered with plays no part. */
  function CheckCredentials(users: seq<User>, email: string, password: string): (r: Option<User>)
    ensures r.Some? <==> (exists u :: u in users && u.email == email) && password == Password
    ensures r.Some? ==> r.value in users && r.value.email == email
  {
    var found := FindByEmail(users, email);
    if found.Some? && password == Password then found else None
  }

  /** In a valid registry a user signs in as exactly the record with that
      email. */
  lemma CheckCredentialsUnique(users: seq<User>, email: string, u: User)
    requires RegistryValid(users) && u in users && u.email == email
    ensures CheckCredentials(users, email, Password) == Some(u)
  {
    var r := CheckCredentials(users, email, Password).value;
    var i :| 0 <= i < |users| && users[i] == r;
    var j :| 0 <= j < |users| && users[j] == u;
    assert i == j;
  }

  /** The record `register` appends. */
  function NewUser(users: seq<User>, firstName: string, lastName: string, email: string): (u: User)
    ensures u.id == NatToString(|users| + 1) && u.role == Client
    ensures u.email == email && u.firstName == firstName && u.lastName == lastName
  {
    User(NatToString(|users| + 1), email, firstName, lastName, Client)
  }

  /** Appending a user with a fresh email keeps the registry valid. */
  lemma RegisterKeepsRegistryValid(users: seq<User>, firstName: string, lastName: string, email: string)
    requires RegistryValid(users) && FindByEmail(users, email).None?
    ensures RegistryValid(users + [NewUser(users, firstName, lastName, email)])
  {
  }

  /** The password given at registration is not kept: the new user signs in
      with the shared password and with no other. */
  lemma RegisteredUserSignsInWithSharedPassword(users: seq<User>, firstName: string, lastName: string,
                                                email: string, password: string)
    requires RegistryValid(users) && FindByEmail(users, email).None?
    ensures var u := NewUser(users, firstName, lastName, email);
            CheckCredentials(users + [u], email, password) == if password == Password then Some(u) else None
  {
    var u := NewUser(users, firstName, lastName, email);
    RegisterKeepsRegistryValid(users, firstName, lastName, email);
    if password == Password {
      CheckCredentialsUnique(users + [u], email, u);
    }
  }

  class AuthProvider {
    /** The module-level `mockUsers` array, shared by every provider. */
    var mockUsers: seq<User>
    var user: Option<User>
    var storage: map<string, Stored<User>>

    ghost predicate Valid()
      reads this
    {
      RegistryValid(mockUsers)
    }

    /** Mounting: the saved user is restored when it parses; non-empty saved
        text that does not parse is removed, and the empty text is skipped
        by the truthiness guard and left in place. */
    constructor (registry: seq<User>, storage: map<string, Stored<User>>)
      requires RegistryValid(registry)
      ensures Valid() && mockUsers == registry
      ensures match Load(storage, StorageKey)
              case Parsed(u) => user == Some(u) && this.storage == storage
              case Corrupt => user == None && this.storage == storage - {StorageKey}
              case Absent => user == None && this.storage == storage
    {
      mockUsers := registry;
      var saved := Load(storage, StorageKey);
      match saved
      case Parsed(u) =>
        user := Some(u);
        this.storage := storage;
      case Corrupt =>
        user := None;
        this.storage := storage - {StorageKey};
      case Absent =>
        user := None;
        this.storage := storage;
    }

    /** `login`: on good credentials the user is set and then saved; a save
        that throws rejects the call with the user already set. Bad
        credentials change nothing. */
    method Login(email: string, password: string, writeOk: bool) returns (r: Settled)
      requires Valid()
      modifies this
      ensures Valid() && mockUsers == old(mockUsers)
      ensures CheckCredentials(mockUsers, email, password).None? ==>
                r == Resolved(false) && user == old(user) && storage == old(storage)
      ensures CheckCredentials(mockUsers, email, password).Some? ==>
                user == CheckCredentials(mockUsers, email, password)
                && r == (if writeOk then Resolved(true) else Rejected)
                && storage == (if writeOk then old(storage)[StorageKey := Json(user.value)] else old(storage))
    {
      var foundUser := FindByEmail(mockUsers, email);
      if foundUser.Some? && password == Password {
        user := foundUser;
        if !writeOk {
          return Rejected;
        }
        storage := storage[StorageKey := Json(foundUser.value)];
        return Resolved(true);
      }
      r := Resolved(false);
    }

    /** `register`: a known email is refused and nothing changes; otherwise
        one client user with the next id is appended and signed in, and then
        saved; a save that throws rejects the call after the append. */
    method Register(firstName: string, lastName: string, email: string, password: string, writeOk: bool)
      returns (r: Settled)
      requires Valid()
      modifies this
      ensures Valid()
      ensures FindByEmail(old(mockUsers), email).Some? ==>
                r == Resolved(false) && mockUsers == old(mockUsers) && user == old(user) && storage == old(storage)
      ensures FindByEmail(old(mockUsers), email).None? ==>
                var u := NewUser(old(mockUsers), firstName, lastName, email);
                && mockUsers == old(mockUsers) + [u] && user == Some(u)
                && r == (if writeOk then Resolved(true) else Rejected)
                && storage == (if writeOk then old(storage)[StorageKey := Json(u)] else old(storage))
    {
      var existingUser := FindByEmail(mockUsers, email);
      if existingUser.Some? {
        return Resolved(false);
      }
      var newUser := NewUser(mockUsers, firstName, lastName, email);
      RegisterKeepsRegistryValid(mockUsers, firstName, lastName, email);
      mockUsers := mockUsers + [newUser];
      user := Some(newUser);
      if !writeOk {
        return Rejected;
      }
      storage := storage[StorageKey := Json(newUser)];
      r := Resolved(true);
    }

    /** `logout`: signed out and the saved user removed. */
    method Logout()
      modifies this
      ensures user == None && storage == old(storage) - {StorageKey} && mockUsers == old(mockUsers)
    {
      user := None;
      storage := storage - {StorageKey};
    }
  }
}
