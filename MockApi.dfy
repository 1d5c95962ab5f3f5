/**
 * The mock account service: a registry of `{email, password, username}`
 * records and a current-user pointer, both kept in `localStorage`. The
 * source's artificial 500 ms delay is dropped; every operation is one step.
 */
module MockApi {
  import opened Wrappers
  import opened Storage
  import Text
  import Collections

  /** The institutional e-mail suffix every mock account must carry. */
  const UflSuffix: string := "@ufl.edu"

  const InvalidCredentials: string := "Invalid email or password"
  const InvalidDomain: string := "Please use a valid UF email address"
  const DuplicateEmail: string := "User with this email already exists"

  /** The `{ success, error? }` object every mock call resolves to. */
  datatype ApiResult = ApiResult(success: bool, error: Option<string>)

  /** `getMockUsers`: the stored registry, or the empty registry when nothing is stored. */
  function GetMockUsers(entries: map<string, Value>): (users: seq<MockUser>)
    ensures MockUsersKey !in entries ==> users == []
  {
    if MockUsersKey in entries && entries[MockUsersKey].UserList? then entries[MockUsersKey].users else []
  }

  /** `getCurrentUser`: the stored current-user email, or null. */
  function GetCurrentUser(entries: map<string, Value>): (r: Option<string>)
    ensures MockCurrentUserKey !in entries ==> r == None
  {
    if MockCurrentUserKey in entries && entries[MockCurrentUserKey].Text? then Some(entries[MockCurrentUserKey].text) else None
  }

  /** Some registered user has exactly this email and this password. */
  predicate HasCredentials(users: seq<MockUser>, email: string, password: string) {
    exists i | 0 <= i < |users| :: users[i].email == email && users[i].password == password
  }

  /** Some registered user has this email. */
  predicate EmailTaken(users: seq<MockUser>, email: string) {
    exists i | 0 <= i < |users| :: users[i].email == email
  }

  /** No two registered users share an email. */
  ghost predicate DistinctEmails(users: seq<MockUser>) {
    forall i, j :: 0 <= i < j < |users| ==> users[i].email != users[j].email
  }

  /**
   * What the mock operations keep true of the store: registry emails are
   * distinct and institutional, and the current user, if any, is registered.
   */
  ghost predicate RegistryValid(entries: map<string, Value>) {
    var users := GetMockUsers(entries);
    && DistinctEmails(users)
    && (forall i :: 0 <= i < |users| ==> Text.EndsWith(users[i].email, UflSuffix))
    && (GetCurrentUser(entries).Some? ==> EmailTaken(users, GetCurrentUser(entries).value))
  }

  /** `users.find(u => u.email === email && u.password === password)`, as an index. */
  function FindUser(users: seq<MockUser>, email: string, password: string): (r: Option<nat>)
    ensures r.Some? <==> HasCredentials(users, email, password)
    ensures r.Some? ==> r.value < |users| && users[r.value].email == email && users[r.value].password == password
  {
    Collections.FindIndex(users, (u: MockUser) => u.email == email && u.password == password)
  }

  /** `saveMockUsers`: stores the registry; reading it back gives the same list. */
  method SaveMockUsers(store: LocalStorage, users: seq<MockUser>)
    modifies store
    ensures store.entries == old(store.entries)[MockUsersKey := UserList(users)]
    ensures GetMockUsers(store.entries) == users
  {
    store.SetItem(MockUsersKey, UserList(users));
  }

  /** `mockApi.login`: succeeds exactly when a stored user matches both email and password. */
  method Login(store: LocalStorage, email: string, password: string) returns (r: ApiResult)
    modifies store
    ensures r.success <==> HasCredentials(GetMockUsers(old(store.entries)), email, password)
    ensures r.success ==> r.error == None
    ensures r.success ==> store.entries == old(store.entries)[MockCurrentUserKey := Text(email)]
    ensures r.success ==> GetCurrentUser(store.entries) == Some(email)
    ensures !r.success ==> r.error == Some(InvalidCredentials) && store.entries == old(store.entries)
    ensures RegistryValid(old(store.entries)) ==> RegistryValid(store.entries)
  {
    var users := GetMockUsers(store.entries);
    var user := FindUser(users, email, password);
    if user.Some? {
      store.SetItem(MockCurrentUserKey, Text(email));
      assert GetMockUsers(store.entries) == users;
      r := ApiResult(true, None);
    } else {
      r := ApiResult(false, Some(InvalidCredentials));
    }
  }

  /**
   * `mockApi.signup`: rejects a non-institutional email, then a registered
   * email; otherwise appends exactly one record, persists the registry and
   * makes the new email the current user.
   */
  method Signup(store: LocalStorage, username: string, email: string, password: string) returns (r: ApiResult)
    modifies store
    ensures !Text.EndsWith(email, UflSuffix) ==>
      r == ApiResult(false, Some(InvalidDomain)) && store.entries == old(store.entries)
    ensures Text.EndsWith(email, UflSuffix) && EmailTaken(GetMockUsers(old(store.entries)), email) ==>
      r == ApiResult(false, Some(DuplicateEmail)) && store.entries == old(store.entries)
    ensures r.success <==> Text.EndsWith(email, UflSuffix) && !EmailTaken(GetMockUsers(old(store.entries)), email)
    ensures r.success ==> r.error == None
    ensures r.success ==>
      store.entries == old(store.entries)
        [MockUsersKey := UserList(GetMockUsers(old(store.entries)) + [MockUser(email, password, username)])]
        [MockCurrentUserKey := Text(email)]
    ensures r.success ==> GetMockUsers(store.entries) == GetMockUsers(old(store.entries)) + [MockUser(email, password, username)]
    ensures r.success ==> GetCurrentUser(store.entries) == Some(email)
    ensures RegistryValid(old(store.entries)) ==> RegistryValid(store.entries)
  {
    if !Text.EndsWith(email, UflSuffix) {
      return ApiResult(false, Some(InvalidDomain));
    }
    var users := GetMockUsers(store.entries);
    if Collections.Any(users, (u: MockUser) => u.email == email) {
      return ApiResult(false, Some(DuplicateEmail));
    }
    var newUser := MockUser(email, password, username);
    users := users + [newUser];
    SaveMockUsers(store, users);
    store.SetItem(MockCurrentUserKey, Text(email));
    assert GetMockUsers(store.entries) == users;
    assert users[|users| - 1].email == email;
    r := ApiResult(true, None);
  }

  /** `mockApi.logout`: forgets the current user; a second call changes nothing. */
  method Logout(store: LocalStorage)
    modifies store
    ensures store.entries == old(store.entries) - {MockCurrentUserKey}
    ensures GetCurrentUser(store.entries) == None
    ensures MockCurrentUserKey !in old(store.entries) ==> store.entries == old(store.entries)
    ensures RegistryValid(old(store.entries)) ==> RegistryValid(store.entries)
  {
    store.RemoveItem(MockCurrentUserKey);
    assert GetMockUsers(store.entries) == GetMockUsers(old(store.entries));
  }
}
