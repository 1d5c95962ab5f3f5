/**
 * The user seeder as a function of the stored users: each of the five seed
 * accounts is reused when its email is stored and inserted otherwise.
 */
module UserSeeding {
  import opened Wrappers
  import opened Models
  import opened SeedData
  import Collections

  /** The seed accounts have distinct emails and distinct usernames, and the sellers are their emails in order. */
  lemma SeedUsersDistinct()
    ensures DistinctAccounts(SeedUsers)
    ensures |UserEmails| == |SeedUsers| && forall j :: 0 <= j < |UserEmails| ==> UserEmails[j] == SeedUsers[j].email
  {
  }

  /** No two accounts share an email or a username. */
  ghost predicate DistinctAccounts(accounts: seq<SeedUser>) {
    forall a, b :: 0 <= a < b < |accounts| ==>
      accounts[a].email != accounts[b].email && accounts[a].username != accounts[b].username
  }

  /** `User.email == email`, the filter of the existence query. */
  function HasEmail(email: string): User -> bool {
    (u: User) => u.email == email
  }

  /** The emails of the accounts from number `k` on. */
  function SeedEmails(accounts: seq<SeedUser>, k: nat): set<string> {
    set j | k <= j < |accounts| :: accounts[j].email
  }

  /** What a run of `create_seed_users` leaves behind: the user table, and either the email-to-user map or the error that stopped it. */
  datatype UsersOutcome = UsersOutcome(users: seq<User>, result: Result<map<string, User>, string>)

  /**
   * `create_seed_users` from account number `k` on, with `found` the map built
   * so far: an account whose email is present is looked up, any other is
   * inserted with its password hashed, and an insert that breaks the unique
   * username constraint stops the run with the rows committed so far.
   */
  function SeedUsersFrom(users: seq<User>, accounts: seq<SeedUser>, k: nat, found: map<string, User>, hash: string -> string): (o: UsersOutcome)
    ensures |users| <= |o.users| <= |users| + (if k <= |accounts| then |accounts| - k else 0)
    ensures o.result.Failure? ==> o.result.error == IntegrityError
    decreases |accounts| - k
  {
    if k >= |accounts| then UsersOutcome(users, Success(found))
    else
      var s := accounts[k];
      match Collections.FindIndex(users, HasEmail(s.email))
      case Some(j) => SeedUsersFrom(users, accounts, k + 1, found[s.email := users[j]], hash)
      case None =>
        if UsernameExists(users, s.username) then UsersOutcome(users, Failure(IntegrityError))
        else
          var user := User(|users| + 1, s.username, s.email, hash(s.password), s.isAdmin);
          SeedUsersFrom(users + [user], accounts, k + 1, found[s.email := user], hash)
  }

  /** A whole run of `create_seed_users` on the table `users`. */
  function SeedUsersRun(users: seq<User>, hash: string -> string): UsersOutcome {
    SeedUsersFrom(users, SeedUsers, 0, map[], hash)
  }

  /** Under the table's invariant, the user with a given email is unique. */
  lemma UniqueByEmail(users: seq<User>, x: User, y: User)
    requires UsersValid(users)
    requires x in users && y in users && x.email == y.email
    ensures x == y
  {
    var i :| 0 <= i < |users| && users[i] == x;
    var j :| 0 <= j < |users| && users[j] == y;
    assert !(i < j) && !(j < i);
  }

  /** Under the table's invariant, users with different emails have different ids. */
  lemma IdsByEmail(users: seq<User>, x: User, y: User)
    requires UsersValid(users)
    requires x in users && y in users && x.email != y.email
    ensures x.id != y.id
  {
    var i :| 0 <= i < |users| && users[i] == x;
    var j :| 0 <= j < |users| && users[j] == y;
  }

  /** The existence query came back empty: no user has the email. */
  lemma NotFound(users: seq<User>, email: string)
    requires Collections.FindIndex(users, HasEmail(email)).None?
    ensures !EmailExists(users, email)
  {
    forall i | 0 <= i < |users| ensures users[i].email != email {
      assert !HasEmail(email)(users[i]);
    }
  }

  /** Inserting a user whose username and email are new, under the next id, keeps the table's invariant. */
  lemma AppendUser(users: seq<User>, user: User)
    requires UsersValid(users)
    requires !UsernameExists(users, user.username) && !EmailExists(users, user.email)
    requires user.id == |users| + 1
    ensures UsersValid(users + [user])
  {
    var users' := users + [user];
    forall i, j | 0 <= i < j < |users'|
      ensures users'[i].username != users'[j].username && users'[i].email != users'[j].email
    {
      if j == |users| {
        assert users'[i] == users[i];
      }
    }
  }

  /** A run keeps the table's invariant and every row already in it. */
  lemma {:induction false} SeedUsersTable(users: seq<User>, accounts: seq<SeedUser>, k: nat, found: map<string, User>, hash: string -> string)
    requires UsersValid(users)
    ensures var o := SeedUsersFrom(users, accounts, k, found, hash);
      UsersValid(o.users) && |users| <= |o.users| && o.users[..|users|] == users
    decreases |accounts| - k
  {
    if k < |accounts| {
      var s := accounts[k];
      match Collections.FindIndex(users, HasEmail(s.email))
      case Some(j) =>
        SeedUsersTable(users, accounts, k + 1, found[s.email := users[j]], hash);
      case None =>
        if !UsernameExists(users, s.username) {
          var user := User(|users| + 1, s.username, s.email, hash(s.password), s.isAdmin);
          NotFound(users, s.email);
          AppendUser(users, user);
          var users' := users + [user];
          SeedUsersTable(users', accounts, k + 1, found[s.email := user], hash);
          var o := SeedUsersFrom(users', accounts, k + 1, found[s.email := user], hash);
          assert o.users[..|users|] == o.users[..|users'|][..|users|];
        }
    }
  }

  /**
   * A successful run maps every account's email, and every email already in
   * `found`, to the user of the final table that has that email.
   */
  lemma {:induction false} SeedUsersFound(users: seq<User>, accounts: seq<SeedUser>, k: nat, found: map<string, User>, hash: string -> string)
    requires forall e :: e in found ==> found[e] in users && found[e].email == e
    ensures var o := SeedUsersFrom(users, accounts, k, found, hash);
      o.result.Success? ==>
        && o.result.value.Keys == found.Keys + SeedEmails(accounts, k)
        && forall e :: e in o.result.value ==> o.result.value[e] in o.users && o.result.value[e].email == e
    decreases |accounts| - k
  {
    if k >= |accounts| {
      assert SeedEmails(accounts, k) == {};
    } else {
      var s := accounts[k];
      assert SeedEmails(accounts, k) == {s.email} + SeedEmails(accounts, k + 1);
      match Collections.FindIndex(users, HasEmail(s.email))
      case Some(j) =>
        assert HasEmail(s.email)(users[j]);
        SeedUsersFound(users, accounts, k + 1, found[s.email := users[j]], hash);
      case None =>
        if !UsernameExists(users, s.username) {
          var user := User(|users| + 1, s.username, s.email, hash(s.password), s.isAdmin);
          var users' := users + [user];
          SeedUsersFound(users', accounts, k + 1, found[s.email := user], hash);
        }
    }
  }

  /** When every account's email from number `k` on is present, a run inserts nothing and succeeds. */
  lemma {:induction false} SeedUsersPresent(users: seq<User>, accounts: seq<SeedUser>, k: nat, found: map<string, User>, hash: string -> string)
    requires forall j :: k <= j < |accounts| ==> EmailExists(users, accounts[j].email)
    ensures SeedUsersFrom(users, accounts, k, found, hash).users == users
    ensures SeedUsersFrom(users, accounts, k, found, hash).result.Success?
    decreases |accounts| - k
  {
    if k < |accounts| {
      var s := accounts[k];
      var i :| 0 <= i < |users| && users[i].email == s.email;
      assert HasEmail(s.email)(users[i]);
      match Collections.FindIndex(users, HasEmail(s.email))
      case Some(j) =>
        SeedUsersPresent(users, accounts, k + 1, found[s.email := users[j]], hash);
    }
  }

  /** After a successful run over `accounts`, a second run on the resulting table inserts nothing and returns the same map. */
  lemma SeedUsersRerun(users: seq<User>, accounts: seq<SeedUser>, hash: string -> string)
    requires UsersValid(users)
    requires SeedUsersFrom(users, accounts, 0, map[], hash).result.Success?
    ensures var first := SeedUsersFrom(users, accounts, 0, map[], hash);
      SeedUsersFrom(first.users, accounts, 0, map[], hash) == first
  {
    var first := SeedUsersFrom(users, accounts, 0, map[], hash);
    var m := first.result.value;
    SeedUsersTable(users, accounts, 0, map[], hash);
    SeedUsersFound(users, accounts, 0, map[], hash);
    forall j | 0 <= j < |accounts|
      ensures EmailExists(first.users, accounts[j].email)
    {
      var e := accounts[j].email;
      assert e in SeedEmails(accounts, 0);
      var i :| 0 <= i < |first.users| && first.users[i] == m[e];
    }
    SeedUsersPresent(first.users, accounts, 0, map[], hash);
    SeedUsersFound(first.users, accounts, 0, map[], hash);
    var second := SeedUsersFrom(first.users, accounts, 0, map[], hash);
    var m' := second.result.value;
    assert m'.Keys == m.Keys;
    forall e | e in m
      ensures m'[e] == m[e]
    {
      UniqueByEmail(first.users, m'[e], m[e]);
    }
    assert m' == m;
  }

  /**
   * The script is safe to run twice: after a successful run, a second run on
   * the resulting table inserts nothing and returns the same map, and that
   * map sends each seed email to the stored user with that email.
   */
  lemma SeedUsersIdempotent(users: seq<User>, hash: string -> string)
    requires UsersValid(users)
    requires SeedUsersRun(users, hash).result.Success?
    ensures var first := SeedUsersRun(users, hash);
      && SeedUsersRun(first.users, hash) == first
      && first.result.value.Keys == SeedEmails(SeedUsers, 0)
      && forall e :: e in first.result.value ==> first.result.value[e] in first.users && first.result.value[e].email == e
  {
    SeedUsersRerun(users, SeedUsers, hash);
    SeedUsersFound(users, SeedUsers, 0, map[], hash);
  }

  /** The accounts as a first run on an empty table inserts them, with ids 1, 2, ... */
  function FreshUsers(accounts: seq<SeedUser>, hash: string -> string): (users: seq<User>)
    ensures |users| == |accounts|
  {
    seq(|accounts|, j requires 0 <= j < |accounts| =>
      User(j + 1, accounts[j].username, accounts[j].email, hash(accounts[j].password), accounts[j].isAdmin))
  }

  lemma {:induction false} SeedUsersFreshFrom(accounts: seq<SeedUser>, k: nat, found: map<string, User>, hash: string -> string)
    requires DistinctAccounts(accounts) && k <= |accounts|
    ensures SeedUsersFrom(FreshUsers(accounts, hash)[..k], accounts, k, found, hash).users == FreshUsers(accounts, hash)
    ensures SeedUsersFrom(FreshUsers(accounts, hash)[..k], accounts, k, found, hash).result.Success?
    decreases |accounts| - k
  {
    var all := FreshUsers(accounts, hash);
    if k < |accounts| {
      var users := all[..k];
      var s := accounts[k];
      assert Collections.FindIndex(users, HasEmail(s.email)).None?;
      assert !UsernameExists(users, s.username);
      assert users + [all[k]] == all[..k + 1];
      SeedUsersFreshFrom(accounts, k + 1, found[s.email := all[k]], hash);
    } else {
      assert all[..k] == all;
    }
  }

  /** On an empty table the run succeeds and inserts the five seed accounts with ids 1 to 5, passwords hashed. */
  lemma SeedUsersFresh(hash: string -> string)
    ensures SeedUsersRun([], hash).result.Success?
    ensures SeedUsersRun([], hash).users == FreshUsers(SeedUsers, hash)
  {
    SeedUsersDistinct();
    assert FreshUsers(SeedUsers, hash)[..0] == [];
    SeedUsersFreshFrom(SeedUsers, 0, map[], hash);
  }
}
