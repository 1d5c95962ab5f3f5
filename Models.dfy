/**
 * The back end's tables: users and items, as the database session sees them.
 * User ids and item ids are allocated by the database; the model allocates
 * them the way an auto-increment key does.
 */
module Models {
  import opened Wrappers

  /** A row of the user table; `hashedPassword` holds the password hash, never the password. */
  datatype User = User(id: int, username: string, email: string, hashedPassword: string, isAdmin: bool)

  /**
   * A row of the item table (without its id, which is the table's key).
   * Optional text fields are the empty string when absent.
   */
  datatype Item = Item(
    title: string,
    description: string,
    price: real,
    category: string,
    image: string,
    isActive: bool,
    sellerId: int)

  /** The error a violated unique constraint raises on commit. */
  const IntegrityError := "IntegrityError"

  /** `HTTPException(status_code, detail)`. */
  datatype HttpError = HttpError(status: int, detail: string)

  /**
   * The user table's invariant: ids are 1, 2, ... in insertion order (users are
   * never deleted), and the unique constraints on username and email hold.
   */
  ghost predicate UsersValid(users: seq<User>) {
    && (forall i :: 0 <= i < |users| ==> users[i].id == i + 1)
    && (forall i, j :: 0 <= i < j < |users| ==>
          users[i].username != users[j].username && users[i].email != users[j].email)
  }

  /** Some user has this email. */
  predicate EmailExists(users: seq<User>, email: string) {
    exists i | 0 <= i < |users| :: users[i].email == email
  }

  /** Some user has this username. */
  predicate UsernameExists(users: seq<User>, username: string) {
    exists i | 0 <= i < |users| :: users[i].username == username
  }

  /** The titles of all stored items. */
  function Titles(items: map<int, Item>): set<string> {
    set id | id in items :: items[id].title
  }

  /** The database behind one session. */
  class Database {
    var users: seq<User>
    var items: map<int, Item>
    var nextItemId: int

    ghost predicate Valid()
      reads this
    {
      && UsersValid(users)
      && 1 <= nextItemId
      && forall id :: id in items ==> 1 <= id < nextItemId
    }

    /** An empty database. */
    constructor ()
      ensures Valid()
      ensures users == [] && items == map[]
    {
      users := [];
      items := map[];
      nextItemId := 1;
    }

    /**
     * `session.add(user); session.commit()`: the unique constraints on
     * username and email reject a duplicate with an integrity error;
     * otherwise the user is stored under the next id.
     */
    method AddUser(username: string, email: string, hashedPassword: string, isAdmin: bool)
      returns (r: Result<User, string>)
      requires Valid()
      modifies this
      ensures Valid()
      ensures items == old(items) && nextItemId == old(nextItemId)
      ensures r.Failure? <==> UsernameExists(old(users), username) || EmailExists(old(users), email)
      ensures r.Failure? ==> users == old(users) && r.error == IntegrityError
      ensures r.Success? ==>
        && r.value == User(|old(users)| + 1, username, email, hashedPassword, isAdmin)
        && users == old(users) + [r.value]
    {
      if UsernameExists(users, username) || EmailExists(users, email) {
        return Failure(IntegrityError);
      }
      var user := User(|users| + 1, username, email, hashedPassword, isAdmin);
      users := users + [user];
      r := Success(user);
    }

    /** `session.add(item)` of a new row: the item is stored under a fresh id. */
    method AddItem(item: Item) returns (id: int)
      requires Valid()
      modifies this
      ensures Valid()
      ensures users == old(users)
      ensures id !in old(items) && 1 <= id
      ensures id == old(nextItemId) && nextItemId == old(nextItemId) + 1
      ensures items == old(items)[id := item]
    {
      id := nextItemId;
      items := items[id := item];
      nextItemId := nextItemId + 1;
    }
  }
}
