/**
 * The idempotent database seeder: five accounts, then twenty items in each
 * of five categories, dealt round-robin to the five accounts. Rows that
 * already exist (by email for users, by title for items) are skipped, so a
 * second run adds nothing.
 */
module Seed {
  import opened Wrappers
  import opened Models
  import opened SeedData
  import opened ItemPlan
  import opened UserSeeding
  import opened ItemSeeding
  import Collections

  /**
   * `create_seed_users(session)`: looks each seed account up by email and
   * inserts the missing ones, committing after each insert.
   */
  method CreateSeedUsers(db: Database, hash: string -> string) returns (r: Result<map<string, User>, string>)
    requires db.Valid()
    modifies db
    ensures db.Valid()
    ensures db.items == old(db.items) && db.nextItemId == old(db.nextItemId)
    ensures SeedUsersRun(old(db.users), hash) == UsersOutcome(db.users, r)
  {
    var found: map<string, User> := map[];
    for k := 0 to |SeedUsers|
      invariant db.Valid()
      invariant db.items == old(db.items) && db.nextItemId == old(db.nextItemId)
      invariant SeedUsersFrom(db.users, SeedUsers, k, found, hash) == SeedUsersRun(old(db.users), hash)
    {
      var s := SeedUsers[k];
      var existing := Collections.FindIndex(db.users, HasEmail(s.email));
      if existing.Some? {
        found := found[s.email := db.users[existing.value]];
      } else {
        var added := db.AddUser(s.username, s.email, hash(s.password), s.isAdmin);
        if added.Failure? {
          return Failure(added.error);
        }
        found := found[s.email := added.value];
      }
    }
    r := Success(found);
  }

  /** The item `create_seed_items` builds for index `i` of category `c`, the running counter at `counter`. */
  method BuildSeedItem(users: map<string, User>, k: Catalog, c: nat, i: nat, counter: nat) returns (item: Item)
    requires ValidCatalog(k) && CoversSellers(users, k.sellers)
    requires c < CategoryCount && i < ItemsPerCategory && counter == ItemsPerCategory * c + i + 1
    ensures item == PlannedItem(users, k, c, i)
  {
    var category := k.categories[c];
    var templates := k.templates[category];
    var user := users[k.sellers[i % SellerCount]];
    var template := templates[i % |templates|];
    var title := SeedTitle(template.titleBase, counter);
    var price := SeedPrice(template, i, |templates|);
    item := Item(title, SeedDescription(template.titleBase, category), price, category, k.images[category], true, user.id);
  }

  /**
   * One pass of the inner loop of `create_seed_items`: builds the row for
   * category `c`, index `i` and the running counter, skips it when its title
   * is already stored and inserts it otherwise, and counts it for its category.
   */
  method SeedPosition(db: Database, users: map<string, User>, k: Catalog, c: nat, i: nat, counter: nat,
                      stats: map<string, CategoryStats>, ghost plan: seq<Item>)
    returns (stats': map<string, CategoryStats>)
    requires db.Valid() && ValidCatalog(k) && CoversSellers(users, k.sellers) && plan == Plan(users, k)
    requires c < CategoryCount && i < ItemsPerCategory && counter == ItemsPerCategory * c + i + 1 <= PlanSize
    requires k.categories[c] in stats
    modifies db
    ensures db.Valid() && db.users == old(db.users)
    ensures Table(db.items, db.nextItemId) == Step(Table(old(db.items), old(db.nextItemId)), plan[counter - 1])
    ensures plan[counter - 1].category == k.categories[c]
    ensures var category := k.categories[c];
      stats' == stats[category := Bump(stats[category], plan[counter - 1].title in Titles(old(db.items)))]
  {
    var category := k.categories[c];
    var item := BuildSeedItem(users, k, c, i, counter);
    PlanAt(users, k, c, i);
    assert item == plan[counter - 1];
    var s := stats[category];
    if item.title in Titles(db.items) {
      stats' := stats[category := s.(existing := s.existing + 1)];
    } else {
      var id := db.AddItem(item);
      stats' := stats[category := s.(created := s.created + 1)];
    }
  }

  /** The inner loop of `create_seed_items` for category `c`: its twenty indices in order. */
  method SeedCategory(db: Database, users: map<string, User>, k: Catalog, c: nat, counter: nat,
                      stats: map<string, CategoryStats>, ghost t0: Table, ghost plan: seq<Item>)
    returns (stats': map<string, CategoryStats>, counter': nat)
    requires db.Valid() && ValidCatalog(k) && CoversSellers(users, k.sellers)
    requires plan == Plan(users, k) && Grouped(plan, k.categories)
    requires c < CategoryCount && counter == ItemsPerCategory * c + 1
    requires Table(db.items, db.nextItemId) == SeedItemsUpTo(t0, plan, counter - 1)
    requires stats == TallyUpTo(t0, plan, k.categories, counter - 1)
    modifies db
    ensures db.Valid() && db.users == old(db.users)
    ensures counter' == counter + ItemsPerCategory
    ensures Table(db.items, db.nextItemId) == SeedItemsUpTo(t0, plan, counter' - 1)
    ensures stats' == TallyUpTo(t0, plan, k.categories, counter' - 1)
  {
    stats', counter' := stats, counter;
    for i := 0 to ItemsPerCategory
      invariant db.Valid() && db.users == old(db.users)
      invariant counter' == counter + i
      invariant Table(db.items, db.nextItemId) == SeedItemsUpTo(t0, plan, counter' - 1)
      invariant stats' == TallyUpTo(t0, plan, k.categories, counter' - 1)
    {
      stats' := SeedPosition(db, users, k, c, i, counter', stats', plan);
      counter' := counter' + 1;
    }
  }

  /**
   * `create_seed_items(session, users)` over the catalog `k`: walks the five
   * categories and their twenty indices with a running counter, inserting
   * each planned row whose title is not yet stored and tallying created and
   * existing rows per category; all inserts are committed at the end.
   */
  method CreateSeedItems(db: Database, users: map<string, User>, k: Catalog) returns (stats: map<string, CategoryStats>)
    requires db.Valid() && ValidCatalog(k) && CoversSellers(users, k.sellers)
    modifies db
    ensures db.Valid() && db.users == old(db.users)
    ensures Table(db.items, db.nextItemId) == SeedItemsRun(Table(old(db.items), old(db.nextItemId)), users, k)
    ensures Reports(stats, Titles(old(db.items)), Plan(users, k), k.categories)
  {
    ghost var t0 := Table(db.items, db.nextItemId);
    ghost var plan := Plan(users, k);
    PlanGrouped(users, k);
    stats := InitialStats(k.categories);
    var counter: nat := 1;
    for c := 0 to CategoryCount
      invariant db.Valid() && db.users == old(db.users)
      invariant counter == ItemsPerCategory * c + 1
      invariant Table(db.items, db.nextItemId) == SeedItemsUpTo(t0, plan, counter - 1)
      invariant stats == TallyUpTo(t0, plan, k.categories, counter - 1)
    {
      stats, counter := SeedCategory(db, users, k, c, counter, stats, t0, plan);
    }
    SeedItemsResult(t0, users, k);
  }

  /** After a successful user run, the returned map holds every seller the item seeder deals to. */
  lemma UsersCoverSellers(users: seq<User>, hash: string -> string)
    requires UsersValid(users)
    requires SeedUsersRun(users, hash).result.Success?
    ensures CoversSellers(SeedUsersRun(users, hash).result.value, UserEmails)
  {
    SeedUsersDistinct();
    SeedUsersFound(users, SeedUsers, 0, map[], hash);
    forall j | 0 <= j < |UserEmails| ensures UserEmails[j] in SeedUsersRun(users, hash).result.value {
      assert UserEmails[j] in SeedEmails(SeedUsers, 0);
    }
  }

  /** After a successful user run, the five sellers are five different users. */
  lemma SeedSellersDistinct(users: seq<User>, hash: string -> string)
    requires UsersValid(users)
    requires SeedUsersRun(users, hash).result.Success?
    ensures CoversSellers(SeedUsersRun(users, hash).result.value, UserEmails)
    ensures DistinctSellerIds(SeedUsersRun(users, hash).result.value, UserEmails)
  {
    UsersCoverSellers(users, hash);
    SeedUsersDistinct();
    SeedUsersTable(users, SeedUsers, 0, map[], hash);
    SeedUsersFound(users, SeedUsers, 0, map[], hash);
    var o := SeedUsersRun(users, hash);
    forall a, b | 0 <= a < b < |UserEmails|
      ensures o.result.value[UserEmails[a]].id != o.result.value[UserEmails[b]].id
    {
      IdsByEmail(o.users, o.result.value[UserEmails[a]], o.result.value[UserEmails[b]]);
    }
  }

  /**
   * Seeding a database that holds none of the planned titles (an empty one,
   * say) stores twenty more items for each of the five seed users, under
   * any valid catalog that deals to their emails, `SeedCatalog` among them.
   */
  lemma SeedPerSeller(users: seq<User>, t: Table, hash: string -> string, k: Catalog)
    requires UsersValid(users) && SeedUsersRun(users, hash).result.Success? && IdsBelow(t)
    requires ValidCatalog(k) && k.sellers == UserEmails
    ensures var found := SeedUsersRun(users, hash).result.value;
      && CoversSellers(found, k.sellers)
      && (PlanTitles(Plan(found, k), 0, PlanSize) !! Titles(t.items) ==>
           forall j :: 0 <= j < SellerCount ==>
             StoredBy(SeedItemsRun(t, found, k).items, found[UserEmails[j]].id) == StoredBy(t.items, found[UserEmails[j]].id) + 20)
  {
    SeedSellersDistinct(users, hash);
    var found := SeedUsersRun(users, hash).result.value;
    if PlanTitles(Plan(found, k), 0, PlanSize) !! Titles(t.items) {
      SeedItemsFreshPerSeller(t, found, k);
    }
  }

  /**
   * `main()`: seeds the users, then the items dealt to them, in one session.
   * An integrity error while inserting users stops the script before any item
   * is written.
   */
  method SeedDatabase(db: Database, hash: string -> string) returns (r: Result<map<string, CategoryStats>, string>)
    requires db.Valid()
    modifies db
    ensures db.Valid()
    ensures var usersRun := SeedUsersRun(old(db.users), hash);
      && db.users == usersRun.users
      && (usersRun.result.Failure? ==> r == Failure(usersRun.result.error) && db.items == old(db.items))
      && (usersRun.result.Success? ==>
           && ValidCatalog(SeedCatalog)
           && CoversSellers(usersRun.result.value, SeedCatalog.sellers)
           && r.Success?
           && Table(db.items, db.nextItemId) == SeedItemsRun(Table(old(db.items), old(db.nextItemId)), usersRun.result.value, SeedCatalog)
           && Reports(r.value, Titles(old(db.items)), Plan(usersRun.result.value, SeedCatalog), SeedCatalog.categories))
  {
    var users := CreateSeedUsers(db, hash);
    if users.Failure? {
      return Failure(users.error);
    }
    UsersCoverSellers(old(db.users), hash);
    SeedCatalogValid();
    var stats := CreateSeedItems(db, users.value, SeedCatalog);
    r := Success(stats);
  }
}
