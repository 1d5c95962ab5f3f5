/**
 * The item seeder as a fold over the plan: a row whose title is stored is
 * skipped and any other is inserted, and the rows of each category are
 * tallied as created or already present.
 */
module ItemSeeding {
  import opened Models
  import opened SeedData
  import opened ItemPlan
  import Collections

  /** Per-category tally of `create_seed_items`: rows created and rows found already present. */
  datatype CategoryStats = CategoryStats(created: nat, existing: nat)

  /** The item table with the id the database allocates next. */
  datatype Table = Table(items: map<int, Item>, nextId: int)

  /** Every stored id lies below the next one to be allocated. */
  predicate IdsBelow(t: Table) {
    forall id :: id in t.items ==> id < t.nextId
  }

  /** The table after inserting `item` under the next id. */
  function Insert(t: Table, item: Item): Table {
    Table(t.items[t.nextId := item], t.nextId + 1)
  }

  /**
   * One position of `create_seed_items`: a row whose title is already stored
   * is skipped, any other is inserted under the next id. Rows added earlier
   * in the same run count as stored.
   */
  function Step(t: Table, item: Item): (r: Table)
    ensures item.title in Titles(r.items)
    ensures t.nextId <= r.nextId <= t.nextId + 1
  {
    if item.title in Titles(t.items) then t
    else
      assert Insert(t, item).items[t.nextId] == item;
      Insert(t, item)
  }

  /** `create_seed_items` from plan position `n` to the end. */
  function SeedItemsFrom(t: Table, plan: seq<Item>, n: nat): (r: Table)
    ensures t.nextId <= r.nextId <= t.nextId + (if n <= |plan| then |plan| - n else 0)
    decreases |plan| - n
  {
    if n >= |plan| then t else SeedItemsFrom(Step(t, plan[n]), plan, n + 1)
  }

  /** A whole run of `create_seed_items` on the table `t`. */
  function SeedItemsRun(t: Table, users: map<string, User>, k: Catalog): Table
    requires ValidCatalog(k) && CoversSellers(users, k.sellers)
  {
    SeedItemsFrom(t, Plan(users, k), 0)
  }

  /** The titles of the plan's positions `lo` to `hi - 1`. */
  function PlanTitles(plan: seq<Item>, lo: nat, hi: nat): set<string>
    requires hi <= |plan|
  {
    set n | lo <= n < hi :: plan[n].title
  }

  /** How many of the plan's titles at positions `lo` to `hi - 1` are missing from `titles`. */
  function Missing(titles: set<string>, plan: seq<Item>, lo: nat, hi: nat): (count: nat)
    requires hi <= |plan|
    ensures count <= if lo <= hi then hi - lo else 0
    decreases hi - lo
  {
    if lo >= hi then 0
    else (if plan[lo].title in titles then 0 else 1) + Missing(titles, plan, lo + 1, hi)
  }

  /** Storing a row under a fresh id adds exactly its title. */
  lemma TitlesInsert(t: Table, item: Item)
    requires IdsBelow(t)
    ensures IdsBelow(Insert(t, item))
    ensures Titles(Insert(t, item).items) == Titles(t.items) + {item.title}
  {
    var items, items' := t.items, Insert(t, item).items;
    forall title | title in Titles(items) ensures title in Titles(items') {
      var id :| id in items && items[id].title == title;
      assert items'[id] == items[id];
    }
    forall title | title in Titles(items') ensures title in Titles(items) || title == item.title {
      var id :| id in items' && items'[id].title == title;
      if id != t.nextId {
        assert items[id] == items'[id];
      }
    }
    assert items'[t.nextId].title == item.title;
  }

  lemma {:induction false} MissingSnoc(titles: set<string>, plan: seq<Item>, lo: nat, hi: nat)
    requires lo <= hi < |plan|
    ensures Missing(titles, plan, lo, hi + 1) == Missing(titles, plan, lo, hi) + (if plan[hi].title in titles then 0 else 1)
    decreases hi - lo
  {
    if lo < hi {
      MissingSnoc(titles, plan, lo + 1, hi);
    }
  }

  lemma {:induction false} MissingSplit(titles: set<string>, plan: seq<Item>, lo: nat, mid: nat, hi: nat)
    requires lo <= mid <= hi <= |plan|
    ensures Missing(titles, plan, lo, hi) == Missing(titles, plan, lo, mid) + Missing(titles, plan, mid, hi)
    decreases mid - lo
  {
    if lo < mid {
      MissingSplit(titles, plan, lo + 1, mid, hi);
    }
  }

  lemma {:induction false} MissingIgnores(titles: set<string>, plan: seq<Item>, title: string, lo: nat, hi: nat)
    requires hi <= |plan|
    requires forall m :: lo <= m < hi ==> plan[m].title != title
    ensures Missing(titles + {title}, plan, lo, hi) == Missing(titles, plan, lo, hi)
    decreases hi - lo
  {
    if lo < hi {
      MissingIgnores(titles, plan, title, lo + 1, hi);
    }
  }

  /** With none of the planned titles stored, every position is missing. */
  lemma {:induction false} MissingAll(titles: set<string>, plan: seq<Item>, lo: nat, hi: nat)
    requires lo <= hi <= |plan|
    requires PlanTitles(plan, lo, hi) !! titles
    ensures Missing(titles, plan, lo, hi) == hi - lo
    decreases hi - lo
  {
    if lo < hi {
      assert plan[lo].title in PlanTitles(plan, lo, hi);
      assert PlanTitles(plan, lo + 1, hi) <= PlanTitles(plan, lo, hi);
      MissingAll(titles, plan, lo + 1, hi);
    }
  }

  /** With all of the planned titles stored, no position is missing. */
  lemma {:induction false} MissingNone(titles: set<string>, plan: seq<Item>, lo: nat, hi: nat)
    requires hi <= |plan|
    requires PlanTitles(plan, lo, hi) <= titles
    ensures Missing(titles, plan, lo, hi) == 0
    decreases hi - lo
  {
    if lo < hi {
      assert plan[lo].title in PlanTitles(plan, lo, hi);
      assert PlanTitles(plan, lo + 1, hi) <= PlanTitles(plan, lo, hi);
      MissingNone(titles, plan, lo + 1, hi);
    }
  }

  /** A run never changes a row that was stored before it. */
  lemma {:induction false} SeedItemsKept(t: Table, plan: seq<Item>, n: nat)
    requires IdsBelow(t)
    ensures var r := SeedItemsFrom(t, plan, n);
      forall id :: id in t.items ==> id in r.items && r.items[id] == t.items[id]
    decreases |plan| - n
  {
    if n < |plan| {
      if plan[n].title in Titles(t.items) {
        SeedItemsKept(t, plan, n + 1);
      } else {
        TitlesInsert(t, plan[n]);
        SeedItemsKept(Insert(t, plan[n]), plan, n + 1);
      }
    }
  }

  /**
   * A run keeps every existing row as it was, allocates ids above the old
   * ones, and inserts exactly one row per missing planned title.
   */
  lemma {:induction false} SeedItemsKeeps(t: Table, plan: seq<Item>, n: nat)
    requires IdsBelow(t) && DistinctTitles(plan)
    ensures var r := SeedItemsFrom(t, plan, n);
      && IdsBelow(r)
      && (forall id :: id in t.items ==> id in r.items && r.items[id] == t.items[id])
      && (forall id :: id in r.items && id !in t.items ==> t.nextId <= id)
      && |r.items| == |t.items| + Missing(Titles(t.items), plan, n, |plan|)
    decreases |plan| - n
  {
    if n < |plan| {
      if plan[n].title in Titles(t.items) {
        SeedItemsKeeps(t, plan, n + 1);
      } else {
        TitlesInsert(t, plan[n]);
        SeedItemsKeeps(Insert(t, plan[n]), plan, n + 1);
        MissingIgnores(Titles(t.items), plan, plan[n].title, n + 1, |plan|);
      }
    }
  }

  /** After a run, the stored titles are the old ones plus every planned title from position `n` on. */
  lemma {:induction false} SeedItemsTitles(t: Table, plan: seq<Item>, n: nat)
    requires IdsBelow(t) && n <= |plan|
    ensures Titles(SeedItemsFrom(t, plan, n).items) == Titles(t.items) + PlanTitles(plan, n, |plan|)
    decreases |plan| - n
  {
    if n < |plan| {
      assert PlanTitles(plan, n, |plan|) == {plan[n].title} + PlanTitles(plan, n + 1, |plan|);
      if plan[n].title in Titles(t.items) {
        SeedItemsTitles(t, plan, n + 1);
      } else {
        TitlesInsert(t, plan[n]);
        SeedItemsTitles(Insert(t, plan[n]), plan, n + 1);
      }
    } else {
      assert PlanTitles(plan, n, |plan|) == {};
    }
  }

  /** Every row a run inserts is the planned row of a position whose title was not stored before the run. */
  lemma {:induction false} SeedItemsNew(t: Table, plan: seq<Item>, n: nat)
    requires IdsBelow(t)
    ensures var r := SeedItemsFrom(t, plan, n);
      forall id :: id in r.items && id !in t.items ==>
        exists m :: n <= m < |plan| && plan[m].title !in Titles(t.items) && r.items[id] == plan[m]
    decreases |plan| - n
  {
    if n < |plan| {
      if plan[n].title in Titles(t.items) {
        SeedItemsNew(t, plan, n + 1);
      } else {
        var t' := Insert(t, plan[n]);
        TitlesInsert(t, plan[n]);
        SeedItemsNew(t', plan, n + 1);
        SeedItemsKept(t', plan, n + 1);
        var r := SeedItemsFrom(t', plan, n + 1);
        forall id | id in r.items && id !in t.items
          ensures exists m :: n <= m < |plan| && plan[m].title !in Titles(t.items) && r.items[id] == plan[m]
        {
          if id == t.nextId {
            assert r.items[id] == plan[n];
          } else {
            var m :| n + 1 <= m < |plan| && plan[m].title !in Titles(t'.items) && r.items[id] == plan[m];
          }
        }
      }
    }
  }

  /** A run that finds every planned title from position `n` on already stored changes nothing. */
  lemma {:induction false} SeedItemsComplete(t: Table, plan: seq<Item>, n: nat)
    requires n <= |plan|
    requires PlanTitles(plan, n, |plan|) <= Titles(t.items)
    ensures SeedItemsFrom(t, plan, n) == t
    decreases |plan| - n
  {
    if n < |plan| {
      assert plan[n].title in PlanTitles(plan, n, |plan|);
      assert PlanTitles(plan, n + 1, |plan|) <= PlanTitles(plan, n, |plan|);
      SeedItemsComplete(t, plan, n + 1);
    }
  }

  /** The tally of category number `c` after its first `i` indices, against the titles stored before the run. */
  function StatsSoFar(titles: set<string>, plan: seq<Item>, c: nat, i: nat): (s: CategoryStats)
    requires |plan| == PlanSize && c < CategoryCount && i <= ItemsPerCategory
    ensures s.created + s.existing == i
  {
    var created := Missing(titles, plan, ItemsPerCategory * c, ItemsPerCategory * c + i);
    CategoryStats(created, i - created)
  }

  /** The tally `create_seed_items` reports for category number `c`. */
  function ExpectedStats(titles: set<string>, plan: seq<Item>, c: nat): CategoryStats
    requires |plan| == PlanSize && c < CategoryCount
  {
    StatsSoFar(titles, plan, c, ItemsPerCategory)
  }
  /** The returned statistics report, for each category, what the plan predicts from the titles stored beforehand. */
  ghost predicate Reports(stats: map<string, CategoryStats>, titles: set<string>, plan: seq<Item>, categories: seq<string>) {
    && |plan| == PlanSize && |categories| == CategoryCount
    && stats.Keys == (set category | category in categories)
    && forall c :: 0 <= c < CategoryCount ==> categories[c] in stats && stats[categories[c]] == ExpectedStats(titles, plan, c)
  }


  /** A second run over the same plan inserts nothing, and every category reports all its items as existing. */
  lemma SeedItemsRerun(t: Table, plan: seq<Item>)
    requires IdsBelow(t) && |plan| == PlanSize
    ensures var r := SeedItemsFrom(t, plan, 0);
      && SeedItemsFrom(r, plan, 0) == r
      && forall c :: 0 <= c < CategoryCount ==> ExpectedStats(Titles(r.items), plan, c) == CategoryStats(0, ItemsPerCategory)
  {
    var r := SeedItemsFrom(t, plan, 0);
    SeedItemsTitles(t, plan, 0);
    SeedItemsComplete(r, plan, 0);
    forall c | 0 <= c < CategoryCount
      ensures ExpectedStats(Titles(r.items), plan, c) == CategoryStats(0, ItemsPerCategory)
    {
      var lo := ItemsPerCategory * c;
      assert PlanTitles(plan, lo, lo + ItemsPerCategory) <= PlanTitles(plan, 0, PlanSize);
      MissingNone(Titles(r.items), plan, lo, lo + ItemsPerCategory);
    }
  }

  /**
   * The script is safe to run twice: a second run of `create_seed_items` on
   * the table the first run left inserts nothing, and every category then
   * reports all twenty items as existing.
   */
  lemma SeedItemsIdempotent(t: Table, users: map<string, User>, k: Catalog)
    requires ValidCatalog(k) && CoversSellers(users, k.sellers) && IdsBelow(t)
    ensures var r := SeedItemsRun(t, users, k);
      && SeedItemsRun(r, users, k) == r
      && forall c :: 0 <= c < CategoryCount ==> ExpectedStats(Titles(r.items), Plan(users, k), c) == CategoryStats(0, ItemsPerCategory)
  {
    SeedItemsRerun(t, Plan(users, k));
  }

  /** A run over a plan none of whose titles is stored inserts every planned row, and every category reports all its items as created. */
  lemma SeedItemsAllNew(t: Table, plan: seq<Item>)
    requires IdsBelow(t) && |plan| == PlanSize && DistinctTitles(plan)
    requires PlanTitles(plan, 0, PlanSize) !! Titles(t.items)
    ensures |SeedItemsFrom(t, plan, 0).items| == |t.items| + PlanSize
    ensures forall c :: 0 <= c < CategoryCount ==> ExpectedStats(Titles(t.items), plan, c) == CategoryStats(ItemsPerCategory, 0)
  {
    SeedItemsKeeps(t, plan, 0);
    MissingAll(Titles(t.items), plan, 0, PlanSize);
    forall c | 0 <= c < CategoryCount
      ensures ExpectedStats(Titles(t.items), plan, c) == CategoryStats(ItemsPerCategory, 0)
    {
      var lo := ItemsPerCategory * c;
      assert PlanTitles(plan, lo, lo + ItemsPerCategory) <= PlanTitles(plan, 0, PlanSize);
      MissingAll(Titles(t.items), plan, lo, lo + ItemsPerCategory);
    }
  }

  /**
   * On a table holding none of the planned titles (an empty one, say), a run
   * creates all hundred items and every category reports twenty created.
   */
  lemma SeedItemsFresh(t: Table, users: map<string, User>, k: Catalog)
    requires ValidCatalog(k) && CoversSellers(users, k.sellers) && IdsBelow(t)
    requires PlanTitles(Plan(users, k), 0, PlanSize) !! Titles(t.items)
    ensures |SeedItemsRun(t, users, k).items| == |t.items| + PlanSize
    ensures forall c :: 0 <= c < CategoryCount ==> ExpectedStats(Titles(t.items), Plan(users, k), c) == CategoryStats(ItemsPerCategory, 0)
  {
    PlanDistinct(users, k);
    SeedItemsAllNew(t, Plan(users, k));
  }

  /** How many stored rows the user with id `id` sells. */
  function StoredBy(items: map<int, Item>, id: int): nat {
    |set x | x in items && items[x].sellerId == id|
  }

  /** Storing a row under a fresh id adds one to its seller's count and to no other. */
  lemma StoredByInsert(items: map<int, Item>, x: int, item: Item, id: int)
    requires x !in items
    ensures StoredBy(items[x := item], id) == StoredBy(items, id) + (if item.sellerId == id then 1 else 0)
  {
    var before := set y | y in items && items[y].sellerId == id;
    var items' := items[x := item];
    var after := set y | y in items' && items'[y].sellerId == id;
    if item.sellerId == id {
      assert after == before + {x};
    } else {
      assert after == before;
    }
  }

  /**
   * A run over planned rows none of whose titles is stored adds, for every
   * seller, exactly the planned rows it sells.
   */
  lemma {:induction false} SeedItemsFromStoredBy(t: Table, plan: seq<Item>, n: nat, id: int)
    requires IdsBelow(t) && DistinctTitles(plan) && n <= |plan|
    requires PlanTitles(plan, n, |plan|) !! Titles(t.items)
    ensures StoredBy(SeedItemsFrom(t, plan, n).items, id) == StoredBy(t.items, id) + SellerRows(plan, id, n, |plan|)
    decreases |plan| - n
  {
    if n < |plan| {
      assert plan[n].title in PlanTitles(plan, n, |plan|);
      TitlesInsert(t, plan[n]);
      StoredByInsert(t.items, t.nextId, plan[n], id);
      assert PlanTitles(plan, n + 1, |plan|) !! Titles(Insert(t, plan[n]).items) by {
        forall m | n + 1 <= m < |plan| ensures plan[m].title != plan[n].title && plan[m].title !in Titles(t.items) {
          assert plan[m].title in PlanTitles(plan, n, |plan|);
        }
      }
      SeedItemsFromStoredBy(Insert(t, plan[n]), plan, n + 1, id);
    }
  }

  /**
   * On a table holding none of the planned titles, a run stores twenty new
   * items for each of the five sellers when they are different users.
   */
  lemma SeedItemsFreshPerSeller(t: Table, users: map<string, User>, k: Catalog)
    requires ValidCatalog(k) && CoversSellers(users, k.sellers) && DistinctSellerIds(users, k.sellers) && IdsBelow(t)
    requires PlanTitles(Plan(users, k), 0, PlanSize) !! Titles(t.items)
    ensures forall j :: 0 <= j < SellerCount ==>
      StoredBy(SeedItemsRun(t, users, k).items, users[k.sellers[j]].id) == StoredBy(t.items, users[k.sellers[j]].id) + 20
  {
    PlanDistinct(users, k);
    forall j | 0 <= j < SellerCount
      ensures StoredBy(SeedItemsRun(t, users, k).items, users[k.sellers[j]].id) == StoredBy(t.items, users[k.sellers[j]].id) + 20
    {
      SeedItemsFromStoredBy(t, Plan(users, k), 0, users[k.sellers[j]].id);
      PlanSellerShare(users, k, j);
    }
  }

  /** The "created" counts of the first `c` categories, added up. */
  function CreatedSum(titles: set<string>, plan: seq<Item>, c: nat): nat
    requires |plan| == PlanSize && c <= CategoryCount
  {
    if c == 0 then 0 else CreatedSum(titles, plan, c - 1) + ExpectedStats(titles, plan, c - 1).created
  }

  /** The titles missing from the first `c` categories' positions are those the categories count as created. */
  lemma {:induction false} MissingByCategory(titles: set<string>, plan: seq<Item>, c: nat)
    requires |plan| == PlanSize && c <= CategoryCount
    ensures Missing(titles, plan, 0, ItemsPerCategory * c) == CreatedSum(titles, plan, c)
  {
    if c > 0 {
      MissingByCategory(titles, plan, c - 1);
      MissingSplit(titles, plan, 0, ItemsPerCategory * (c - 1), ItemsPerCategory * c);
    }
  }

  /** The per-category "created" counts add up to the rows the run inserts. */
  lemma StatsTotal(t: Table, plan: seq<Item>)
    requires IdsBelow(t) && |plan| == PlanSize && DistinctTitles(plan)
    ensures |SeedItemsFrom(t, plan, 0).items| == |t.items| + CreatedSum(Titles(t.items), plan, CategoryCount)
  {
    SeedItemsKeeps(t, plan, 0);
    MissingByCategory(Titles(t.items), plan, CategoryCount);
  }


  /** A planned title never repeats an earlier position's. */
  lemma PlanTitleNew(plan: seq<Item>, n: nat)
    requires DistinctTitles(plan) && n < |plan|
    ensures plan[n].title !in PlanTitles(plan, 0, n)
    ensures PlanTitles(plan, 0, n + 1) == PlanTitles(plan, 0, n) + {plan[n].title}
  {
  }

  /** The table after the first `n` positions of the plan, as the loop builds it. */
  function SeedItemsUpTo(t: Table, plan: seq<Item>, n: nat): Table
    requires n <= |plan|
  {
    if n == 0 then t else Step(SeedItemsUpTo(t, plan, n - 1), plan[n - 1])
  }

  /** Finishing the rest of the run after the first `n` positions gives the whole run. */
  lemma {:induction false} UpToThenFrom(t: Table, plan: seq<Item>, n: nat)
    requires n <= |plan|
    ensures SeedItemsFrom(SeedItemsUpTo(t, plan, n), plan, n) == SeedItemsFrom(t, plan, 0)
  {
    if n > 0 {
      UpToThenFrom(t, plan, n - 1);
    }
  }

  /** Building the table position by position ends in the same table as the whole run. */
  lemma UpToAll(t: Table, plan: seq<Item>)
    ensures SeedItemsUpTo(t, plan, |plan|) == SeedItemsFrom(t, plan, 0)
  {
    UpToThenFrom(t, plan, |plan|);
  }

  /** After the first `n` positions the stored titles are the old ones plus the planned titles visited. */
  lemma {:induction false} UpToTitles(t: Table, plan: seq<Item>, n: nat)
    requires IdsBelow(t) && n <= |plan|
    ensures IdsBelow(SeedItemsUpTo(t, plan, n))
    ensures Titles(SeedItemsUpTo(t, plan, n).items) == Titles(t.items) + PlanTitles(plan, 0, n)
  {
    if n > 0 {
      UpToTitles(t, plan, n - 1);
      var prev := SeedItemsUpTo(t, plan, n - 1);
      assert PlanTitles(plan, 0, n) == PlanTitles(plan, 0, n - 1) + {plan[n - 1].title};
      if plan[n - 1].title !in Titles(prev.items) {
        TitlesInsert(prev, plan[n - 1]);
      }
    } else {
      assert PlanTitles(plan, 0, 0) == {};
    }
  }

  /** `{cat: {"created": 0, "existing": 0} for cat in categories}`. */
  function InitialStats(categories: seq<string>): (stats: map<string, CategoryStats>)
    ensures stats.Keys == set category | category in categories
    ensures forall category :: category in stats ==> stats[category] == CategoryStats(0, 0)
  {
    map category | category in categories :: CategoryStats(0, 0)
  }

  /** One more row of a category: found already stored, or created. */
  function Bump(s: CategoryStats, existed: bool): (s': CategoryStats)
    ensures s'.created + s'.existing == s.created + s.existing + 1
  {
    if existed then s.(existing := s.existing + 1) else s.(created := s.created + 1)
  }

  /**
   * The tallies after the first `n` positions: each position adds one to
   * "existing" of its row's category when its title is stored at that
   * moment, and one to "created" otherwise.
   */
  function TallyUpTo(t: Table, plan: seq<Item>, categories: seq<string>, n: nat): (stats: map<string, CategoryStats>)
    requires Grouped(plan, categories) && n <= PlanSize
    ensures stats.Keys == set category | category in categories
  {
    if n == 0 then InitialStats(categories)
    else
      var prev := TallyUpTo(t, plan, categories, n - 1);
      var category := plan[n - 1].category;
      prev[category := Bump(prev[category], plan[n - 1].title in Titles(SeedItemsUpTo(t, plan, n - 1).items))]
  }

  /** How many of category `j`'s indices lie among the first `n` positions. */
  function Seen(n: nat, j: nat): (count: nat)
    ensures count <= ItemsPerCategory
  {
    if n <= ItemsPerCategory * j then 0
    else if ItemsPerCategory * j + ItemsPerCategory <= n then ItemsPerCategory
    else n - ItemsPerCategory * j
  }

  /** A position whose title no earlier position has finds it stored exactly when it was stored before the run. */
  lemma TallyUnfold(t: Table, plan: seq<Item>, categories: seq<string>, m: nat)
    requires IdsBelow(t) && Grouped(plan, categories) && m < PlanSize
    requires plan[m].title !in PlanTitles(plan, 0, m)
    ensures var prev := TallyUpTo(t, plan, categories, m);
      TallyUpTo(t, plan, categories, m + 1) == prev[plan[m].category := Bump(prev[plan[m].category], plan[m].title in Titles(t.items))]
  {
    UpToTitles(t, plan, m);
  }

  /** Counting one more index of category `c` against fixed titles. */
  lemma StatsSoFarNext(titles: set<string>, plan: seq<Item>, c: nat, i: nat)
    requires |plan| == PlanSize && c < CategoryCount && i < ItemsPerCategory
    ensures StatsSoFar(titles, plan, c, i + 1) == Bump(StatsSoFar(titles, plan, c, i), plan[ItemsPerCategory * c + i].title in titles)
  {
    MissingSnoc(titles, plan, ItemsPerCategory * c, ItemsPerCategory * c + i);
  }

  /** One position of the tally, for a position whose title no earlier position of the plan has. */
  lemma TallyStep(t: Table, plan: seq<Item>, categories: seq<string>, m: nat)
    requires IdsBelow(t) && Grouped(plan, categories) && Collections.NoDuplicates(categories) && m < PlanSize
    requires plan[m].title !in PlanTitles(plan, 0, m)
    requires forall j :: 0 <= j < CategoryCount ==>
      TallyUpTo(t, plan, categories, m)[categories[j]] == StatsSoFar(Titles(t.items), plan, j, Seen(m, j))
    ensures forall j :: 0 <= j < CategoryCount ==>
      TallyUpTo(t, plan, categories, m + 1)[categories[j]] == StatsSoFar(Titles(t.items), plan, j, Seen(m + 1, j))
  {
    var c, i := m / ItemsPerCategory, m % ItemsPerCategory;
    assert m == ItemsPerCategory * c + i;
    TallyUnfold(t, plan, categories, m);
    StatsSoFarNext(Titles(t.items), plan, c, i);
    forall j | 0 <= j < CategoryCount
      ensures TallyUpTo(t, plan, categories, m + 1)[categories[j]] == StatsSoFar(Titles(t.items), plan, j, Seen(m + 1, j))
    {
      if j == c {
        assert Seen(m, j) == i && Seen(m + 1, j) == i + 1;
      } else {
        if j < c {
          Collections.NoDuplicatesAt(categories, j, c);
        } else {
          Collections.NoDuplicatesAt(categories, c, j);
        }
        assert Seen(m, j) == Seen(m + 1, j);
      }
    }
  }

  /**
   * The running tally agrees with counting against the titles stored before
   * the run: since the plan's titles are distinct, a row the run added never
   * makes a later position count as existing.
   */
  lemma {:induction false} TallyMatches(t: Table, plan: seq<Item>, categories: seq<string>, n: nat)
    requires IdsBelow(t) && Grouped(plan, categories) && DistinctTitles(plan) && n <= PlanSize
    requires Collections.NoDuplicates(categories)
    ensures forall j :: 0 <= j < CategoryCount ==>
      TallyUpTo(t, plan, categories, n)[categories[j]] == StatsSoFar(Titles(t.items), plan, j, Seen(n, j))
  {
    if n > 0 {
      TallyMatches(t, plan, categories, n - 1);
      PlanTitleNew(plan, n - 1);
      TallyStep(t, plan, categories, n - 1);
    }
  }

  /** Every category has all its indices among the plan's positions. */
  lemma SeenAll(j: nat)
    requires j < CategoryCount
    ensures Seen(PlanSize, j) == ItemsPerCategory
  {
    assert ItemsPerCategory * j + ItemsPerCategory <= ItemsPerCategory * CategoryCount;
  }

  /** Tallied over the whole plan, the statistics are the expected ones for every category. */
  lemma TallyReports(t: Table, plan: seq<Item>, categories: seq<string>)
    requires IdsBelow(t) && Grouped(plan, categories) && DistinctTitles(plan)
    requires Collections.NoDuplicates(categories)
    ensures Reports(TallyUpTo(t, plan, categories, PlanSize), Titles(t.items), plan, categories)
  {
    TallyMatches(t, plan, categories, PlanSize);
    forall j | 0 <= j < CategoryCount
      ensures TallyUpTo(t, plan, categories, PlanSize)[categories[j]] == ExpectedStats(Titles(t.items), plan, j)
    {
      SeenAll(j);
    }
  }

  /** After the whole plan, the fold is the run and each category's tally is its expected statistics. */
  lemma SeedItemsResult(t0: Table, users: map<string, User>, k: Catalog)
    requires IdsBelow(t0) && ValidCatalog(k) && CoversSellers(users, k.sellers)
    ensures Grouped(Plan(users, k), k.categories)
    ensures SeedItemsUpTo(t0, Plan(users, k), PlanSize) == SeedItemsRun(t0, users, k)
    ensures Reports(TallyUpTo(t0, Plan(users, k), k.categories, PlanSize), Titles(t0.items), Plan(users, k), k.categories)
  {
    PlanGrouped(users, k);
    UpToAll(t0, Plan(users, k));
    PlanDistinct(users, k);
    TallyReports(t0, Plan(users, k), k.categories);
  }
}
