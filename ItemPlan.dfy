/**
 * The rows the item seeder plans: twenty items in each of five categories,
 * built from the category's templates and image, dealt round-robin to the
 * five sellers, with a title made unique by a running counter.
 */
module ItemPlan {
  import opened Models
  import opened SeedData
  import Text
  import Collections

  /**
   * The tables the item seeder reads: the categories in visiting order, the
   * sellers' emails in dealing order, and the templates and image of each
   * category. The seeder's own tables are `SeedCatalog`; the item plan is
   * stated for any catalog that has what the seeder looks up.
   */
  datatype Catalog = Catalog(
    categories: seq<string>,
    sellers: seq<string>,
    templates: map<string, seq<Template>>,
    images: map<string, string>)

  /** Number of categories the seeder visits. */
  const CategoryCount: nat := 5

  /** Number of sellers the items are dealt to: `user_emails[i % 5]`. */
  const SellerCount: nat := 5

  /** `categories`, `user_emails`, `ITEM_TEMPLATES` and `CATEGORY_IMAGES`. */
  const SeedCatalog := Catalog(Categories, UserEmails, ItemTemplates, CategoryImages)

  /**
   * Five distinct categories and five sellers; every category has an image
   * and at least one template, and every template a positive price range.
   */
  ghost predicate ValidCatalog(k: Catalog) {
    && |k.categories| == CategoryCount
    && |k.sellers| == SellerCount
    && Collections.NoDuplicates(k.categories)
    && forall c :: 0 <= c < |k.categories| ==> ValidCategory(k, k.categories[c])
  }

  /** The category has an image and at least one template, each with a positive price range. */
  ghost predicate ValidCategory(k: Catalog, category: string) {
    && category in k.templates && category in k.images
    && |k.templates[category]| > 0
    && forall j :: 0 <= j < |k.templates[category]| ==>
         0 < k.templates[category][j].priceMin <= k.templates[category][j].priceMax
  }

  /** Every template in `templates` has a positive price range. */
  ghost predicate PriceRanges(templates: seq<Template>) {
    forall j :: 0 <= j < |templates| ==> 0 < templates[j].priceMin <= templates[j].priceMax
  }

  /** The twenty `school` templates have positive price ranges. */
  lemma SchoolPrices()
    ensures |SchoolTemplates| == ItemsPerCategory && PriceRanges(SchoolTemplates)
  {
  }

  /** The twenty `apparel` templates have positive price ranges. */
  lemma ApparelPrices()
    ensures |ApparelTemplates| == ItemsPerCategory && PriceRanges(ApparelTemplates)
  {
  }

  /** The twenty `living` templates have positive price ranges. */
  lemma LivingPrices()
    ensures |LivingTemplates| == ItemsPerCategory && PriceRanges(LivingTemplates)
  {
  }

  /** The twenty `services` templates have positive price ranges. */
  lemma ServicesPrices()
    ensures |ServicesTemplates| == ItemsPerCategory && PriceRanges(ServicesTemplates)
  {
  }

  /** The twenty `tickets` templates have positive price ranges. */
  lemma TicketsPrices()
    ensures |TicketsTemplates| == ItemsPerCategory && PriceRanges(TicketsTemplates)
  {
  }

  /** Each category of the seeder's tables has an image and twenty templates with positive price ranges. */
  lemma CategoryFacts(c: nat)
    requires c < |Categories|
    ensures Categories[c] in ItemTemplates && Categories[c] in CategoryImages
    ensures |ItemTemplates[Categories[c]]| == ItemsPerCategory
    ensures PriceRanges(ItemTemplates[Categories[c]])
  {
    if c == 0 {
      SchoolPrices();
      assert ItemTemplates[Categories[c]] == SchoolTemplates;
    } else if c == 1 {
      ApparelPrices();
      assert ItemTemplates[Categories[c]] == ApparelTemplates;
    } else if c == 2 {
      LivingPrices();
      assert ItemTemplates[Categories[c]] == LivingTemplates;
    } else if c == 3 {
      ServicesPrices();
      assert ItemTemplates[Categories[c]] == ServicesTemplates;
    } else {
      TicketsPrices();
      assert ItemTemplates[Categories[c]] == TicketsTemplates;
    }
  }

  /** The five categories of the seeder's tables are distinct. */
  lemma CategoriesDistinct()
    ensures Collections.NoDuplicates(Categories)
  {
    assert Categories == ["school", "apparel", "living", "services", "tickets"];
    assert "school" !in ["apparel", "living", "services", "tickets"];
    assert "apparel" !in ["living", "services", "tickets"];
    assert "living" !in ["services", "tickets"];
    assert "services" != "tickets";
  }

  /** The seeder's own tables are a valid catalog. */
  lemma SeedCatalogValid()
    ensures ValidCatalog(SeedCatalog)
  {
    CategoriesDistinct();
    forall c | 0 <= c < |Categories| ensures ValidCategory(SeedCatalog, Categories[c]) {
      CategoryFacts(c);
    }
  }

  /** `f"{title_base} — Seed #{item_counter}"`. */
  function SeedTitle(titleBase: string, counter: nat): string {
    titleBase + " — Seed #" + Text.NatToString(counter)
  }

  /** Two seed titles are equal only if their counters are. */
  lemma SeedTitleInjective(base1: string, counter1: nat, base2: string, counter2: nat)
    requires SeedTitle(base1, counter1) == SeedTitle(base2, counter2)
    ensures counter1 == counter2
  {
    var x1, x2 := base1 + " — Seed #", base2 + " — Seed #";
    var d1, d2 := Text.NatToString(counter1), Text.NatToString(counter2);
    assert x1[|x1| - 1] == '#' && x2[|x2| - 1] == '#';
    assert SeedTitle(base1, counter1) == x1 + d1 && SeedTitle(base2, counter2) == x2 + d2;
    Text.TailAfterMarker(x1, d1, x2, d2, '#');
    Text.NatToStringInjective(counter1, counter2);
  }

  /** The template used for index `i` of category number `c`: `templates[i % len(templates)]`. */
  function TemplateAt(k: Catalog, c: nat, i: nat): (t: Template)
    requires ValidCatalog(k) && c < CategoryCount
    ensures 0 < t.priceMin <= t.priceMax
  {
    var templates := k.templates[k.categories[c]];
    templates[i % |templates|]
  }

  /** A share `a / d` with `0 <= a <= d` lies between 0 and 1. */
  lemma ShareBounds(a: nat, d: nat)
    requires 0 <= a <= d && 0 < d
    ensures 0.0 <= a as real / d as real <= 1.0
  {
    var q := a as real / d as real;
    assert q * d as real == a as real;
  }

  /**
   * The seed price before rounding: `price_min + (price_max - price_min) *
   * (i % n) / max(n - 1, 1)` for `n` templates, so it lies in the template's
   * range and is positive.
   */
  function SeedPrice(t: Template, i: nat, n: nat): (price: real)
    requires 0 < t.priceMin <= t.priceMax && 0 < n
    ensures t.priceMin as real <= price <= t.priceMax as real
  {
    var d := if n - 1 > 1 then n - 1 else 1;
    var share := (i % n) as real / d as real;
    ShareBounds(i % n, d);
    t.priceMin as real + (t.priceMax - t.priceMin) as real * share
  }

  /** `f"{title_base} for {category} category. High quality and great condition!"`. */
  function SeedDescription(titleBase: string, category: string): string {
    titleBase + " for " + category + " category. High quality and great condition!"
  }

  /** The running counter's value at index `i` of category number `c`: it starts at 1 and counts every index. */
  function Counter(c: nat, i: nat): nat {
    ItemsPerCategory * c + i + 1
  }

  /** The title the seeder looks for, and creates, at index `i` of category number `c`. */
  function PlanTitle(k: Catalog, c: nat, i: nat): string
    requires ValidCatalog(k) && c < CategoryCount
  {
    SeedTitle(TemplateAt(k, c, i).titleBase, Counter(c, i))
  }

  /** All hundred planned titles are distinct, whatever the templates. */
  lemma PlanTitlesDistinct(k: Catalog, c1: nat, i1: nat, c2: nat, i2: nat)
    requires ValidCatalog(k)
    requires c1 < CategoryCount && i1 < ItemsPerCategory
    requires c2 < CategoryCount && i2 < ItemsPerCategory
    requires PlanTitle(k, c1, i1) == PlanTitle(k, c2, i2)
    ensures c1 == c2 && i1 == i2
  {
    SeedTitleInjective(TemplateAt(k, c1, i1).titleBase, Counter(c1, i1), TemplateAt(k, c2, i2).titleBase, Counter(c2, i2));
  }

  /** Every seller is a key of the map `create_seed_users` returned, so `users[user_email]` succeeds. */
  predicate CoversSellers(users: map<string, User>, sellers: seq<string>) {
    forall j :: 0 <= j < |sellers| ==> sellers[j] in users
  }

  /** The seller of index `i` in every category: `user_emails[i % 5]`. */
  function SellerEmail(k: Catalog, i: nat): string
    requires ValidCatalog(k)
  {
    k.sellers[i % SellerCount]
  }

  /** The row the seeder creates at index `i` of category number `c` when its title is absent. */
  function PlannedItem(users: map<string, User>, k: Catalog, c: nat, i: nat): Item
    requires ValidCatalog(k) && CoversSellers(users, k.sellers)
    requires c < CategoryCount
  {
    var category := k.categories[c];
    var template := TemplateAt(k, c, i);
    Item(
      PlanTitle(k, c, i),
      SeedDescription(template.titleBase, category),
      SeedPrice(template, i, |k.templates[category]|),
      category,
      k.images[category],
      true,
      users[SellerEmail(k, i)].id)
  }

  /**
   * Every seeded row is sold by the round-robin seller and has a positive
   * price in its template's range. The remaining conjuncts (active, its
   * category, that category's image, the planned title) are read off the
   * fields `PlannedItem` sets, and are collected here for callers.
   */
  lemma PlannedItemShape(users: map<string, User>, k: Catalog, c: nat, i: nat)
    requires ValidCatalog(k) && CoversSellers(users, k.sellers)
    requires c < CategoryCount
    ensures var item := PlannedItem(users, k, c, i);
      var template := TemplateAt(k, c, i);
      && item.isActive
      && item.category == k.categories[c]
      && item.category in k.images && item.image == k.images[item.category]
      && item.sellerId == users[k.sellers[i % 5]].id
      && template.priceMin as real <= item.price <= template.priceMax as real
      && item.price > 0.0
      && item.title == PlanTitle(k, c, i)
  {
  }

  /** The number of planned items: twenty in each of the five categories. */
  const PlanSize: nat := 100

  /** Position `n` of the plan is index `n % 20` of category number `n / 20`; its counter is `n + 1`. */
  lemma FlatIndex(c: nat, i: nat)
    requires i < ItemsPerCategory
    ensures (ItemsPerCategory * c + i) / ItemsPerCategory == c
    ensures (ItemsPerCategory * c + i) % ItemsPerCategory == i
  {
  }

  /** The row planned for position `n` of the hundred. */
  function PlannedAt(users: map<string, User>, k: Catalog, n: nat): Item
    requires ValidCatalog(k) && CoversSellers(users, k.sellers) && n < PlanSize
  {
    PlannedItem(users, k, n / ItemsPerCategory, n % ItemsPerCategory)
  }

  /** The planned row of every position, as a function of the position. */
  function PlanRow(users: map<string, User>, k: Catalog): (row: nat --> Item)
    requires ValidCatalog(k) && CoversSellers(users, k.sellers)
    ensures forall n: nat :: n < PlanSize ==> row.requires(n)
  {
    (n: nat) requires n < PlanSize => PlannedAt(users, k, n)
  }

  /** The hundred rows the seeder plans, in the order it visits them. */
  function Plan(users: map<string, User>, k: Catalog): (plan: seq<Item>)
    requires ValidCatalog(k) && CoversSellers(users, k.sellers)
    ensures |plan| == PlanSize
  {
    seq(PlanSize, PlanRow(users, k))
  }

  /** Position `m` of the plan is index `m % 20` of category number `m / 20`. */
  lemma PlanIndex(users: map<string, User>, k: Catalog)
    requires ValidCatalog(k) && CoversSellers(users, k.sellers)
    ensures forall m :: 0 <= m < PlanSize ==>
      Plan(users, k)[m] == PlannedItem(users, k, m / ItemsPerCategory, m % ItemsPerCategory)
  {
  }

  /** No two rows of a plan share a title. */
  ghost predicate DistinctTitles(plan: seq<Item>) {
    forall m, n :: 0 <= m < n < |plan| ==> plan[m].title != plan[n].title
  }

  /** The seeder's plan has distinct titles: the counter makes each one unique. */
  lemma PlanDistinct(users: map<string, User>, k: Catalog)
    requires ValidCatalog(k) && CoversSellers(users, k.sellers)
    ensures DistinctTitles(Plan(users, k))
  {
    var plan := Plan(users, k);
    PlanIndex(users, k);
    forall m, n | 0 <= m < n < |plan| ensures plan[m].title != plan[n].title {
      if plan[m].title == plan[n].title {
        PlanTitlesDistinct(k, m / ItemsPerCategory, m % ItemsPerCategory, n / ItemsPerCategory, n % ItemsPerCategory);
      }
    }
  }

  /** Index `i` of category number `c` is position `20 * c + i` of the plan. */
  lemma PlanAt(users: map<string, User>, k: Catalog, c: nat, i: nat)
    requires ValidCatalog(k) && CoversSellers(users, k.sellers) && c < CategoryCount && i < ItemsPerCategory
    ensures Plan(users, k)[ItemsPerCategory * c + i] == PlannedItem(users, k, c, i)
  {
    FlatIndex(c, i);
  }

  /** How many of the indices `lo` to `hi - 1` of a category go to seller number `j`. */
  function DealtTo(j: nat, lo: nat, hi: nat): nat
    decreases hi - lo
  {
    if lo >= hi then 0
    else (if lo % SellerCount == j then 1 else 0) + DealtTo(j, lo + 1, hi)
  }

  /** The seller index after `lo` wraps around after the last seller. */
  lemma NextSeller(lo: nat)
    ensures (lo + 1) % SellerCount == if lo % SellerCount == SellerCount - 1 then 0 else lo % SellerCount + 1
  {
  }

  /** Five consecutive indices give seller number `j` exactly one item. */
  lemma SellerBlock(j: nat, lo: nat, hi: nat)
    requires j < SellerCount && lo + SellerCount <= hi
    ensures DealtTo(j, lo, hi) == 1 + DealtTo(j, lo + SellerCount, hi)
  {
    NextSeller(lo);
    NextSeller(lo + 1);
    NextSeller(lo + 2);
    NextSeller(lo + 3);
    assert DealtTo(j, lo, hi) == (if lo % SellerCount == j then 1 else 0) + DealtTo(j, lo + 1, hi);
    assert DealtTo(j, lo + 1, hi) == (if (lo + 1) % SellerCount == j then 1 else 0) + DealtTo(j, lo + 2, hi);
    assert DealtTo(j, lo + 2, hi) == (if (lo + 2) % SellerCount == j then 1 else 0) + DealtTo(j, lo + 3, hi);
    assert DealtTo(j, lo + 3, hi) == (if (lo + 3) % SellerCount == j then 1 else 0) + DealtTo(j, lo + 4, hi);
    assert DealtTo(j, lo + 4, hi) == (if (lo + 4) % SellerCount == j then 1 else 0) + DealtTo(j, lo + 5, hi);
  }

  /** Round-robin assignment deals four of the twenty indices of a category to each of the five sellers. */
  lemma SellerShare(j: nat)
    requires j < SellerCount
    ensures DealtTo(j, 0, ItemsPerCategory) == 4
  {
    SellerBlock(j, 0, 20);
    SellerBlock(j, 5, 20);
    SellerBlock(j, 10, 20);
    SellerBlock(j, 15, 20);
  }

  /** How many of the plan's positions `lo` to `hi - 1` are sold by the user with id `id`. */
  function SellerRows(plan: seq<Item>, id: int, lo: nat, hi: nat): nat
    requires hi <= |plan|
    decreases hi - lo
  {
    if lo >= hi then 0
    else (if plan[lo].sellerId == id then 1 else 0) + SellerRows(plan, id, lo + 1, hi)
  }

  /** Counting over two adjacent ranges is counting over their union. */
  lemma {:induction false} SellerRowsSplit(plan: seq<Item>, id: int, lo: nat, mid: nat, hi: nat)
    requires lo <= mid <= hi <= |plan|
    ensures SellerRows(plan, id, lo, hi) == SellerRows(plan, id, lo, mid) + SellerRows(plan, id, mid, hi)
    decreases mid - lo
  {
    if lo < mid {
      SellerRowsSplit(plan, id, lo + 1, mid, hi);
    }
  }

  /** The sellers are different users: no two of them share a user id. */
  ghost predicate DistinctSellerIds(users: map<string, User>, sellers: seq<string>)
    requires CoversSellers(users, sellers)
  {
    forall a, b :: 0 <= a < b < |sellers| ==> users[sellers[a]].id != users[sellers[b]].id
  }

  /** Planned row `i` of category `c` is sold by seller number `j` exactly when index `i` is dealt to `j`. */
  lemma RowSoldBy(users: map<string, User>, k: Catalog, c: nat, j: nat, i: nat)
    requires ValidCatalog(k) && CoversSellers(users, k.sellers) && DistinctSellerIds(users, k.sellers)
    requires c < CategoryCount && j < SellerCount && i < ItemsPerCategory
    ensures (Plan(users, k)[ItemsPerCategory * c + i].sellerId == users[k.sellers[j]].id) <==> i % SellerCount == j
  {
    PlanAt(users, k, c, i);
    var s := i % SellerCount;
    assert Plan(users, k)[ItemsPerCategory * c + i].sellerId == users[k.sellers[s]].id;
    if s < j {
      assert users[k.sellers[s]].id != users[k.sellers[j]].id;
    } else if j < s {
      assert users[k.sellers[j]].id != users[k.sellers[s]].id;
    }
  }

  /**
   * Within category number `c`, the planned rows from index `lo` on that
   * seller number `j` sells are the indices dealt to it.
   */
  lemma {:induction false} CategorySellerRowsFrom(users: map<string, User>, k: Catalog, c: nat, j: nat, lo: nat)
    requires ValidCatalog(k) && CoversSellers(users, k.sellers) && DistinctSellerIds(users, k.sellers)
    requires c < CategoryCount && j < SellerCount && lo <= ItemsPerCategory
    ensures SellerRows(Plan(users, k), users[k.sellers[j]].id, ItemsPerCategory * c + lo, ItemsPerCategory * c + ItemsPerCategory)
         == DealtTo(j, lo, ItemsPerCategory)
    decreases ItemsPerCategory - lo
  {
    if lo < ItemsPerCategory {
      CategorySellerRowsFrom(users, k, c, j, lo + 1);
      RowSoldBy(users, k, c, j, lo);
    }
  }

  /** Each of the five sellers sells four of the twenty planned rows of every category. */
  lemma CategorySellerRows(users: map<string, User>, k: Catalog, c: nat, j: nat)
    requires ValidCatalog(k) && CoversSellers(users, k.sellers) && DistinctSellerIds(users, k.sellers)
    requires c < CategoryCount && j < SellerCount
    ensures SellerRows(Plan(users, k), users[k.sellers[j]].id, ItemsPerCategory * c, ItemsPerCategory * c + ItemsPerCategory) == 4
  {
    CategorySellerRowsFrom(users, k, c, j, 0);
    SellerShare(j);
  }

  /** Over the first `c` categories, seller number `j` sells four planned rows per category. */
  lemma {:induction false} SellerRowsUpTo(users: map<string, User>, k: Catalog, j: nat, c: nat)
    requires ValidCatalog(k) && CoversSellers(users, k.sellers) && DistinctSellerIds(users, k.sellers)
    requires j < SellerCount && c <= CategoryCount
    ensures SellerRows(Plan(users, k), users[k.sellers[j]].id, 0, ItemsPerCategory * c) == 4 * c
  {
    if c > 0 {
      SellerRowsUpTo(users, k, j, c - 1);
      SellerRowsSplit(Plan(users, k), users[k.sellers[j]].id, 0, ItemsPerCategory * (c - 1), ItemsPerCategory * c);
      CategorySellerRows(users, k, c - 1, j);
    }
  }

  /**
   * Round-robin dealing, counted on the planned rows: when the five sellers
   * are different users, each sells four rows of every category and twenty
   * of the hundred.
   */
  lemma PlanSellerShare(users: map<string, User>, k: Catalog, j: nat)
    requires ValidCatalog(k) && CoversSellers(users, k.sellers) && DistinctSellerIds(users, k.sellers)
    requires j < SellerCount
    ensures forall c :: 0 <= c < CategoryCount ==>
      SellerRows(Plan(users, k), users[k.sellers[j]].id, ItemsPerCategory * c, ItemsPerCategory * c + ItemsPerCategory) == 4
    ensures SellerRows(Plan(users, k), users[k.sellers[j]].id, 0, PlanSize) == 20
  {
    forall c | 0 <= c < CategoryCount
      ensures SellerRows(Plan(users, k), users[k.sellers[j]].id, ItemsPerCategory * c, ItemsPerCategory * c + ItemsPerCategory) == 4
    {
      CategorySellerRows(users, k, c, j);
    }
    SellerRowsUpTo(users, k, j, CategoryCount);
  }

  /** The plan lists the catalog's categories in order, twenty positions each. */
  ghost predicate Grouped(plan: seq<Item>, categories: seq<string>) {
    && |plan| == PlanSize && |categories| == CategoryCount
    && forall n :: 0 <= n < |plan| ==> plan[n].category == categories[n / ItemsPerCategory]
  }

  /** The seeder's plan is grouped by category. */
  lemma PlanGrouped(users: map<string, User>, k: Catalog)
    requires ValidCatalog(k) && CoversSellers(users, k.sellers)
    ensures Grouped(Plan(users, k), k.categories)
  {
    PlanIndex(users, k);
  }
}
