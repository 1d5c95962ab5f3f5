/**
 * The item routes of the back end: list the active items, create an item
 * for the current user, delete an item, mark an item as sold. The current
 * user is resolved from the bearer token before a route runs; here it is a
 * parameter.
 */
module Items {
  import opened Wrappers
  import opened Models

  const AllFieldsRequired: string := "All fields are required."
  const PriceNotPositive: string := "Price must be a positive number."
  const ItemNotFound: string := "Item not found"
  const ItemDeleted: string := "Item deleted successfully"
  const ItemMarkedSold: string := "Item marked as sold"

  /** A required field is missing: empty text, or a price of zero (which Python treats as false). */
  predicate MissingField(item: Item) {
    item.title == "" || item.price == 0.0 || item.category == "" || item.description == ""
  }

  /**
   * The checks of `create_item` before anything is stored: missing fields
   * first (so a zero price is reported as missing), then a negative price.
   */
  function ValidateItem(item: Item): (r: Option<HttpError>)
    ensures r.None? <==> item.title != "" && item.category != "" && item.description != "" && item.price > 0.0
    ensures MissingField(item) ==> r == Some(HttpError(400, AllFieldsRequired))
    ensures !MissingField(item) && item.price < 0.0 ==> r == Some(HttpError(400, PriceNotPositive))
    ensures r.Some? ==> r.value.status == 400
  {
    if MissingField(item) then Some(HttpError(400, AllFieldsRequired))
    else if item.price <= 0.0 then Some(HttpError(400, PriceNotPositive))
    else None
  }

  /** `get_active_items`: exactly the stored items whose `is_active` is true, with their ids. */
  function GetActiveItems(db: Database): (r: map<int, Item>)
    reads db
    ensures forall id :: id in r <==> id in db.items && db.items[id].isActive
    ensures forall id :: id in r ==> r[id] == db.items[id]
  {
    map id | id in db.items && db.items[id].isActive :: db.items[id]
  }

  /**
   * `create_item`: rejects an invalid item and stores nothing; otherwise
   * stores the item with the current user as seller, whatever seller the
   * request named, and returns it with its new id.
   */
  method CreateItem(db: Database, item: Item, currentUserId: int) returns (r: Result<(int, Item), HttpError>)
    requires db.Valid()
    modifies db
    ensures db.Valid()
    ensures db.users == old(db.users)
    ensures r.Failure? <==> ValidateItem(item).Some?
    ensures r.Failure? ==> r.error == ValidateItem(item).value && db.items == old(db.items)
    ensures r.Success? ==>
      var (id, stored) := r.value;
      && stored == item.(sellerId := currentUserId)
      && id !in old(db.items)
      && db.items == old(db.items)[id := stored]
  {
    var invalid := ValidateItem(item);
    if invalid.Some? {
      return Failure(invalid.value);
    }
    var stored := item.(sellerId := currentUserId);
    var id := db.AddItem(stored);
    r := Success((id, stored));
  }

  /** `delete_item`: 404 for an unknown id; otherwise removes exactly that item. */
  method DeleteItem(db: Database, itemId: int) returns (r: Result<string, HttpError>)
    requires db.Valid()
    modifies db
    ensures db.Valid()
    ensures db.users == old(db.users) && db.nextItemId == old(db.nextItemId)
    ensures itemId !in old(db.items) ==> r == Failure(HttpError(404, ItemNotFound)) && db.items == old(db.items)
    ensures itemId in old(db.items) ==> r == Success(ItemDeleted) && db.items == old(db.items) - {itemId}
  {
    if itemId !in db.items {
      return Failure(HttpError(404, ItemNotFound));
    }
    db.items := db.items - {itemId};
    r := Success(ItemDeleted);
  }

  /**
   * `mark_item_as_sold`: 404 for an unknown id; otherwise clears only that
   * item's `is_active` flag, so it leaves the active listing. Marking a sold
   * item again leaves the table as it was.
   */
  method MarkItemAsSold(db: Database, itemId: int) returns (r: Result<string, HttpError>)
    requires db.Valid()
    modifies db
    ensures db.Valid()
    ensures db.users == old(db.users) && db.nextItemId == old(db.nextItemId)
    ensures itemId !in old(db.items) ==> r == Failure(HttpError(404, ItemNotFound)) && db.items == old(db.items)
    ensures itemId in old(db.items) ==>
      && r == Success(ItemMarkedSold)
      && db.items == old(db.items)[itemId := old(db.items)[itemId].(isActive := false)]
      && itemId !in GetActiveItems(db)
    ensures itemId in old(db.items) && !old(db.items)[itemId].isActive ==> db.items == old(db.items)
  {
    if itemId !in db.items {
      return Failure(HttpError(404, ItemNotFound));
    }
    db.items := db.items[itemId := db.items[itemId].(isActive := false)];
    r := Success(ItemMarkedSold);
  }
}
