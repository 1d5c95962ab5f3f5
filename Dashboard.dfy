/**
 * The dashboard page: the token guard of its load effect and the
 * case-insensitive search over the loaded listings.
 */
module Dashboard {
  import opened Storage
  import Text
  import Collections

  /** One card of the browse grid. */
  datatype Listing = Listing(id: int, title: string, price: real, seller: string, category: string, image: string)

  /**
   * The search predicate: the lowercased query occurs in the lowercased
   * title or in the lowercased category.
   */
  predicate Matches(listing: Listing, query: string): (b: bool)
    ensures |query| == 0 ==> b
  {
    var q := Text.ToLower(query);
    Text.Contains(Text.ToLower(listing.title), q) || Text.Contains(Text.ToLower(listing.category), q)
  }

  /**
   * `filteredListings`: the listings that match the query, in their original
   * order, each as often as it occurs in `listings`.
   */
  function FilterListings(listings: seq<Listing>, query: string): (r: seq<Listing>)
    ensures |r| <= |listings|
    ensures Collections.IsSubsequence(r, listings)
    ensures forall l :: l in r <==> l in listings && Matches(l, query)
    ensures forall l :: multiset(r)[l] == if Matches(l, query) then multiset(listings)[l] else 0
  {
    if listings == [] then []
    else
      var rest := FilterListings(listings[1..], query);
      assert listings == [listings[0]] + listings[1..];
      if Matches(listings[0], query) then
        assert ([listings[0]] + rest)[1..] == rest;
        [listings[0]] + rest
      else rest
  }

  /** The empty query occurs in every title, so it keeps every listing. */
  lemma {:induction false} EmptyQueryKeepsAll(listings: seq<Listing>)
    ensures FilterListings(listings, "") == listings
  {
    if listings != [] {
      assert Matches(listings[0], "");
      EmptyQueryKeepsAll(listings[1..]);
      assert listings == [listings[0]] + listings[1..];
    }
  }

  /** Queries that differ only in the case of their letters select the same listings. */
  lemma {:induction false} FilterIgnoresCase(listings: seq<Listing>, q1: string, q2: string)
    requires Text.ToLower(q1) == Text.ToLower(q2)
    ensures FilterListings(listings, q1) == FilterListings(listings, q2)
  {
    if listings != [] {
      assert Matches(listings[0], q1) == Matches(listings[0], q2);
      FilterIgnoresCase(listings[1..], q1, q2);
    }
  }

  /** A query is found in a listing whatever the case of the query's letters. */
  lemma MatchesLowercasedQuery(listing: Listing, query: string)
    ensures Matches(listing, Text.ToLower(query)) == Matches(listing, query)
  {
    Text.ToLowerIdempotent(query);
  }

  /** `if (!token)`: a stored `gator_token` that is not the empty string. */
  predicate HasToken(entries: map<string, Value>) {
    GatorTokenKey in entries && entries[GatorTokenKey] != Text("")
  }

  /** The dashboard's state: the user it was opened for, the search box and the two loaded lists. */
  class DashboardPage {
    const userEmail: string
    var searchQuery: string
    var listings: seq<Listing>
    var myListings: seq<Listing>

    /** First render: empty search box, nothing loaded yet. */
    constructor (userEmail: string)
      ensures this.userEmail == userEmail
      ensures searchQuery == "" && listings == [] && myListings == []
    {
      this.userEmail := userEmail;
      searchQuery := "";
      listings := [];
      myListings := [];
    }

    /** Typing in the search box. */
    method SetSearchQuery(query: string)
      modifies this
      ensures searchQuery == query && listings == old(listings) && myListings == old(myListings)
    {
      searchQuery := query;
    }

    /**
     * `fetchListings`: without a truthy `gator_token` it asks to be logged out
     * and loads nothing; otherwise it installs the two lists the listing
     * endpoints hand back and stays logged in.
     */
    method FetchListings(store: LocalStorage, all: seq<Listing>, mine: seq<Listing>) returns (logout: bool)
      modifies this
      ensures logout <==> !HasToken(store.entries)
      ensures logout ==> listings == old(listings) && myListings == old(myListings)
      ensures !logout ==> listings == all && myListings == mine
      ensures searchQuery == old(searchQuery)
    {
      var token := store.GetItem(GatorTokenKey);
      if token.None? || token.value == Text("") {
        return true;
      }
      listings := all;
      myListings := mine;
      logout := false;
    }

    /** The grid shown on the browse tab: the loaded listings filtered by the search box. */
    function FilteredListings(): (r: seq<Listing>)
      reads this
      ensures forall l :: l in r <==> l in listings && Matches(l, searchQuery)
    {
      FilterListings(listings, searchQuery)
    }
  }
}
