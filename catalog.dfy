/** The public catalog (App.tsx): the route table, the list page's filter
    and sort, the detail page's lookup and the layout's search and sort
    state. The item list is a parameter: the catalog data module is not
    part of this model. */
module Catalog {
  import opened Types
  import opened Seqs
  import opened Sorting

  /** The category a list page shows: every item, or one category. */
  datatype PageCategory = All | Only(category: AppCategory)

  /** The library calls the list page relies on:
      `String.prototype.toLowerCase`, `localeCompare(_, 'ar')` and
      `new Date(_).getTime()` on an upload date. */
  datatype Locale = Locale(
    lower: string -> string,
    collate: (string, string) -> int,
    time: string -> int)

  // ---------------------------------------------------------------------
  // Routes
  // ---------------------------------------------------------------------

  /** What a path shows. */
  datatype Page = ListPage(category: PageCategory) | DetailPage(id: string) | NoPage

  const DetailsPrefix: string := "/details/"

  /** A value the `:id` segment can take: non-empty, without a slash. */
  predicate IsSegment(id: string)
  {
    id != [] && '/' !in id
  }

  /** The route table: `/` and its three children show a list page, and
      `/details/:id` shows the detail page for that id. */
  function Route(path: string): (p: Page)
    ensures p.DetailPage? ==> IsSegment(p.id)
  {
    if path == "/" then ListPage(All)
    else if path == "/games" then ListPage(Only(Game))
    else if path == "/apps" then ListPage(Only(App))
    else if path == "/software" then ListPage(Only(Software))
    else if |DetailsPrefix| < |path| && path[..|DetailsPrefix|] == DetailsPrefix
            && IsSegment(path[|DetailsPrefix|..])
    then DetailPage(path[|DetailsPrefix|..])
    else NoPage
  }

  /** The path that shows a page. */
  function PathOf(page: Page): string
    requires page != NoPage
  {
    match page
    case ListPage(All) => "/"
    case ListPage(Only(Game)) => "/games"
    case ListPage(Only(App)) => "/apps"
    case ListPage(Only(Software)) => "/software"
    case DetailPage(id) => DetailsPrefix + id
  }

  /** Every page has exactly one path: the route table and `PathOf` are
      inverse to each other. */
  lemma RouteRoundTrip(page: Page, path: string)
    requires page != NoPage && (page.DetailPage? ==> IsSegment(page.id))
    ensures Route(PathOf(page)) == page
    ensures Route(path) != NoPage ==> PathOf(Route(path)) == path
  {
    if page.DetailPage? {
      var p := PathOf(page);
      assert p[..|DetailsPrefix|] == DetailsPrefix && p[|DetailsPrefix|..] == page.id;
      assert p[1] == 'd';
    }
    if Route(path).DetailPage? {
      assert path == path[..|DetailsPrefix|] + path[|DetailsPrefix|..];
    }
  }

  // ---------------------------------------------------------------------
  // The list page: filter, then a stable sort of a copy
  // ---------------------------------------------------------------------

  predicate InCategory(category: PageCategory, item: AppItem)
  {
    category.All? || item.category == category.category
  }

  /** The lower-cased name contains the lower-cased search text. */
  predicate MatchesSearch(lower: string -> string, query: string, item: AppItem)
  {
    Includes(lower(item.name), lower(query))
  }

  /** The list page's filter predicate. */
  function Keeps(category: PageCategory, query: string, lower: string -> string): AppItem -> bool
  {
    (item: AppItem) => InCategory(category, item) && MatchesSearch(lower, query, item)
  }

  /** The category test alone, as a filter predicate. */
  function InCategoryFilter(category: PageCategory): AppItem -> bool
  {
    (item: AppItem) => InCategory(category, item)
  }

  /** `filteredData`: the items the list page keeps, in catalog order. */
  function FilterItems(items: seq<AppItem>, category: PageCategory, query: string, lower: string -> string): seq<AppItem>
  {
    Filter(items, Keeps(category, query, lower))
  }

  /** The comparator handed to `sort` for each sort key. */
  function Comparator(sortBy: SortOption, loc: Locale): (AppItem, AppItem) -> int
  {
    match sortBy
    case Date => (a: AppItem, b: AppItem) => loc.time(b.uploadDate) - loc.time(a.uploadDate)
    case Name => (a: AppItem, b: AppItem) => loc.collate(a.name, b.name)
    case Downloads => (a: AppItem, b: AppItem) => b.downloads - a.downloads
  }

  /** `sortedData`: what the list page shows. */
  function Query(items: seq<AppItem>, category: PageCategory, query: string, sortBy: SortOption, loc: Locale): seq<AppItem>
  {
    Sort(Comparator(sortBy, loc), FilterItems(items, category, query, loc.lower))
  }

  /** An item is kept exactly when it is in the page's category and its
      lower-cased name contains the lower-cased search text. */
  lemma FilterItemsMembers(items: seq<AppItem>, category: PageCategory, query: string, lower: string -> string, x: AppItem)
    ensures x in FilterItems(items, category, query, lower)
        <==> x in items && InCategory(category, x) && MatchesSearch(lower, query, x)
  {
    var r := FilterItems(items, category, query, lower);
    FilterCount(items, Keeps(category, query, lower), x);
    assert x in r <==> multiset(r)[x] > 0;
    assert x in items <==> multiset(items)[x] > 0;
  }

  /** The filter result is an order-preserving subsequence of the catalog. */
  lemma FilterItemsSubsequence(items: seq<AppItem>, category: PageCategory, query: string, lower: string -> string)
    ensures IsSubsequence(FilterItems(items, category, query, lower), items)
  {
    FilterIsSubsequence(items, Keeps(category, query, lower));
  }

  /** An empty search keeps every item of the category, in catalog order:
      every string includes the empty string. */
  lemma EmptySearchKeepsCategory(items: seq<AppItem>, category: PageCategory, lower: string -> string)
    requires lower([]) == []
    ensures FilterItems(items, category, [], lower) == Filter(items, InCategoryFilter(category))
  {
    FilterAgrees(items, Keeps(category, [], lower), InCategoryFilter(category));
  }

  /** The page for category "all" with an empty search lists the whole
      catalog. */
  lemma EmptySearchAllCategories(items: seq<AppItem>, lower: string -> string)
    requires lower([]) == []
    ensures FilterItems(items, All, [], lower) == items
  {
    EmptySearchKeepsCategory(items, All, lower);
    FilterKeepsAll(items, InCategoryFilter(All));
  }

  /** Each of the three comparators is consistent; the name comparator
      needs a consistent collation, the other two need nothing. */
  lemma ComparatorConsistent(sortBy: SortOption, loc: Locale)
    requires sortBy == Name ==> Consistent(loc.collate)
    ensures Consistent(Comparator(sortBy, loc))
  {
    var cmp := Comparator(sortBy, loc);
    match sortBy
    case Name =>
      forall a: AppItem, b: AppItem ensures cmp(a, b) <= 0 || cmp(b, a) <= 0 {
        assert loc.collate(a.name, b.name) <= 0 || loc.collate(b.name, a.name) <= 0;
      }
      forall a: AppItem, b: AppItem, c: AppItem | cmp(a, b) <= 0 && cmp(b, c) <= 0 ensures cmp(a, c) <= 0 {
        assert loc.collate(a.name, b.name) <= 0 && loc.collate(b.name, c.name) <= 0;
      }
    case Date =>
    case Downloads =>
  }

  /** The list page's output holds exactly the kept items, each as often as
      in the catalog. */
  lemma QueryPermutation(items: seq<AppItem>, category: PageCategory, query: string, sortBy: SortOption, loc: Locale)
    ensures multiset(Query(items, category, query, sortBy, loc)) == multiset(FilterItems(items, category, query, loc.lower))
    ensures forall x :: x in Query(items, category, query, sortBy, loc)
              <==> x in items && InCategory(category, x) && MatchesSearch(loc.lower, query, x)
  {
    var r := Query(items, category, query, sortBy, loc);
    SortPermutes(Comparator(sortBy, loc), FilterItems(items, category, query, loc.lower));
    forall x ensures x in r <==> x in items && InCategory(category, x) && MatchesSearch(loc.lower, query, x) {
      FilterItemsMembers(items, category, query, loc.lower, x);
      assert x in r <==> x in multiset(r);
      assert x in FilterItems(items, category, query, loc.lower) <==> x in multiset(FilterItems(items, category, query, loc.lower));
    }
  }

  /** The list page's order: most downloads first, most recent upload first,
      or ascending by collation. */
  lemma QueryOrdered(items: seq<AppItem>, category: PageCategory, query: string, sortBy: SortOption, loc: Locale)
    requires sortBy == Name ==> Consistent(loc.collate)
    ensures var r := Query(items, category, query, sortBy, loc);
      sortBy == Downloads ==> forall i, j :: 0 <= i < j < |r| ==> r[i].downloads >= r[j].downloads
    ensures var r := Query(items, category, query, sortBy, loc);
      sortBy == Date ==> forall i, j :: 0 <= i < j < |r| ==> loc.time(r[i].uploadDate) >= loc.time(r[j].uploadDate)
    ensures var r := Query(items, category, query, sortBy, loc);
      sortBy == Name ==> forall i, j :: 0 <= i < j < |r| ==> loc.collate(r[i].name, r[j].name) <= 0
  {
    ComparatorConsistent(sortBy, loc);
    SortSorted(Comparator(sortBy, loc), FilterItems(items, category, query, loc.lower));
  }

  /** Stability: items that compare equal keep their filtered relative
      order. */
  lemma QueryStable(items: seq<AppItem>, category: PageCategory, query: string, sortBy: SortOption, loc: Locale, z: AppItem)
    requires sortBy == Name ==> Consistent(loc.collate)
    ensures var cmp := Comparator(sortBy, loc);
      Filter(Query(items, category, query, sortBy, loc), TiedWith(cmp, z))
        == Filter(FilterItems(items, category, query, loc.lower), TiedWith(cmp, z))
  {
    ComparatorConsistent(sortBy, loc);
    SortStable(Comparator(sortBy, loc), FilterItems(items, category, query, loc.lower), z);
  }

  /** Items with the same download count: as a filter predicate. */
  function WithDownloads(n: int): AppItem -> bool
  {
    (item: AppItem) => item.downloads == n
  }

  /** Sorting by downloads keeps the catalog order among the items with the
      same download count. */
  lemma QueryDownloadsTiesInCatalogOrder(items: seq<AppItem>, category: PageCategory, query: string, loc: Locale, n: int)
    ensures Filter(Query(items, category, query, Downloads, loc), WithDownloads(n))
         == Filter(FilterItems(items, category, query, loc.lower), WithDownloads(n))
  {
    var cmp := Comparator(Downloads, loc);
    var z := AppItem([], [], App, [], n, [], [], []);
    var filtered := FilterItems(items, category, query, loc.lower);
    var r := Query(items, category, query, Downloads, loc);
    QueryStable(items, category, query, Downloads, loc, z);
    FilterAgrees(r, TiedWith(cmp, z), WithDownloads(n));
    FilterAgrees(filtered, TiedWith(cmp, z), WithDownloads(n));
  }

  /** Downloads 50, 200 and 10, in that catalog order, are listed as 200,
      50, 10. */
  lemma DownloadsOrderExample(a: AppItem, b: AppItem, c: AppItem, loc: Locale)
    requires a.downloads == 50 && b.downloads == 200 && c.downloads == 10
    ensures Sort(Comparator(Downloads, loc), [a, b, c]) == [b, a, c]
  {
    var cmp := Comparator(Downloads, loc);
    assert Before(cmp, b, c) && Before(cmp, a, c) && !Before(cmp, a, b);
    assert Sort(cmp, [c]) == [c] by {
      assert [c][1..] == [];
    }
    assert Sort(cmp, [b, c]) == [b, c] by {
      assert [b, c][1..] == [c];
    }
    assert Insert(cmp, a, [b, c]) == [b, a, c] by {
      assert [b, c][1..] == [c];
      assert Insert(cmp, a, [c]) == [a, c];
    }
    assert [a, b, c][1..] == [b, c];
  }

  // ---------------------------------------------------------------------
  // The detail page
  // ---------------------------------------------------------------------

  /** The position of the first item with the given id. */
  function FindIndex(items: seq<AppItem>, id: string): (r: Option<nat>)
    ensures r.Some? ==> r.value < |items| && items[r.value].id == id
    ensures r.Some? ==> forall j :: 0 <= j < r.value ==> items[j].id != id
    ensures r.None? ==> forall j :: 0 <= j < |items| ==> items[j].id != id
  {
    if items == [] then None
    else if items[0].id == id then Some(0)
    else match FindIndex(items[1..], id)
      case None => None
      case Some(k) => Some(k + 1)
  }

  /** What the detail page shows. */
  datatype DetailScreen = ItemScreen(item: AppItem) | NotFoundScreen

  /** `MOCK_DATA.find(app => app.id === id)`: the route parameter may be
      missing, and then no item matches. */
  function Detail(items: seq<AppItem>, id: Option<string>): (s: DetailScreen)
    ensures s.NotFoundScreen? <==> id.None? || forall j :: 0 <= j < |items| ==> items[j].id != id.value
    ensures s.ItemScreen? ==>
      exists k :: 0 <= k < |items| && items[k] == s.item && s.item.id == id.value
                  && forall j :: 0 <= j < k ==> items[j].id != id.value
  {
    if id.None? then NotFoundScreen
    else match FindIndex(items, id.value)
      case None => NotFoundScreen
      case Some(k) => ItemScreen(items[k])
  }

  /** The navigation the detail page offers: the not-found screen only
      leads back to the catalog root, the item screen only one step back. */
  function DetailNavigation(items: seq<AppItem>, id: Option<string>): (r: seq<Navigation>)
    ensures r == [Push("/")] <==> id.None? || forall j :: 0 <= j < |items| ==> items[j].id != id.value
    ensures r != [Push("/")] ==> r == [Back]
  {
    match Detail(items, id)
    case NotFoundScreen => [Push("/")]
    case ItemScreen(_) => [Back]
  }

  // ---------------------------------------------------------------------
  // The layout: search text, sort key and the sort dialog
  // ---------------------------------------------------------------------

  /** `MainLayout`'s state. */
  class MainLayout {
    var searchQuery: string
    var isFilterModalOpen: bool
    var sortBy: SortOption

    constructor ()
      ensures searchQuery == [] && !isFilterModalOpen && sortBy == Downloads
    {
      searchQuery := [];
      isFilterModalOpen := false;
      sortBy := Downloads;
    }

    /** The header's search box. */
    method SetSearchQuery(q: string)
      modifies this
      ensures searchQuery == q
      ensures isFilterModalOpen == old(isFilterModalOpen) && sortBy == old(sortBy)
    {
      searchQuery := q;
    }

    /** The header's filter button. */
    method OpenFilter()
      modifies this
      ensures isFilterModalOpen
      ensures searchQuery == old(searchQuery) && sortBy == old(sortBy)
    {
      isFilterModalOpen := true;
    }

    /** The dialog's close action. */
    method CloseFilter()
      modifies this
      ensures !isFilterModalOpen
      ensures searchQuery == old(searchQuery) && sortBy == old(sortBy)
    {
      isFilterModalOpen := false;
    }

    /** Choosing a sort key sets it and closes the dialog. */
    method ChangeSort(option: SortOption)
      modifies this
      ensures sortBy == option && !isFilterModalOpen
      ensures searchQuery == old(searchQuery)
    {
      sortBy := option;
      isFilterModalOpen := false;
    }

    /** What the list page for `category` shows under the current search
        text and sort key: the kept items, ordered by the current key. */
    ghost function Shown(items: seq<AppItem>, category: PageCategory, loc: Locale): (r: seq<AppItem>)
      reads this
      ensures multiset(r) == multiset(FilterItems(items, category, searchQuery, loc.lower))
      ensures sortBy == Downloads ==> forall i, j :: 0 <= i < j < |r| ==> r[i].downloads >= r[j].downloads
      ensures sortBy == Date ==> forall i, j :: 0 <= i < j < |r| ==> loc.time(r[i].uploadDate) >= loc.time(r[j].uploadDate)
      ensures sortBy == Name && Consistent(loc.collate) ==>
                forall i, j :: 0 <= i < j < |r| ==> loc.collate(r[i].name, r[j].name) <= 0
    {
      QueryPermutation(items, category, searchQuery, sortBy, loc);
      if sortBy == Name && !Consistent(loc.collate) then
        Query(items, category, searchQuery, sortBy, loc)
      else
        QueryOrdered(items, category, searchQuery, sortBy, loc);
        Query(items, category, searchQuery, sortBy, loc)
    }
  }
}
