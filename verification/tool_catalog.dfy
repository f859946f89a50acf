/** The client-side half of `getTools` (src/lib/api/tools.ts, lines 34-93):
    the fetched list is filtered by search term and category, sorted, and
    cut into one page. Creation dates and ratings are integer keys. */
module ToolCatalog {
  import opened Common
  import opened Text

  datatype CatalogTool = CatalogTool(
    id: string,
    name: string,
    description: string,
    usageCount: Option<int>,
    averageRating: Option<int>,
    createdAt: int,
    categorySlugs: Option<seq<string>>)

  datatype ToolQuery = ToolQuery(
    page: Option<int>,
    pageSize: Option<int>,
    search: Option<string>,
    category: Option<string>,
    sortBy: Option<string>)

  datatype ToolPage = ToolPage(
    data: seq<CatalogTool>,
    page: int,
    pageSize: int,
    total: nat,
    totalPages: int)

  const DefaultPage := 1
  const DefaultPageSize := 12

  /** `n || fallback` for a number: a missing value and 0 both fall back. */
  function OrNumber(n: Option<int>, fallback: int): (r: int)
    ensures n.Some? && n.value != 0 ==> r == n.value
    ensures n.None? || n == Some(0) ==> r == fallback
  {
    if n.Some? && n.value != 0 then n.value else fallback
  }

  /** `Math.ceil(a / b)` for a count and a non-zero divisor. */
  function CeilDiv(a: nat, b: int): (r: int)
    requires b != 0
    ensures b > 0 ==> (r - 1) * b < a <= r * b
    ensures b < 0 ==> (-r) * (-b) <= a < (-r + 1) * (-b)
  {
    if b > 0 then
      var q := (a + b - 1) / b;
      DivBounds(a + b - 1, b);
      assert (q - 1) * b == q * b - b;
      q
    else
      DivBounds(a, -b);
      -(a / -b)
  }

  lemma DivBounds(n: int, d: int)
    requires d > 0
    ensures (n / d) * d <= n < (n / d + 1) * d
  {
    assert n == (n / d) * d + n % d;
    assert (n / d + 1) * d == (n / d) * d + d;
  }

  /** The search test: the lower-cased term occurs in the lower-cased name
      or description. */
  predicate MatchesSearch(t: CatalogTool, term: string) {
    Contains(ToLower(t.name), ToLower(term)) || Contains(ToLower(t.description), ToLower(term))
  }

  predicate InCategory(t: CatalogTool, slug: string) {
    t.categorySlugs.Some? && slug in t.categorySlugs.value
  }

  /** The test `filter` applies for a search term. */
  function SearchTest(term: string): CatalogTool -> bool {
    (t: CatalogTool) => Includes(ToLower(t.name), ToLower(term)) || Includes(ToLower(t.description), ToLower(term))
  }

  function SearchFilter(tools: seq<CatalogTool>, search: Option<string>): (r: seq<CatalogTool>)
    ensures search.None? || search == Some("") ==> r == tools
    ensures search.Some? && search.value != "" ==>
              forall t :: t in r <==> t in tools && MatchesSearch(t, search.value)
    ensures search.Some? && search.value != "" ==> KeptInOrder(r, tools, SearchTest(search.value))
  {
    if search.Some? && search.value != "" then
      FilterIsKept(tools, SearchTest(search.value));
      Filter(tools, SearchTest(search.value))
    else tools
  }

  /** The test `filter` applies for a category slug. */
  function CategoryTest(slug: string): CatalogTool -> bool {
    (t: CatalogTool) => InCategory(t, slug)
  }

  /** The category filter applies only to a given category other than
      'all'. */
  function CategoryFilter(tools: seq<CatalogTool>, category: Option<string>): (r: seq<CatalogTool>)
    ensures category.None? || category == Some("") || category == Some("all") ==> r == tools
    ensures category.Some? && category.value != "" && category.value != "all" ==>
              forall t :: t in r <==> t in tools && InCategory(t, category.value)
    ensures category.Some? && category.value != "" && category.value != "all" ==>
              KeptInOrder(r, tools, CategoryTest(category.value))
  {
    if category.Some? && category.value != "" && category.value != "all" then
      FilterIsKept(tools, CategoryTest(category.value));
      Filter(tools, CategoryTest(category.value))
    else tools
  }

  // ----- stable descending sort ------------------------------------------------------

  predicate SortedDesc<T>(s: seq<T>, key: T -> int) {
    forall i, j :: 0 <= i < j < |s| ==> key(s[i]) >= key(s[j])
  }

  /** Inserts `x` after every leading element whose key is at least its
      own. */
  function InsertDesc<T>(sorted: seq<T>, x: T, key: T -> int): (r: seq<T>)
    ensures |r| == |sorted| + 1
    ensures r[0] == if |sorted| > 0 && key(sorted[0]) >= key(x) then sorted[0] else x
  {
    if |sorted| == 0 then [x]
    else if key(sorted[0]) >= key(x) then [sorted[0]] + InsertDesc(sorted[1..], x, key)
    else [x] + sorted
  }

  /** Inserting into a sorted list keeps it sorted and adds exactly `x`. */
  lemma {:induction false} InsertDescSorted<T>(sorted: seq<T>, x: T, key: T -> int)
    requires SortedDesc(sorted, key)
    ensures SortedDesc(InsertDesc(sorted, x, key), key)
    ensures multiset(InsertDesc(sorted, x, key)) == multiset(sorted) + multiset{x}
  {
    if |sorted| > 0 && key(sorted[0]) >= key(x) {
      TailSorted(sorted, key);
      InsertDescSorted(sorted[1..], x, key);
      var rest := InsertDesc(sorted[1..], x, key);
      assert sorted == [sorted[0]] + sorted[1..];
      ConsSorted(sorted[0], rest, key);
    } else if |sorted| > 0 {
      ConsSorted(x, sorted, key);
    }
  }

  lemma TailSorted<T>(s: seq<T>, key: T -> int)
    requires SortedDesc(s, key) && |s| > 0
    ensures SortedDesc(s[1..], key)
  {
    forall i, j | 0 <= i < j < |s| - 1 ensures key(s[1..][i]) >= key(s[1..][j]) {
      assert s[1..][i] == s[i + 1] && s[1..][j] == s[j + 1];
    }
  }

  /** A head no smaller than a sorted list's first key keeps it sorted. */
  lemma ConsSorted<T>(x: T, s: seq<T>, key: T -> int)
    requires SortedDesc(s, key) && (|s| > 0 ==> key(x) >= key(s[0]))
    ensures SortedDesc([x] + s, key)
  {
    var r := [x] + s;
    forall i, j | 0 <= i < j < |r| ensures key(r[i]) >= key(r[j]) {
      if i > 0 {
        assert r[i] == s[i - 1] && r[j] == s[j - 1];
      } else {
        assert r[j] == s[j - 1];
        assert key(s[0]) >= key(s[j - 1]) || j - 1 == 0;
      }
    }
  }

  /** `Array.prototype.sort` with the comparator `key(b) - key(a)`: sorted by
      key, largest first, equal keys in their original order. */
  function SortDesc<T>(s: seq<T>, key: T -> int): (r: seq<T>)
    ensures SortedDesc(r, key)
    ensures multiset(r) == multiset(s)
    ensures |r| == |s|
  {
    if |s| == 0 then []
    else
      var init := s[..|s| - 1];
      assert s == init + [s[|s| - 1]];
      InsertDescSorted(SortDesc(init, key), s[|s| - 1], key);
      InsertDesc(SortDesc(init, key), s[|s| - 1], key)
  }

  /** The elements whose key is `k`, in order. */
  function WithKey<T>(s: seq<T>, key: T -> int, k: int): seq<T> {
    if |s| == 0 then []
    else (if key(s[0]) == k then [s[0]] else []) + WithKey(s[1..], key, k)
  }

  lemma {:induction false} WithKeyAppend<T>(a: seq<T>, b: seq<T>, key: T -> int, k: int)
    ensures WithKey(a + b, key, k) == WithKey(a, key, k) + WithKey(b, key, k)
  {
    if |a| > 0 {
      assert (a + b)[1..] == a[1..] + b;
      WithKeyAppend(a[1..], b, key, k);
    } else {
      assert a + b == b;
    }
  }

  lemma {:induction false} WithKeyNoneAbove<T>(s: seq<T>, key: T -> int, k: int)
    requires forall i :: 0 <= i < |s| ==> key(s[i]) < k
    ensures WithKey(s, key, k) == []
  {
    if |s| > 0 {
      WithKeyNoneAbove(s[1..], key, k);
    }
  }

  lemma {:induction false} InsertStable<T>(sorted: seq<T>, x: T, key: T -> int, k: int)
    requires SortedDesc(sorted, key)
    ensures WithKey(InsertDesc(sorted, x, key), key, k) == WithKey(sorted, key, k) + WithKey([x], key, k)
    decreases |sorted|
  {
    if |sorted| == 0 {
      assert InsertDesc(sorted, x, key) == [x];
    } else if key(sorted[0]) >= key(x) {
      TailSorted(sorted, key);
      InsertStable(sorted[1..], x, key, k);
      InsertAfterHead(sorted, x, key);
      assert sorted == [sorted[0]] + sorted[1..];
      InsertBehind(sorted[0], InsertDesc(sorted[1..], x, key), sorted[1..], x, key, k);
    } else {
      InsertInFront(sorted, x, key, k);
    }
  }

  /** `x` goes behind the head: the head's contribution comes first. */
  lemma InsertBehind<T>(s0: T, rest: seq<T>, tail: seq<T>, x: T, key: T -> int, k: int)
    requires WithKey(rest, key, k) == WithKey(tail, key, k) + WithKey([x], key, k)
    ensures WithKey([s0] + rest, key, k) == WithKey([s0] + tail, key, k) + WithKey([x], key, k)
  {
    WithKeyAppend([s0], rest, key, k);
    WithKeyAppend([s0], tail, key, k);
  }

  lemma InsertAfterHead<T>(sorted: seq<T>, x: T, key: T -> int)
    requires |sorted| > 0 && key(sorted[0]) >= key(x)
    ensures InsertDesc(sorted, x, key) == [sorted[0]] + InsertDesc(sorted[1..], x, key)
  {
  }

  /** `x` goes in front of a list whose keys are all smaller, so nothing
      with `x`'s key is overtaken. */
  lemma InsertInFront<T>(sorted: seq<T>, x: T, key: T -> int, k: int)
    requires SortedDesc(sorted, key) && |sorted| > 0 && key(sorted[0]) < key(x)
    ensures WithKey(InsertDesc(sorted, x, key), key, k) == WithKey(sorted, key, k) + WithKey([x], key, k)
  {
    assert InsertDesc(sorted, x, key) == [x] + sorted;
    WithKeyAppend([x], sorted, key, k);
    if key(x) == k {
      assert forall i :: 0 <= i < |sorted| ==> key(sorted[i]) <= key(sorted[0]);
      WithKeyNoneAbove(sorted, key, k);
    }
  }

  /** The sort is stable: for every key value, the elements with that key
      come out in the order they went in. */
  lemma {:induction false} SortStable<T>(s: seq<T>, key: T -> int, k: int)
    ensures WithKey(SortDesc(s, key), key, k) == WithKey(s, key, k)
  {
    if |s| > 0 {
      var init := s[..|s| - 1];
      SortStable(init, key, k);
      InsertStable(SortDesc(init, key), s[|s| - 1], key, k);
      assert s == init + [s[|s| - 1]];
      WithKeyAppend(init, [s[|s| - 1]], key, k);
    }
  }

  /** `usageCount || 0` */
  function Usage(t: CatalogTool): int {
    t.usageCount.GetOr(0)
  }

  function Rating(t: CatalogTool): int {
    t.averageRating.GetOr(0)
  }

  function Created(t: CatalogTool): int {
    t.createdAt
  }

  /** The sort key of each known order; an unknown order leaves the list
      as it is. */
  function SortKey(sortBy: string): Option<CatalogTool -> int> {
    if sortBy == "newest" then Some(Created)
    else if sortBy == "popular" || sortBy == "uses" then Some(Usage)
    else if sortBy == "rating" then Some(Rating)
    else None
  }

  function SortTools(tools: seq<CatalogTool>, sortBy: Option<string>): (r: seq<CatalogTool>)
    ensures multiset(r) == multiset(tools)
    ensures sortBy.Some? && SortKey(sortBy.value).Some? ==> SortedDesc(r, SortKey(sortBy.value).value)
    ensures sortBy.None? || SortKey(sortBy.value).None? ==> r == tools
  {
    if sortBy.Some? && SortKey(sortBy.value).Some? then SortDesc(tools, SortKey(sortBy.value).value)
    else tools
  }

  /** The list the page is cut from. */
  function Matching(all: seq<CatalogTool>, q: ToolQuery): seq<CatalogTool> {
    SortTools(CategoryFilter(SearchFilter(all, q.search), q.category), q.sortBy)
  }

  /** Page `page` (counted from 1) of `pageSize` elements, as
      `slice((page - 1) * pageSize, (page - 1) * pageSize + pageSize)`. */
  function PageOf<T>(s: seq<T>, page: int, pageSize: int): seq<T> {
    var start := (page - 1) * pageSize;
    JsSlice(s, start, start + pageSize)
  }

  /** A page holds at most `pageSize` elements; a page that lies wholly
      inside the list is exactly that stretch of it. */
  lemma PageBounds<T>(s: seq<T>, page: int, pageSize: int)
    requires pageSize > 0
    ensures |PageOf(s, page, pageSize)| <= pageSize
    ensures 1 <= page && page * pageSize <= |s| ==>
              PageOf(s, page, pageSize) == s[(page - 1) * pageSize..page * pageSize]
  {
    var start := (page - 1) * pageSize;
    assert start + pageSize == page * pageSize;
    if 1 <= page {
      NonNegProduct(page - 1, pageSize);
    }
  }

  lemma NonNegProduct(a: int, b: int)
    requires a >= 0 && b >= 0
    ensures a * b >= 0
  {
  }

  function GetTools(all: seq<CatalogTool>, q: ToolQuery): (r: ToolPage)
    ensures r.page == OrNumber(q.page, DefaultPage)
    ensures r.pageSize == OrNumber(q.pageSize, DefaultPageSize) && r.pageSize != 0
    ensures r.total == |Matching(all, q)|
    ensures r.totalPages == CeilDiv(r.total, r.pageSize)
    ensures r.data == PageOf(Matching(all, q), r.page, r.pageSize)
  {
    var page := OrNumber(q.page, DefaultPage);
    var pageSize := OrNumber(q.pageSize, DefaultPageSize);
    var filtered := Matching(all, q);
    ToolPage(PageOf(filtered, page, pageSize), page, pageSize, |filtered|, CeilDiv(|filtered|, pageSize))
  }

  /** Every tool on a page was fetched and passes both filters. */
  lemma PageMembers(all: seq<CatalogTool>, q: ToolQuery, t: CatalogTool)
    requires t in GetTools(all, q).data
    ensures t in all
    ensures q.search.Some? && q.search.value != "" ==> MatchesSearch(t, q.search.value)
    ensures q.category.Some? && q.category.value != "" && q.category.value != "all" ==> InCategory(t, q.category.value)
  {
    var r := GetTools(all, q);
    var filtered := Matching(all, q);
    assert t in filtered;
    assert t in multiset(filtered);
  }

  /** Every tool that passes both filters is counted, however the list is
      ordered: the page is cut from exactly the matching tools. */
  lemma MatchingIsExact(all: seq<CatalogTool>, q: ToolQuery, t: CatalogTool)
    requires t in all
    requires q.search.Some? && q.search.value != "" ==> MatchesSearch(t, q.search.value)
    requires q.category.Some? && q.category.value != "" && q.category.value != "all" ==> InCategory(t, q.category.value)
    ensures t in Matching(all, q)
  {
    var f := CategoryFilter(SearchFilter(all, q.search), q.category);
    assert t in f;
    assert t in multiset(f);
  }

  /** Tools with equal usage keep their fetched order under 'popular'. */
  lemma PopularTiesKeepOrder(tools: seq<CatalogTool>, k: int)
    ensures WithKey(SortTools(tools, Some("popular")), Usage, k) == WithKey(tools, Usage, k)
  {
    PopularSortsByUsage(tools);
    SortStable(tools, Usage, k);
  }

  lemma PopularSortsByUsage(tools: seq<CatalogTool>)
    ensures SortTools(tools, Some("popular")) == SortDesc(tools, Usage)
  {
    assert SortKey("popular") == Some(Usage);
  }
}
