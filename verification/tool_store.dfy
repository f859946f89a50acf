/** The tool store (src/stores/tool-store.ts): the current page of tools,
    its pagination, and the search/category/sort filters the tools page
    turns into a `getTools` query. */
module ToolStore {
  import opened Common
  import opened ToolCatalog

  datatype SortBy = Popular | Newest | Rating | Uses

  /** The order's name as it travels in the query. */
  function SortName(b: SortBy): (r: string)
    ensures SortKey(r).Some?
  {
    match b
    case Popular => "popular"
    case Newest => "newest"
    case Rating => "rating"
    case Uses => "uses"
  }

  datatype Filters = Filters(search: string, category: string, sortBy: SortBy)

  /** `Partial<ToolFilters>`: a field left out keeps its current value. */
  datatype FilterPatch = FilterPatch(search: Option<string>, category: Option<string>, sortBy: Option<SortBy>)

  datatype Pagination = Pagination(page: int, pageSize: int, total: int, totalPages: int)

  datatype ToolCategory = ToolCategory(id: string, name: string, slug: string)

  datatype ToolState = ToolState(
    tools: seq<CatalogTool>,
    categories: seq<ToolCategory>,
    isLoading: bool,
    error: Option<string>,
    pagination: Pagination,
    filters: Filters)

  const DefaultFilters := Filters("", "all", Popular)
  const FirstPage := Pagination(1, 12, 0, 0)

  const Initial := ToolState([], [], false, None, FirstPage, DefaultFilters)

  /** A fetched page replaces the tools and the pagination, ends loading
      and clears the error. */
  function SetTools(st: ToolState, response: ToolPage): (r: ToolState)
    ensures r.tools == response.data
    ensures r.pagination == Pagination(response.page, response.pageSize, response.total, response.totalPages)
    ensures !r.isLoading && r.error.None?
    ensures r.categories == st.categories && r.filters == st.filters
  {
    st.(tools := response.data,
        pagination := Pagination(response.page, response.pageSize, response.total, response.totalPages),
        isLoading := false,
        error := None)
  }

  function SetCategories(st: ToolState, categories: seq<ToolCategory>): (r: ToolState)
    ensures r.categories == categories && r.(categories := st.categories) == st
  {
    st.(categories := categories)
  }

  function SetLoading(st: ToolState, loading: bool): (r: ToolState)
    ensures r.isLoading == loading && r.(isLoading := st.isLoading) == st
  {
    st.(isLoading := loading)
  }

  function SetError(st: ToolState, error: Option<string>): (r: ToolState)
    ensures r.error == error && !r.isLoading
    ensures r.(error := st.error, isLoading := st.isLoading) == st
  {
    st.(error := error, isLoading := false)
  }

  /** `{ ...filters, ...patch }` */
  function Apply(f: Filters, patch: FilterPatch): Filters {
    Filters(patch.search.GetOr(f.search), patch.category.GetOr(f.category), patch.sortBy.GetOr(f.sortBy))
  }

  /** Any change of filters sends the list back to page 1; nothing else
      in the pagination moves. */
  function SetFilters(st: ToolState, patch: FilterPatch): (r: ToolState)
    ensures r.pagination == st.pagination.(page := 1)
    ensures patch.search.Some? ==> r.filters.search == patch.search.value
    ensures patch.search.None? ==> r.filters.search == st.filters.search
    ensures patch.category.Some? ==> r.filters.category == patch.category.value
    ensures patch.category.None? ==> r.filters.category == st.filters.category
    ensures patch.sortBy.Some? ==> r.filters.sortBy == patch.sortBy.value
    ensures patch.sortBy.None? ==> r.filters.sortBy == st.filters.sortBy
    ensures r.(filters := st.filters, pagination := st.pagination) == st
  {
    st.(filters := Apply(st.filters, patch), pagination := st.pagination.(page := 1))
  }

  function SetPage(st: ToolState, page: int): (r: ToolState)
    ensures r.pagination.page == page
    ensures r.pagination.(page := st.pagination.page) == st.pagination
    ensures r.(pagination := st.pagination) == st
  {
    st.(pagination := st.pagination.(page := page))
  }

  /** Back to the default filters and the first, empty page of twelve;
      tools, categories, loading and error stay. */
  function ResetFilters(st: ToolState): (r: ToolState)
    ensures r.filters == Initial.filters && r.pagination == Initial.pagination
    ensures r.(filters := st.filters, pagination := st.pagination) == st
  {
    st.(filters := DefaultFilters, pagination := FirstPage)
  }

  function IdIs(id: string): CatalogTool -> bool {
    (t: CatalogTool) => t.id == id
  }

  /** `tools.find(tool => tool.id === id)` */
  function GetToolById(st: ToolState, id: string): (r: Option<CatalogTool>)
    ensures r.Some? ==> r.value in st.tools && r.value.id == id
    ensures r.None? <==> forall i :: 0 <= i < |st.tools| ==> st.tools[i].id != id
    ensures r.Some? ==> exists i :: 0 <= i < |st.tools| && st.tools[i] == r.value
                                    && forall j :: 0 <= j < i ==> st.tools[j].id != id
  {
    Find(st.tools, IdIs(id))
  }

  /** Patches compose: two successive changes of filters are one change
      whose later fields win. */
  function Merge(first: FilterPatch, second: FilterPatch): FilterPatch {
    FilterPatch(if second.search.Some? then second.search else first.search,
                if second.category.Some? then second.category else first.category,
                if second.sortBy.Some? then second.sortBy else first.sortBy)
  }

  lemma SetFiltersCompose(st: ToolState, first: FilterPatch, second: FilterPatch)
    ensures SetFilters(SetFilters(st, first), second) == SetFilters(st, Merge(first, second))
  {
  }

  /** Setting every filter to its default is a reset, except that the
      page size and the counts of the last fetch survive. */
  lemma DefaultsAreReset(st: ToolState)
    ensures var r := SetFilters(st, FilterPatch(Some(""), Some("all"), Some(Popular)));
            && r.filters == ResetFilters(st).filters
            && r.pagination.page == ResetFilters(st).pagination.page
            && r.(pagination := FirstPage) == ResetFilters(st)
  {
  }

  /** The query the tools page sends for the store's filters and page:
      an empty search and the category 'all' are left out. */
  function QueryOf(st: ToolState): (q: ToolQuery)
    ensures q.search.Some? <==> st.filters.search != ""
    ensures q.category.Some? <==> st.filters.category != "all"
    ensures q.search.Some? ==> q.search.value == st.filters.search
    ensures q.category.Some? ==> q.category.value == st.filters.category
  {
    ToolQuery(Some(st.pagination.page), Some(st.pagination.pageSize),
              if st.filters.search != "" then Some(st.filters.search) else None,
              if st.filters.category != "all" then Some(st.filters.category) else None,
              Some(SortName(st.filters.sortBy)))
  }

  /** A fetch with the store's own query and its result stored: every tool
      shown was fetched and honours the store's filters, the store is on
      the page it asked for (a page 0 falls back to 1), the shown list is
      sorted by the chosen order, and each shown tool can be looked up
      by id. */
  lemma FetchHonoursFilters(st: ToolState, all: seq<CatalogTool>, t: CatalogTool)
    requires t in SetTools(st, GetTools(all, QueryOf(st))).tools
    ensures t in all
    ensures st.filters.search != "" ==> MatchesSearch(t, st.filters.search)
    ensures st.filters.category != "" && st.filters.category != "all" ==> InCategory(t, st.filters.category)
    ensures GetToolById(SetTools(st, GetTools(all, QueryOf(st))), t.id).Some?
  {
    PageMembers(all, QueryOf(st), t);
  }

  lemma FetchKeepsPage(st: ToolState, all: seq<CatalogTool>)
    ensures var r := SetTools(st, GetTools(all, QueryOf(st)));
            && r.pagination.page == (if st.pagination.page != 0 then st.pagination.page else 1)
            && r.pagination.pageSize == (if st.pagination.pageSize != 0 then st.pagination.pageSize else 12)
            && r.filters == st.filters
            && SortedDesc(Matching(all, QueryOf(st)), SortKey(SortName(st.filters.sortBy)).value)
  {
  }
}
