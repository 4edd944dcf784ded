/** The search box and filter state of frontend/components/paper-search.tsx. */
module PaperSearch {
  import opened Wrappers
  import opened Text
  import opened Lists

  datatype DateRange = All | Week | Month | Year

  datatype SearchFilters = SearchFilters(categories: seq<string>, dateRange: DateRange, authors: seq<string>)

  const NoFilters: SearchFilters := SearchFilters([], All, [])

  /** The category list after `toggleCategory`: removed everywhere if present, else appended. */
  function Toggled(categories: seq<string>, category: string): (r: seq<string>)
    ensures category in categories ==> category !in r && |r| < |categories|
    ensures category in categories ==>
              exists idx :: PicksInOrder(categories, r, idx)
                            && forall i :: 0 <= i < |categories| ==> (categories[i] != category <==> i in idx)
    ensures category !in categories ==> r == categories + [category]
    ensures forall c :: c != category ==> (c in r <==> c in categories)
  {
    if category in categories then Without(categories, category) else categories + [category]
  }

  /** Toggling an absent category twice restores the list. */
  lemma ToggleTwice(categories: seq<string>, category: string)
    requires category !in categories
    ensures Toggled(Toggled(categories, category), category) == categories
  {
    WithoutAppended(categories, category);
  }

  /** `hasActiveFilters`: the filters differ from the cleared ones in something other than the authors. */
  predicate HasActiveFilters(filters: SearchFilters)
    ensures HasActiveFilters(filters) <==> filters.(authors := []) != NoFilters
  {
    |filters.categories| > 0 || filters.dateRange != All
  }

  /**
   * Selecting a new category always makes the filters active; deselecting one makes
   * them inactive exactly when it was the only selected category and the date range
   * is "all".
   */
  lemma ActiveFiltersAfterToggle(filters: SearchFilters, category: string)
    ensures category !in filters.categories ==>
              HasActiveFilters(filters.(categories := Toggled(filters.categories, category)))
    ensures category in filters.categories ==>
              (!HasActiveFilters(filters.(categories := Toggled(filters.categories, category)))
               <==> filters.dateRange == All && forall c :: c in filters.categories ==> c == category)
  {
    var r := Toggled(filters.categories, category);
    if category in filters.categories && r != [] {
      assert r[0] in r && r[0] in filters.categories;
    }
  }

  class SearchState {
    var query: string
    var filters: SearchFilters

    constructor()
      ensures query == "" && filters == NoFilters
    {
      query := "";
      filters := NoFilters;
    }

    /** Typing into the search box. */
    method SetQuery(text: string)
      modifies this
      ensures query == text && filters == old(filters)
    {
      query := text;
    }

    /** `toggleCategory`: only the category list changes. */
    method ToggleCategory(category: string)
      modifies this
      ensures filters == old(filters).(categories := Toggled(old(filters.categories), category))
      ensures filters.dateRange == old(filters.dateRange) && filters.authors == old(filters.authors)
      ensures query == old(query)
    {
      filters := filters.(categories := Toggled(filters.categories, category));
    }

    /**
     * `handleSearch`: the `onSearch` call it makes, with the untrimmed query, when the
     * trimmed query is non-empty or a category is selected; no call otherwise.
     */
    method HandleSearch() returns (call: Option<(string, SearchFilters)>)
      ensures call.Some? <==> JsTrim(query) != "" || |filters.categories| > 0
      ensures call.Some? ==> call.value == (query, filters)
    {
      if JsTrim(query) != "" || |filters.categories| > 0 {
        call := Some((query, filters));
      } else {
        call := None;
      }
    }

    /** `handleClear`: an empty query and no filters. */
    method HandleClear()
      modifies this
      ensures query == "" && filters == NoFilters
    {
      query := "";
      filters := NoFilters;
    }
  }
}
