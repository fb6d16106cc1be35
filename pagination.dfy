/**
  The browser page's list view: the search filter, the page slice, the page
  count and the pagination buttons, and the `currentPage` state the filter
  and the buttons update.
 */
module Pagination {
  import opened Text
  import opened Records

  const ItemsPerPage: nat := 10

  /** How `Array.prototype.slice` reads one bound: a negative bound counts
      from the end, and every bound is clamped into `[0, n]`. */
  function SliceBound(k: int, n: nat): (r: nat)
    ensures r <= n
    ensures 0 <= k <= n ==> r == k
  {
    if k < 0 then (if n + k < 0 then 0 else n + k)
    else if k > n then n
    else k
  }

  /** `s.slice(start, end)`. */
  function Slice<T>(s: seq<T>, start: int, end: int): seq<T>
  {
    var b, e := SliceBound(start, |s|), SliceBound(end, |s|);
    if b < e then s[b..e] else []
  }

  function Min(a: int, b: int): int
  {
    if a < b then a else b
  }

  /** The items `displayCountriesPage` shows for `page`. */
  function PageItems<T>(s: seq<T>, page: int): (r: seq<T>)
    ensures page >= 1 ==>
              r == s[Min((page - 1) * ItemsPerPage, |s|)..Min(page * ItemsPerPage, |s|)]
    ensures page >= 1 ==> |r| <= ItemsPerPage
  {
    var start := (page - 1) * ItemsPerPage;
    Slice(s, start, start + ItemsPerPage)
  }

  /** `Math.ceil(totalItems / itemsPerPage)`. */
  function TotalPages(totalItems: nat): (r: nat)
    ensures totalItems <= r * ItemsPerPage < totalItems + ItemsPerPage
  {
    (totalItems + ItemsPerPage - 1) / ItemsPerPage
  }

  /** The page count agrees with the slices: exactly the pages 1 to
      `TotalPages` are non-empty. */
  lemma PageNonEmptyIffCounted<T>(s: seq<T>, page: int)
    requires page >= 1
    ensures PageItems(s, page) != [] <==> page <= TotalPages(|s|)
  {
  }

  datatype PageButton = PageButton(number: nat, disabled: bool)

  /** What `updatePaginationControls` puts in the pagination bar. */
  datatype Controls =
    | NoControls
    | Controls(prevDisabled: bool, buttons: seq<PageButton>, nextDisabled: bool)

  /** The bar for `totalItems` items showing `page`: nothing when there is at
      most one page; otherwise Prev, one button per page numbered from 1, and
      Next, where Prev is disabled on the first page, Next on the last, and
      only the current page's button is disabled. */
  predicate ControlsFit(c: Controls, totalItems: nat, page: int)
  {
    var total := TotalPages(totalItems);
    && (c.NoControls? <==> total <= 1)
    && (c.Controls? ==>
          && c.prevDisabled == (page == 1)
          && c.nextDisabled == (page == total)
          && |c.buttons| == total
          && forall k :: 0 <= k < |c.buttons| ==>
               c.buttons[k].number == k + 1 && (c.buttons[k].disabled <==> k + 1 == page))
  }

  /** `updatePaginationControls`. */
  method PaginationControls(totalItems: nat, page: int) returns (c: Controls)
    ensures ControlsFit(c, totalItems, page)
  {
    var totalPages := (totalItems + ItemsPerPage - 1) / ItemsPerPage;
    if totalPages <= 1 {
      return NoControls;
    }
    var prevDisabled := page == 1;
    var buttons: seq<PageButton> := [];
    var i := 1;
    while i <= totalPages
      invariant 1 <= i <= totalPages + 1
      invariant |buttons| == i - 1
      invariant forall k :: 0 <= k < |buttons| ==>
                  buttons[k].number == k + 1 && (buttons[k].disabled <==> k + 1 == page)
    {
      buttons := buttons + [PageButton(i, i == page)];
      i := i + 1;
    }
    var nextDisabled := page == totalPages;
    c := Controls(prevDisabled, buttons, nextDisabled);
  }

  /** What the list area and the pagination bar show. */
  datatype PageView = PageView(shown: seq<Country>, controls: Controls)

  /** `displayCountriesPage`. */
  method DisplayCountriesPage(countries: seq<Country>, page: int) returns (view: PageView)
    ensures view.shown == PageItems(countries, page)
    ensures ControlsFit(view.controls, |countries|, page)
  {
    var start := (page - 1) * ItemsPerPage;
    var end := start + ItemsPerPage;
    var paged := Slice(countries, start, end);
    var controls := PaginationControls(|countries|, page);
    view := PageView(paged, controls);
  }

  /** The search filter: the lower-cased name contains the lower-cased query. */
  predicate MatchesQuery(c: Country, query: string)
  {
    Contains(LowerStr(c.name), LowerStr(query))
  }

  /** `allCountries.filter(...)`: the matching entries in their order. */
  function FilterByQuery(s: seq<Country>, query: string): seq<Country>
  {
    if s == [] then []
    else (if MatchesQuery(s[0], query) then [s[0]] else []) + FilterByQuery(s[1..], query)
  }

  /** `r` is `s` with some entries left out, the rest in order. */
  predicate IsSubsequence(r: seq<Country>, s: seq<Country>)
    decreases |s|
  {
    r == [] || (s != [] && ((r[0] == s[0] && IsSubsequence(r[1..], s[1..])) || IsSubsequence(r, s[1..])))
  }

  /** The filter keeps, in their original order, exactly the entries that
      match. */
  lemma {:induction false} FilterSelects(s: seq<Country>, query: string)
    ensures IsSubsequence(FilterByQuery(s, query), s)
    ensures forall c :: c in FilterByQuery(s, query) <==> c in s && MatchesQuery(c, query)
  {
    if s != [] {
      FilterSelects(s[1..], query);
      assert s == [s[0]] + s[1..];
      var r := FilterByQuery(s, query);
      if MatchesQuery(s[0], query) {
        assert r[0] == s[0] && r[1..] == FilterByQuery(s[1..], query);
      } else {
        assert r == FilterByQuery(s[1..], query);
      }
    }
  }

  /** An empty query keeps every entry. */
  lemma {:induction false} EmptyQueryKeepsAll(s: seq<Country>)
    ensures FilterByQuery(s, "") == s
  {
    if s != [] {
      ContainsEmpty(LowerStr(s[0].name));
      EmptyQueryKeepsAll(s[1..]);
    }
  }

  /** The page state of the browser script: the list fetched at load time and
      the current page number. */
  class PageState {
    const allCountries: seq<Country>
    var currentPage: int

    constructor (loaded: seq<Country>)
      ensures allCountries == loaded && currentPage == 1
    {
      allCountries := loaded;
      currentPage := 1;
    }

    /** `filterAndDisplay` with the search box holding `query`: the current
        page goes back to 1 exactly when it lies beyond the filtered page
        count, and that page of the filtered list is shown. */
    method FilterAndDisplay(query: string) returns (view: PageView)
      modifies this
      ensures currentPage == if old(currentPage) > TotalPages(|FilterByQuery(allCountries, query)|) then 1 else old(currentPage)
      ensures view.shown == PageItems(FilterByQuery(allCountries, query), currentPage)
      ensures ControlsFit(view.controls, |FilterByQuery(allCountries, query)|, currentPage)
    {
      var filtered := FilterByQuery(allCountries, query);
      var totalPages := (|filtered| + ItemsPerPage - 1) / ItemsPerPage;
      if currentPage > totalPages {
        currentPage := 1;
      }
      view := DisplayCountriesPage(filtered, currentPage);
    }

    /** The Prev button's handler. */
    method ClickPrev(query: string) returns (view: PageView)
      modifies this
      ensures var filtered := FilterByQuery(allCountries, query);
        && currentPage == (if old(currentPage) - 1 > TotalPages(|filtered|) then 1 else old(currentPage) - 1)
        && view.shown == PageItems(filtered, currentPage)
        && ControlsFit(view.controls, |filtered|, currentPage)
    {
      currentPage := currentPage - 1;
      view := FilterAndDisplay(query);
    }

    /** The Next button's handler. */
    method ClickNext(query: string) returns (view: PageView)
      modifies this
      ensures var filtered := FilterByQuery(allCountries, query);
        && currentPage == (if old(currentPage) + 1 > TotalPages(|filtered|) then 1 else old(currentPage) + 1)
        && view.shown == PageItems(filtered, currentPage)
        && ControlsFit(view.controls, |filtered|, currentPage)
    {
      currentPage := currentPage + 1;
      view := FilterAndDisplay(query);
    }

    /** The handler of the button numbered `number`. */
    method ClickPage(number: nat, query: string) returns (view: PageView)
      modifies this
      ensures var filtered := FilterByQuery(allCountries, query);
        && currentPage == (if number > TotalPages(|filtered|) then 1 else number)
        && view.shown == PageItems(filtered, currentPage)
        && ControlsFit(view.controls, |filtered|, currentPage)
    {
      currentPage := number;
      view := FilterAndDisplay(query);
    }
  }

  /** After filtering, a page number that was at least 1 lies within the
      filtered pages (or is 1 when nothing matches), so the page shown is
      never empty unless nothing matches. */
  lemma ResetKeepsPageInRange(s: seq<Country>, query: string, page: int)
    requires page >= 1
    ensures var filtered := FilterByQuery(s, query);
      var next := if page > TotalPages(|filtered|) then 1 else page;
      && 1 <= next
      && (filtered != [] ==> next <= TotalPages(|filtered|) && PageItems(filtered, next) != [])
  {
    var filtered := FilterByQuery(s, query);
    var next := if page > TotalPages(|filtered|) then 1 else page;
    if filtered != [] {
      PageNonEmptyIffCounted(filtered, next);
    }
  }
}
