# World Bank countries API — a Dafny model of its data-shaping core

The service lists the countries of the World Bank's country page, attaches to
each the code the World Bank country directory gives its name, and builds a
per-country profile of seven indicators on first request, caching it in an
in-memory store. A browser script pages and filters the list.

This project models, with every network request turned into an input:

- **Country lister** (`scrape_countries`, module `Scraping`): the loop over
  the parsed anchors that keeps `/country/` links, drops empty names, keeps the
  first anchor of each name, builds the link, and the stable sort by name.
  Names are ordered as Python orders strings (code point by code point).
- **Code mapper and enrichment** (`get_country_code_mapping`,
  `enrich_countries`, `fetch_and_enrich_countries`, module `Codes`): the
  directory response is read with Python's semantics for indexing and
  iteration, so every shape that makes the source raise gives the 500 parse
  error; the table is keyed by lower-cased name, last record wins; enrichment
  writes `id` into each entry of the list in place.
- **Indicator fetcher and profile builder** (`fetch_indicator`,
  `scrape_country_profile`, module `Profiles`): the response is interpreted as
  the source's `try` block does, and the profile is built by nested loops over
  the fixed four-section catalog.
- **Store** (`countries_data`, `get_countries`, `get_country_details`, module
  `Store`): a class over the start-up list (an array: never resized, entries
  updated in place) whose lookup is proved against a pure transition function
  `Details`.
- **Browser pagination and filter** (`static/script.js`, module `Pagination`):
  `Array.prototype.slice` bounds, the page count, the pagination buttons, the
  filter, and the `currentPage` state with its three button handlers.

Shared modules: `Wrappers` (Option, Result, the HTTP error), `Json` (decoded
JSON values and the Python operations on them, each returning None where
Python raises), `Text` (lower-casing, substring search, string order),
`Records` (the country and profile records).

`app.py`, `utils.py` and `scraping.py` hold copies of the same functions,
identical line for line except `fetch_and_enrich_countries`, whose copies
differ only in their docstring, comments and local variable names; `main.py`
repeats the two endpoints of `app.py` line for line. One model serves all
copies. The table below cites one copy per member; the
others are:

| function | app.py | utils.py | scraping.py | main.py |
|---|---|---|---|---|
| scrape_countries | 16-40 | 5-29 | 7-31 | — |
| get_country_code_mapping | 42-59 | 31-48 | 33-50 | — |
| enrich_countries | 61-73 | 50-62 | 52-64 | — |
| fetch_indicator | 75-95 | 110-130 | — | — |
| scrape_country_profile | 97-128 | 77-108 | — | — |
| fetch_and_enrich_countries | 130-136 | 64-75 | — | — |
| get_countries | 141-146 | — | — | 19-24 |
| get_country_details | 148-161 | — | — | 26-39 |

Points of the code that the model keeps as written:

- `fetch_indicator` (app.py:80-82) turns only a non-200 status into None,
  which the profile builder then replaces by the placeholder; an exception
  raised by `requests.get` itself is not caught and would end the request.
- An indicator answer without records gives value "No data" and year ""
  (app.py:92-93), not an empty value.
- `get_country_code_mapping` (app.py:52-57) accepts any decoded body whose
  element 1 can be iterated over records that each have a string "name" and
  an "id", not only a two-element array; an empty object or an empty string
  in that place gives an empty table.
- An `id` is whatever the directory record holds under "id" (app.py:56),
  normally a three-letter string, so the model carries it as a JSON value and
  applies Python's truth test to it (main.py:35).

## Model

| member | source | states |
|---|---|---|
| `Scraping.ScrapeCountries` | app.py:20-40 | non-200 listing status gives 500 "Failed to fetch country page"; otherwise the result is sorted ascending by name, has unique non-empty names, its name set is exactly the non-empty texts of anchors whose href contains "/country/", and each entry has the link of the first anchor with its name, no id and an empty profile |
| `Scraping.CollectedSpec` | scraping.py:16-30 | the loop keeps exactly the non-empty country-anchor texts, each once, with the first anchor's link "https://data.worldbank.org" + href + "?view=chart" and profile `{}` |
| `Scraping.SortByNameCorrect` | utils.py:29 | sorting by name yields an ascending permutation of the collected list and keeps distinct names distinct |
| `Scraping.FirstLinkAppend` | utils.py:20-23 | an anchor seen after a name was kept does not change that name's link (first occurrence wins) |
| `Text.ContainsIffOccurs` | app.py:29 | the substring test `'/country/' in href` holds exactly when the pattern occurs at some index |
| `Text.LowerStr` | app.py:55-56 | lower-casing keeps the length and lower-cases each character |
| `Text.LexLeTotal` | app.py:40 | Python's string order compares any two names |
| `Text.LexLeTransitive` | scraping.py:31 | Python's string order is transitive, so the sorted order is well defined |
| `Text.LexLeAntisymmetric` | utils.py:29 | two names ordered both ways are equal |
| `Scraping.SortByNameUnique` | app.py:40 | on a list with distinct names, every ascending rearrangement by name equals the sort's output, so the sorted list is fixed by the order alone |
| `Codes.GetCountryCodeMapping` | app.py:47-59 | non-200 gives exactly 500 "Failed to fetch country codes from API"; every other failure is 500 "Error parsing country code data"; success is the table the loop fills item by item |
| `Codes.MappingOfDefined` | utils.py:40-48 | the table is built exactly when every visited item has a string "name" and an "id"; one bad item makes the whole call fail |
| `Codes.MappingOfKeys` | scraping.py:44-48 | the key set is exactly the lower-cased names of the items |
| `Codes.MappingOfLastWins` | scraping.py:45-47 | each key maps to the id of the last item with that lower-cased name: a later item overwrites an earlier one |
| `Codes.AttachCodes` | scraping.py:57-63 | in place, every entry gets `id` = the code its lower-cased name maps to, else "" |
| `Codes.EnrichCountries` | app.py:61-73 | a mapping error propagates and leaves the list untouched; otherwise the same list comes back with ids attached |
| `Codes.EnrichedChangesOnlyIds` | utils.py:55-61 | enrichment keeps length, order, names, links and profiles; `id` is `mapping[lower(name)]` when that key exists, else "" |
| `Codes.EnrichedIdsFromMapping` | app.py:66-72 | every attached id is a value of the table or the empty string |
| `Codes.CodeForIgnoresCase` | app.py:67-68 | names equal up to case get the same id; matching is on the whole lower-cased name |
| `Codes.FetchAndEnrichCountries` | utils.py:64-75 | a listing failure comes first, then a mapping failure; on success a fresh list equal to the sorted scrape output, same order and entries, with ids attached |
| `Json.Lookup` | app.py:89-90 | a key is found exactly when the record has it, and the value found is the key's last binding in the record |
| `Profiles.FetchIndicator` | app.py:81-95 | None exactly on a non-200 status; otherwise, under the indicator code, the first record's "value" and "date" ("No data" and "" for an absent key) when the answer has an object as first record, and the placeholder `{code, "No data", ""}` for every other body |
| `Profiles.DecodeIndicatorShape` | utils.py:118-130 | the `try` block never fails: a first record that is an object gives its "value" and "date" (defaults only for absent keys); every other body, including non-JSON and empty data, gives `{code, "No data", ""}` |
| `Profiles.ProfileOfShape` | app.py:101-127 | sections Social, Economic, Environment, Institutions in that order with 3, 2, 1, 1 results; each labelled with its catalog name; a None fetch gives exactly `{name, "No data", ""}`; a fetched result keeps its value and year |
| `Profiles.ScrapeCountryProfile` | utils.py:98-108 | the nested loops build exactly the catalog-ordered profile, one section per catalog section with one result per indicator |
| `Store.FirstMatch` | main.py:32-33 | the index found is the first entry whose lower-cased name equals the lower-cased query; None when no entry matches |
| `Store.CountryStore.constructor` | app.py:138 | the store holds the list that `fetch_and_enrich_countries` built at start-up, the same array that later requests update |
| `Store.CountryStore.GetCountries` | main.py:19-24 | returns the whole store as it stands |
| `Store.CountryStore.GetCountryDetails` | main.py:26-39 | the answer and the new store are those of `Details` on the old store |
| `Store.DetailsOutcome` | app.py:154-161 | errors change nothing; "Country not found" exactly when no name matches; "Country code not found for profile lookup" exactly when the first match has no profile and no code; the call succeeds exactly when a first match exists and has a profile or a code, and every error is one of those two; on success the first match is answered, its profile built only if it was empty, and no other entry changes |
| `Store.DetailsIgnoresCase` | main.py:33 | queries equal up to case give the same answer and the same store |
| `Store.DetailsCached` | main.py:34-38 | after a successful request, asking again under any fetcher gives the same entry and changes nothing: the builder is not consulted |
| `Store.DetailsKeepsUniqueNames` | main.py:37 | requests keep the store's names distinct |
| `Store.FirstMatchByNames` | app.py:154-155 | which entry matches depends only on the entries' names, so filling a profile never changes it |
| `Pagination.PageItems` | static/script.js:80-83 | for a page from 1 on, the shown items are the contiguous slice `[(page-1)*10, min(page*10, n))`, at most 10 items |
| `Pagination.TotalPages` | static/script.js:96 | the page count is the ceiling of n/10: `n <= pages*10 < n+10` |
| `Pagination.PageNonEmptyIffCounted` | static/script.js:81-96 | a page from 1 on is non-empty exactly when it is at most the page count |
| `Pagination.PaginationControls` | static/script.js:93-124 | no controls iff at most one page; otherwise Prev disabled iff page 1, Next disabled iff last page, buttons numbered 1..totalPages with only the current one disabled |
| `Pagination.DisplayCountriesPage` | static/script.js:80-91 | shows the page slice of the list and the controls for the list's length |
| `Pagination.FilterSelects` | static/script.js:128 | the filter keeps, in original order, exactly the entries whose lower-cased name contains the lower-cased query |
| `Pagination.EmptyQueryKeepsAll` | static/script.js:127-128 | an empty query keeps every entry |
| `Pagination.PageState.FilterAndDisplay` | static/script.js:126-132 | `currentPage` is reset to 1 iff it exceeds the filtered page count, otherwise unchanged; that page of the filtered list is shown |
| `Pagination.PageState.ClickPrev` | static/script.js:101-104 | the page goes down by one, then filtering and display as above |
| `Pagination.PageState.ClickNext` | static/script.js:119-122 | the page goes up by one, then filtering and display as above |
| `Pagination.PageState.ClickPage` | static/script.js:110-113 | the page becomes the button's number, then filtering and display as above |
| `Pagination.PageState.constructor` | static/script.js:1-2 | the page starts at 1 over the loaded list |
| `Pagination.ResetKeepsPageInRange` | static/script.js:129-130 | after filtering, a page number from 1 on is within the filtered pages and shows something, unless nothing matches |

## Left out

- HTTP requests, HTML parsing and JSON decoding: the listing page is its
  status and its parsed anchors (href and stripped text), the directory and
  indicator answers are a status and a decoded value (or none when the body is
  not JSON); the statistics API is a function parameter.
- Exceptions raised by the transport itself (connection errors, timeouts):
  not caught by the source and not modelled.
- Unicode case mapping of `str.lower()` and `toLowerCase()`, and the white
  space stripping of `get_text(strip=True)`: lower-casing maps ASCII letters
  only, and anchor texts arrive already stripped.
- Indicator values and dates are carried as decoded JSON values; nothing is
  computed with them.
- FastAPI routing, `JSONResponse` wrapping (`{"countries": ...}`,
  `{"country": ...}`), the `/` route and its template, static files, uvicorn,
  the start-up `print`: framework and I/O.
- The race between concurrent first requests for the same country: requests
  are modelled one at a time.
- In `static/script.js`: `fetchCountries`, `createCountryElement`, `viewMore`,
  `window.onload` and all DOM writes; the list loaded at start is the
  constructor's argument, and the search box's text is a parameter.
- `Json.Iterate`: iterating over an object lists one key per member, so an
  object with a repeated key is visited more times than in Python; only
  whether an object is empty affects the outcome here.
- `Pagination.FilterSelects`: states order and membership, not how many
  copies of a repeated entry are kept; the store never holds two equal
  entries.
