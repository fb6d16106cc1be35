/**
  The in-memory country store behind the API (`countries_data` with
  `get_countries` and `get_country_details`): a list built once at start-up
  whose entries get their profile filled on first request.
 */
module Store {
  import opened Wrappers
  import opened Json
  import opened Text
  import opened Records
  import opened Profiles

  const CountryNotFound: HttpError := HttpError(404, "Country not found")
  const CodeNotFound: HttpError := HttpError(404, "Country code not found for profile lookup")

  /** Names compared the way the lookup does: whole strings, lower-cased. */
  predicate SameName(a: string, b: string)
  {
    LowerStr(a) == LowerStr(b)
  }

  /** The index of the first entry whose name matches `query`. */
  function FirstMatch(s: seq<Country>, query: string): (r: Option<nat>)
    ensures r.Some? ==> r.value < |s| && SameName(s[r.value].name, query)
    ensures r.Some? ==> forall j :: 0 <= j < r.value ==> !SameName(s[j].name, query)
    ensures r.None? ==> forall j :: 0 <= j < |s| ==> !SameName(s[j].name, query)
  {
    if s == [] then None
    else if SameName(s[0].name, query) then Some(0)
    else match FirstMatch(s[1..], query)
      case None => None
      case Some(k) => Some(k + 1)
  }

  /** `not country.get("id")`: the id key is absent or holds a falsy value. */
  predicate HasCode(id: Option<Value>)
  {
    id.Some? && Truthy(id.value)
  }

  /**
    One `get_country_details(query)` on the list `s`: the answer, and the
    list afterwards.
   */
  function Details(s: seq<Country>, query: string, fetch: Fetcher): (Result<Country, HttpError>, seq<Country>)
  {
    match FirstMatch(s, query)
    case None => (Err(CountryNotFound), s)
    case Some(i) =>
      if s[i].profile != [] then (Ok(s[i]), s)
      else if !HasCode(s[i].id) then (Err(CodeNotFound), s)
      else
        var filled := s[i].(profile := ProfileOf(fetch, s[i].id.value));
        (Ok(filled), s[i := filled])
  }

  class CountryStore {
    /** The list built at start-up; it is never resized, only its entries
        change. */
    const countries: array<Country>

    constructor (data: array<Country>)
      ensures countries == data
    {
      countries := data;
    }

    /** `get_countries`: the whole list as it stands. */
    method GetCountries() returns (r: seq<Country>)
      ensures r == countries[..]
    {
      r := countries[..];
    }

    /** `get_country_details`: look the name up, fill a missing profile in
        place, answer the entry. */
    method GetCountryDetails(query: string, fetch: Fetcher) returns (r: Result<Country, HttpError>)
      modifies countries
      ensures (r, countries[..]) == Details(old(countries[..]), query, fetch)
    {
      var i := 0;
      while i < countries.Length
        invariant 0 <= i <= countries.Length
        invariant countries[..] == old(countries[..])
        invariant forall j :: 0 <= j < i ==> !SameName(countries[j].name, query)
      {
        var country := countries[i];
        if LowerStr(country.name) == LowerStr(query) {
          assert FirstMatch(old(countries[..]), query) == Some(i);
          if country.profile == [] {
            if !HasCode(country.id) {
              return Err(CodeNotFound);
            }
            var profile := ScrapeCountryProfile(fetch, country.id.value);
            countries[i] := country.(profile := profile);
          }
          return Ok(countries[i]);
        }
        i := i + 1;
      }
      return Err(CountryNotFound);
    }
  }

  /** The first match depends on the entries' names only. */
  lemma {:induction false} FirstMatchByNames(s: seq<Country>, t: seq<Country>, query: string)
    requires |s| == |t| && forall j :: 0 <= j < |s| ==> s[j].name == t[j].name
    ensures FirstMatch(s, query) == FirstMatch(t, query)
  {
    if s != [] {
      FirstMatchByNames(s[1..], t[1..], query);
    }
  }

  /** The first match depends on the lower-cased query only. */
  lemma {:induction false} FirstMatchByLowered(s: seq<Country>, q1: string, q2: string)
    requires LowerStr(q1) == LowerStr(q2)
    ensures FirstMatch(s, q1) == FirstMatch(s, q2)
  {
    if s != [] {
      FirstMatchByLowered(s[1..], q1, q2);
    }
  }

  /** Lookup ignores case: "france" and "FRANCE" get the same answer and
      leave the same list. */
  lemma DetailsIgnoresCase(s: seq<Country>, q1: string, q2: string, fetch: Fetcher)
    requires LowerStr(q1) == LowerStr(q2)
    ensures Details(s, q1, fetch) == Details(s, q2, fetch)
  {
    FirstMatchByLowered(s, q1, q2);
  }

  /**
    What one request does to the list: the errors change nothing; "Country
    not found" exactly when no name matches; "Country code not found for
    profile lookup" exactly when the first match has no profile and no code;
    success exactly when the first match has a profile or a code, and then the
    answer is the first match, with its profile built when it had none, and
    only that entry's profile changes.
   */
  lemma DetailsOutcome(s: seq<Country>, query: string, fetch: Fetcher)
    ensures var (r, t) := Details(s, query, fetch);
      && |t| == |s|
      && (forall j :: 0 <= j < |s| ==>
            t[j].name == s[j].name && t[j].link == s[j].link && t[j].id == s[j].id)
      && (r.Err? ==> t == s)
      && (r.Ok? <==> FirstMatch(s, query).Some? &&
                     (s[FirstMatch(s, query).value].profile != [] || HasCode(s[FirstMatch(s, query).value].id)))
      && (r.Err? ==> r == Err(CountryNotFound) || r == Err(CodeNotFound))
      && (r == Err(CountryNotFound) <==> forall j :: 0 <= j < |s| ==> !SameName(s[j].name, query))
      && (r == Err(CodeNotFound) <==>
            FirstMatch(s, query).Some? && s[FirstMatch(s, query).value].profile == [] &&
            !HasCode(s[FirstMatch(s, query).value].id))
      && (r.Ok? ==>
            var i := FirstMatch(s, query).value;
            && t[i] == r.value
            && (forall j :: 0 <= j < |s| && j != i ==> t[j] == s[j])
            && (s[i].profile != [] ==> r.value == s[i])
            && (s[i].profile == [] ==> r.value.profile == ProfileOf(fetch, s[i].id.value)))
  {
    var (r, t) := Details(s, query, fetch);
    if FirstMatch(s, query).None? {
    } else {
      var i := FirstMatch(s, query).value;
      if s[i].profile == [] && !HasCode(s[i].id) {
        assert r == Err(CodeNotFound) != Err(CountryNotFound);
      }
    }
  }

  /**
    Once a request has answered an entry, asking again, under any fetcher,
    answers the same entry and changes nothing: the profile is cached and the
    builder is not consulted.
   */
  lemma DetailsCached(s: seq<Country>, query: string, fetch: Fetcher, again: Fetcher)
    requires Details(s, query, fetch).0.Ok?
    ensures var (r, t) := Details(s, query, fetch);
      Details(t, query, again) == (r, t)
  {
    var (r, t) := Details(s, query, fetch);
    FirstMatchByNames(s, t, query);
    var i := FirstMatch(s, query).value;
    if s[i].profile == [] {
      assert |ProfileOf(fetch, s[i].id.value)| == |Catalog|;
    }
  }

  /** Requests keep the store's names distinct: names never change. */
  lemma DetailsKeepsUniqueNames(s: seq<Country>, query: string, fetch: Fetcher)
    requires UniqueNames(s)
    ensures UniqueNames(Details(s, query, fetch).1)
  {
    DetailsOutcome(s, query, fetch);
  }
}
