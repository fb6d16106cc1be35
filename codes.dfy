/**
  The code mapper (`get_country_code_mapping`) and the enrichment pipeline
  (`enrich_countries`, `fetch_and_enrich_countries`): the country directory is
  turned into a lower-cased-name to id table, and every scraped entry gets the
  id its lower-cased name maps to, or the empty string.
 */
module Codes {
  import opened Wrappers
  import opened Json
  import opened Text
  import opened Records
  import opened Scraping

  const CodesFetchFailed: HttpError := HttpError(500, "Failed to fetch country codes from API")
  const CodesParseFailed: HttpError := HttpError(500, "Error parsing country code data")

  /** The items `for item in data[1]` visits, or None when `data[1]` raises or
      is not iterable. */
  function DirectoryItems(data: Value): Option<seq<Value>>
  {
    match At(data, 1)
    case None => None
    case Some(records) => Iterate(records)
  }

  /** The table entry one item contributes, `(item["name"].lower(), item["id"])`,
      or None when evaluating either raises. */
  function Entry(item: Value): Option<(string, Value)>
  {
    match (Member(item, "name"), Member(item, "id"))
    case (Some(Str(name)), Some(id)) => Some((LowerStr(name), id))
    case _ => None
  }

  /** The table after the loop has visited `items`; None once an item raised. */
  function MappingOf(items: seq<Value>): Option<map<string, Value>>
  {
    if items == [] then Some(map[])
    else
      match (MappingOf(items[..|items| - 1]), Entry(items[|items| - 1]))
      case (Some(m), Some(e)) => Some(m[e.0 := e.1])
      case _ => None
  }

  /** What `get_country_code_mapping` returns or raises for the directory
      response. */
  function CodeMapping(directory: Response): Result<map<string, Value>, HttpError>
  {
    if directory.status != 200 then Err(CodesFetchFailed)
    else if directory.body.None? then Err(CodesParseFailed)
    else match DirectoryItems(directory.body.value)
      case None => Err(CodesParseFailed)
      case Some(items) =>
        match MappingOf(items)
        case None => Err(CodesParseFailed)
        case Some(m) => Ok(m)
  }

  /** Item `i` evaluates to an entry whose key is `key`. */
  predicate KeyedAt(items: seq<Value>, i: int, key: string)
  {
    0 <= i < |items| && Entry(items[i]).Some? && Entry(items[i]).value.0 == key
  }

  /** The table is built exactly when every item is well formed. */
  lemma {:induction false} MappingOfDefined(items: seq<Value>)
    ensures MappingOf(items).Some? <==> forall i :: 0 <= i < |items| ==> Entry(items[i]).Some?
  {
    if items != [] {
      var prefix := items[..|items| - 1];
      MappingOfDefined(prefix);
      assert forall i :: 0 <= i < |prefix| ==> prefix[i] == items[i];
    }
  }

  lemma KeyedAtPrefix(items: seq<Value>, i: int, key: string)
    requires 0 <= i < |items| - 1
    ensures KeyedAt(items[..|items| - 1], i, key) <==> KeyedAt(items, i, key)
  {
    assert items[..|items| - 1][i] == items[i];
  }

  /** `key` is in the table exactly when some item is keyed `key`. */
  lemma {:induction false} MappingOfKeysAt(items: seq<Value>, key: string)
    requires MappingOf(items).Some?
    ensures key in MappingOf(items).value <==> exists i :: KeyedAt(items, i, key)
  {
    if items != [] {
      var prefix := items[..|items| - 1];
      var n := |items| - 1;
      MappingOfKeysAt(prefix, key);
      var e := Entry(items[n]).value;
      assert MappingOf(items).value == MappingOf(prefix).value[e.0 := e.1];
      if key == e.0 {
        assert KeyedAt(items, n, key);
      } else {
        assert !KeyedAt(items, n, key);
        if i :| KeyedAt(prefix, i, key) {
          KeyedAtPrefix(items, i, key);
        }
        if i :| KeyedAt(items, i, key) {
          KeyedAtPrefix(items, i, key);
        }
      }
    }
  }

  /** The table's keys are exactly the lower-cased names of the items. */
  lemma MappingOfKeys(items: seq<Value>)
    requires MappingOf(items).Some?
    ensures forall key :: key in MappingOf(items).value <==> exists i :: KeyedAt(items, i, key)
  {
    forall key ensures key in MappingOf(items).value <==> exists i :: KeyedAt(items, i, key) {
      MappingOfKeysAt(items, key);
    }
  }

  /** Item `i`, the last one keyed `key`, gives the table's value for `key`. */
  lemma {:induction false} MappingOfLastWinsAt(items: seq<Value>, i: int, key: string)
    requires MappingOf(items).Some? && KeyedAt(items, i, key)
    requires forall j :: i < j < |items| ==> !KeyedAt(items, j, key)
    ensures key in MappingOf(items).value && MappingOf(items).value[key] == Entry(items[i]).value.1
  {
    var prefix := items[..|items| - 1];
    var n := |items| - 1;
    var e := Entry(items[n]).value;
    assert MappingOf(items).value == MappingOf(prefix).value[e.0 := e.1];
    if i < n {
      assert !KeyedAt(items, n, key);
      assert prefix[i] == items[i];
      forall j | i < j < |prefix| ensures !KeyedAt(prefix, j, key) {
        assert prefix[j] == items[j];
        assert !KeyedAt(items, j, key);
      }
      MappingOfLastWinsAt(prefix, i, key);
    }
  }

  /** Each key maps to the id of the last item with that lower-cased name:
      a later item overwrites an earlier one. */
  lemma MappingOfLastWins(items: seq<Value>)
    requires MappingOf(items).Some?
    ensures forall i, key :: KeyedAt(items, i, key) && (forall j :: i < j < |items| ==> !KeyedAt(items, j, key)) ==>
              key in MappingOf(items).value && MappingOf(items).value[key] == Entry(items[i]).value.1
  {
    forall i, key | KeyedAt(items, i, key) && (forall j :: i < j < |items| ==> !KeyedAt(items, j, key))
      ensures key in MappingOf(items).value && MappingOf(items).value[key] == Entry(items[i]).value.1
    {
      MappingOfLastWinsAt(items, i, key);
    }
  }

  /**
    `get_country_code_mapping` after the directory request: a non-200 status
    and every shape error raise their 500 errors; otherwise the loop fills the
    table item by item.
   */
  method GetCountryCodeMapping(directory: Response) returns (r: Result<map<string, Value>, HttpError>)
    ensures r == CodeMapping(directory)
    ensures directory.status != 200 <==> r == Err(CodesFetchFailed)
    ensures directory.status == 200 && r.Err? ==> r.error == CodesParseFailed
  {
    if directory.status != 200 {
      return Err(CodesFetchFailed);
    }
    if directory.body.None? {
      return Err(CodesParseFailed);
    }
    var items := DirectoryItems(directory.body.value);
    if items.None? {
      return Err(CodesParseFailed);
    }
    var xs := items.value;
    var mapping: map<string, Value> := map[];
    var i := 0;
    while i < |xs|
      invariant 0 <= i <= |xs|
      invariant MappingOf(xs[..i]) == Some(mapping)
    {
      assert xs[..i + 1][..i] == xs[..i];
      var entry := Entry(xs[i]);
      if entry.None? {
        MappingOfDefined(xs);
        return Err(CodesParseFailed);
      }
      mapping := mapping[entry.value.0 := entry.value.1];
      i := i + 1;
    }
    assert xs[..|xs|] == xs;
    r := Ok(mapping);
  }

  /** The id enrichment gives an entry called `name`. */
  function CodeFor(mapping: map<string, Value>, name: string): Value
  {
    var key := LowerStr(name);
    if key in mapping then mapping[key] else Str("")
  }

  /** A scraped list with ids attached. */
  function Enriched(s: seq<Country>, mapping: map<string, Value>): seq<Country>
  {
    seq(|s|, i requires 0 <= i < |s| => s[i].(id := Some(CodeFor(mapping, s[i].name))))
  }

  /**
    Enrichment changes nothing but `id`: length, order, names, links and
    profiles stay; `id` is the code the lower-cased name maps to, or the empty
    string when it maps to nothing.
   */
  lemma EnrichedChangesOnlyIds(s: seq<Country>, mapping: map<string, Value>)
    ensures |Enriched(s, mapping)| == |s|
    ensures forall i :: 0 <= i < |s| ==>
              var e := Enriched(s, mapping)[i];
              e.name == s[i].name && e.link == s[i].link && e.profile == s[i].profile && e.id.Some? &&
              (LowerStr(s[i].name) in mapping ==> e.id.value == mapping[LowerStr(s[i].name)]) &&
              (LowerStr(s[i].name) !in mapping ==> e.id.value == Str(""))
  {
  }

  /** Every attached id is a code of the table, or the empty string. */
  lemma EnrichedIdsFromMapping(s: seq<Country>, mapping: map<string, Value>)
    ensures forall c :: c in Enriched(s, mapping) ==> c.id.Some? && (c.id.value in mapping.Values || c.id.value == Str(""))
  {
  }

  /** Matching is by the whole lower-cased name: names equal up to case get
      the same id. */
  lemma CodeForIgnoresCase(mapping: map<string, Value>, a: string, b: string)
    requires LowerStr(a) == LowerStr(b)
    ensures CodeFor(mapping, a) == CodeFor(mapping, b)
  {
  }

  /** The loop of `enrich_countries`: every entry of the list gets its `id`,
      in place. */
  method AttachCodes(countries: array<Country>, mapping: map<string, Value>)
    modifies countries
    ensures countries[..] == Enriched(old(countries[..]), mapping)
  {
    var i := 0;
    while i < countries.Length
      invariant 0 <= i <= countries.Length
      invariant forall j :: 0 <= j < i ==> countries[j] == old(countries[j]).(id := Some(CodeFor(mapping, old(countries[j]).name)))
      invariant forall j :: i <= j < countries.Length ==> countries[j] == old(countries[j])
    {
      var key := LowerStr(countries[i].name);
      if key in mapping {
        countries[i] := countries[i].(id := Some(mapping[key]));
      } else {
        countries[i] := countries[i].(id := Some(Str("")));
      }
      i := i + 1;
    }
  }

  /** `enrich_countries`: fetch the table (its errors propagate before any
      entry is touched), then attach the codes and hand back the same list. */
  method EnrichCountries(scraped: array<Country>, directory: Response) returns (r: Result<array<Country>, HttpError>)
    modifies scraped
    ensures CodeMapping(directory).Err? ==> r == Err(CodeMapping(directory).error) && scraped[..] == old(scraped[..])
    ensures CodeMapping(directory).Ok? ==> r == Ok(scraped) && scraped[..] == Enriched(old(scraped[..]), CodeMapping(directory).value)
  {
    var mapping := GetCountryCodeMapping(directory);
    if mapping.Err? {
      return Err(mapping.error);
    }
    AttachCodes(scraped, mapping.value);
    r := Ok(scraped);
  }

  /**
    `fetch_and_enrich_countries`: the scraped list, in its order and with its
    entries, each with its id attached. The listing page is requested first;
    its failure comes before the directory is consulted.
   */
  method FetchAndEnrichCountries(pageStatus: int, anchors: seq<Anchor>, directory: Response)
    returns (r: Result<array<Country>, HttpError>)
    ensures pageStatus != 200 ==> r == Err(PageFetchFailed)
    ensures pageStatus == 200 && CodeMapping(directory).Err? ==> r == Err(CodeMapping(directory).error)
    ensures pageStatus == 200 && CodeMapping(directory).Ok? ==>
              r.Ok? && fresh(r.value) &&
              r.value[..] == Enriched(SortByName(Collected(anchors)), CodeMapping(directory).value)
  {
    var scraped := ScrapeCountries(pageStatus, anchors);
    if scraped.Err? {
      return Err(scraped.error);
    }
    var s := scraped.value;
    var list := new Country[|s|](i requires 0 <= i < |s| => s[i]);
    assert list[..] == s;
    r := EnrichCountries(list, directory);
  }
}
