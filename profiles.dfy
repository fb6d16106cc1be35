/**
  The indicator fetcher (`fetch_indicator`) and the profile builder
  (`scrape_country_profile`). The statistics API is a parameter: `fetch`
  answers the request for a country code and an indicator code.
 */
module Profiles {
  import opened Wrappers
  import opened Json
  import opened Records

  /** The statistics API: the response to the most-recent-value request for a
      country code and an indicator code. */
  type Fetcher = (Value, string) -> Response

  /** The result used when no usable record is available. */
  function Placeholder(indicator: string): IndicatorResult
  {
    IndicatorResult(indicator, Str("No data"), Str(""))
  }

  /**
    The `try` block of `fetch_indicator`, evaluated with Python's semantics:
    `data and len(data) > 1 and data[1]` selects the first record, whose
    "value" and "date" are read with defaults. Any exception on the way is
    caught and gives the placeholder.
   */
  function DecodeIndicator(body: Option<Value>, code: string): IndicatorResult
  {
    match body
    case None => Placeholder(code)
    case Some(data) =>
      if !Truthy(data) then Placeholder(code)
      else match Len(data)
        case None => Placeholder(code)
        case Some(n) =>
          if n <= 1 then Placeholder(code)
          else match At(data, 1)
            case None => Placeholder(code)
            case Some(records) =>
              if !Truthy(records) then Placeholder(code)
              else match At(records, 0)
                case None => Placeholder(code)
                case Some(record) =>
                  match (GetOr(record, "value", Str("No data")), GetOr(record, "date", Str("")))
                  case (Some(value), Some(year)) => IndicatorResult(code, value, year)
                  case _ => Placeholder(code)
  }

  /** The first record of a well-shaped answer `[metadata, [record, ...]]`,
      when that record is an object. */
  function FirstRecord(body: Option<Value>): Option<seq<(string, Value)>>
  {
    if body.Some? && body.value.Arr? && |body.value.items| > 1 &&
       body.value.items[1].Arr? && body.value.items[1].items != [] &&
       body.value.items[1].items[0].Obj?
    then Some(body.value.items[1].items[0].fields)
    else None
  }

  function LookupOr(fields: seq<(string, Value)>, key: string, default: Value): Value
  {
    match Lookup(fields, key) case Some(v) => v case None => default
  }

  /**
    Whatever the body, decoding never fails: an answer whose first record is
    an object gives that record's "value" and "date" (the defaults "No data"
    and "" apply only to an absent key), and every other body, including one
    that is not JSON or has no records, gives the placeholder.
   */
  lemma DecodeIndicatorShape(body: Option<Value>, code: string)
    ensures FirstRecord(body).None? ==> DecodeIndicator(body, code) == Placeholder(code)
    ensures FirstRecord(body).Some? ==>
              var f := FirstRecord(body).value;
              DecodeIndicator(body, code) ==
                IndicatorResult(code, LookupOr(f, "value", Str("No data")), LookupOr(f, "date", Str("")))
  {
  }

  /** `fetch_indicator` once the response is in: None on a non-200 status,
      otherwise the first record's value and date under the indicator code,
      or the placeholder when there is no usable first record. */
  function FetchIndicator(response: Response, code: string): (r: Option<IndicatorResult>)
    ensures r.None? <==> response.status != 200
    ensures r.Some? ==> r.value.indicator == code
    ensures r.Some? && FirstRecord(response.body).None? ==> r.value == Placeholder(code)
    ensures r.Some? && FirstRecord(response.body).Some? ==>
              var f := FirstRecord(response.body).value;
              r.value == IndicatorResult(code, LookupOr(f, "value", Str("No data")), LookupOr(f, "date", Str("")))
  {
    if response.status != 200 then None else Some(DecodeIndicator(response.body, code))
  }

  /** One indicator of the catalog: its display label and its API code. */
  datatype IndicatorSpec = IndicatorSpec(name: string, code: string)

  datatype SectionSpec = SectionSpec(name: string, indicators: seq<IndicatorSpec>)

  /** The fixed catalog: four sections, seven indicators. */
  const Catalog: seq<SectionSpec> := [
    SectionSpec("Social", [
      IndicatorSpec("Population, total", "SP.POP.TOTL"),
      IndicatorSpec("Life expectancy at birth, total (years)", "SP.DYN.LE00.IN"),
      IndicatorSpec("Poverty headcount ratio at $2.15 a day (2017 PPP)", "SI.POV.DDAY")
    ]),
    SectionSpec("Economic", [
      IndicatorSpec("GDP (current US$)", "NY.GDP.MKTP.CD"),
      IndicatorSpec("GDP per capita (current US$)", "NY.GDP.PCAP.CD")
    ]),
    SectionSpec("Environment", [
      IndicatorSpec("Access to electricity (% of population)", "EG.ELC.ACCS.ZS")
    ]),
    SectionSpec("Institutions", [
      IndicatorSpec("Individuals using the Internet (% of population)", "IT.NET.USER.ZS")
    ])
  ]

  /** The profile entry for one indicator: the placeholder when the fetch gave
      None, else the fetched result relabelled with the catalog label. */
  function Labelled(fetched: Option<IndicatorResult>, spec: IndicatorSpec): IndicatorResult
  {
    match fetched
    case None => Placeholder(spec.name)
    case Some(result) => result.(indicator := spec.name)
  }

  function SectionResults(fetch: Fetcher, country: Value, specs: seq<IndicatorSpec>): seq<IndicatorResult>
  {
    seq(|specs|, k requires 0 <= k < |specs| => Labelled(FetchIndicator(fetch(country, specs[k].code), specs[k].code), specs[k]))
  }

  /** The profile built for the country code `country`. */
  function ProfileOf(fetch: Fetcher, country: Value): Profile
  {
    seq(|Catalog|, s requires 0 <= s < |Catalog| => Section(Catalog[s].name, SectionResults(fetch, country, Catalog[s].indicators)))
  }

  /**
    The profile has the sections Social, Economic, Environment and
    Institutions in that order, holding 3, 2, 1 and 1 results in catalog
    order; every result is labelled with its catalog label; a fetch that gave
    None yields exactly the placeholder; a fetched result keeps its value and
    year.
   */
  lemma ProfileOfShape(fetch: Fetcher, country: Value)
    ensures var p := ProfileOf(fetch, country);
      && |p| == 4
      && p[0].name == "Social" && p[1].name == "Economic"
      && p[2].name == "Environment" && p[3].name == "Institutions"
      && |p[0].results| == 3 && |p[1].results| == 2 && |p[2].results| == 1 && |p[3].results| == 1
    ensures forall s, k :: 0 <= s < |Catalog| && 0 <= k < |Catalog[s].indicators| ==>
              var spec := Catalog[s].indicators[k];
              var response := fetch(country, spec.code);
              var result := ProfileOf(fetch, country)[s].results[k];
              && result.indicator == spec.name
              && (response.status != 200 ==> result == Placeholder(spec.name))
              && (response.status == 200 ==>
                    result.value == DecodeIndicator(response.body, spec.code).value &&
                    result.year == DecodeIndicator(response.body, spec.code).year)
  {
  }

  /** `scrape_country_profile`: one request per catalog indicator, section by
      section, in catalog order. */
  method ScrapeCountryProfile(fetch: Fetcher, country: Value) returns (profile: Profile)
    ensures profile == ProfileOf(fetch, country)
    ensures |profile| == |Catalog| && profile != []
    ensures forall s :: 0 <= s < |Catalog| ==>
              profile[s].name == Catalog[s].name && |profile[s].results| == |Catalog[s].indicators|
  {
    profile := [];
    var s := 0;
    while s < |Catalog|
      invariant 0 <= s <= |Catalog|
      invariant profile == ProfileOf(fetch, country)[..s]
    {
      var section := Catalog[s];
      var results: seq<IndicatorResult> := [];
      var k := 0;
      while k < |section.indicators|
        invariant 0 <= k <= |section.indicators|
        invariant results == SectionResults(fetch, country, section.indicators)[..k]
      {
        var spec := section.indicators[k];
        var result := FetchIndicator(fetch(country, spec.code), spec.code);
        if result.None? {
          result := Some(Placeholder(spec.name));
        } else {
          result := Some(result.value.(indicator := spec.name));
        }
        results := results + [result.value];
        k := k + 1;
      }
      assert results == SectionResults(fetch, country, section.indicators);
      assert ProfileOf(fetch, country)[..s + 1] == ProfileOf(fetch, country)[..s] + [ProfileOf(fetch, country)[s]];
      profile := profile + [Section(section.name, results)];
      s := s + 1;
    }
  }
}
