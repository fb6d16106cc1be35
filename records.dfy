/** The records the service keeps and returns. */
module Records {
  import opened Wrappers
  import opened Json

  /** One indicator of a profile: `{indicator, value, year}`. The value and
      the year are whatever the statistics API returned for them. */
  datatype IndicatorResult = IndicatorResult(indicator: string, value: Value, year: Value)

  /** One section of a profile: its name and its results in catalog order. */
  datatype Section = Section(name: string, results: seq<IndicatorResult>)

  /** A profile is a dictionary from section name to results; its sections are
      kept in insertion order. The empty profile `{}` is `[]`. */
  type Profile = seq<Section>

  /**
    A country entry: `{name, link, profile}` as scraped, plus `id` once
    enrichment has run. `id` is None while the key is absent; otherwise it is
    the value taken from the country directory (the empty string when no code
    was found).
   */
  datatype Country = Country(name: string, link: string, id: Option<Value>, profile: Profile)

  function NamesOf(s: seq<Country>): set<string>
  {
    set c | c in s :: c.name
  }

  /** No two entries share a name (names compared case-sensitively). */
  predicate UniqueNames(s: seq<Country>)
  {
    forall i, j :: 0 <= i < j < |s| ==> s[i].name != s[j].name
  }
}
