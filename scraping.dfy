/**
  The country lister (`scrape_countries`): after the listing page has been
  fetched and parsed, its anchors are filtered to country links, deduplicated
  by name (first occurrence wins) and sorted by name.
 */
module Scraping {
  import opened Wrappers
  import opened Text
  import opened Records

  /** An anchor of the parsed page that has an `href`: the attribute and the
      anchor's text with surrounding white space stripped. */
  datatype Anchor = Anchor(href: string, text: string)

  const CountryPath: string := "/country/"
  const SiteRoot: string := "https://data.worldbank.org"
  const ChartView: string := "?view=chart"
  const PageFetchFailed: HttpError := HttpError(500, "Failed to fetch country page")

  predicate IsCountryAnchor(a: Anchor)
  {
    Contains(a.href, CountryPath)
  }

  function CountryLink(href: string): string
  {
    SiteRoot + href + ChartView
  }

  /** The names the page contributes: the non-empty texts of country anchors. */
  function CountryTexts(anchors: seq<Anchor>): set<string>
  {
    set a | a in anchors && IsCountryAnchor(a) && a.text != "" :: a.text
  }

  /** The link built from the first country anchor whose text is `name`. */
  function FirstLink(anchors: seq<Anchor>, name: string): Option<string>
  {
    if anchors == [] then None
    else if IsCountryAnchor(anchors[0]) && anchors[0].text == name then Some(CountryLink(anchors[0].href))
    else FirstLink(anchors[1..], name)
  }

  /** The list the scraping loop has built after visiting `anchors`, before
      sorting. */
  function Collected(anchors: seq<Anchor>): seq<Country>
  {
    if anchors == [] then []
    else
      var before := Collected(anchors[..|anchors| - 1]);
      var a := anchors[|anchors| - 1];
      if IsCountryAnchor(a) && a.text != "" && a.text !in NamesOf(before)
      then before + [Country(a.text, CountryLink(a.href), None, [])]
      else before
  }

  // ---- sorting by name (`sorted(countries, key=lambda x: x["name"])`) ----

  predicate SortedByName(s: seq<Country>)
  {
    forall i, j :: 0 <= i < j < |s| ==> LexLe(s[i].name, s[j].name)
  }

  /** Puts `c` in front of the first entry whose name is not below its own. */
  function InsertByName(c: Country, s: seq<Country>): seq<Country>
  {
    if s == [] then [c]
    else if LexLe(c.name, s[0].name) then [c] + s
    else [s[0]] + InsertByName(c, s[1..])
  }

  /** A stable insertion sort by name. */
  function SortByName(s: seq<Country>): seq<Country>
  {
    if s == [] then [] else InsertByName(s[0], SortByName(s[1..]))
  }

  lemma {:induction false} InsertPermutes(c: Country, s: seq<Country>)
    ensures multiset(InsertByName(c, s)) == multiset(s) + multiset{c}
  {
    if s != [] && !LexLe(c.name, s[0].name) {
      InsertPermutes(c, s[1..]);
      assert s == [s[0]] + s[1..];
    }
  }

  lemma SameElementsSameNames(r: seq<Country>, s: seq<Country>)
    requires multiset(r) == multiset(s)
    ensures NamesOf(r) == NamesOf(s)
  {
    forall c | c in r ensures c in s {
      assert c in multiset(r);
    }
    forall c | c in s ensures c in r {
      assert c in multiset(s);
    }
  }

  lemma {:induction false} InsertSorted(c: Country, s: seq<Country>)
    requires SortedByName(s)
    ensures SortedByName(InsertByName(c, s))
  {
    if s == [] {
    } else if LexLe(c.name, s[0].name) {
      forall j | 0 <= j < |s| ensures LexLe(c.name, s[j].name) {
        if j > 0 { LexLeTransitive(c.name, s[0].name, s[j].name); }
      }
    } else {
      var rest := InsertByName(c, s[1..]);
      InsertSorted(c, s[1..]);
      InsertPermutes(c, s[1..]);
      LexLeTotal(c.name, s[0].name);
      forall j | 0 <= j < |rest| ensures LexLe(s[0].name, rest[j].name) {
        assert rest[j] in multiset(rest);
        if rest[j] != c {
          assert rest[j] in multiset(s[1..]);
          var k :| 0 <= k < |s[1..]| && s[1..][k] == rest[j];
          assert s[k + 1] == rest[j];
        }
      }
    }
  }

  lemma {:induction false} InsertUnique(c: Country, s: seq<Country>)
    requires UniqueNames(s) && c.name !in NamesOf(s)
    ensures UniqueNames(InsertByName(c, s))
  {
    if s != [] && !LexLe(c.name, s[0].name) {
      var rest := InsertByName(c, s[1..]);
      assert NamesOf(s[1..]) <= NamesOf(s);
      InsertUnique(c, s[1..]);
      InsertPermutes(c, s[1..]);
      forall j | 0 <= j < |rest| ensures s[0].name != rest[j].name {
        assert rest[j] in multiset(rest);
        if rest[j] != c {
          assert rest[j] in multiset(s[1..]);
          var k :| 0 <= k < |s[1..]| && s[1..][k] == rest[j];
          assert s[k + 1] == rest[j];
        }
      }
    }
  }

  /** Sorting yields an ascending permutation of its input, and keeps the
      names distinct when they were. */
  lemma {:induction false} SortByNameCorrect(s: seq<Country>)
    ensures SortedByName(SortByName(s))
    ensures multiset(SortByName(s)) == multiset(s)
    ensures UniqueNames(s) ==> UniqueNames(SortByName(s))
  {
    if s != [] {
      var rest := SortByName(s[1..]);
      SortByNameCorrect(s[1..]);
      InsertSorted(s[0], rest);
      InsertPermutes(s[0], rest);
      assert s == [s[0]] + s[1..];
      if UniqueNames(s) {
        SameElementsSameNames(rest, s[1..]);
        InsertUnique(s[0], rest);
      }
    }
  }

  /** Two sorted arrangements of the same entries with distinct names start
      with the same entry. */
  lemma SortedArrangementsShareHead(a: seq<Country>, b: seq<Country>)
    requires SortedByName(a) && SortedByName(b) && UniqueNames(a)
    requires multiset(a) == multiset(b) && a != []
    ensures b != [] && a[0] == b[0]
  {
    assert a[0] in multiset(b);
    var k :| 0 <= k < |b| && b[k] == a[0];
    assert b[0] in multiset(a);
    var m :| 0 <= m < |a| && a[m] == b[0];
    if a[0] != b[0] {
      LexLeAntisymmetric(a[0].name, b[0].name);
      assert false;
    }
  }

  lemma TailMultiset(a: seq<Country>)
    requires a != []
    ensures multiset(a[1..]) == multiset(a) - multiset{a[0]}
  {
    assert a == [a[0]] + a[1..];
  }

  /** With distinct names, an ascending order by name is unique: two sorted
      arrangements of the same entries are equal. */
  lemma {:induction false} SortedArrangementUnique(a: seq<Country>, b: seq<Country>)
    requires SortedByName(a) && SortedByName(b) && UniqueNames(a)
    requires multiset(a) == multiset(b)
    ensures a == b
  {
    if a == [] {
      assert |b| == |multiset(b)| == 0;
    } else {
      SortedArrangementsShareHead(a, b);
      TailMultiset(a);
      TailMultiset(b);
      SortedArrangementUnique(a[1..], b[1..]);
      assert a == [a[0]] + a[1..] && b == [b[0]] + b[1..];
    }
  }

  /** `sorted` by name is pinned by what it promises: on a list with distinct
      names, any ascending rearrangement of it is the sort's output. */
  lemma SortByNameUnique(s: seq<Country>, r: seq<Country>)
    requires UniqueNames(s) && SortedByName(r) && multiset(r) == multiset(s)
    ensures r == SortByName(s)
  {
    SortByNameCorrect(s);
    SortedArrangementUnique(SortByName(s), r);
  }

  // ---- what the loop collects ----

  lemma {:induction false} FirstLinkFound(anchors: seq<Anchor>, name: string)
    ensures FirstLink(anchors, name).Some? <==> exists a :: a in anchors && IsCountryAnchor(a) && a.text == name
  {
    if anchors != [] {
      FirstLinkFound(anchors[1..], name);
      assert anchors == [anchors[0]] + anchors[1..];
    }
  }

  /** An anchor appended after a name has been seen does not change that
      name's first link. */
  lemma {:induction false} FirstLinkAppend(anchors: seq<Anchor>, a: Anchor, name: string)
    ensures FirstLink(anchors + [a], name) ==
      if FirstLink(anchors, name).Some? then FirstLink(anchors, name)
      else if IsCountryAnchor(a) && a.text == name then Some(CountryLink(a.href))
      else None
  {
    if anchors != [] {
      assert (anchors + [a])[1..] == anchors[1..] + [a];
      FirstLinkAppend(anchors[1..], a, name);
    }
  }

  /**
    The loop keeps exactly the non-empty texts of country anchors, each once,
    with the link of the first anchor carrying it, an empty profile and no id.
   */
  lemma {:induction false} CollectedSpec(anchors: seq<Anchor>)
    ensures NamesOf(Collected(anchors)) == CountryTexts(anchors)
    ensures UniqueNames(Collected(anchors))
    ensures forall c :: c in Collected(anchors) ==>
              c.name != "" && c.id == None && c.profile == [] && FirstLink(anchors, c.name) == Some(c.link)
  {
    if anchors != [] {
      var prefix := anchors[..|anchors| - 1];
      var a := anchors[|anchors| - 1];
      var before := Collected(prefix);
      CollectedSpec(prefix);
      assert anchors == prefix + [a];
      assert CountryTexts(anchors) == CountryTexts(prefix) + (if IsCountryAnchor(a) && a.text != "" then {a.text} else {});
      forall c | c in before ensures FirstLink(anchors, c.name) == Some(c.link) {
        FirstLinkAppend(prefix, a, c.name);
      }
      if IsCountryAnchor(a) && a.text != "" && a.text !in NamesOf(before) {
        var added := Country(a.text, CountryLink(a.href), None, []);
        assert NamesOf(before + [added]) == NamesOf(before) + {a.text};
        FirstLinkFound(prefix, a.text);
        FirstLinkAppend(prefix, a, a.text);
      }
    }
  }

  /**
    `scrape_countries` after the page request: `status` is the response's
    status code and `anchors` are the anchors with an `href` of the parsed
    page, in document order.
   */
  method ScrapeCountries(status: int, anchors: seq<Anchor>) returns (r: Result<seq<Country>, HttpError>)
    ensures status != 200 ==> r == Err(PageFetchFailed)
    ensures status == 200 ==> r == Ok(SortByName(Collected(anchors)))
    ensures status == 200 ==> SortedByName(r.value) && UniqueNames(r.value)
    ensures status == 200 ==> NamesOf(r.value) == CountryTexts(anchors)
    ensures status == 200 ==> forall c :: c in r.value ==>
              c.name != "" && c.id == None && c.profile == [] && FirstLink(anchors, c.name) == Some(c.link)
  {
    if status != 200 {
      return Err(PageFetchFailed);
    }
    var seen: set<string> := {};
    var countries: seq<Country> := [];
    var i := 0;
    while i < |anchors|
      invariant 0 <= i <= |anchors|
      invariant countries == Collected(anchors[..i])
      invariant seen == NamesOf(countries)
    {
      var a := anchors[i];
      assert anchors[..i + 1][..i] == anchors[..i];
      if Contains(a.href, CountryPath) {
        var name := a.text;
        if name != "" && name !in seen {
          seen := seen + {name};
          var link := SiteRoot + a.href + ChartView;
          countries := countries + [Country(name, link, None, [])];
        }
      }
      i := i + 1;
    }
    assert anchors[..|anchors|] == anchors;
    CollectedSpec(anchors);
    SortByNameCorrect(countries);
    SameElementsSameNames(SortByName(countries), countries);
    forall c | c in SortByName(countries) ensures c in countries {
      assert c in multiset(SortByName(countries));
    }
    r := Ok(SortByName(countries));
  }
}
