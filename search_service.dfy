/** `EventSearchService.search_events` (src/services/search.py): argument clamping and
    normalisation, then either the Elasticsearch request and the formatting of its response, or
    the in-memory fallback (filter, sort, page, suggest). */
module SearchService {
  import opened Wrappers
  import opened Text
  import opened JsonValue
  import opened SearchMatching
  import opened SearchSort

  // ---------------------------------------------------------------- filtering

  /** The events `_filter_events` keeps, in input order. */
  function Filtered(events: seq<Json>, c: Criteria, within: (real, real) -> bool): (r: seq<Json>)
    ensures |r| <= |events|
  {
    if events == [] then []
    else
      var front := Filtered(events[..|events| - 1], c, within);
      if Keep(events[|events| - 1], c, within) then front + [events[|events| - 1]] else front
  }

  /** Filtering distributes over concatenation: the kept events keep their relative order. */
  lemma {:induction false} FilteredAppend(a: seq<Json>, b: seq<Json>, c: Criteria, within: (real, real) -> bool)
    ensures Filtered(a + b, c, within) == Filtered(a, c, within) + Filtered(b, c, within)
  {
    if b == [] {
      assert a + b == a;
    } else {
      var n := |b| - 1;
      FilteredAppend(a, b[..n], c, within);
      assert (a + b)[..|a + b| - 1] == a + b[..n];
      assert (a + b)[|a + b| - 1] == b[n];
      if Keep(b[n], c, within) {
        assert Filtered(b, c, within) == Filtered(b[..n], c, within) + [b[n]];
      } else {
        assert Filtered(b, c, within) == Filtered(b[..n], c, within);
      }
    }
  }

  /** An event is in the result exactly when it is an input event that passes every filter. */
  lemma {:induction false} FilteredMembers(events: seq<Json>, c: Criteria, within: (real, real) -> bool, x: Json)
    ensures x in Filtered(events, c, within) <==> x in events && Keep(x, c, within)
  {
    if events != [] {
      var n := |events| - 1;
      FilteredMembers(events[..n], c, within, x);
      assert events == events[..n] + [events[n]];
    }
  }

  /** Without criteria the filter returns the mappings as they are. */
  lemma {:induction false} FilteredNoCriteria(events: seq<Json>, within: (real, real) -> bool)
    requires forall i :: 0 <= i < |events| ==> events[i].Obj?
    ensures Filtered(events, Criteria(None, [], [], [], None, None, None, None, None), within) == events
  {
    if events != [] {
      var n := |events| - 1;
      FilteredNoCriteria(events[..n], within);
      NoCriteriaKeepsMappings(events[n], within);
      assert events == events[..n] + [events[n]];
    }
  }

  /** The per-event test of `_filter_events`, in the source's order, each filter skipped when
      its criterion is empty. */
  method KeepEvent(e: Json, c: Criteria, within: (real, real) -> bool) returns (keep: bool)
    ensures keep == Keep(e, c, within)
  {
    if !e.Obj? {
      return false;
    }
    if Given(c.text) {
      var hit := MatchText(e, c.text.value);
      if !hit {
        return false;
      }
    }
    if c.categories != [] {
      var hit := MatchTaxonomy(Get(e, "categories"), c.categories);
      if !hit {
        return false;
      }
    }
    if c.tags != [] {
      var hit := MatchTaxonomy(Get(e, "tags"), c.tags);
      if !hit {
        return false;
      }
    }
    if c.languages != [] {
      var hit := MatchLanguages(e, c.languages);
      if !hit {
        return false;
      }
    }
    if !MatchesDateRange(e, c.startDate, c.endDate) {
      return false;
    }
    if c.radiusKm.Some? && c.radiusKm.value != 0.0 && c.lat.Some? && c.lon.Some? {
      var coordinates := FindCoordinates(e);
      if coordinates.None? || !within(coordinates.value.0, coordinates.value.1) {
        return false;
      }
    }
    return true;
  }

  /** `_filter_events`: one pass over the events, copying those that pass. */
  method FilterEvents(events: seq<Json>, c: Criteria, within: (real, real) -> bool) returns (filtered: seq<Json>)
    ensures filtered == Filtered(events, c, within)
  {
    filtered := [];
    for k := 0 to |events|
      invariant filtered == Filtered(events[..k], c, within)
    {
      var keep := KeepEvent(events[k], c, within);
      if keep {
        filtered := filtered + [events[k]];
      }
      assert events[..k + 1][..k] == events[..k];
    }
    assert events[..|events|] == events;
  }

  // ---------------------------------------------------------------- suggestions

  /** The titles of the results, in order, that hold the lower-cased text. */
  function MatchingTitles(results: seq<Json>, lowered: string): seq<string> {
    if results == [] then []
    else
      var front := MatchingTitles(results[..|results| - 1], lowered);
      var title := Get(results[|results| - 1], "title");
      if title.Str? && IsInfix(lowered, Lower(title.s)) then front + [title.s] else front
  }

  lemma {:induction false} MatchingTitlesMembers(results: seq<Json>, lowered: string, x: string)
    ensures x in MatchingTitles(results, lowered) <==>
      IsInfix(lowered, Lower(x)) && exists i :: 0 <= i < |results| && Get(results[i], "title") == Str(x)
  {
    if results != [] {
      var n := |results| - 1;
      MatchingTitlesMembers(results[..n], lowered, x);
      assert forall i :: 0 <= i < n ==> results[..n][i] == results[i];
    }
  }

  /** The first five values, or all of them when there are fewer (`[:5]`). */
  function FirstFive(s: seq<string>): (r: seq<string>)
    ensures |r| <= 5 && |r| <= |s| && r == s[..|r|]
    ensures |s| <= 5 ==> r == s
  {
    if |s| <= 5 then s else s[..5]
  }

  /** `_build_suggestions`. */
  function Suggestions(text: Option<string>, results: seq<Json>): seq<string> {
    if !Given(text) then [] else FirstFive(DedupOnto([], MatchingTitles(results, Lower(text.value))))
  }

  /** What `_build_suggestions` promises: nothing without text; otherwise at most five distinct
      titles of the results, each holding the text case-insensitively, in the order they first
      occur; a matching title is missing only when five have been found already. */
  lemma SuggestionsMeaning(text: Option<string>, results: seq<Json>)
    ensures !Given(text) ==> Suggestions(text, results) == []
    ensures |Suggestions(text, results)| <= 5 && Distinct(Suggestions(text, results))
    ensures forall k :: 0 <= k < |Suggestions(text, results)| ==>
      IsInfix(Lower(text.value), Lower(Suggestions(text, results)[k]))
      && exists i :: 0 <= i < |results| && Get(results[i], "title") == Str(Suggestions(text, results)[k])
    ensures Given(text) ==> forall i ::
      (0 <= i < |results| && Get(results[i], "title").Str? && IsInfix(Lower(text.value), Lower(Get(results[i], "title").s)))
      ==> Get(results[i], "title").s in Suggestions(text, results) || |Suggestions(text, results)| == 5
  {
    if Given(text) {
      var lowered := Lower(text.value);
      var all := DedupOnto([], MatchingTitles(results, lowered));
      DedupOntoMeaning([], MatchingTitles(results, lowered));
      var r := FirstFive(all);
      forall k | 0 <= k < |r|
        ensures IsInfix(lowered, Lower(r[k])) && exists i :: 0 <= i < |results| && Get(results[i], "title") == Str(r[k])
      {
        assert r[k] == all[k];
        MatchingTitlesMembers(results, lowered, r[k]);
      }
      forall i | 0 <= i < |results| && Get(results[i], "title").Str? && IsInfix(lowered, Lower(Get(results[i], "title").s))
        ensures Get(results[i], "title").s in r || |r| == 5
      {
        MatchingTitlesMembers(results, lowered, Get(results[i], "title").s);
      }
    }
  }

  /** `_build_suggestions`, as the source runs it: one pass collecting new matching titles, then
      the first five. */
  method BuildSuggestions(text: Option<string>, results: seq<Json>) returns (suggestions: seq<string>)
    ensures suggestions == Suggestions(text, results)
  {
    if !Given(text) {
      return [];
    }
    var lowered := Lower(text.value);
    suggestions := [];
    for k := 0 to |results|
      invariant suggestions == DedupOnto([], MatchingTitles(results[..k], lowered))
    {
      var title := Get(results[k], "title");
      assert results[..k + 1][..k] == results[..k];
      if title.Str? && IsInfix(lowered, Lower(title.s)) {
        if title.s !in suggestions {
          suggestions := suggestions + [title.s];
        }
      }
    }
    assert results[..|results|] == results;
    suggestions := FirstFive(suggestions);
  }

  // ---------------------------------------------------------------- paging

  /** `max(1, page)`. */
  function ClampPage(page: int): (r: int)
    ensures r >= 1 && (page >= 1 ==> r == page)
  {
    if page < 1 then 1 else page
  }

  /** `max(1, min(size, 100))`. */
  function ClampSize(size: int): (r: int)
    ensures 1 <= r <= 100
    ensures 1 <= size <= 100 ==> r == size
    ensures size > 100 ==> r == 100
  {
    if size < 1 then 1 else if size > 100 then 100 else size
  }

  /** `results[start:end]` with `start = (page - 1) * size`, `end = start + size`: Python clamps
      both ends to the length. */
  function PageOf(s: seq<Json>, page: int, size: int): (r: seq<Json>)
    requires page >= 1 && size >= 1
    ensures |r| <= size
    ensures |r| == if |s| <= (page - 1) * size then 0 else Min(size, |s| - (page - 1) * size)
    ensures |r| > 0 ==> 0 <= (page - 1) * size && (page - 1) * size + |r| <= |s|
    ensures forall k :: 0 <= k < |r| ==> r[k] == s[(page - 1) * size + k]
  {
    var start := (page - 1) * size;
    var end := start + size;
    if |s| <= start then [] else s[start..if |s| < end then |s| else end]
  }

  function Min(a: int, b: int): int {
    if a < b then a else b
  }

  // ---------------------------------------------------------------- Elasticsearch request

  /** The fields the full-text clause searches, the title weighted three times. */
  const TextFields: seq<string> := ["title^3", "description", "tags", "categories"]

  /** One clause of the Elasticsearch bool query. */
  datatype Clause =
    | MultiMatch(query: string, fields: seq<string>)
    | Terms(field: string, values: seq<string>)
    | DateRange(gte: Option<string>, lte: Option<string>)
    | GeoDistance(distanceKm: real, lat: real, lon: real)

  datatype Query = MatchAll | BoolQuery(must: seq<Clause>, filter: seq<Clause>)

  /** The request body: `query`, `from`, `size`, and the optional `sort` and `suggest` keys
      (`suggest` carrying the text the title suggester completes). */
  datatype EsBody = EsBody(query: Query, from: int, size: int, sort: Option<SortClause>, suggest: Option<string>)

  /** The geo filter is sent only with a centre and a non-zero radius. */
  predicate GeoActive(c: Criteria) {
    c.lat.Some? && c.lon.Some? && c.radiusKm.Some? && c.radiusKm.value != 0.0
  }

  /** The `must` clauses `_build_elasticsearch_query` sends. */
  function MustClauses(c: Criteria): seq<Clause> {
    if Given(c.text) then [MultiMatch(c.text.value, TextFields)] else []
  }

  function CategoryClauses(c: Criteria): seq<Clause> {
    if c.categories != [] then [Terms("categories.keyword", c.categories)] else []
  }

  function TagClauses(c: Criteria): seq<Clause> {
    if c.tags != [] then [Terms("tags.keyword", c.tags)] else []
  }

  function LanguageClauses(c: Criteria): seq<Clause> {
    if c.languages != [] then [Terms("languages", c.languages)] else []
  }

  /** The range clause on `event_date`, with only the bounds that are given. */
  function RangeClauses(c: Criteria): seq<Clause> {
    if Given(c.startDate) || Given(c.endDate) then
      [DateRange(if Given(c.startDate) then c.startDate else None, if Given(c.endDate) then c.endDate else None)]
    else []
  }

  function GeoClauses(c: Criteria): seq<Clause> {
    if GeoActive(c) then [GeoDistance(c.radiusKm.value, c.lat.value, c.lon.value)] else []
  }

  /** The `filter` clauses `_build_elasticsearch_query` sends, in its order. */
  function FilterClauses(c: Criteria): seq<Clause> {
    CategoryClauses(c) + TagClauses(c) + LanguageClauses(c) + RangeClauses(c) + GeoClauses(c)
  }

  /** `_build_elasticsearch_query`. */
  function QueryBody(c: Criteria, from: int, size: int, sort: Option<string>, includeSuggestions: bool): EsBody {
    var must := MustClauses(c);
    var filter := FilterClauses(c);
    EsBody(
      if must == [] && filter == [] then MatchAll else BoolQuery(must, filter),
      from, size,
      if Given(sort) then Some(TranslateSort(sort.value)) else None,
      if includeSuggestions && Given(c.text) then Some(c.text.value) else None)
  }

  /** No criterion is in effect, for the request builder. */
  predicate NothingRequested(c: Criteria) {
    !Given(c.text) && c.categories == [] && c.tags == [] && c.languages == []
    && !Given(c.startDate) && !Given(c.endDate) && !GeoActive(c)
  }

  /** `match_all` is sent exactly when no criterion is in effect; a sort clause exactly when a
      sort is asked for; the suggester exactly when suggestions are asked for and there is text.
      A range clause carries only the given bounds. */
  lemma QueryBodyMeaning(c: Criteria, from: int, size: int, sort: Option<string>, includeSuggestions: bool)
    ensures QueryBody(c, from, size, sort, includeSuggestions).query == MatchAll <==> NothingRequested(c)
    ensures QueryBody(c, from, size, sort, includeSuggestions).sort.Some? <==> Given(sort)
    ensures QueryBody(c, from, size, sort, includeSuggestions).suggest.Some? <==> includeSuggestions && Given(c.text)
    ensures forall k :: 0 <= k < |FilterClauses(c)| && FilterClauses(c)[k].DateRange? ==>
      (FilterClauses(c)[k].gte.Some? <==> Given(c.startDate)) && (FilterClauses(c)[k].lte.Some? <==> Given(c.endDate))
  {
    NoFilterClauses(c);
    var filter := FilterClauses(c);
    forall k | 0 <= k < |filter| && filter[k].DateRange?
      ensures (filter[k].gte.Some? <==> Given(c.startDate)) && (filter[k].lte.Some? <==> Given(c.endDate))
    {
      RangeFromRangeClauses(c, filter[k]);
    }
  }

  /** No filter clause is sent exactly when none of the filtering criteria is in effect. */
  lemma NoFilterClauses(c: Criteria)
    ensures FilterClauses(c) == [] <==>
      c.categories == [] && c.tags == [] && c.languages == []
      && !Given(c.startDate) && !Given(c.endDate) && !GeoActive(c)
  {
    assert |FilterClauses(c)| == |CategoryClauses(c)| + |TagClauses(c)| + |LanguageClauses(c)|
      + |RangeClauses(c)| + |GeoClauses(c)|;
  }

  /** The only range clause among the filters is the one `RangeClauses` builds. */
  lemma RangeFromRangeClauses(c: Criteria, x: Clause)
    requires x in FilterClauses(c) && x.DateRange?
    ensures x in RangeClauses(c)
  {
  }

  /** When `match_all` is sent, the fallback would keep every mapping too: both paths agree on
      when no filtering happens. */
  lemma MatchAllKeepsEveryMapping(c: Criteria, e: Json, within: (real, real) -> bool)
    requires NothingRequested(c)
    ensures Keep(e, c, within) <==> e.Obj?
  {
  }

  /** The filter clauses of `_build_elasticsearch_query`, appended one by one. */
  method BuildFilters(c: Criteria) returns (filter: seq<Clause>)
    ensures filter == FilterClauses(c)
  {
    filter := [];
    if c.categories != [] {
      filter := filter + [Terms("categories.keyword", c.categories)];
    }
    assert filter == CategoryClauses(c);
    if c.tags != [] {
      filter := filter + [Terms("tags.keyword", c.tags)];
    }
    assert filter == CategoryClauses(c) + TagClauses(c);
    if c.languages != [] {
      filter := filter + [Terms("languages", c.languages)];
    }
    assert filter == CategoryClauses(c) + TagClauses(c) + LanguageClauses(c);
    if Given(c.startDate) || Given(c.endDate) {
      var gte: Option<string> := None;
      var lte: Option<string> := None;
      if Given(c.startDate) {
        gte := c.startDate;
      }
      if Given(c.endDate) {
        lte := c.endDate;
      }
      filter := filter + [DateRange(gte, lte)];
    }
    assert filter == CategoryClauses(c) + TagClauses(c) + LanguageClauses(c) + RangeClauses(c);
    if c.lat.Some? && c.lon.Some? && c.radiusKm.Some? && c.radiusKm.value != 0.0 {
      filter := filter + [GeoDistance(c.radiusKm.value, c.lat.value, c.lon.value)];
    }
  }

  /** `_build_elasticsearch_query`, as the source runs it: the clauses, then the query, then the
      optional keys added to the body. */
  method BuildQuery(c: Criteria, from: int, size: int, sort: Option<string>, includeSuggestions: bool) returns (body: EsBody)
    ensures body == QueryBody(c, from, size, sort, includeSuggestions)
  {
    var must: seq<Clause> := [];
    if Given(c.text) {
      must := must + [MultiMatch(c.text.value, TextFields)];
    }
    assert must == MustClauses(c);
    var filter := BuildFilters(c);
    var query := if must == [] && filter == [] then MatchAll else BoolQuery(must, filter);
    body := EsBody(query, from, size, None, None);
    if Given(sort) {
      body := body.(sort := Some(TranslateSort(sort.value)));
    }
    if includeSuggestions && Given(c.text) {
      body := body.(suggest := Some(c.text.value));
    }
  }

  // ---------------------------------------------------------------- Elasticsearch response

  /** `response.get("hits", {})`, or `{}` for a response that is not a mapping. */
  function HitsOf(response: Json): Json {
    if response.Obj? then GetOr(response, "hits", Obj([])) else Obj([])
  }

  /** `hits.get("total", {}).get("value")`, `None` when hits is not a mapping; the `.get` of a
      total that is not a mapping raises `AttributeError`. */
  function TotalValue(hits: Json): Option<Json> {
    if !hits.Obj? then Some(Null)
    else
      var total := GetOr(hits, "total", Obj([]));
      if total.Obj? then Some(Get(total, "value")) else None
  }

  /** The `hits` list walked for results. */
  function HitItems(hits: Json): seq<Json> {
    if hits.Obj? then Iter(Get(hits, "hits")) else []
  }

  /** The `_source` mappings of the hits that are mappings, in order. */
  function HitSources(items: seq<Json>): (r: seq<Json>)
    ensures forall k :: 0 <= k < |r| ==> r[k].Obj?
  {
    if items == [] then []
    else
      var front := HitSources(items[..|items| - 1]);
      var item := items[|items| - 1];
      if item.Obj? && Get(item, "_source").Obj? then front + [Get(item, "_source")] else front
  }

  /** The string `text` of each option that is a mapping. */
  function OptionTexts(options: seq<Json>): seq<string> {
    if options == [] then []
    else
      var text := if options[|options| - 1].Obj? then Get(options[|options| - 1], "text") else Null;
      OptionTexts(options[..|options| - 1]) + (if text.Str? then [text.s] else [])
  }

  /** The option texts of each entry that is a mapping. */
  function EntryTexts(entries: seq<Json>): seq<string> {
    if entries == [] then []
    else
      var entry := entries[|entries| - 1];
      EntryTexts(entries[..|entries| - 1]) + (if entry.Obj? then OptionTexts(Iter(Get(entry, "options"))) else [])
  }

  /** The entry texts of each suggester's value. */
  function SuggestTexts(values: seq<Json>): seq<string> {
    if values == [] then []
    else SuggestTexts(values[..|values| - 1]) + EntryTexts(Iter(values[|values| - 1]))
  }

  /** `suggest.values()` when the response holds a `suggest` mapping. */
  function SuggestValues(response: Json): seq<Json> {
    var suggest := if response.Obj? then Get(response, "suggest") else Null;
    if suggest.Obj? then seq(|suggest.fields|, i requires 0 <= i < |suggest.fields| => suggest.fields[i].1) else []
  }

  /** Failures of `search_events`: the `TypeError` of `sorted` on the fallback path, the
      `AttributeError` of a malformed total on the Elasticsearch path. */
  datatype SearchFailure = SortFailed | MalformedResponse

  /** The dict `search_events` returns. `total` is whatever integer the backend reports (a
      Python bool included), or a count. */
  datatype SearchPage = SearchPage(results: seq<Json>, total: Json, page: int, size: int, suggestions: seq<string>)

  /** `_format_es_response`. */
  function FormatResponse(response: Json, page: int, size: int): Result<SearchPage, SearchFailure> {
    var hits := HitsOf(response);
    match TotalValue(hits)
    case None => Err(MalformedResponse)
    case Some(totalValue) =>
      var results := HitSources(HitItems(hits));
      Ok(SearchPage(results, if IsInt(totalValue) then totalValue else Int(|results|), page, size,
        DedupOnto([], SuggestTexts(SuggestValues(response)))))
  }

  /** What `_format_es_response` promises: it fails exactly on a total that is not a mapping;
      otherwise the results are mappings, the total falls back to their number when the backend
      gives no integer, and the suggestions are the option texts without repeats. */
  lemma FormatResponseMeaning(response: Json, page: int, size: int)
    ensures FormatResponse(response, page, size).Err? <==>
      HitsOf(response).Obj? && !GetOr(HitsOf(response), "total", Obj([])).Obj?
    ensures FormatResponse(response, page, size).Ok? ==>
      var p := FormatResponse(response, page, size).value;
      && (forall k :: 0 <= k < |p.results| ==> p.results[k].Obj?)
      && (IsInt(p.total) || p.total == Int(|p.results|))
      && (!HitsOf(response).Obj? ==> p.results == [] && p.total == Int(0))
      && Distinct(p.suggestions)
      && (forall x :: x in p.suggestions <==> x in SuggestTexts(SuggestValues(response)))
      && p.page == page && p.size == size
  {
    DedupOntoMeaning([], SuggestTexts(SuggestValues(response)));
  }

  /** The results loop of `_format_es_response`. */
  method CollectSources(items: seq<Json>) returns (results: seq<Json>)
    ensures results == HitSources(items)
  {
    results := [];
    for k := 0 to |items|
      invariant results == HitSources(items[..k])
    {
      var item := items[k];
      if item.Obj? {
        var source := Get(item, "_source");
        if source.Obj? {
          results := results + [source];
        }
      }
      assert items[..k + 1][..k] == items[..k];
    }
    assert items[..|items|] == items;
  }

  /** The innermost suggestions loop: over the options of one entry. */
  method AddOptionTexts(acc: seq<string>, options: seq<Json>) returns (suggestions: seq<string>)
    ensures suggestions == DedupOnto(acc, OptionTexts(options))
  {
    suggestions := acc;
    for k := 0 to |options|
      invariant suggestions == DedupOnto(acc, OptionTexts(options[..k]))
    {
      var option := options[k];
      var text := if option.Obj? then Get(option, "text") else Null;
      ghost var before := OptionTexts(options[..k]);
      assert options[..k + 1][..k] == options[..k];
      assert options[..k + 1][k] == option;
      if text.Str? {
        assert OptionTexts(options[..k + 1]) == before + [text.s];
        assert (before + [text.s])[..|before|] == before;
        if text.s !in suggestions {
          suggestions := suggestions + [text.s];
        }
      } else {
        assert OptionTexts(options[..k + 1]) == before + [];
        assert before + [] == before;
      }
    }
    assert options[..|options|] == options;
  }

  /** The middle suggestions loop: over the entries of one suggester. */
  method AddEntryTexts(acc: seq<string>, entries: seq<Json>) returns (suggestions: seq<string>)
    ensures suggestions == DedupOnto(acc, EntryTexts(entries))
  {
    suggestions := acc;
    for k := 0 to |entries|
      invariant suggestions == DedupOnto(acc, EntryTexts(entries[..k]))
    {
      var entry := entries[k];
      ghost var before := EntryTexts(entries[..k]);
      assert entries[..k + 1][..k] == entries[..k];
      assert entries[..k + 1][k] == entry;
      if entry.Obj? {
        var options := Get(entry, "options");
        assert EntryTexts(entries[..k + 1]) == before + OptionTexts(Iter(options));
        DedupOntoAppend(acc, before, OptionTexts(Iter(options)));
        suggestions := AddOptionTexts(suggestions, Iter(options));
      } else {
        assert EntryTexts(entries[..k + 1]) == before + [];
        assert before + [] == before;
      }
    }
    assert entries[..|entries|] == entries;
  }

  /** The outer suggestions loop: over the suggesters' values. */
  method AddSuggestTexts(values: seq<Json>) returns (suggestions: seq<string>)
    ensures suggestions == DedupOnto([], SuggestTexts(values))
  {
    suggestions := [];
    for k := 0 to |values|
      invariant suggestions == DedupOnto([], SuggestTexts(values[..k]))
    {
      ghost var before := SuggestTexts(values[..k]);
      assert values[..k + 1][..k] == values[..k];
      assert values[..k + 1][k] == values[k];
      assert SuggestTexts(values[..k + 1]) == before + EntryTexts(Iter(values[k]));
      DedupOntoAppend([], before, EntryTexts(Iter(values[k])));
      suggestions := AddEntryTexts(suggestions, Iter(values[k]));
    }
    assert values[..|values|] == values;
  }

  /** `_format_es_response`, as the source runs it. */
  method FormatEsResponse(response: Json, page: int, size: int) returns (r: Result<SearchPage, SearchFailure>)
    ensures r == FormatResponse(response, page, size)
  {
    var hits := if response.Obj? then GetOr(response, "hits", Obj([])) else Obj([]);
    var totalValue := Null;
    if hits.Obj? {
      var total := GetOr(hits, "total", Obj([]));
      if !total.Obj? {
        return Err(MalformedResponse);
      }
      totalValue := Get(total, "value");
    }
    var results := CollectSources(HitItems(hits));
    var suggestions := AddSuggestTexts(SuggestValues(response));
    var count := if IsInt(totalValue) then totalValue else Int(|results|);
    return Ok(SearchPage(results, count, page, size, suggestions));
  }

  // ---------------------------------------------------------------- search_events

  /** The keyword arguments of `search_events`. The category, tag and language arguments are
      iterables or falsy, as the signature says. */
  datatype SearchArgs = SearchArgs(
    text: Option<string>,
    categories: Json,
    tags: Json,
    languages: Json,
    startDate: Option<string>,
    endDate: Option<string>,
    lat: Option<real>,
    lon: Option<real>,
    radiusKm: Option<real>,
    page: int,
    size: int,
    sort: Option<string>,
    includeSuggestions: bool)

  predicate Iterables(a: SearchArgs) {
    (!Truthy(a.categories) || IsIterable(a.categories))
    && (!Truthy(a.tags) || IsIterable(a.tags))
    && (!Truthy(a.languages) || IsIterable(a.languages))
  }

  /** The criteria both paths use, the lists normalised. */
  function CriteriaOf(a: SearchArgs): Criteria
    requires Iterables(a)
  {
    Criteria(a.text, NormaliseIterable(a.categories), NormaliseIterable(a.tags), NormaliseIterable(a.languages),
      a.startDate, a.endDate, a.lat, a.lon, a.radiusKm)
  }

  /** Paging and suggesting once the events that passed the filters are sorted. */
  function PageFrom(sorted: Result<seq<Json>, SortError>, a: SearchArgs): Result<SearchPage, SearchFailure> {
    var page := ClampPage(a.page);
    var size := ClampSize(a.size);
    match sorted
    case Err(_) => Err(SortFailed)
    case Ok(events) =>
      Ok(SearchPage(PageOf(events, page, size), Int(|events|), page, size,
        if a.includeSuggestions then Suggestions(a.text, events) else []))
  }

  /** The fallback path of `search_events`. */
  function Fallback(events: seq<Json>, a: SearchArgs, within: (real, real) -> bool): Result<SearchPage, SearchFailure>
    requires Iterables(a)
  {
    PageFrom(SortResults(Filtered(events, CriteriaOf(a), within), a.sort), a)
  }

  /** The page and size are clamped, `total` counts every sorted event, and the results are the
      requested window of them, so at most `size`; only the sort can fail. */
  lemma PageFromMeaning(sorted: Result<seq<Json>, SortError>, a: SearchArgs)
    ensures PageFrom(sorted, a).Err? <==> sorted.Err?
    ensures PageFrom(sorted, a).Ok? ==>
      var p := PageFrom(sorted, a).value;
      && p.page == ClampPage(a.page) && p.size == ClampSize(a.size)
      && p.total == Int(|sorted.value|)
      && |p.results| <= p.size
      && (forall k :: 0 <= k < |p.results| ==> p.results[k] == sorted.value[(p.page - 1) * p.size + k])
      && (!a.includeSuggestions ==> p.suggestions == [])
  {
  }

  /** The fallback's `total` counts every event that passed the filters, and every result is
      one of them (so an input mapping that passed every filter, by `FilteredMembers`). */
  lemma FallbackMeaning(events: seq<Json>, a: SearchArgs, within: (real, real) -> bool)
    requires Iterables(a)
    ensures Fallback(events, a, within).Ok? ==>
      var p := Fallback(events, a, within).value;
      && p.total == Int(|Filtered(events, CriteriaOf(a), within)|)
      && forall k :: 0 <= k < |p.results| ==> p.results[k] in Filtered(events, CriteriaOf(a), within)
  {
    var passed := Filtered(events, CriteriaOf(a), within);
    PassedToPage(passed, SortResults(passed, a.sort), a);
  }

  /** Paging a permutation of the passed events keeps their count and draws every result from
      them. */
  lemma PassedToPage(passed: seq<Json>, sorted: Result<seq<Json>, SortError>, a: SearchArgs)
    requires sorted.Ok? ==> multiset(sorted.value) == multiset(passed)
    ensures PageFrom(sorted, a).Ok? ==>
      var p := PageFrom(sorted, a).value;
      && p.total == Int(|passed|)
      && forall k :: 0 <= k < |p.results| ==> p.results[k] in passed
  {
    PageFromMeaning(sorted, a);
    if sorted.Ok? {
      assert |sorted.value| == |passed| by {
        assert |multiset(sorted.value)| == |multiset(passed)|;
      }
      var p := PageFrom(sorted, a).value;
      forall k | 0 <= k < |p.results| ensures p.results[k] in passed {
        var x := sorted.value[(p.page - 1) * p.size + k];
        assert x in sorted.value;
        assert x in multiset(passed);
      }
    }
  }

  /** The search client's answer to a request body. */
  function Ask(backend: EsBody -> Json, body: EsBody): Json {
    backend(body)
  }

  /** `search_events`: with a search client, the request built from the clamped arguments goes
      to `backend` (the network call) and its answer is formatted; otherwise the fallback runs
      over `events` (what `event_provider` returns). `within` is the haversine test. */
  function Search(hasClient: bool, events: seq<Json>, backend: EsBody -> Json, a: SearchArgs,
                  within: (real, real) -> bool): Result<SearchPage, SearchFailure>
    requires Iterables(a)
  {
    if hasClient then ClientResult(backend, a, ClampPage(a.page), ClampSize(a.size))
    else Fallback(events, a, within)
  }

  /** The search client path: the query for the requested window, sent to the backend, and its
      answer formatted into a page. */
  function ClientResult(backend: EsBody -> Json, a: SearchArgs, page: int, size: int): Result<SearchPage, SearchFailure>
    requires Iterables(a)
  {
    FormatResponse(Ask(backend, QueryBody(CriteriaOf(a), (page - 1) * size, size, a.sort, a.includeSuggestions)), page, size)
  }

  /** The request asks for the same window of results the fallback cuts out. */
  lemma RequestWindow(a: SearchArgs)
    requires Iterables(a)
    ensures var page, size := ClampPage(a.page), ClampSize(a.size);
      var body := QueryBody(CriteriaOf(a), (page - 1) * size, size, a.sort, a.includeSuggestions);
      body.from == (page - 1) * size && body.from >= 0 && 1 <= body.size <= 100
  {
  }

  /** `search_events`, as the source runs it. */
  method SearchEvents(hasClient: bool, events: seq<Json>, backend: EsBody -> Json, a: SearchArgs,
                      within: (real, real) -> bool) returns (r: Result<SearchPage, SearchFailure>)
    requires Iterables(a)
    ensures r == Search(hasClient, events, backend, a, within)
  {
    if hasClient {
      r := ClientSearch(backend, a, ClampPage(a.page), ClampSize(a.size));
      return;
    }
    r := FallbackSearch(events, a, within);
  }

  /** The search client path of `search_events`, as the source runs it. */
  method ClientSearch(backend: EsBody -> Json, a: SearchArgs, page: int, size: int) returns (r: Result<SearchPage, SearchFailure>)
    requires Iterables(a)
    ensures r == ClientResult(backend, a, page, size)
  {
    var body := BuildQuery(CriteriaOf(a), (page - 1) * size, size, a.sort, a.includeSuggestions);
    r := FormatEsResponse(Ask(backend, body), page, size);
  }

  /** The fallback path of `search_events`, as the source runs it. */
  method FallbackSearch(events: seq<Json>, a: SearchArgs, within: (real, real) -> bool) returns (r: Result<SearchPage, SearchFailure>)
    requires Iterables(a)
    ensures r == Fallback(events, a, within)
  {
    var page := ClampPage(a.page);
    var size := ClampSize(a.size);
    var results := FilterEvents(events, CriteriaOf(a), within);
    var sorted := SortResults(results, a.sort);
    if sorted.Err? {
      return Err(SortFailed);
    }
    var suggestions: seq<string> := [];
    if a.includeSuggestions {
      suggestions := BuildSuggestions(a.text, sorted.value);
    }
    r := Ok(SearchPage(PageOf(sorted.value, page, size), Int(|sorted.value|), page, size, suggestions));
  }
}
