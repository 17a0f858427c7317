/** The per-event tests of the in-memory fallback search of `EventSearchService`
    (src/services/search.py): argument normalisation, text, taxonomy, language, date-range and
    distance matching, and the coordinates the distance test reads. */
module SearchMatching {
  import opened Wrappers
  import opened Text
  import opened JsonValue

  /** An optional text argument takes effect when it is given and not empty (Python truthiness
      of `None` and `""`). */
  predicate Given(o: Option<string>) {
    o.Some? && o.value != ""
  }

  /** `str(value)` of every item, in order. */
  function Texts(values: seq<Json>): (r: seq<string>)
    ensures |r| == |values|
    ensures forall i :: 0 <= i < |values| ==> r[i] == PyStr(values[i])
  {
    if values == [] then [] else [PyStr(values[0])] + Texts(values[1..])
  }

  /** `.strip()` of every text, in order. */
  function StripAll(texts: seq<string>): (r: seq<string>)
    ensures |r| == |texts|
    ensures forall i :: 0 <= i < |texts| ==> r[i] == Strip(texts[i])
  {
    seq(|texts|, i requires 0 <= i < |texts| => Strip(texts[i]))
  }

  /** The filter of the comprehension: the non-empty texts, in order. */
  function DropBlank(texts: seq<string>): (r: seq<string>)
    ensures |r| <= |texts|
  {
    if texts == [] then []
    else
      var front := DropBlank(texts[..|texts| - 1]);
      if texts[|texts| - 1] != "" then front + [texts[|texts| - 1]] else front
  }

  /** The comprehension of `_normalise_iterable` over the items of the argument. */
  function NormaliseItems(items: seq<Json>): seq<string> {
    DropBlank(StripAll(Texts(items)))
  }

  /** `_normalise_iterable`: nothing for a falsy argument, otherwise the stripped text of every
      item whose stripped text is not empty. The argument is an iterable or falsy. */
  function NormaliseIterable(values: Json): seq<string>
    requires !Truthy(values) || IsIterable(values)
  {
    if !Truthy(values) then [] else NormaliseItems(Iter(values))
  }

  /** Stripped texts are fixed by a second strip. */
  lemma StrippedAreStripped(texts: seq<string>)
    ensures forall i :: 0 <= i < |texts| ==> Strip(StripAll(texts)[i]) == StripAll(texts)[i]
  {
    forall i | 0 <= i < |texts| ensures Strip(StripAll(texts)[i]) == StripAll(texts)[i] {
      StripIdempotent(texts[i]);
    }
  }

  /** The filter keeps exactly the non-empty texts: whatever it returns is a non-empty input
      text, and every non-empty input text is returned. */
  lemma {:induction false} DropBlankExact(texts: seq<string>)
    ensures forall k :: 0 <= k < |DropBlank(texts)| ==> DropBlank(texts)[k] != "" && DropBlank(texts)[k] in texts
    ensures forall i :: 0 <= i < |texts| && texts[i] != "" ==> texts[i] in DropBlank(texts)
  {
    if texts != [] {
      var n := |texts| - 1;
      DropBlankExact(texts[..n]);
      assert forall i :: 0 <= i < n ==> texts[..n][i] == texts[i];
    }
  }

  /** A property every text has, every kept text has. */
  lemma {:induction false} DropBlankKeeps(texts: seq<string>, p: string -> bool)
    requires forall i :: 0 <= i < |texts| ==> p(texts[i])
    ensures forall k :: 0 <= k < |DropBlank(texts)| ==> p(DropBlank(texts)[k])
  {
    if texts != [] {
      DropBlankKeeps(texts[..|texts| - 1], p);
    }
  }

  /** What the comprehension promises of the item texts: every result is non-blank and
      stripped, and every text that is not blank once stripped is kept. */
  lemma NormaliseMeaning(texts: seq<string>)
    ensures forall k :: 0 <= k < |DropBlank(StripAll(texts))| ==>
      DropBlank(StripAll(texts))[k] != "" && Strip(DropBlank(StripAll(texts))[k]) == DropBlank(StripAll(texts))[k]
    ensures forall i :: 0 <= i < |texts| && Strip(texts[i]) != "" ==> Strip(texts[i]) in DropBlank(StripAll(texts))
  {
    var stripped := StripAll(texts);
    DropBlankExact(stripped);
    StrippedAreStripped(texts);
    DropBlankKeeps(stripped, t => Strip(t) == t);
  }

  // ---------------------------------------------------------------- text

  /** One of the scalar fields `_matches_text` searches holds the lower-cased text. */
  predicate FieldMatches(e: Json, field: string, lowered: string) {
    var v := Get(e, field);
    v.Str? && IsInfix(lowered, Lower(v.s))
  }

  /** The name of a tag or a category: its `name` when it is a mapping, itself otherwise. */
  function ItemName(item: Json): Json {
    if item.Obj? then Get(item, "name") else item
  }

  /** One tag or category whose name holds the lower-cased text. */
  predicate NameMatches(item: Json, lowered: string) {
    var name := ItemName(item);
    name.Str? && IsInfix(lowered, Lower(name.s))
  }

  /** Some item of the collection stored under `field` has a matching name. */
  predicate SomeNameMatches(e: Json, field: string, lowered: string) {
    var items := Iter(Get(e, field));
    exists i :: 0 <= i < |items| && NameMatches(items[i], lowered)
  }

  /** `_matches_text`: the text, case-insensitively, inside the title, description, location or
      type, or inside the name of a tag or a category. */
  predicate MatchesText(e: Json, text: string) {
    var lowered := Lower(text);
    FieldMatches(e, "title", lowered) || FieldMatches(e, "description", lowered)
    || FieldMatches(e, "location", lowered) || FieldMatches(e, "type", lowered)
    || SomeNameMatches(e, "tags", lowered) || SomeNameMatches(e, "categories", lowered)
  }

  // ---------------------------------------------------------------- taxonomy

  /** The lower-cased names of the items that have a string name, in order (`available`). */
  function AvailableNames(items: seq<Json>): seq<string> {
    if items == [] then []
    else
      var name := ItemName(items[|items| - 1]);
      AvailableNames(items[..|items| - 1]) + (if name.Str? then [Lower(name.s)] else [])
  }

  /** `_matches_taxonomy`: false for a falsy collection, otherwise whether some expected value
      and some item name are equal once lower-cased. */
  predicate MatchesTaxonomy(items: Json, expected: seq<string>) {
    Truthy(items) && exists i :: 0 <= i < |expected| && Lower(expected[i]) in AvailableNames(Iter(items))
  }

  /** The names `_matches_taxonomy` collects are exactly the lower-cased string names. */
  lemma {:induction false} AvailableNamesExact(items: seq<Json>, x: string)
    ensures x in AvailableNames(items) <==> exists j :: 0 <= j < |items| && ItemName(items[j]).Str? && Lower(ItemName(items[j]).s) == x
  {
    if items != [] {
      var n := |items| - 1;
      AvailableNamesExact(items[..n], x);
      forall j | 0 <= j < n ensures items[..n][j] == items[j] { }
    }
  }

  /** A collection matches exactly when it is truthy and some expected value equals some item
      name, both lower-cased. */
  lemma TaxonomyMeaning(items: Json, expected: seq<string>)
    ensures MatchesTaxonomy(items, expected) <==>
      Truthy(items) &&
      exists i, j :: 0 <= i < |expected| && 0 <= j < |Iter(items)|
        && ItemName(Iter(items)[j]).Str? && Lower(ItemName(Iter(items)[j]).s) == Lower(expected[i])
  {
    forall i | 0 <= i < |expected| {
      AvailableNamesExact(Iter(items), Lower(expected[i]));
    }
  }

  // ---------------------------------------------------------------- languages

  /** A `translations` item's locale, when it is a mapping with a string locale. */
  function TranslationLocales(translations: seq<Json>): seq<string> {
    if translations == [] then []
    else
      var t := translations[|translations| - 1];
      var locale := if t.Obj? then Get(t, "locale") else Null;
      TranslationLocales(translations[..|translations| - 1]) + (if locale.Str? then [Lower(locale.s)] else [])
  }

  /** The lower-cased locales `_matches_languages` collects: the default locale, the
      translation locales, then the fallback locale. */
  function EventLocales(e: Json): seq<string> {
    var default := Get(e, "default_locale");
    var fallback := Get(e, "fallback_locale");
    (if default.Str? then [Lower(default.s)] else [])
    + TranslationLocales(Iter(Get(e, "translations")))
    + (if fallback.Str? then [Lower(fallback.s)] else [])
  }

  /** `_matches_languages`: some expected language, lower-cased, is one of the event's locales. */
  predicate MatchesLanguages(e: Json, expected: seq<string>) {
    exists i :: 0 <= i < |expected| && Lower(expected[i]) in EventLocales(e)
  }

  // ---------------------------------------------------------------- date range

  /** `event.get("date") or event.get("event_date")`. */
  function EventDate(e: Json): Json {
    Or(Get(e, "date"), Get(e, "event_date"))
  }

  /** `_matches_date_range`. */
  predicate MatchesDateRange(e: Json, startDate: Option<string>, endDate: Option<string>) {
    var d := EventDate(e);
    if !(Given(startDate) || Given(endDate)) || !d.Str? then true
    else if Given(startDate) && StrLess(d.s, startDate.value) then false
    else if Given(endDate) && StrLess(endDate.value, d.s) then false
    else true
  }

  /** `a <= b` on strings. */
  predicate StrAtMost(a: string, b: string) {
    a == b || StrLess(a, b)
  }

  /** With no bound, or no string date, every event passes; otherwise an event passes exactly
      when its date lies between the given bounds in string order. */
  lemma DateRangeMeaning(e: Json, startDate: Option<string>, endDate: Option<string>)
    ensures !(Given(startDate) || Given(endDate)) || !EventDate(e).Str? ==> MatchesDateRange(e, startDate, endDate)
    ensures (Given(startDate) || Given(endDate)) && EventDate(e).Str? ==>
      (MatchesDateRange(e, startDate, endDate) <==>
        (Given(startDate) ==> StrAtMost(startDate.value, EventDate(e).s))
        && (Given(endDate) ==> StrAtMost(EventDate(e).s, endDate.value)))
  {
    var d := EventDate(e);
    if d.Str? {
      if Given(startDate) {
        StrLessTotal(d.s, startDate.value);
        if StrLess(startDate.value, d.s) {
          StrLessAsymmetric(startDate.value, d.s);
        }
        if startDate.value == d.s {
          StrLessIrreflexive(d.s);
        }
      }
      if Given(endDate) {
        StrLessTotal(d.s, endDate.value);
        if StrLess(d.s, endDate.value) {
          StrLessAsymmetric(d.s, endDate.value);
        }
        if endDate.value == d.s {
          StrLessIrreflexive(d.s);
        }
      }
    }
  }

  // ---------------------------------------------------------------- coordinates

  /** The mappings `_extract_coordinates` tries after the top-level pair: the settings'
      `coordinates`, `geo` and `location` entries, in that order, when settings is a non-empty
      mapping. */
  function Candidates(e: Json): seq<Json> {
    var settings := Get(e, "settings");
    if settings.Obj? && Truthy(settings) then
      (if Get(settings, "coordinates").Obj? then [Get(settings, "coordinates")] else [])
      + (if Get(settings, "geo").Obj? then [Get(settings, "geo")] else [])
      + (if Get(settings, "location").Obj? then [Get(settings, "location")] else [])
    else []
  }

  /** The pair one candidate gives: its `lat`, and its `lon` or else `lng`, when both are
      numbers. */
  function CandidatePair(c: Json): Option<(real, real)> {
    var lat := Get(c, "lat");
    var lon := Or(Get(c, "lon"), Get(c, "lng"));
    if IsNumber(lat) && IsNumber(lon) then Some((NumberValue(lat), NumberValue(lon))) else None
  }

  /** The first candidate that gives a pair. */
  function FirstPair(candidates: seq<Json>): (r: Option<(real, real)>)
    ensures r.Some? ==> exists i :: (0 <= i < |candidates| && CandidatePair(candidates[i]) == r
        && forall j :: 0 <= j < i ==> CandidatePair(candidates[j]).None?)
    ensures r.None? ==> forall i :: 0 <= i < |candidates| ==> CandidatePair(candidates[i]).None?
  {
    if candidates == [] then None
    else if CandidatePair(candidates[0]).Some? then CandidatePair(candidates[0])
    else
      var r := FirstPair(candidates[1..]);
      assert forall i :: 1 <= i < |candidates| ==> candidates[1..][i - 1] == candidates[i];
      r
  }

  /** `_extract_coordinates` of the search service: the top-level latitude and longitude when
      both are numbers, otherwise the first candidate mapping that gives a pair. */
  function ExtractCoordinates(e: Json): Option<(real, real)> {
    var lat := Get(e, "latitude");
    var lon := Get(e, "longitude");
    if IsNumber(lat) && IsNumber(lon) then Some((NumberValue(lat), NumberValue(lon)))
    else FirstPair(Candidates(e))
  }

  /** `_matches_geo`, `within` standing for the haversine test against the search centre and
      radius: every event passes without a centre, an event without coordinates fails. */
  predicate MatchesGeo(e: Json, lat: Option<real>, lon: Option<real>, within: (real, real) -> bool) {
    if lat.None? || lon.None? then true
    else match ExtractCoordinates(e)
      case None => false
      case Some(c) => within(c.0, c.1)
  }

  // ---------------------------------------------------------------- all together

  /** The arguments of the fallback search, after normalisation. */
  datatype Criteria = Criteria(
    text: Option<string>,
    categories: seq<string>,
    tags: seq<string>,
    languages: seq<string>,
    startDate: Option<string>,
    endDate: Option<string>,
    lat: Option<real>,
    lon: Option<real>,
    radiusKm: Option<real>)

  /** The test `_filter_events` applies to one event: a mapping that passes every filter whose
      criterion is given. */
  predicate Keep(e: Json, c: Criteria, within: (real, real) -> bool) {
    && e.Obj?
    && (!Given(c.text) || MatchesText(e, c.text.value))
    && (c.categories == [] || MatchesTaxonomy(Get(e, "categories"), c.categories))
    && (c.tags == [] || MatchesTaxonomy(Get(e, "tags"), c.tags))
    && (c.languages == [] || MatchesLanguages(e, c.languages))
    && MatchesDateRange(e, c.startDate, c.endDate)
    && (c.radiusKm.None? || c.radiusKm.value == 0.0 || MatchesGeo(e, c.lat, c.lon, within))
  }

  /** Without any criterion every mapping is kept. */
  lemma NoCriteriaKeepsMappings(e: Json, within: (real, real) -> bool)
    ensures Keep(e, Criteria(None, [], [], [], None, None, None, None, None), within) <==> e.Obj?
  {
  }

  /** A filter whose criterion is empty or absent does not change the verdict. */
  lemma EmptyCriterionInactive(e: Json, c: Criteria, within: (real, real) -> bool)
    ensures Keep(e, c.(text := Some("")), within) == Keep(e, c.(text := None), within)
    ensures Keep(e, c.(startDate := Some(""), endDate := Some("")), within) == Keep(e, c.(startDate := None, endDate := None), within)
    ensures Keep(e, c.(radiusKm := Some(0.0)), within) == Keep(e, c.(radiusKm := None), within)
  {
  }

  // ---------------------------------------------------------------- the loops

  /** The tag or category loop of `_matches_text`: stops at the first item whose name holds the
      lower-cased text. */
  method AnyNameMatches(items: seq<Json>, lowered: string) returns (found: bool)
    ensures found <==> exists i :: 0 <= i < |items| && NameMatches(items[i], lowered)
  {
    for k := 0 to |items|
      invariant forall j :: 0 <= j < k ==> !NameMatches(items[j], lowered)
    {
      var item := items[k];
      var name := if item.Obj? then Get(item, "name") else item;
      if name.Str? && IsInfix(lowered, Lower(name.s)) {
        return true;
      }
    }
    return false;
  }

  /** `_matches_text`, as the source runs it: the four scalar fields, then the tags, then the
      categories, stopping at the first hit. */
  method MatchText(e: Json, text: string) returns (found: bool)
    ensures found == MatchesText(e, text)
  {
    var lowered := Lower(text);
    var fields := ["title", "description", "location", "type"];
    for k := 0 to |fields|
      invariant forall j :: 0 <= j < k ==> !FieldMatches(e, fields[j], lowered)
    {
      var value := Get(e, fields[k]);
      if value.Str? && IsInfix(lowered, Lower(value.s)) {
        return true;
      }
    }
    assert fields[0] == "title" && fields[1] == "description" && fields[2] == "location" && fields[3] == "type";
    found := AnyNameMatches(Iter(Get(e, "tags")), lowered);
    if !found {
      found := AnyNameMatches(Iter(Get(e, "categories")), lowered);
    }
  }

  /** The closing `any(value in available for value in expected_norm)` of the taxonomy and
      language tests. */
  method AnyExpected(expected: seq<string>, available: seq<string>) returns (found: bool)
    ensures found <==> exists j :: 0 <= j < |expected| && Lower(expected[j]) in available
  {
    found := false;
    for i := 0 to |expected|
      invariant found <==> exists j :: 0 <= j < i && Lower(expected[j]) in available
    {
      if Lower(expected[i]) in available {
        found := true;
      }
    }
  }

  /** `_matches_taxonomy`, as the source runs it: collect the lower-cased names, then look for
      each lower-cased expected value among them. */
  method MatchTaxonomy(items: Json, expected: seq<string>) returns (found: bool)
    ensures found == MatchesTaxonomy(items, expected)
  {
    if !Truthy(items) {
      return false;
    }
    var all := Iter(items);
    var available: seq<string> := [];
    for k := 0 to |all|
      invariant available == AvailableNames(all[..k])
    {
      var item := all[k];
      var name := if item.Obj? then Get(item, "name") else item;
      if name.Str? {
        available := available + [Lower(name.s)];
      }
      assert all[..k + 1][..k] == all[..k];
    }
    assert all[..|all|] == all;
    found := AnyExpected(expected, available);
  }

  /** The translations loop of `_matches_languages`. */
  method CollectTranslationLocales(translations: seq<Json>) returns (locales: seq<string>)
    ensures locales == TranslationLocales(translations)
  {
    locales := [];
    for k := 0 to |translations|
      invariant locales == TranslationLocales(translations[..k])
    {
      var t := translations[k];
      if t.Obj? {
        var locale := Get(t, "locale");
        if locale.Str? {
          locales := locales + [Lower(locale.s)];
        }
      }
      assert translations[..k + 1][..k] == translations[..k];
    }
    assert translations[..|translations|] == translations;
  }

  /** The locale list of `_matches_languages`, built in the order default, translations,
      fallback. */
  method CollectLocales(e: Json) returns (locales: seq<string>)
    ensures locales == EventLocales(e)
  {
    locales := [];
    var default := Get(e, "default_locale");
    if default.Str? {
      locales := locales + [Lower(default.s)];
    }
    var translated := CollectTranslationLocales(Iter(Get(e, "translations")));
    locales := locales + translated;
    var fallback := Get(e, "fallback_locale");
    if fallback.Str? {
      locales := locales + [Lower(fallback.s)];
    }
  }

  /** `_matches_languages`, as the source runs it. */
  method MatchLanguages(e: Json, expected: seq<string>) returns (found: bool)
    ensures found == MatchesLanguages(e, expected)
  {
    var locales := CollectLocales(e);
    found := AnyExpected(expected, locales);
  }

  /** `_extract_coordinates` of the search service, as the source runs it: the top-level pair,
      else a walk over the candidate mappings. */
  method FindCoordinates(e: Json) returns (r: Option<(real, real)>)
    ensures r == ExtractCoordinates(e)
  {
    var candidates := Candidates(e);
    var lat := Get(e, "latitude");
    var lon := Get(e, "longitude");
    if IsNumber(lat) && IsNumber(lon) {
      return Some((NumberValue(lat), NumberValue(lon)));
    }
    for k := 0 to |candidates|
      invariant FirstPair(candidates[k..]) == FirstPair(candidates)
    {
      var c := candidates[k];
      var cLat := Get(c, "lat");
      var cLon := Or(Get(c, "lon"), Get(c, "lng"));
      if IsNumber(cLat) && IsNumber(cLon) {
        return Some((NumberValue(cLat), NumberValue(cLon)));
      }
      assert candidates[k..][1..] == candidates[k + 1..];
    }
    return None;
  }
}
