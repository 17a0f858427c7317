/** The Elasticsearch indexer of the event service: how an event payload becomes the document
    that is indexed (its coordinates, taxonomies and languages), how that document is laid out as
    a dict without `None` entries, and the index, bulk and delete requests sent to the client. */
module Indexer {
  import opened Wrappers
  import opened Text
  import opened JsonValue

  // ---------------------------------------------------------------- int()

  /** An optional sign followed by at least one decimal digit, and the integer it denotes. */
  function SignedDigits(t: string): Option<int> {
    if |t| >= 2 && (t[0] == '-' || t[0] == '+') && AllDigits(t[1..]) then
      var magnitude: int := DigitsValue(t[1..]);
      Some(if t[0] == '-' then -magnitude else magnitude)
    else if t != [] && AllDigits(t) then Some(DigitsValue(t))
    else None
  }

  /** `int(s)` for a string: whitespace around an optional sign and at least one decimal digit;
      anything else raises `ValueError` (`None`). */
  function ParseInt(s: string): Option<int> {
    SignedDigits(Strip(s))
  }

  /** `int(str(i)) == i`: an integer written by `str` parses back to itself. */
  lemma ParseIntOfString(i: int)
    ensures ParseInt(IntToString(i)) == Some(i)
  {
    var s := IntToString(i);
    var n: nat := if i < 0 then -i else i;
    DigitsValueOfNat(n);
    var digits := NatToString(n);
    assert '0' <= digits[0] <= '9' && '0' <= digits[|digits| - 1] <= '9';
    if i < 0 {
      assert s == "-" + digits;
      assert s[1..] == digits && s[|s| - 1] == digits[|digits| - 1];
      assert SignedDigits(s) == Some(i);
    } else {
      assert s == digits;
      assert SignedDigits(s) == Some(i);
    }
    assert !IsSpace(s[0]) && !IsSpace(s[|s| - 1]);
    StripNoEdges(s);
  }

  function Abs(x: real): real {
    if x < 0.0 then -x else x
  }

  /** `int(v)`: the integer Python makes of a value, or `None` where it raises. A bool is 0 or 1,
      a float is truncated toward zero and a string is parsed by `ParseInt`. */
  function PyInt(v: Json): (r: Option<int>)
    ensures IsInt(v) ==> r == Some(IntValue(v))
    ensures v.Num? ==>
      (r.Some? && Abs(r.value as real) <= Abs(v.r) < Abs(r.value as real) + 1.0
       && (r.value as real) * v.r >= 0.0)
    ensures v.Null? || v.Arr? || v.Obj? ==> r.None?
  {
    match v
    case Int(i) => Some(i)
    case Bool(b) => Some(if b then 1 else 0)
    case Num(x) => Some(if x >= 0.0 then x.Floor else -((-x).Floor))
    case Str(s) => ParseInt(s)
    case _ => None
  }

  // ---------------------------------------------------------------- _extract_coordinates

  /** The `lat` and `lon` a mapping holds, when both are numbers. */
  function LatLon(m: Json): Option<(real, real)> {
    var lat := Get(m, "lat");
    var lon := Get(m, "lon");
    if IsNumber(lat) && IsNumber(lon) then Some((NumberValue(lat), NumberValue(lon))) else None
  }

  /** The settings mapping the coordinates are read from when the event's own `latitude` and
      `longitude` are not both numbers: `coordinates`, else `geo`, when that is a mapping, and
      only otherwise `location`; `None` when there is none. */
  function SettingsSource(settings: Json): Option<Json> {
    if !settings.Obj? then None
    else
      var chosen := Or(Get(settings, "coordinates"), Get(settings, "geo"));
      if chosen.Obj? then Some(chosen)
      else if Get(settings, "location").Obj? then Some(Get(settings, "location"))
      else None
  }

  /** `_extract_coordinates`: the event's own numeric `latitude` and `longitude`, else those of
      the settings mapping `SettingsSource` picks; `None` unless both are numbers. */
  function ExtractCoordinates(e: Json): Option<(real, real)> {
    var lat := Get(e, "latitude");
    var lon := Get(e, "longitude");
    if IsNumber(lat) && IsNumber(lon) then Some((NumberValue(lat), NumberValue(lon)))
    else
      match SettingsSource(Get(e, "settings"))
      case Some(m) => LatLon(m)
      case None => None
  }

  /** The precedence of the sources: the top-level pair wins; then a `coordinates` (or `geo`)
      mapping, which hides `location` even when it holds no usable pair; then `location`; and
      whatever comes out is a pair of numbers stored at one of those places. */
  lemma CoordinatePrecedence(e: Json)
    ensures IsNumber(Get(e, "latitude")) && IsNumber(Get(e, "longitude")) ==>
      ExtractCoordinates(e) == Some((NumberValue(Get(e, "latitude")), NumberValue(Get(e, "longitude"))))
    ensures var s := Get(e, "settings"); var chosen := Or(Get(s, "coordinates"), Get(s, "geo"));
      !(IsNumber(Get(e, "latitude")) && IsNumber(Get(e, "longitude"))) && s.Obj? && chosen.Obj? ==>
        ExtractCoordinates(e) == LatLon(chosen)
    ensures var s := Get(e, "settings"); var chosen := Or(Get(s, "coordinates"), Get(s, "geo"));
      !(IsNumber(Get(e, "latitude")) && IsNumber(Get(e, "longitude"))) && s.Obj? && !chosen.Obj?
      && Get(s, "location").Obj? ==>
        ExtractCoordinates(e) == LatLon(Get(s, "location"))
    ensures !(IsNumber(Get(e, "latitude")) && IsNumber(Get(e, "longitude"))) && !Get(e, "settings").Obj? ==>
      ExtractCoordinates(e) == None
  {
  }

  // ---------------------------------------------------------------- _extract_taxonomy

  /** `item` is a mapping whose `name` is the string `x`. */
  predicate Named(item: Json, x: string) {
    item.Obj? && Get(item, "name") == Str(x)
  }

  /** `item` is a mapping whose `id` is the integer (or bool) `v`. */
  predicate Identified(item: Json, v: Json) {
    item.Obj? && IsInt(v) && Get(item, "id") == v
  }

  /** The name an item contributes: one when it is a mapping with a string `name`. */
  function NameOf(item: Json): (r: seq<string>)
    ensures |r| <= 1 && forall x :: x in r <==> Named(item, x)
  {
    if item.Obj? && Get(item, "name").Str? then [Get(item, "name").s] else []
  }

  /** The identifier an item contributes: one when it is a mapping with an `int` (or bool) `id`. */
  function IdOf(item: Json): (r: seq<Json>)
    ensures |r| <= 1 && forall v :: v in r <==> Identified(item, v)
  {
    if item.Obj? && IsInt(Get(item, "id")) then [Get(item, "id")] else []
  }

  /** The names of `items`, in order. */
  function TaxonomyNames(items: seq<Json>): seq<string> {
    Collect(items, NameOf)
  }

  /** The identifiers of `items`, in order. */
  function TaxonomyIds(items: seq<Json>): seq<Json> {
    Collect(items, IdOf)
  }

  /** Names and identifiers are gathered independently: a name exactly when some mapping item
      carries it as a string, an identifier exactly when some mapping item carries it as an
      integer; non-mapping items contribute nothing and neither list is longer than the items. */
  lemma TaxonomyMeaning(items: seq<Json>)
    ensures |TaxonomyNames(items)| <= |items| && |TaxonomyIds(items)| <= |items|
    ensures forall x :: x in TaxonomyNames(items) <==> exists i :: 0 <= i < |items| && Named(items[i], x)
    ensures forall v :: v in TaxonomyIds(items) <==> exists i :: 0 <= i < |items| && Identified(items[i], v)
  {
    CollectMeaning(items, NameOf);
    CollectMeaning(items, IdOf);
  }

  /** `_extract_taxonomy(items)`: the names and identifiers of the mapping items, collected
      side by side in one pass; a value that is not iterable gives two empty lists. */
  method ExtractTaxonomy(items: Json) returns (names: seq<string>, ids: seq<Json>)
    ensures names == TaxonomyNames(Iter(items)) && ids == TaxonomyIds(Iter(items))
  {
    var xs := Iter(items);
    names, ids := [], [];
    for k := 0 to |xs|
      invariant names == TaxonomyNames(xs[..k]) && ids == TaxonomyIds(xs[..k])
    {
      assert xs[..k + 1][..k] == xs[..k];
      var item := xs[k];
      if item.Obj? {
        var name := Get(item, "name");
        if name.Str? {
          names := names + [name.s];
        }
        var identifier := Get(item, "id");
        if IsInt(identifier) {
          ids := ids + [identifier];
        }
      }
    }
    assert xs[..|xs|] == xs;
  }

  // ---------------------------------------------------------------- _extract_languages

  /** The string locale of one translation: one when it is a mapping with a string `locale`. */
  function LocaleOf(translation: Json): seq<string> {
    if translation.Obj? && Get(translation, "locale").Str? then [Get(translation, "locale").s] else []
  }

  /** The string locales of `translations`, in order, repeats included. */
  function LocaleList(translations: seq<Json>): seq<string> {
    Collect(translations, LocaleOf)
  }

  /** A string value as a list of zero or one string. */
  function StrPart(v: Json): seq<string> {
    if v.Str? then [v.s] else []
  }

  /** Every locale the event names: its default, its translations' and its fallback, in that
      order, repeats included. */
  function LocaleCandidates(e: Json): seq<string> {
    StrPart(Get(e, "default_locale")) + LocaleList(Iter(Get(e, "translations")))
    + StrPart(Get(e, "fallback_locale"))
  }

  /** The languages of an event: the default locale, then each new translation locale, then
      the fallback locale if it is new. */
  function Languages(e: Json): seq<string> {
    DedupOnto(DedupOnto(StrPart(Get(e, "default_locale")), LocaleList(Iter(Get(e, "translations")))),
      StrPart(Get(e, "fallback_locale")))
  }

  /** The languages are the candidates with repeats removed, first occurrence kept: no locale
      twice, every candidate present, the default locale first. */
  lemma LanguagesMeaning(e: Json)
    ensures Languages(e) == DedupOnto([], LocaleCandidates(e))
    ensures Distinct(Languages(e))
    ensures forall x :: x in Languages(e) <==> x in LocaleCandidates(e)
    ensures Get(e, "default_locale").Str? ==> |Languages(e)| >= 1 && Languages(e)[0] == Get(e, "default_locale").s
    ensures Get(e, "fallback_locale").Str? ==> Get(e, "fallback_locale").s in Languages(e)
  {
    var d := StrPart(Get(e, "default_locale"));
    var t := LocaleList(Iter(Get(e, "translations")));
    var f := StrPart(Get(e, "fallback_locale"));
    DedupOntoDistinct([], d);
    assert [] + d == d;
    DedupOntoAppend([], d, t);
    DedupOntoAppend([], d + t, f);
    assert LocaleCandidates(e) == d + t + f;
    DedupOntoMeaning([], LocaleCandidates(e));
    DedupOntoMeaning(DedupOnto(d, t), f);
    DedupOntoMeaning(d, t);
  }

  /** `_extract_languages(event)`. */
  method ExtractLanguages(e: Json) returns (languages: seq<string>)
    ensures languages == Languages(e)
  {
    languages := [];
    var defaultLocale := Get(e, "default_locale");
    if defaultLocale.Str? {
      languages := languages + [defaultLocale.s];
    }
    var translations := Iter(Get(e, "translations"));
    for k := 0 to |translations|
      invariant languages == DedupOnto(StrPart(defaultLocale), LocaleList(translations[..k]))
    {
      assert translations[..k + 1] == translations[..k] + [translations[k]];
      var translation := translations[k];
      ghost var seen := LocaleList(translations[..k]);
      if translation.Obj? && Get(translation, "locale").Str? {
        var locale := Get(translation, "locale").s;
        DedupOntoSnoc(StrPart(defaultLocale), seen, locale);
        if locale !in languages {
          languages := languages + [locale];
        }
      } else {
        assert seen + LocaleOf(translation) == seen;
      }
    }
    assert translations[..|translations|] == translations;
    var fallback := Get(e, "fallback_locale");
    if fallback.Str? {
      DedupOntoSnoc(languages, [], fallback.s);
      assert [] + [fallback.s] == StrPart(fallback);
      if fallback.s !in languages {
        languages := languages + [fallback.s];
      }
    }
  }

  // ---------------------------------------------------------------- build_document

  /** An `EventDocument`. Fields the event carries as they are keep their value (`Null` when
      absent); coordinates, taxonomies and languages are the extracted ones. */
  datatype EventDocument = EventDocument(
    id: int, title: string, description: Json, eventDate: Json, timezone: Json, location: Json,
    coordinates: Option<(real, real)>, categories: seq<string>, categoryIds: seq<Json>,
    tags: seq<string>, tagIds: seq<Json>, languages: seq<string>, defaultLocale: Json,
    fallbackLocale: Json, status: Json, attendees: Json, series: Json, shareUrl: Json)

  /** `int(event.get("id"))` raised: the event has no usable identifier. */
  datatype IndexError = InvalidId(id: Json)

  /** The series name: `series.get("name")` when `series` is a mapping. */
  function SeriesName(e: Json): Json {
    var series := Get(e, "series");
    if series.Obj? then Get(series, "name") else Null
  }

  /** The share URL: `share.get("url")` when `share` is a non-empty mapping. */
  function ShareUrl(e: Json): Json {
    var share := Get(e, "share");
    if share.Obj? && Truthy(share) then Get(share, "url") else Null
  }

  /** `str(event.get("title", ""))`. */
  function Title(e: Json): (r: string)
    ensures Get(e, "title").Str? ==> r == Get(e, "title").s
    ensures !Has(e, "title") ==> r == ""
  {
    var title := GetOr(e, "title", Str(""));
    assert Get(e, "title").Str? ==> Has(e, "title") && title == Get(e, "title");
    PyStr(title)
  }

  /** The document `build_document` makes of an event whose `id` converts to `id`. */
  function DocumentOf(e: Json, id: int): EventDocument {
    EventDocument(
      id, Title(e), Get(e, "description"),
      Or(Get(e, "date"), Get(e, "event_date")), Get(e, "timezone"), Get(e, "location"),
      ExtractCoordinates(e),
      TaxonomyNames(Iter(Get(e, "categories"))), TaxonomyIds(Iter(Get(e, "categories"))),
      TaxonomyNames(Iter(Get(e, "tags"))), TaxonomyIds(Iter(Get(e, "tags"))),
      Languages(e), Get(e, "default_locale"), Get(e, "fallback_locale"), Get(e, "status"),
      Get(e, "attendees"), SeriesName(e), ShareUrl(e))
  }

  /** `build_document(event)`: fails exactly when `int(event.get("id"))` raises, and otherwise
      carries the converted id. */
  function BuildDocument(e: Json): (r: Result<EventDocument, IndexError>)
    ensures r.Ok? <==> PyInt(Get(e, "id")).Some?
    ensures r.Ok? ==> r.value.id == PyInt(Get(e, "id")).value
    ensures r.Err? ==> r.error == InvalidId(Get(e, "id"))
  {
    match PyInt(Get(e, "id"))
    case None => Err(InvalidId(Get(e, "id")))
    case Some(id) => Ok(DocumentOf(e, id))
  }

  /** The fields of a built document: its date is `date` when that is truthy and `event_date`
      otherwise; a series name or share URL is set only when `series` or `share` is a mapping;
      a string title is kept and a missing one is empty; the languages have no repeats and the
      taxonomy identifiers are integers. */
  lemma DocumentMeaning(e: Json, id: int)
    ensures var d := DocumentOf(e, id);
      && d.id == id
      && (Truthy(Get(e, "date")) ==> d.eventDate == Get(e, "date"))
      && (!Truthy(Get(e, "date")) ==> d.eventDate == Get(e, "event_date"))
      && (d.series != Null ==> Get(e, "series").Obj?)
      && (d.shareUrl != Null ==> Get(e, "share").Obj?)
      && (Get(e, "title").Str? ==> d.title == Get(e, "title").s)
      && (!Has(e, "title") ==> d.title == "")
      && Distinct(d.languages)
      && (forall k :: 0 <= k < |d.categoryIds| ==> IsInt(d.categoryIds[k]))
      && (forall k :: 0 <= k < |d.tagIds| ==> IsInt(d.tagIds[k]))
  {
    LanguagesMeaning(e);
    TaxonomyIdsAreInts(Iter(Get(e, "categories")));
    TaxonomyIdsAreInts(Iter(Get(e, "tags")));
  }

  lemma TaxonomyIdsAreInts(items: seq<Json>)
    ensures forall k :: 0 <= k < |TaxonomyIds(items)| ==> IsInt(TaxonomyIds(items)[k])
  {
    TaxonomyMeaning(items);
    forall k | 0 <= k < |TaxonomyIds(items)| ensures IsInt(TaxonomyIds(items)[k]) {
      assert TaxonomyIds(items)[k] in TaxonomyIds(items);
    }
  }

  // ---------------------------------------------------------------- asdict

  /** `float(x)` pairs as the document stores them. */
  function CoordinatesJson(c: Option<(real, real)>): Json {
    match c
    case None => Null
    case Some(p) => Obj([("lat", Num(p.0)), ("lon", Num(p.1))])
  }

  /** The `payload` dict of `asdict`, `None` values included; `indexedAt` is the clock reading. */
  function Payload(d: EventDocument, indexedAt: string): seq<(string, Json)> {
    [("id", Int(d.id)), ("title", Str(d.title)), ("description", d.description),
     ("event_date", d.eventDate), ("timezone", d.timezone), ("location", d.location),
     ("coordinates", CoordinatesJson(d.coordinates)), ("categories", Arr(Strs(d.categories))),
     ("category_ids", Arr(d.categoryIds)), ("tags", Arr(Strs(d.tags))), ("tag_ids", Arr(d.tagIds)),
     ("languages", Arr(Strs(d.languages))), ("default_locale", d.defaultLocale),
     ("fallback_locale", d.fallbackLocale), ("status", d.status), ("attendees", d.attendees),
     ("series", d.series), ("share_url", d.shareUrl), ("indexed_at", Str(indexedAt))]
  }

  /** No key occurs twice. */
  predicate DistinctKeys(fields: seq<(string, Json)>) {
    forall i, j :: 0 <= i < j < |fields| ==> fields[i].0 != fields[j].0
  }

  /** `{k: v for k, v in fields if v is not None}`. */
  function DropNone(fields: seq<(string, Json)>): seq<(string, Json)> {
    if fields == [] then []
    else (if fields[0].1 == Null then [] else [fields[0]]) + DropNone(fields[1..])
  }

  /** The comprehension keeps, in order, exactly the entries whose value is not `None`. */
  lemma {:induction false} DropNoneMeaning(fields: seq<(string, Json)>)
    ensures forall i :: 0 <= i < |DropNone(fields)| ==> DropNone(fields)[i].1 != Null
    ensures forall f :: f in DropNone(fields) <==> f in fields && f.1 != Null
    ensures DistinctKeys(fields) ==> DistinctKeys(DropNone(fields))
  {
    if fields != [] {
      DropNoneMeaning(fields[1..]);
      var rest := DropNone(fields[1..]);
      if fields[0].1 != Null && DistinctKeys(fields) {
        forall j | 0 <= j < |rest| ensures rest[j].0 != fields[0].0 {
          assert rest[j] in fields[1..];
        }
        assert DistinctKeys([fields[0]] + rest);
      }
    }
  }

  /** With distinct keys, dropping the `None` entries changes no `d.get(k)`. */
  lemma {:induction false} DropNoneLookup(fields: seq<(string, Json)>, k: string)
    requires DistinctKeys(fields)
    ensures Lookup(DropNone(fields), k) == Lookup(fields, k)
  {
    if fields != [] {
      var rest := fields[1..];
      assert DistinctKeys(rest) by {
        forall i, j | 0 <= i < j < |rest| ensures rest[i].0 != rest[j].0 {
          assert rest[i] == fields[i + 1] && rest[j] == fields[j + 1];
        }
      }
      DropNoneLookup(rest, k);
      if fields[0].1 == Null {
        assert DropNone(fields) == DropNone(rest);
        if fields[0].0 == k {
          forall i | 0 <= i < |rest| ensures rest[i].0 != k {
            assert rest[i] == fields[i + 1];
          }
        }
      } else {
        var r := DropNone(fields);
        assert r == [fields[0]] + DropNone(rest);
        assert r[0] == fields[0] && r[1..] == DropNone(rest);
      }
    }
  }

  /** With distinct keys, an entry is what `get` finds under its key. */
  lemma {:induction false} LookupEntry(fields: seq<(string, Json)>, k: string, v: Json)
    requires DistinctKeys(fields) && (k, v) in fields
    ensures Lookup(fields, k) == v
  {
    if fields[0] != (k, v) {
      assert fields[0].0 != k by {
        var i :| 0 <= i < |fields| && fields[i] == (k, v);
        assert i != 0;
      }
      var rest := fields[1..];
      assert (k, v) in rest;
      assert DistinctKeys(rest) by {
        forall i, j | 0 <= i < j < |rest| ensures rest[i].0 != rest[j].0 {
          assert rest[i] == fields[i + 1] && rest[j] == fields[j + 1];
        }
      }
      LookupEntry(rest, k, v);
    }
  }

  /** The keys of the payload, in order. */
  const PayloadKeys: seq<string> := ["id", "title", "description", "event_date", "timezone", "location",
    "coordinates", "categories", "category_ids", "tags", "tag_ids", "languages", "default_locale",
    "fallback_locale", "status", "attendees", "series", "share_url", "indexed_at"]

  /** The nineteen keys of the payload are all different. */
  lemma PayloadKeysDistinct(d: EventDocument, indexedAt: string)
    ensures DistinctKeys(Payload(d, indexedAt))
  {
    var p := Payload(d, indexedAt);
    assert |p| == |PayloadKeys| && forall i :: 0 <= i < |p| ==> p[i].0 == PayloadKeys[i];
    assert forall i, j :: 0 <= i < j < |PayloadKeys| ==> PayloadKeys[i] != PayloadKeys[j];
  }

  /** `EventDocument.asdict()`. */
  function AsDict(d: EventDocument, indexedAt: string): Json {
    Obj(DropNone(Payload(d, indexedAt)))
  }

  /** The dict holds no `None` and no key twice, answers every `get` as the full payload does,
      and has each payload entry exactly when its value is not `None`. */
  lemma AsDictMeaning(d: EventDocument, indexedAt: string)
    ensures var r := AsDict(d, indexedAt);
      && (forall i :: 0 <= i < |r.fields| ==> r.fields[i].1 != Null)
      && DistinctKeys(r.fields)
      && (forall k :: Get(r, k) == Lookup(Payload(d, indexedAt), k))
      && (forall i :: 0 <= i < |Payload(d, indexedAt)| ==>
           (Payload(d, indexedAt)[i] in r.fields <==> Payload(d, indexedAt)[i].1 != Null))
  {
    var p := Payload(d, indexedAt);
    PayloadKeysDistinct(d, indexedAt);
    DropNoneMeaning(p);
    forall k ensures Lookup(DropNone(p), k) == Lookup(p, k) {
      DropNoneLookup(p, k);
    }
  }

  /** The entries that are never `None` are always there: `indexed_at`, `id`, `title` and the
      five lists, empty or not. */
  lemma AsDictAlwaysHas(d: EventDocument, indexedAt: string)
    ensures var r := AsDict(d, indexedAt);
      && Get(r, "indexed_at") == Str(indexedAt) && Get(r, "id") == Int(d.id)
      && Get(r, "title") == Str(d.title)
      && Get(r, "categories") == Arr(Strs(d.categories)) && Get(r, "category_ids") == Arr(d.categoryIds)
      && Get(r, "tags") == Arr(Strs(d.tags)) && Get(r, "tag_ids") == Arr(d.tagIds)
      && Get(r, "languages") == Arr(Strs(d.languages))
  {
    var p := Payload(d, indexedAt);
    AsDictMeaning(d, indexedAt);
    PayloadKeysDistinct(d, indexedAt);
    LookupEntry(p, "id", Int(d.id));
    LookupEntry(p, "title", Str(d.title));
    LookupEntry(p, "categories", Arr(Strs(d.categories)));
    LookupEntry(p, "category_ids", Arr(d.categoryIds));
    LookupEntry(p, "tags", Arr(Strs(d.tags)));
    LookupEntry(p, "tag_ids", Arr(d.tagIds));
    LookupEntry(p, "languages", Arr(Strs(d.languages)));
    LookupEntry(p, "indexed_at", Str(indexedAt));
  }

  // ---------------------------------------------------------------- requests

  /** The `refresh` keyword forwarded to the client: none for a falsy value, `"wait_for"` for
      `True`, any other truthy value as it is. */
  function RefreshArg(refresh: Json): (r: Option<Json>)
    ensures r.None? <==> !Truthy(refresh)
    ensures refresh == Bool(true) ==> r == Some(Str("wait_for"))
    ensures Truthy(refresh) && refresh != Bool(true) ==> r == Some(refresh)
  {
    if !Truthy(refresh) then None
    else if refresh == Bool(true) then Some(Str("wait_for"))
    else Some(refresh)
  }

  /** The keyword arguments of `client.index`. */
  datatype IndexRequest = IndexRequest(index: string, id: int, document: Json, refresh: Option<Json>)

  /** The keyword arguments of `client.delete`. */
  datatype DeleteRequest = DeleteRequest(index: string, id: int, refresh: Option<Json>)

  /** One entry of the bulk `operations` list: an index action or the document after it. */
  datatype BulkOp = IndexAction(index: string, id: int) | Source(document: Json)

  /** The keyword arguments of `client.bulk`. */
  datatype BulkRequest = BulkRequest(operations: seq<BulkOp>, refresh: Option<Json>)

  /** `index_event(event, refresh=refresh)`, at clock reading `indexedAt`. */
  function IndexEvent(indexName: string, e: Json, refresh: Json, indexedAt: string): (r: Result<IndexRequest, IndexError>)
    ensures r.Ok? <==> BuildDocument(e).Ok?
    ensures r.Ok? ==>
      (&& r.value.index == indexName && r.value.id == BuildDocument(e).value.id
       && r.value.document == AsDict(BuildDocument(e).value, indexedAt)
       && Get(r.value.document, "id") == Int(r.value.id)
       && r.value.refresh == RefreshArg(refresh))
  {
    match BuildDocument(e)
    case Err(err) => Err(err)
    case Ok(d) =>
      AsDictAlwaysHas(d, indexedAt);
      Ok(IndexRequest(indexName, d.id, AsDict(d, indexedAt), RefreshArg(refresh)))
  }

  /** `delete_event(event_id, refresh=refresh)`. */
  function DeleteEvent(indexName: string, eventId: int, refresh: Json): (r: DeleteRequest)
    ensures r.index == indexName && r.id == eventId
    ensures r.refresh.None? <==> !Truthy(refresh)
  {
    DeleteRequest(indexName, eventId, RefreshArg(refresh))
  }

  /** The operations for `events`, each document made by `build` (`build_document`) and the
      `k`-th one stamped `indexedAt(k)`; the first event that cannot be built aborts the whole
      request. */
  function BulkOperations(indexName: string, events: seq<Json>, build: Json -> Result<EventDocument, IndexError>,
                          indexedAt: nat -> string): Result<seq<BulkOp>, IndexError>
  {
    if events == [] then Ok([])
    else
      var n := |events| - 1;
      match BulkOperations(indexName, events[..n], build, indexedAt)
      case Err(err) => Err(err)
      case Ok(ops) =>
        match build(events[n])
        case Err(err) => Err(err)
        case Ok(d) => Ok(ops + [IndexAction(indexName, d.id), Source(AsDict(d, indexedAt(n)))])
  }

  /** The operations exist exactly when every event can be built. */
  lemma {:induction false} BulkSucceeds(indexName: string, events: seq<Json>,
                                        build: Json -> Result<EventDocument, IndexError>, indexedAt: nat -> string)
    ensures BulkOperations(indexName, events, build, indexedAt).Ok? <==>
      forall k :: 0 <= k < |events| ==> build(events[k]).Ok?
  {
    if events != [] {
      var n := |events| - 1;
      var front := events[..n];
      BulkSucceeds(indexName, front, build, indexedAt);
      assert BulkOperations(indexName, events, build, indexedAt).Ok? <==>
        BulkOperations(indexName, front, build, indexedAt).Ok? && build(events[n]).Ok?;
      if forall k :: 0 <= k < n ==> build(front[k]).Ok? {
        forall k | 0 <= k < |events| && k != n ensures build(events[k]).Ok? {
          assert front[k] == events[k];
        }
      } else {
        var k :| 0 <= k < n && !build(front[k]).Ok?;
        assert front[k] == events[k];
      }
    }
  }

  /** The bulk layout: the `k`-th event gives operations `2k` (an index action with its
      document's id) and `2k + 1` (that document), so there are exactly two per event, in input
      order. */
  lemma {:induction false} BulkLayout(indexName: string, events: seq<Json>,
                                      build: Json -> Result<EventDocument, IndexError>, indexedAt: nat -> string)
    requires BulkOperations(indexName, events, build, indexedAt).Ok?
    ensures forall k :: 0 <= k < |events| ==> build(events[k]).Ok?
    ensures var ops := BulkOperations(indexName, events, build, indexedAt).value;
      && |ops| == 2 * |events|
      && forall k :: 0 <= k < |events| ==>
           && ops[2 * k] == IndexAction(indexName, build(events[k]).value.id)
           && ops[2 * k + 1] == Source(AsDict(build(events[k]).value, indexedAt(k)))
  {
    assert forall k :: 0 <= k < |events| ==> build(events[k]).Ok? by {
      BulkSucceeds(indexName, events, build, indexedAt);
    }
    if events != [] {
      var n := |events| - 1;
      var front := events[..n];
      var ops := BulkOperations(indexName, events, build, indexedAt).value;
      var d := build(events[n]).value;
      assert BulkOperations(indexName, front, build, indexedAt).Ok?;
      var prev := BulkOperations(indexName, front, build, indexedAt).value;
      assert ops == prev + [IndexAction(indexName, d.id), Source(AsDict(d, indexedAt(n)))];
      BulkLayout(indexName, front, build, indexedAt);
      forall k | 0 <= k < |events|
        ensures ops[2 * k] == IndexAction(indexName, build(events[k]).value.id)
        ensures ops[2 * k + 1] == Source(AsDict(build(events[k]).value, indexedAt(k)))
      {
        if k < n {
          assert front[k] == events[k];
          assert ops[2 * k] == prev[2 * k] && ops[2 * k + 1] == prev[2 * k + 1];
        }
      }
    }
  }

  /** `bulk_index_events(events, refresh=refresh)`: one pass that builds each document and
      appends its index action and its body. */
  method BulkIndexEvents(indexName: string, events: seq<Json>, refresh: Json, indexedAt: nat -> string)
    returns (r: Result<BulkRequest, IndexError>)
    ensures r.Ok? <==> BulkOperations(indexName, events, BuildDocument, indexedAt).Ok?
    ensures r.Ok? ==> r.value == BulkRequest(BulkOperations(indexName, events, BuildDocument, indexedAt).value, RefreshArg(refresh))
  {
    var operations: seq<BulkOp> := [];
    for k := 0 to |events|
      invariant BulkOperations(indexName, events[..k], BuildDocument, indexedAt) == Ok(operations)
    {
      var document := BuildDocument(events[k]);
      BulkStep(indexName, events, BuildDocument, k, indexedAt, operations);
      if document.Err? {
        BulkAbort(indexName, events, BuildDocument, k + 1, indexedAt);
        return Err(document.error);
      }
      operations := operations + [IndexAction(indexName, document.value.id),
        Source(AsDict(document.value, indexedAt(k)))];
    }
    assert events[..|events|] == events;
    r := Ok(BulkRequest(operations, RefreshArg(refresh)));
  }

  /** One more event: its failure aborts the request, otherwise its two operations follow. */
  lemma BulkStep(indexName: string, events: seq<Json>, build: Json -> Result<EventDocument, IndexError>, k: nat,
                 indexedAt: nat -> string, ops: seq<BulkOp>)
    requires k < |events| && BulkOperations(indexName, events[..k], build, indexedAt) == Ok(ops)
    ensures build(events[k]).Err? ==> BulkOperations(indexName, events[..k + 1], build, indexedAt).Err?
    ensures build(events[k]).Ok? ==>
              BulkOperations(indexName, events[..k + 1], build, indexedAt)
              == Ok(ops + [IndexAction(indexName, build(events[k]).value.id), Source(AsDict(build(events[k]).value, indexedAt(k)))])
  {
    assert events[..k + 1][..k] == events[..k];
    assert events[..k + 1][k] == events[k];
  }

  /** Once a prefix of the events fails, so do all the events. */
  lemma {:induction false} BulkAbort(indexName: string, events: seq<Json>,
                                     build: Json -> Result<EventDocument, IndexError>, m: nat, indexedAt: nat -> string)
    requires m <= |events| && BulkOperations(indexName, events[..m], build, indexedAt).Err?
    ensures BulkOperations(indexName, events, build, indexedAt).Err?
    decreases |events| - m
  {
    if m < |events| {
      assert events[..m + 1][..m] == events[..m];
      BulkAbort(indexName, events, build, m + 1, indexedAt);
    } else {
      assert events[..m] == events;
    }
  }
}
