/** The iCalendar feed of the events (`generate_ics_feed` in src/services/calendar.py) and the
    TEXT escaping it applies to property values (`_escape`, section 3.3.11 of RFC 5545). */
module Calendar {
  import opened Wrappers
  import opened Text
  import opened JsonValue
  import opened Dates

  /** `_escape`: backslash first, then comma, semicolon and newline, each one `str.replace`. */
  function Escape(v: string): (r: string)
    ensures '\n' !in r
  {
    ReplaceChar(ReplaceChar(ReplaceChar(ReplaceChar(v, '\\', "\\\\"), ',', "\\,"), ';', "\\;"), '\n', "\\n")
  }

  /** The escape of one character, as section 3.3.11 of RFC 5545 writes it. */
  function EscapeChar(c: char): string {
    if c == '\\' then "\\\\"
    else if c == ',' then "\\,"
    else if c == ';' then "\\;"
    else if c == '\n' then "\\n"
    else [c]
  }

  /** Character-by-character escaping: the reference the replacement chain is compared with. */
  function EscapeEach(v: string): string {
    if v == [] then [] else EscapeChar(v[0]) + EscapeEach(v[1..])
  }

  /** The decoding a calendar reader applies to a TEXT value: `\n` is a newline, any other
      backslash pair stands for its second character. */
  function Unescape(t: string): string
    decreases |t|
  {
    if t == [] then []
    else if t[0] == '\\' && |t| >= 2 then [if t[1] == 'n' then '\n' else t[1]] + Unescape(t[2..])
    else [t[0]] + Unescape(t[1..])
  }

  lemma EscapeAppend(a: string, b: string)
    ensures Escape(a + b) == Escape(a) + Escape(b)
  {
    var r1a, r1b := ReplaceChar(a, '\\', "\\\\"), ReplaceChar(b, '\\', "\\\\");
    ReplaceCharAppend(a, b, '\\', "\\\\");
    var r2a, r2b := ReplaceChar(r1a, ',', "\\,"), ReplaceChar(r1b, ',', "\\,");
    ReplaceCharAppend(r1a, r1b, ',', "\\,");
    var r3a, r3b := ReplaceChar(r2a, ';', "\\;"), ReplaceChar(r2b, ';', "\\;");
    ReplaceCharAppend(r2a, r2b, ';', "\\;");
    ReplaceCharAppend(r3a, r3b, '\n', "\\n");
  }

  lemma ReplaceOne(c: char, x: char, rep: string)
    ensures ReplaceChar([c], x, rep) == if c == x then rep else [c]
  {
    assert [c][1..] == [];
  }

  lemma EscapeOne(c: char)
    ensures Escape([c]) == EscapeChar(c)
  {
    ReplaceOne(c, '\\', "\\\\");
    if c == '\\' {
      assert ReplaceChar("\\\\", ',', "\\,") == "\\\\";
    } else {
      ReplaceOne(c, ',', "\\,");
      if c != ',' {
        ReplaceOne(c, ';', "\\;");
        if c != ';' {
          ReplaceOne(c, '\n', "\\n");
        }
      }
    }
  }

  /** The chain of replacements escapes every character on its own: replacing the backslash
      first means no backslash introduced by a later step is escaped again. */
  lemma {:induction false} EscapeIsPerCharacter(v: string)
    ensures Escape(v) == EscapeEach(v)
  {
    if v != [] {
      assert v == [v[0]] + v[1..];
      EscapeAppend([v[0]], v[1..]);
      EscapeOne(v[0]);
      EscapeIsPerCharacter(v[1..]);
    }
  }

  lemma UnescapeStep(c: char, t: string)
    ensures Unescape(EscapeChar(c) + t) == [c] + Unescape(t)
  {
    var e := EscapeChar(c) + t;
    if |EscapeChar(c)| == 2 {
      assert e[2..] == t;
    } else {
      assert e[1..] == t;
    }
  }

  /** Decoding an escaped value gives the value back: `_escape` loses nothing. */
  lemma {:induction false} UnescapeEscape(v: string)
    ensures Unescape(Escape(v)) == v
  {
    EscapeIsPerCharacter(v);
    EachRoundTrip(v);
  }

  lemma {:induction false} EachRoundTrip(v: string)
    ensures Unescape(EscapeEach(v)) == v
  {
    if v != [] {
      UnescapeStep(v[0], EscapeEach(v[1..]));
      EachRoundTrip(v[1..]);
    }
  }

  /** The exceptions the feed can raise: `strptime`'s `ValueError`, the `OverflowError` of the
      day after 9999-12-31, and the `AttributeError` of `_escape` given something that is not
      a string. */
  datatype FeedError = InvalidDate | DateOverflow | NotText

  /** The fixed lines the feed opens with. */
  function Header(calendarName: string): seq<string> {
    ["BEGIN:VCALENDAR", "VERSION:2.0", "PRODID:-//Meetinity//Event Service//FR",
     "X-WR-CALNAME:" + Escape(calendarName), "CALSCALE:GREGORIAN"]
  }

  /** `event.get("date") or event.get("event_date")`. */
  function EventDate(e: Json): Json {
    Or(Get(e, "date"), Get(e, "event_date"))
  }

  /** An event the feed lists: one whose date is a string. */
  predicate Dated(e: Json) {
    EventDate(e).Str?
  }

  /** The name one tag contributes to CATEGORIES: its `name` when it is a mapping, the tag
      itself otherwise, and only when that is a string. */
  function TagName(t: Json): seq<string> {
    var name := if t.Obj? then Get(t, "name") else t;
    if name.Str? then [name.s] else []
  }

  /** The `tag_values` list, built from the front. */
  function TagNames(tags: seq<Json>): seq<string> {
    if tags == [] then [] else TagNames(tags[..|tags| - 1]) + TagName(tags[|tags| - 1])
  }

  /** `share.get("url") if share else None`, where `share` is kept only when it is a mapping. */
  function ShareUrl(e: Json): Json {
    var share := Get(e, "share");
    if share.Obj? && Truthy(share) then Get(share, "url") else Null
  }

  /** `_escape(value or default)`; `None` where `_escape` is handed something other than a
      string and raises. */
  function TextOr(value: Json, default: string): Option<string> {
    var t := Or(value, Str(default));
    if t.Str? then Some(Escape(t.s)) else None
  }

  /** A falsy value gives the default, a string gives a text that decodes back to it, and
      any other truthy value raises. */
  lemma TextOrMeaning(value: Json, default: string)
    requires forall k :: 0 <= k < |default| ==> default[k] != '\\' && default[k] != ',' && default[k] != ';' && default[k] != '\n'
    ensures TextOr(value, default).None? <==> Truthy(value) && !value.Str?
    ensures !Truthy(value) ==> TextOr(value, default) == Some(default)
    ensures Truthy(value) && value.Str? ==> Unescape(TextOr(value, default).value) == value.s
  {
    if !Truthy(value) {
      EscapePlain(default);
    } else if value.Str? {
      UnescapeEscape(value.s);
    }
  }

  /** The values of one VEVENT block, already escaped where the source escapes them. */
  datatype VEvent = VEvent(
    uid: string,
    stamp: string,
    dtstart: string,
    dtend: string,
    summary: string,
    description: string,
    location: string,
    url: Option<string>,
    categories: Option<string>)

  /** The lines of one block, in the order the source writes them. */
  function VEventLines(v: VEvent): seq<string> {
    ["BEGIN:VEVENT"] + PropertyLines(v) + ["END:VEVENT"]
  }

  /** The property lines between the markers: the seven the source always writes, then URL and
      CATEGORIES when present. */
  function PropertyLines(v: VEvent): seq<string> {
    FixedProperties(v) + OptionalProperty("URL:", v.url) + OptionalProperty("CATEGORIES:", v.categories)
  }

  /** One `name:value` line when the value is present, none otherwise. */
  function OptionalProperty(name: string, value: Option<string>): seq<string> {
    if value.Some? then [name + value.value] else []
  }

  function FixedProperties(v: VEvent): seq<string> {
    ["UID:" + v.uid, "DTSTAMP:" + v.stamp, "DTSTART;VALUE=DATE:" + v.dtstart,
     "DTEND;VALUE=DATE:" + v.dtend, "SUMMARY:" + v.summary, "DESCRIPTION:" + v.description,
     "LOCATION:" + v.location]
  }

  /** What the loop body computes for one event: nothing when its date is not a string
      (`continue`), otherwise the block's values or the exception raised on the way. */
  function EventFields(e: Json, stamp: string): Result<Option<VEvent>, FeedError> {
    var date := EventDate(e);
    if !date.Str? then Ok(None)
    else match ParseIsoDate(date.s)
      case None => Err(InvalidDate)
      case Some(d) =>
        match NextDay(d)
        case None => Err(DateOverflow)
        case Some(next) =>
          var title := TextOr(Get(e, "title"), "Event");
          var description := TextOr(Get(e, "description"), "");
          var location := TextOr(Get(e, "location"), "");
          var url := ShareUrl(e);
          if title.None? || description.None? || location.None? || (Truthy(url) && !url.Str?) then Err(NotText)
          else
            var tagValues := TagNames(Iter(Get(e, "tags")));
            Ok(Some(VEvent(
              "event-" + PyStr(Get(e, "id")) + "@meetinity",
              stamp,
              ReplaceChar(date.s, '-', ""),
              FormatCompact(next),
              title.value,
              description.value,
              location.value,
              if Truthy(url) then Some(Escape(url.s)) else None,
              if tagValues != [] then Some(Escape(Join(tagValues, ","))) else None)))
  }

  /** The lines one event contributes to `lines`. */
  function EventBlock(e: Json, stamp: string): Result<seq<string>, FeedError> {
    match EventFields(e, stamp)
    case Err(err) => Err(err)
    case Ok(None) => Ok([])
    case Ok(Some(v)) => Ok(VEventLines(v))
  }

  /** What each event contributes, in order. */
  function EventResults(events: seq<Json>, stamp: string): (r: seq<Result<seq<string>, FeedError>>)
    ensures |r| == |events|
  {
    seq(|events|, i requires 0 <= i < |events| => EventBlock(events[i], stamp))
  }

  /** The contributions one after the other; the first exception stops the feed. */
  function Collect(results: seq<Result<seq<string>, FeedError>>): Result<seq<string>, FeedError> {
    if results == [] then Ok([])
    else match Collect(results[..|results| - 1])
      case Err(err) => Err(err)
      case Ok(front) =>
        match results[|results| - 1]
        case Err(err) => Err(err)
        case Ok(block) => Ok(front + block)
  }

  /** The event lines of the whole feed. */
  function Blocks(events: seq<Json>, stamp: string): Result<seq<string>, FeedError> {
    Collect(EventResults(events, stamp))
  }

  /** The `lines` list `generate_ics_feed` joins. */
  function FeedLines(events: seq<Json>, calendarName: string, stamp: string): Result<seq<string>, FeedError> {
    match Blocks(events, stamp)
    case Err(err) => Err(err)
    case Ok(body) => Ok(Header(calendarName) + body + ["END:VCALENDAR"])
  }

  /** `"\r\n".join(lines) + "\r\n"`. */
  function CrlfJoin(lines: seq<string>): string {
    Join(lines, "\r\n") + "\r\n"
  }

  /** The document `generate_ics_feed(events, calendar_name=...)` returns, `stamp` being the
      `DTSTAMP` value it reads from the clock. */
  function IcsFeed(events: seq<Json>, calendarName: string, stamp: string): Result<string, FeedError> {
    match FeedLines(events, calendarName, stamp)
    case Err(err) => Err(err)
    case Ok(lines) => Ok(CrlfJoin(lines))
  }

  /** Every line followed by CRLF: the reference for what the join produces. */
  function Terminated(lines: seq<string>): string {
    if lines == [] then "" else lines[0] + "\r\n" + Terminated(lines[1..])
  }

  /** The join with a trailing CRLF ends every line, the last one included, with CRLF. */
  lemma {:induction false} CrlfJoinTerminates(lines: seq<string>)
    requires lines != []
    ensures CrlfJoin(lines) == Terminated(lines)
  {
    if |lines| > 1 {
      CrlfJoinTerminates(lines[1..]);
    }
  }

  lemma TerminatedAppend(a: seq<string>, b: seq<string>)
    ensures Terminated(a + b) == Terminated(a) + Terminated(b)
  {
    if a != [] {
      assert (a + b)[1..] == a[1..] + b;
      TerminatedAppend(a[1..], b);
    } else {
      assert a + b == b;
    }
  }

  /** The feed opens with the five calendar header lines, closes with END:VCALENDAR, and every
      line ends with CRLF. */
  lemma FeedFrame(events: seq<Json>, calendarName: string, stamp: string)
    requires IcsFeed(events, calendarName, stamp).Ok?
    ensures var body := Blocks(events, stamp).value;
      IcsFeed(events, calendarName, stamp).value
      == Terminated(Header(calendarName)) + Terminated(body) + "END:VCALENDAR\r\n"
  {
    var body := Blocks(events, stamp).value;
    var lines := Header(calendarName) + body + ["END:VCALENDAR"];
    CrlfJoinTerminates(lines);
    TerminatedAppend(Header(calendarName) + body, ["END:VCALENDAR"]);
    TerminatedAppend(Header(calendarName), body);
    assert Terminated(["END:VCALENDAR"]) == "END:VCALENDAR\r\n" by {
      assert ["END:VCALENDAR"][1..] == [];
    }
  }

  /** The contributions fail exactly when one of them does, and then with the exception of
      the first one that does. */
  lemma {:induction false} CollectFail(results: seq<Result<seq<string>, FeedError>>)
    ensures Collect(results).Err? <==> exists i :: 0 <= i < |results| && results[i].Err?
    ensures Collect(results).Err? ==>
      exists i :: 0 <= i < |results| && results[i] == Collect(results)
        && forall j :: 0 <= j < i ==> results[j].Ok?
  {
    if results != [] {
      var front := results[..|results| - 1];
      CollectFail(front);
      forall i | 0 <= i < |front| ensures front[i] == results[i] { }
    }
  }

  /** How many events have a string date. */
  function DatedCount(events: seq<Json>): nat {
    if events == [] then 0 else DatedCount(events[..|events| - 1]) + (if Dated(events[|events| - 1]) then 1 else 0)
  }

  /** A block is opened by BEGIN:VEVENT and closed by END:VEVENT, and no other line of it is
      either marker. */
  lemma VEventMarkers(v: VEvent)
    ensures var b := VEventLines(v);
      b[0] == "BEGIN:VEVENT" && b[|b| - 1] == "END:VEVENT"
      && multiset(b)["BEGIN:VEVENT"] == 1 && multiset(b)["END:VEVENT"] == 1
  {
    var p := PropertyLines(v);
    PropertiesHaveNoMarker(v);
    assert multiset(VEventLines(v)) == multiset(["BEGIN:VEVENT"]) + multiset(p) + multiset(["END:VEVENT"]);
  }

  /** Every property line starts with its property name, never with a marker. */
  lemma PropertiesHaveNoMarker(v: VEvent)
    ensures multiset(PropertyLines(v))["BEGIN:VEVENT"] == 0
    ensures multiset(PropertyLines(v))["END:VEVENT"] == 0
  {
    var fixed, url, categories := FixedProperties(v), OptionalProperty("URL:", v.url), OptionalProperty("CATEGORIES:", v.categories);
    FixedHaveNoMarker(v);
    OptionalHasNoMarker("URL:", v.url);
    OptionalHasNoMarker("CATEGORIES:", v.categories);
    assert multiset(fixed + url + categories) == multiset(fixed) + multiset(url) + multiset(categories);
  }

  lemma OptionalHasNoMarker(name: string, value: Option<string>)
    requires name != [] && name[0] != 'B' && name[0] != 'E'
    ensures "BEGIN:VEVENT" !in OptionalProperty(name, value) && "END:VEVENT" !in OptionalProperty(name, value)
  {
    if value.Some? {
      NotMarker(name, value.value);
    }
  }

  lemma FixedHaveNoMarker(v: VEvent)
    ensures "BEGIN:VEVENT" !in FixedProperties(v) && "END:VEVENT" !in FixedProperties(v)
  {
    NotMarker("UID:", v.uid);
    NotMarker("DTSTAMP:", v.stamp);
    NotMarker("DTSTART;VALUE=DATE:", v.dtstart);
    NotMarker("DTEND;VALUE=DATE:", v.dtend);
    NotMarker("SUMMARY:", v.summary);
    NotMarker("DESCRIPTION:", v.description);
    NotMarker("LOCATION:", v.location);
  }

  lemma NotMarker(name: string, value: string)
    requires name != [] && name[0] != 'B' && name[0] != 'E'
    ensures name + value != "BEGIN:VEVENT" && name + value != "END:VEVENT"
  {
    assert (name + value)[0] == name[0];
  }

  /** A listed event gives one block, opened by BEGIN:VEVENT and closed by END:VEVENT, with
      no other line equal to either; an event without a string date gives no line. */
  lemma EventBlockCounts(e: Json, stamp: string)
    requires EventBlock(e, stamp).Ok?
    ensures var b := EventBlock(e, stamp).value;
      multiset(b)["BEGIN:VEVENT"] == (if Dated(e) then 1 else 0)
      && multiset(b)["END:VEVENT"] == (if Dated(e) then 1 else 0)
      && (Dated(e) ==> b[0] == "BEGIN:VEVENT" && b[|b| - 1] == "END:VEVENT")
  {
    match EventFields(e, stamp)
    case Ok(None) =>
    case Ok(Some(v)) => VEventMarkers(v);
  }

  /** The block's lines regrouped around its property lines. */
  lemma Regroup(begin: seq<string>, fixed: seq<string>, url: seq<string>, categories: seq<string>, end: seq<string>)
    ensures begin + fixed + url + categories + end == begin + (fixed + url + categories) + end
  {
  }

  /** How many contributions are non-empty. */
  function NonEmpty(results: seq<Result<seq<string>, FeedError>>): nat {
    if results == [] then 0
    else NonEmpty(results[..|results| - 1]) + (if results[|results| - 1] != Ok([]) then 1 else 0)
  }

  /** When every non-empty contribution holds `marker` once and an empty one not at all, the
      joined lines hold it once per non-empty contribution. */
  lemma {:induction false} CollectCount(results: seq<Result<seq<string>, FeedError>>, marker: string)
    requires Collect(results).Ok?
    requires forall i :: 0 <= i < |results| && results[i].Ok? && results[i].value != [] ==> multiset(results[i].value)[marker] == 1
    ensures multiset(Collect(results).value)[marker] == NonEmpty(results)
  {
    if results != [] {
      var front := results[..|results| - 1];
      forall i | 0 <= i < |front| ensures front[i] == results[i] { }
      CollectCount(front, marker);
    }
  }

  /** The listed events are the events with a non-empty contribution. */
  lemma {:induction false} DatedAreNonEmpty(events: seq<Json>, stamp: string)
    requires Blocks(events, stamp).Ok?
    ensures DatedCount(events) == NonEmpty(EventResults(events, stamp))
  {
    if events != [] {
      var n := |events| - 1;
      var front := events[..n];
      assert EventResults(events, stamp)[..n] == EventResults(front, stamp);
      forall i | 0 <= i < |front| ensures front[i] == events[i] { }
      DatedAreNonEmpty(front, stamp);
      EventBlockCounts(events[n], stamp);
    }
  }

  /** The feed holds exactly one BEGIN:VEVENT and one END:VEVENT line per event with a string
      date: events without one are skipped, every other event is listed once. */
  lemma BlocksCount(events: seq<Json>, stamp: string)
    requires Blocks(events, stamp).Ok?
    ensures multiset(Blocks(events, stamp).value)["BEGIN:VEVENT"] == DatedCount(events)
    ensures multiset(Blocks(events, stamp).value)["END:VEVENT"] == DatedCount(events)
  {
    var results := EventResults(events, stamp);
    forall i | 0 <= i < |results| && results[i].Ok? && results[i].value != []
      ensures multiset(results[i].value)["BEGIN:VEVENT"] == 1 && multiset(results[i].value)["END:VEVENT"] == 1
    {
      EventBlockCounts(events[i], stamp);
    }
    CollectCount(results, "BEGIN:VEVENT");
    CollectCount(results, "END:VEVENT");
    DatedAreNonEmpty(events, stamp);
  }

  /** The header and the closing line hold no VEVENT marker, so the whole feed has exactly
      one block per event with a string date. */
  lemma FeedEventCount(events: seq<Json>, calendarName: string, stamp: string)
    requires FeedLines(events, calendarName, stamp).Ok?
    ensures multiset(FeedLines(events, calendarName, stamp).value)["BEGIN:VEVENT"] == DatedCount(events)
    ensures multiset(FeedLines(events, calendarName, stamp).value)["END:VEVENT"] == DatedCount(events)
  {
    BlocksCount(events, stamp);
    var h := Header(calendarName);
    var body := Blocks(events, stamp).value;
    HeaderHasNoBlocks(calendarName);
    assert FeedLines(events, calendarName, stamp).value == h + body + ["END:VCALENDAR"];
    assert multiset(h + body + ["END:VCALENDAR"]) == multiset(h) + multiset(body) + multiset(["END:VCALENDAR"]);
  }

  lemma HeaderHasNoBlocks(calendarName: string)
    ensures multiset(Header(calendarName))["BEGIN:VEVENT"] == 0
    ensures multiset(Header(calendarName))["END:VEVENT"] == 0
  {
    var h := Header(calendarName);
    assert h[3][0] == 'X';
    assert "BEGIN:VEVENT" !in h && "END:VEVENT" !in h;
  }

  /** A listed event that raises nothing has a block whose DTSTART is its date without the
      hyphens and whose DTEND is the next calendar day in `YYYYMMDD` form. */
  lemma EventDates(e: Json, stamp: string)
    requires Dated(e) && EventFields(e, stamp).Ok?
    ensures var v := EventFields(e, stamp).value;
      var date := EventDate(e).s;
      && v.Some?
      && ParseIsoDate(date).Some? && NextDay(ParseIsoDate(date).value).Some?
      && v.value.dtstart == ReplaceChar(date, '-', "")
      && v.value.dtend == FormatCompact(NextDay(ParseIsoDate(date).value).value)
  {
  }

  /** A listed event raises `ValueError` when its date does not parse, and `OverflowError`
      when it is the last day Python can represent. */
  lemma EventDateErrors(e: Json, stamp: string)
    requires Dated(e)
    ensures ParseIsoDate(EventDate(e).s).None? ==> EventFields(e, stamp) == Err(InvalidDate)
    ensures ParseIsoDate(EventDate(e).s) == Some(Date(9999, 12, 31)) ==> EventFields(e, stamp) == Err(DateOverflow)
  {
  }

  /** The URL is present exactly when the share mapping has a truthy url, and CATEGORIES
      exactly when some tag name is a string. */
  lemma EventOptionalLines(e: Json, stamp: string)
    requires Dated(e) && EventFields(e, stamp).Ok?
    ensures var v := EventFields(e, stamp).value.value;
      var url := ShareUrl(e);
      var tags := Iter(Get(e, "tags"));
      && (v.url.Some? <==> Truthy(url))
      && (v.url.Some? ==> url.Str? && Unescape(v.url.value) == url.s)
      && (v.categories.Some? <==> exists i :: 0 <= i < |tags| && TagName(tags[i]) != [])
  {
    EventOptionalFields(e, stamp);
    TagNamesNonEmpty(Iter(Get(e, "tags")));
    var url := ShareUrl(e);
    if Truthy(url) {
      UnescapeEscape(url.s);
    }
  }

  /** The URL and CATEGORIES values of a block that was built. */
  lemma EventOptionalFields(e: Json, stamp: string)
    requires Dated(e) && EventFields(e, stamp).Ok?
    ensures var v := EventFields(e, stamp).value.value;
      var url := ShareUrl(e);
      var tagValues := TagNames(Iter(Get(e, "tags")));
      && (Truthy(url) ==> url.Str? && v.url == Some(Escape(url.s)))
      && (!Truthy(url) ==> v.url.None?)
      && (v.categories.Some? <==> tagValues != [])
  {
  }

  lemma EscapePlain(v: string)
    requires forall k :: 0 <= k < |v| ==> v[k] != '\\' && v[k] != ',' && v[k] != ';' && v[k] != '\n'
    ensures Escape(v) == v
  {
  }

  /** `tag_values` is non-empty exactly when some tag contributes a name. */
  lemma {:induction false} TagNamesNonEmpty(tags: seq<Json>)
    ensures TagNames(tags) != [] <==> exists i :: 0 <= i < |tags| && TagName(tags[i]) != []
  {
    if tags != [] {
      var front := tags[..|tags| - 1];
      TagNamesNonEmpty(front);
      forall i | 0 <= i < |front| ensures front[i] == tags[i] { }
    }
  }

  /** For a date written in `isoformat` with a four-digit year (the form stored events carry),
      removing the hyphens gives the same DTSTART value `strftime("%Y%m%d")` would. */
  lemma DtStartCanonical(d: Date)
    requires ValidDate(d) && d.year >= 1000
    ensures ReplaceChar(FormatIso(d), '-', "") == FormatCompact(d)
  {
    FourDigitYear(d.year);
    DropHyphens(Pad4(d.year), Pad2(d.month), Pad2(d.day));
  }

  lemma DropHyphens(p: string, m: string, dd: string)
    requires forall k :: 0 <= k < |p| ==> '0' <= p[k] <= '9'
    requires forall k :: 0 <= k < |m| ==> '0' <= m[k] <= '9'
    requires forall k :: 0 <= k < |dd| ==> '0' <= dd[k] <= '9'
    ensures ReplaceChar(p + "-" + m + "-" + dd, '-', "") == p + m + dd
  {
    var a1 := p + "-";
    var a2 := a1 + m;
    var a3 := a2 + "-";
    ReplaceOne('-', '-', "");
    DigitsKept(p);
    DigitsKept(m);
    DigitsKept(dd);
    ReplaceCharAppend(p, "-", '-', "");
    assert ReplaceChar(a1, '-', "") == p;
    ReplaceCharAppend(a1, m, '-', "");
    ReplaceCharAppend(a2, "-", '-', "");
    assert ReplaceChar(a3, '-', "") == p + m;
    ReplaceCharAppend(a3, dd, '-', "");
  }

  lemma DigitsKept(t: string)
    requires forall k :: 0 <= k < |t| ==> '0' <= t[k] <= '9'
    ensures ReplaceChar(t, '-', "") == t
  {
  }

  /** `str(y)` of a four-digit year is its `%04d` form. */
  lemma FourDigitYear(y: int)
    requires 1000 <= y <= 9999
    ensures NatToString(y) == Pad4(y)
  {
    assert y / 10 / 10 == y / 100 && y / 100 / 10 == y / 1000;
    assert NatToString(y) == NatToString(y / 10) + [DigitChar(y % 10)];
    assert NatToString(y / 10) == NatToString(y / 100) + [DigitChar(y / 10 % 10)];
    assert NatToString(y / 100) == NatToString(y / 1000) + [DigitChar(y / 100 % 10)];
    assert NatToString(y / 1000) == [DigitChar(y / 1000)];
  }

  /** `generate_ics_feed`: the header lines, then each event's block as the loop over the
      events extends `lines`, then the closing line, joined by CRLF. */
  method GenerateIcsFeed(events: seq<Json>, calendarName: string, stamp: string) returns (r: Result<string, FeedError>)
    ensures r == IcsFeed(events, calendarName, stamp)
  {
    var lines := Header(calendarName);
    ghost var body: seq<string> := [];
    NothingAppended(lines);
    var i := 0;
    while i < |events|
      invariant 0 <= i <= |events|
      invariant Blocks(events[..i], stamp) == Ok(body)
      invariant lines == Header(calendarName) + body
    {
      var event := events[i];
      BlocksSnoc(events, i, stamp);
      var eventDate := EventDate(event);
      if !eventDate.Str? {
        NothingAppended(body);
        i := i + 1;
        continue;
      }
      var block := EventLines(event, eventDate.s, stamp);
      if block.Err? {
        BlocksStopAt(events, i + 1, stamp);
        FeedFails(events, calendarName, stamp);
        return Err(block.error);
      }
      Associative(Header(calendarName), body, block.value);
      lines := lines + block.value;
      body := body + block.value;
      i := i + 1;
    }
    assert events[..i] == events;
    lines := lines + ["END:VCALENDAR"];
    r := Ok(Join(lines, "\r\n") + "\r\n");
  }

  lemma FeedFails(events: seq<Json>, calendarName: string, stamp: string)
    requires Blocks(events, stamp).Err?
    ensures IcsFeed(events, calendarName, stamp) == Err(Blocks(events, stamp).error)
  {
  }

  /** One more event: its block follows the blocks of the events before it. */
  lemma BlocksSnoc(events: seq<Json>, i: nat, stamp: string)
    requires i < |events|
    ensures Blocks(events[..i + 1], stamp) ==
      match Blocks(events[..i], stamp)
      case Err(err) => Err(err)
      case Ok(front) =>
        match EventBlock(events[i], stamp)
        case Err(err) => Err(err)
        case Ok(block) => Ok(front + block)
    ensures !Dated(events[i]) ==> EventBlock(events[i], stamp) == Ok([])
  {
    assert EventResults(events[..i + 1], stamp)[..i] == EventResults(events[..i], stamp);
  }

  /** Once the feed has failed on a prefix of the events, the later events do not change the
      outcome. */
  lemma {:induction false} BlocksStopAt(events: seq<Json>, i: nat, stamp: string)
    requires i <= |events| && Blocks(events[..i], stamp).Err?
    ensures Blocks(events, stamp) == Blocks(events[..i], stamp)
    decreases |events| - i
  {
    if i < |events| {
      BlocksSnoc(events, i, stamp);
      BlocksStopAt(events, i + 1, stamp);
    } else {
      assert events[..i] == events;
    }
  }

  /** The block of one event whose date is the string `date`, built line by line. */
  method EventLines(event: Json, date: string, stamp: string) returns (r: Result<seq<string>, FeedError>)
    requires EventDate(event) == Str(date)
    ensures r == EventBlock(event, stamp)
  {
    var dtstart := ReplaceChar(date, '-', "");
    var parsed := ParseIsoDate(date);
    if parsed.None? {
      return Err(InvalidDate);
    }
    var next := NextDay(parsed.value);
    if next.None? {
      return Err(DateOverflow);
    }
    var title := TextOr(Get(event, "title"), "Event");
    var description := TextOr(Get(event, "description"), "");
    var location := TextOr(Get(event, "location"), "");
    var url := ShareUrl(event);
    if title.None? || description.None? || location.None? {
      return Err(NotText);
    }
    var uid := "event-" + PyStr(Get(event, "id")) + "@meetinity";
    var dtend := FormatCompact(next.value);
    var properties := ["UID:" + uid,
                       "DTSTAMP:" + stamp,
                       "DTSTART;VALUE=DATE:" + dtstart,
                       "DTEND;VALUE=DATE:" + dtend,
                       "SUMMARY:" + title.value,
                       "DESCRIPTION:" + description.value,
                       "LOCATION:" + location.value];
    var lines := ["BEGIN:VEVENT"] + properties;
    ghost var fixed := lines;
    ghost var urlValue: Option<string> := None;
    if Truthy(url) {
      if !url.Str? {
        return Err(NotText);
      }
      urlValue := Some(Escape(url.s));
      lines := lines + ["URL:" + Escape(url.s)];
    } else {
      NothingAppended(fixed);
    }
    ghost var withUrl := lines;
    var tagValues := CollectTagNames(Iter(Get(event, "tags")));
    ghost var categories: Option<string> := None;
    if tagValues != [] {
      categories := Some(Escape(Join(tagValues, ",")));
      lines := lines + ["CATEGORIES:" + Escape(Join(tagValues, ","))];
    } else {
      NothingAppended(withUrl);
    }
    lines := lines + ["END:VEVENT"];
    ghost var v := VEvent(uid, stamp, dtstart, dtend, title.value, description.value, location.value, urlValue, categories);
    assert EventFields(event, stamp) == Ok(Some(v));
    ghost var urlLines := OptionalProperty("URL:", v.url);
    ghost var categoryLines := OptionalProperty("CATEGORIES:", v.categories);
    assert withUrl == fixed + urlLines;
    assert lines == withUrl + categoryLines + ["END:VEVENT"];
    assert properties == FixedProperties(v);
    assert PropertyLines(v) == properties + urlLines + categoryLines;
    Regroup(["BEGIN:VEVENT"], properties, urlLines, categoryLines, ["END:VEVENT"]);
    return Ok(lines);
  }

  /** Appending nothing changes nothing; used where a branch adds no line. */
  lemma NothingAppended<T>(a: seq<T>)
    ensures a + [] == a
  {
  }

  /** The inner loop over `tags` that fills `tag_values`. */
  method CollectTagNames(tags: seq<Json>) returns (values: seq<string>)
    ensures values == TagNames(tags)
  {
    values := [];
    for k := 0 to |tags|
      invariant values == TagNames(tags[..k])
    {
      assert tags[..k + 1][..k] == tags[..k];
      var tag := tags[k];
      var name := if tag.Obj? then Get(tag, "name") else tag;
      if name.Str? {
        values := values + [name.s];
      }
    }
    assert tags[..|tags|] == tags;
  }
}
