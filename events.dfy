/** The event service's payload handling: the validation of a create or update payload into
    the columns to write, the normalisation and parsing of the list filters, and the update that
    changes nothing. */
module Events {
  import opened Wrappers
  import opened Text
  import opened JsonValue
  import opened Dates
  import opened Validation

  /** What one field check gives: nothing to write, a value to write, or an error message. */
  datatype Check<T> = Absent | Keep(value: T) | Fail(message: string)

  /** A create, which requires a title and fills defaults (the current date among them), or an
      update, which only checks what is present. */
  datatype Mode = Create(today: Date) | Update

  /** The clean payload: each column to write, `None` when the payload leaves it alone. */
  datatype EventChanges = EventChanges(
    title: Option<string>,
    attendees: Option<int>,
    eventDate: Option<Date>,
    location: Option<Json>,
    eventType: Option<Json>,
    seriesName: Option<string>,
    seriesId: Option<int>)

  const SchemaMessage: string := "Payload JSON invalide: un objet JSON (type dict) est requis."
  const TitleMessage: string := "Champ requis (string non vide)."
  const AttendeesMessage: string := "Doit \U{ea}tre un entier >= 0 (valeur bool\U{e9}enne non autoris\U{e9}e)."
  const DateTypeMessage: string := "Doit \U{ea}tre une cha\U{ee}ne au format YYYY-MM-DD."
  const DateFormatMessage: string := "Format de date invalide, attendu YYYY-MM-DD."
  const SeriesIdMessage: string := "Doit \U{ea}tre un entier >= 0."
  const FilterDateMessage: string := "Format de date invalide pour le filtre, attendu YYYY-MM-DD."

  // ---------------------------------------------------------------- _validate_event_payload

  /** The title, required on create and whenever present: a non-blank string, stored stripped. */
  function TitleCheck(data: Json, mode: Mode): (c: Check<string>)
    ensures c.Fail? ==> c.message == TitleMessage
  {
    if !Has(data, "title") && !mode.Create? then Absent
    else
      var title := Get(data, "title");
      if !title.Str? || Strip(title.s) == "" then Fail(TitleMessage) else Keep(Strip(title.s))
  }

  /** The attendee count: an int that is not a bool and not negative; 0 on create when absent. */
  function AttendeesCheck(data: Json, mode: Mode): (c: Check<int>)
    ensures c.Fail? ==> c.message == AttendeesMessage
  {
    if Has(data, "attendees") then
      var attendees := Get(data, "attendees");
      if !attendees.Int? || attendees.i < 0 then Fail(AttendeesMessage) else Keep(attendees.i)
    else if mode.Create? then Keep(0)
    else Absent
  }

  /** The date, checked on create and whenever present: `None` is today on create and an error on
      update; otherwise a non-blank string that parses as `YYYY-MM-DD` once stripped. */
  function DateCheck(data: Json, mode: Mode): Check<Date> {
    if !Has(data, "date") && !mode.Create? then Absent
    else
      var date := Get(data, "date");
      if date.Null? then (if mode.Create? then Keep(mode.today) else Fail(DateTypeMessage))
      else if !date.Str? || Strip(date.s) == "" then Fail(DateTypeMessage)
      else
        match ParseIsoDate(Strip(date.s))
        case None => Fail(DateFormatMessage)
        case Some(d) => Keep(d)
  }

  /** A present text column is stored stripped when it is a string and as given otherwise; on
      create an absent one gets `default`. */
  function TextCheck(data: Json, mode: Mode, field: string, default: string): Check<Json> {
    if Has(data, field) then
      var value := Get(data, field);
      Keep(if value.Str? then Str(Strip(value.s)) else value)
    else if mode.Create? then Keep(Str(default))
    else Absent
  }

  /** A present series is a non-blank string or a dict with a non-blank `name`, giving the
      series name stripped; `None` is ignored. */
  function SeriesCheck(data: Json): Check<string> {
    if !Has(data, "series") then Absent
    else
      var series := Get(data, "series");
      if series.Obj? then
        var name := Get(series, "name");
        if name.Str? && Strip(name.s) != "" then Keep(Strip(name.s)) else Fail("Champ 'name' requis pour la s\U{e9}rie.")
      else if series.Str? then
        if Strip(series.s) != "" then Keep(Strip(series.s)) else Fail("Nom de s\U{e9}rie invalide.")
      else if !series.Null? then Fail("Doit \U{ea}tre une cha\U{ee}ne ou un objet contenant un champ 'name'.")
      else Absent
  }

  /** A present series id is an int (a bool is one) that is not negative; `None` means 0, "no
      series", on update and is ignored on create. */
  function SeriesIdCheck(data: Json, mode: Mode): (c: Check<int>)
    ensures c.Fail? ==> c.message == SeriesIdMessage
  {
    if !Has(data, "series_id") then Absent
    else
      var seriesId := Get(data, "series_id");
      if seriesId.Null? then (if mode.Create? then Absent else Keep(0))
      else if !IsInt(seriesId) || IntValue(seriesId) < 0 then Fail(SeriesIdMessage)
      else Keep(IntValue(seriesId))
  }

  /** The error entry of a failed check. */
  function FailOf<T>(field: string, c: Check<T>): Errors {
    if c.Fail? then [(field, [c.message])] else []
  }

  function Kept<T>(c: Check<T>): Option<T> {
    if c.Keep? then Some(c.value) else None
  }

  /** `_validate_event_payload(data, require_title=…)`: every check runs, and either all their
      errors are raised together or the clean payload is returned. */
  function ValidateEventPayload(data: Json, mode: Mode): Result<EventChanges, Errors> {
    if !data.Obj? then Err([("_schema", [SchemaMessage])])
    else
      var title := TitleCheck(data, mode);
      var attendees := AttendeesCheck(data, mode);
      var date := DateCheck(data, mode);
      var series := SeriesCheck(data);
      var seriesId := SeriesIdCheck(data, mode);
      if title.Fail? || attendees.Fail? || date.Fail? || series.Fail? || seriesId.Fail? then
        Err(FailOf("title", title) + FailOf("attendees", attendees) + FailOf("date", date)
            + FailOf("series", series) + FailOf("series_id", seriesId))
      else
        Ok(EventChanges(Kept(title), Kept(attendees), Kept(date), Kept(TextCheck(data, mode, "location", "TBD")),
                        Kept(TextCheck(data, mode, "type", "general")), Kept(series), Kept(seriesId)))
  }

  /** The payload is refused exactly when one of its checks fails. */
  lemma ValidationRefused(data: Json, mode: Mode)
    requires data.Obj?
    ensures ValidateEventPayload(data, mode).Err? <==>
      (TitleCheck(data, mode).Fail? || AttendeesCheck(data, mode).Fail? || DateCheck(data, mode).Fail?
       || SeriesCheck(data).Fail? || SeriesIdCheck(data, mode).Fail?)
  {
  }

  /** A refused payload reports every failing check under its own field, all at once. */
  lemma ValidationReports(data: Json, mode: Mode)
    requires data.Obj?
    requires ValidateEventPayload(data, mode).Err?
    ensures TitleCheck(data, mode).Fail? <==> ("title", [TitleMessage]) in ValidateEventPayload(data, mode).error
    ensures AttendeesCheck(data, mode).Fail? <==> ("attendees", [AttendeesMessage]) in ValidateEventPayload(data, mode).error
    ensures DateCheck(data, mode).Fail? ==>
      ("date", [DateCheck(data, mode).message]) in ValidateEventPayload(data, mode).error
    ensures SeriesCheck(data).Fail? ==>
      ("series", [SeriesCheck(data).message]) in ValidateEventPayload(data, mode).error
    ensures SeriesIdCheck(data, mode).Fail? <==> ("series_id", [SeriesIdMessage]) in ValidateEventPayload(data, mode).error
  {
    Refused(data, mode);
    Reports(TitleCheck(data, mode), AttendeesCheck(data, mode), DateCheck(data, mode), SeriesCheck(data),
            SeriesIdCheck(data, mode));
  }

  /** The errors of a refused payload are the failing checks' entries, in order. */
  lemma Refused(data: Json, mode: Mode)
    requires data.Obj?
    requires ValidateEventPayload(data, mode).Err?
    ensures ValidateEventPayload(data, mode).error ==
      FailOf("title", TitleCheck(data, mode)) + FailOf("attendees", AttendeesCheck(data, mode))
      + FailOf("date", DateCheck(data, mode)) + FailOf("series", SeriesCheck(data))
      + FailOf("series_id", SeriesIdCheck(data, mode))
  {
  }

  /** Which entries the concatenated error list of five checks holds. */
  lemma Reports(title: Check<string>, attendees: Check<int>, date: Check<Date>, series: Check<string>,
                seriesId: Check<int>)
    requires title.Fail? ==> title.message == TitleMessage
    requires attendees.Fail? ==> attendees.message == AttendeesMessage
    requires seriesId.Fail? ==> seriesId.message == SeriesIdMessage
    ensures var errors := FailOf("title", title) + FailOf("attendees", attendees) + FailOf("date", date)
                          + FailOf("series", series) + FailOf("series_id", seriesId);
      && (title.Fail? <==> ("title", [TitleMessage]) in errors)
      && (attendees.Fail? <==> ("attendees", [AttendeesMessage]) in errors)
      && (date.Fail? ==> ("date", [date.message]) in errors)
      && (series.Fail? ==> ("series", [series.message]) in errors)
      && (seriesId.Fail? <==> ("series_id", [SeriesIdMessage]) in errors)
  {
    var t, a, d, s, i := FailOf("title", title), FailOf("attendees", attendees), FailOf("date", date),
                         FailOf("series", series), FailOf("series_id", seriesId);
    var errors := t + a + d + s + i;
    FieldsOf(t, a, d, s, i);
    assert title.Fail? <==> ("title", [TitleMessage]) in errors by {
      assert ("title", [TitleMessage]) in t <==> title.Fail?;
    }
    assert attendees.Fail? <==> ("attendees", [AttendeesMessage]) in errors by {
      assert ("attendees", [AttendeesMessage]) in a <==> attendees.Fail?;
    }
    assert seriesId.Fail? <==> ("series_id", [SeriesIdMessage]) in errors by {
      assert ("series_id", [SeriesIdMessage]) in i <==> seriesId.Fail?;
    }
  }

  /** The fields named in the concatenated error entries. */
  lemma FieldsOf(title: Errors, attendees: Errors, date: Errors, series: Errors, seriesId: Errors)
    requires |title| <= 1 && |attendees| <= 1 && |date| <= 1 && |series| <= 1 && |seriesId| <= 1
    requires forall e :: e in title ==> e.0 == "title"
    requires forall e :: e in attendees ==> e.0 == "attendees"
    requires forall e :: e in date ==> e.0 == "date"
    requires forall e :: e in series ==> e.0 == "series"
    requires forall e :: e in seriesId ==> e.0 == "series_id"
    ensures forall e :: e in title + attendees + date + series + seriesId ==>
      (e.0 == "title" ==> e in title) && (e.0 == "attendees" ==> e in attendees) && (e.0 == "series_id" ==> e in seriesId)
  {
    forall e | e in title + attendees + date + series + seriesId
      ensures (e.0 == "title" ==> e in title) && (e.0 == "attendees" ==> e in attendees) && (e.0 == "series_id" ==> e in seriesId)
    {
      assert |"title"| != |"attendees"| && |"title"| != |"date"| && |"title"| != |"series"| && |"title"| != |"series_id"|;
      assert |"attendees"| != |"date"| && |"attendees"| != |"series"| && "attendees"[0] != "series_id"[0];
      assert |"series_id"| != |"date"| && |"series_id"| != |"series"|;
    }
  }

  /** An accepted payload passed every check, and its changes are what the checks kept. */
  lemma Accepted(data: Json, mode: Mode)
    requires ValidateEventPayload(data, mode).Ok?
    ensures data.Obj?
    ensures !TitleCheck(data, mode).Fail? && !AttendeesCheck(data, mode).Fail? && !DateCheck(data, mode).Fail?
      && !SeriesCheck(data).Fail? && !SeriesIdCheck(data, mode).Fail?
    ensures ValidateEventPayload(data, mode).value ==
      EventChanges(Kept(TitleCheck(data, mode)), Kept(AttendeesCheck(data, mode)), Kept(DateCheck(data, mode)),
                   Kept(TextCheck(data, mode, "location", "TBD")), Kept(TextCheck(data, mode, "type", "general")),
                   Kept(SeriesCheck(data)), Kept(SeriesIdCheck(data, mode)))
  {
  }

  /** A created event always has a non-blank stripped title, a non-negative attendee count (0
      when none is given), a valid date (today when none is given), and "TBD" and "general" for a
      missing location and type. */
  lemma CreateDefaults(data: Json, today: Date)
    requires ValidDate(today)
    requires ValidateEventPayload(data, Create(today)).Ok?
    ensures var c := ValidateEventPayload(data, Create(today)).value;
      && c.title.Some? && c.title.value == Strip(Get(data, "title").s) && c.title.value != ""
      && c.attendees.Some? && c.attendees.value >= 0
      && (!Has(data, "attendees") ==> c.attendees == Some(0))
      && c.eventDate.Some? && ValidDate(c.eventDate.value)
      && (Get(data, "date").Null? ==> c.eventDate == Some(today))
      && (!Has(data, "location") ==> c.location == Some(Str("TBD")))
      && (!Has(data, "type") ==> c.eventType == Some(Str("general")))
  {
    Accepted(data, Create(today));
    CreateChecks(data, today);
    CreateDate(data, today);
  }

  lemma CreateDate(data: Json, today: Date)
    requires ValidDate(today)
    ensures var date := DateCheck(data, Create(today));
      !date.Fail? ==> date.Keep? && ValidDate(date.value) && (Get(data, "date").Null? ==> date.value == today)
  {
  }

  /** The checks of a create that pass keep a value, with the defaults for missing fields. */
  lemma CreateChecks(data: Json, today: Date)
    requires ValidDate(today)
    ensures var title := TitleCheck(data, Create(today));
      !title.Fail? ==> title.Keep? && title.value == Strip(Get(data, "title").s) && title.value != ""
    ensures var attendees := AttendeesCheck(data, Create(today));
      !attendees.Fail? ==> attendees.Keep? && attendees.value >= 0 && (!Has(data, "attendees") ==> attendees.value == 0)
    ensures !Has(data, "location") ==> TextCheck(data, Create(today), "location", "TBD") == Keep(Str("TBD"))
    ensures !Has(data, "type") ==> TextCheck(data, Create(today), "type", "general") == Keep(Str("general"))
  {
  }

  /** A date given as a string is the date it spells once stripped. */
  lemma DateMeaning(data: Json, mode: Mode)
    ensures ValidateEventPayload(data, mode).Ok? && Get(data, "date").Str? ==>
      ValidateEventPayload(data, mode).value.eventDate == ParseIsoDate(Strip(Get(data, "date").s))
  {
    if ValidateEventPayload(data, mode).Ok? && Get(data, "date").Str? {
      assert ValidateEventPayload(data, mode).value.eventDate == Kept(DateCheck(data, mode))
        && !DateCheck(data, mode).Fail?
      by {
        Accepted(data, mode);
      }
      DateKept(data, mode);
    }
  }

  /** The ISO form of any date is read back as that date. */
  lemma DateRoundTrip(data: Json, mode: Mode, d: Date)
    requires ValidDate(d)
    ensures Get(data, "date") == Str(FormatIso(d)) ==> DateCheck(data, mode) == Keep(d)
  {
    if Get(data, "date") == Str(FormatIso(d)) {
      assert Strip(FormatIso(d)) == FormatIso(d) && FormatIso(d) != [] by {
        IsoEdges(d);
        StripNoEdges(FormatIso(d));
      }
      ParseFormatRoundTrip(d);
      assert Has(data, "date");
    }
  }

  /** A date string that passes its check is the date it spells. */
  lemma DateKept(data: Json, mode: Mode)
    ensures Get(data, "date").Str? && !DateCheck(data, mode).Fail? && (Has(data, "date") || mode.Create?) ==>
      Kept(DateCheck(data, mode)) == ParseIsoDate(Strip(Get(data, "date").s))
  {
  }

  /** An ISO date starts and ends with a digit. */
  lemma IsoEdges(d: Date)
    requires ValidDate(d)
    ensures var s := FormatIso(d); s != [] && !IsSpace(s[0]) && !IsSpace(s[|s| - 1])
  {
    Pad4Digits(d.year);
  }

  /** A series id is never negative; `None` unassigns the series (id 0) on update and leaves it
      alone on create. A series name is never blank. */
  lemma SeriesMeaning(data: Json, mode: Mode)
    requires ValidateEventPayload(data, mode).Ok?
    ensures var c := ValidateEventPayload(data, mode).value;
      && (c.seriesId.Some? ==> c.seriesId.value >= 0)
      && (c.seriesName.Some? ==> Clean(c.seriesName.value))
      && (Has(data, "series_id") && Get(data, "series_id").Null? ==> c.seriesId == (if mode.Update? then Some(0) else None))
  {
    Accepted(data, mode);
    SeriesChecks(data, mode);
  }

  lemma SeriesChecks(data: Json, mode: Mode)
    ensures SeriesIdCheck(data, mode).Keep? ==> SeriesIdCheck(data, mode).value >= 0
    ensures SeriesCheck(data).Keep? ==> Clean(SeriesCheck(data).value)
    ensures Has(data, "series_id") && Get(data, "series_id").Null? ==>
      SeriesIdCheck(data, mode) == (if mode.Update? then Keep(0) else Absent)
  {
    var series := SeriesCheck(data);
    if series.Keep? {
      var s := Get(data, "series");
      if s.Obj? {
        CleanStrip(Get(s, "name").s);
      } else {
        CleanStrip(s.s);
      }
    }
  }

  /** A text that is not blank once stripped: non-empty, no whitespace at either end. */
  predicate Clean(x: string) {
    x != "" && !IsSpace(x[0]) && !IsSpace(x[|x| - 1])
  }

  lemma CleanStrip(x: string)
    requires Strip(x) != ""
    ensures Clean(Strip(x))
  {
  }

  // ---------------------------------------------------------------- update_event

  /** The clean payload writes nothing. */
  predicate NoChanges(c: EventChanges) {
    c.title.None? && c.attendees.None? && c.eventDate.None? && c.location.None? && c.eventType.None?
    && c.seriesName.None? && c.seriesId.None?
  }

  /** Why an update fails: the payload is invalid, or there is no such event. */
  datatype UpdateError = Invalid(errors: Errors) | EventNotFound

  /** What `update_event` does: nothing but read the event back when the clean payload is
      empty, otherwise write the changes. */
  datatype UpdatePlan = Unchanged | Write(changes: EventChanges)

  /** `update_event(event_id, payload)` up to its writes: the payload is validated before the
      event is looked up, and an empty clean payload returns the event as it is. */
  function UpdateEvent(eventExists: bool, data: Json): Result<UpdatePlan, UpdateError> {
    match ValidateEventPayload(data, Update)
    case Err(errors) => Err(Invalid(errors))
    case Ok(changes) =>
      if !eventExists then Err(EventNotFound)
      else if NoChanges(changes) then Ok(Unchanged)
      else Ok(Write(changes))
  }

  /** A dict payload with none of the event's fields leaves the event as it is; a write always
      changes at least one column; an invalid payload is refused even for a missing event. */
  lemma UpdateShortcut(eventExists: bool, data: Json)
    ensures (data.Obj? && eventExists && !Has(data, "title") && !Has(data, "attendees") && !Has(data, "date")
             && !Has(data, "location") && !Has(data, "type") && !Has(data, "series") && !Has(data, "series_id")) ==>
      UpdateEvent(eventExists, data) == Ok(Unchanged)
    ensures UpdateEvent(eventExists, data).Ok? && UpdateEvent(eventExists, data).value.Write? ==>
      !NoChanges(UpdateEvent(eventExists, data).value.changes)
    ensures ValidateEventPayload(data, Update).Err? ==>
      UpdateEvent(eventExists, data) == Err(Invalid(ValidateEventPayload(data, Update).error))
  {
  }

  // ---------------------------------------------------------------- list filters

  /** `_normalize_filter_value(value)`: a string is stripped and a blank one becomes `None`;
      anything else is returned as it is. */
  function NormalizeFilterValue(value: Json): (r: Json)
    ensures !value.Str? ==> r == value
    ensures value.Str? ==> (r.Null? <==> AllSpace(value.s))
    ensures r.Str? ==> Clean(r.s)
  {
    if !value.Str? then value
    else if Strip(value.s) == "" then Null
    else Str(Strip(value.s))
  }

  /** Normalising twice is normalising once. */
  lemma NormalizeIdempotent(value: Json)
    ensures NormalizeFilterValue(NormalizeFilterValue(value)) == NormalizeFilterValue(value)
  {
    if value.Str? {
      StripIdempotent(value.s);
    }
  }

  /** `_parse_filter_date(value, field)`: `None` stays `None`; anything else must be a non-blank
      string that parses as `YYYY-MM-DD` once stripped, or the filter is refused under `field`. */
  function ParseFilterDate(value: Json, field: string): (r: Result<Option<Date>, Errors>)
    ensures r.Err? ==> r.error == [(field, [FilterDateMessage])]
    ensures r.Ok? && r.value.Some? ==> ValidDate(r.value.value)
    ensures value.Null? <==> r == Ok(None)
  {
    if value.Null? then Ok(None)
    else if !value.Str? || Strip(value.s) == "" then Err([(field, [FilterDateMessage])])
    else
      match ParseIsoDate(Strip(value.s))
      case None => Err([(field, [FilterDateMessage])])
      case Some(d) => Ok(Some(d))
  }

  /** As `list_events` chains them: a blank filter is dropped, and the ISO form of a date,
      with any surrounding whitespace, filters on that date. */
  lemma FilterDateRoundTrip(d: Date, before: string, after: string, field: string)
    requires ValidDate(d) && AllSpace(before) && AllSpace(after)
    ensures ParseFilterDate(NormalizeFilterValue(Str(before)), field) == Ok(None)
    ensures ParseFilterDate(NormalizeFilterValue(Str(before + FormatIso(d) + after)), field) == Ok(Some(d))
  {
    var iso := FormatIso(d);
    assert Strip(before + iso + after) == iso && Strip(iso) == iso && iso != "" by {
      IsoEdges(d);
      StripPadded(before, iso, after);
      StripNoEdges(iso);
    }
    var v := NormalizeFilterValue(Str(before + iso + after));
    assert v == Str(iso);
    assert ParseIsoDate(Strip(v.s)) == Some(d) by {
      ParseFormatRoundTrip(d);
    }
  }
}
