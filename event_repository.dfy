/** The event repository's in-place changes to a loaded event: the upsert and removal of a
    translation with the bookkeeping of the fallback locale, the attribute update, and the
    status change with its approval log entry. */
module EventRepository {
  import opened Wrappers
  import opened Text
  import opened JsonValue

  /** One `EventTranslation` row of an event. */
  datatype Translation = Translation(locale: string, title: string, description: Option<string>)

  /** One `EventApprovalLog` row of an event. */
  datatype ApprovalLog = ApprovalLog(previousStatus: Option<string>, newStatus: string, actor: Option<string>,
                                     notes: Option<string>)

  // ---------------------------------------------------------------- translations

  /** The event's translations have one locale each, as the `(event_id, locale)` unique
      constraint of the translation table demands. */
  predicate UniqueLocales(ts: seq<Translation>) {
    forall i, j :: 0 <= i < j < |ts| ==> ts[i].locale != ts[j].locale
  }

  /** `next((t for t in event.translations if t.locale == locale), None)`, as a position: the
      first translation with that locale, if any. */
  function FindLocale(ts: seq<Translation>, locale: string): (r: Option<nat>)
    ensures r.Some? ==> r.value < |ts| && ts[r.value].locale == locale
    ensures r.Some? ==> forall j :: 0 <= j < r.value ==> ts[j].locale != locale
    ensures r.None? <==> forall j :: 0 <= j < |ts| ==> ts[j].locale != locale
  {
    if ts == [] then None
    else if ts[0].locale == locale then Some(0)
    else
      match FindLocale(ts[1..], locale)
      case None => None
      case Some(i) => Some(i + 1)
  }

  /** The translations after an upsert: the locale's translation overwritten in place, or a new
      one appended. */
  function Upserted(ts: seq<Translation>, locale: string, title: string, description: Option<string>): seq<Translation> {
    match FindLocale(ts, locale)
    case None => ts + [Translation(locale, title, description)]
    case Some(i) => ts[i := Translation(locale, title, description)]
  }

  /** A scan that stops at the first translation with the locale, or at the end, stops where
      `FindLocale` points. */
  lemma FoundAt(ts: seq<Translation>, locale: string, i: nat)
    requires i <= |ts| && (i == |ts| || ts[i].locale == locale)
    requires forall j :: 0 <= j < i ==> ts[j].locale != locale
    ensures FindLocale(ts, locale) == if i == |ts| then None else Some(i)
  {
  }

  /** The translations after a removal: the locale's translation taken out. */
  function Removed(ts: seq<Translation>, locale: string): seq<Translation> {
    match FindLocale(ts, locale)
    case None => ts
    case Some(i) => ts[..i] + ts[i + 1..]
  }

  /** After an upsert the locale has exactly one translation, the new title and description;
      every other translation is kept in its place and no other is added; one locale per
      translation is preserved. */
  lemma UpsertedMeaning(ts: seq<Translation>, locale: string, title: string, description: Option<string>)
    requires UniqueLocales(ts)
    ensures var r := Upserted(ts, locale, title, description);
      && UniqueLocales(r)
      && FindLocale(r, locale).Some? && r[FindLocale(r, locale).value] == Translation(locale, title, description)
      && (forall t :: t in r && t.locale == locale ==> t == Translation(locale, title, description))
      && (forall t :: t in ts && t.locale != locale ==> t in r)
      && (forall t :: t in r && t.locale != locale ==> t in ts)
      && |r| == |ts| + (if FindLocale(ts, locale).None? then 1 else 0)
  {
    var r := Upserted(ts, locale, title, description);
    var n := Translation(locale, title, description);
    match FindLocale(ts, locale)
    case None =>
      assert r[|ts|] == n;
    case Some(i) =>
      forall t | t in ts && t.locale != locale ensures t in r {
        var j :| 0 <= j < |ts| && ts[j] == t;
        assert r[j] == t;
      }
      assert r[i] == n;
  }

  /** Upserting the same translation twice is upserting it once. */
  lemma UpsertIdempotent(ts: seq<Translation>, locale: string, title: string, description: Option<string>)
    ensures Upserted(Upserted(ts, locale, title, description), locale, title, description)
         == Upserted(ts, locale, title, description)
  {
    var once := Upserted(ts, locale, title, description);
    match FindLocale(ts, locale)
    case None =>
      assert once[|ts|].locale == locale;
      var k := FindLocale(once, locale).value;
      assert once[k] == Translation(locale, title, description);
    case Some(i) =>
      assert FindLocale(once, locale) == Some(i) by {
        assert once[i].locale == locale;
        assert forall j :: 0 <= j < i ==> once[j] == ts[j];
      }
  }

  /** A removal takes out exactly the locale's translation, keeps the others in order and
      leaves no translation with that locale behind. */
  lemma RemovedMeaning(ts: seq<Translation>, locale: string)
    requires UniqueLocales(ts)
    requires FindLocale(ts, locale).Some?
    ensures var r := Removed(ts, locale);
      && UniqueLocales(r)
      && |r| == |ts| - 1
      && (forall t :: t in r ==> t.locale != locale)
      && (forall t :: t in ts && t.locale != locale <==> t in r)
  {
    var i := FindLocale(ts, locale).value;
    var r := Removed(ts, locale);
    assert r == ts[..i] + ts[i + 1..];
    SpliceIndices(ts, i, r);
    RemovedUnique(ts, i, r);
    RemovedOthers(ts, i, r, locale);
  }

  /** Cutting one translation out keeps the locales distinct. */
  lemma RemovedUnique(ts: seq<Translation>, i: nat, r: seq<Translation>)
    requires UniqueLocales(ts) && i < |ts| && |r| == |ts| - 1
    requires forall j :: 0 <= j < |r| ==> r[j] == ts[if j < i then j else j + 1]
    ensures UniqueLocales(r)
  {
    forall a, b | 0 <= a < b < |r| ensures r[a].locale != r[b].locale {
      assert r[a] == ts[if a < i then a else a + 1];
      assert r[b] == ts[if b < i then b else b + 1];
    }
  }

  /** Cutting out the one translation with `locale` leaves exactly the others. */
  lemma RemovedOthers(ts: seq<Translation>, i: nat, r: seq<Translation>, locale: string)
    requires UniqueLocales(ts) && i < |ts| && ts[i].locale == locale && |r| == |ts| - 1
    requires forall j :: 0 <= j < |r| ==> r[j] == ts[if j < i then j else j + 1]
    ensures forall t :: t in r ==> t.locale != locale
    ensures forall t :: t in ts && t.locale != locale <==> t in r
  {
    forall t | t in r ensures t in ts && t.locale != locale {
      var j :| 0 <= j < |r| && r[j] == t;
      assert t == ts[if j < i then j else j + 1];
    }
    forall t | t in ts && t.locale != locale ensures t in r {
      var j :| 0 <= j < |ts| && ts[j] == t;
      assert r[if j < i then j else j - 1] == t;
    }
  }

  /** Where each element of a sequence with position `i` cut out comes from. */
  lemma SpliceIndices<T>(s: seq<T>, i: nat, r: seq<T>)
    requires i < |s| && r == s[..i] + s[i + 1..]
    ensures |r| == |s| - 1
    ensures forall j :: 0 <= j < |r| ==> r[j] == s[if j < i then j else j + 1]
  {
  }

  /** Adding a translation for a new locale and removing it again gives back the translations
      the event had. */
  lemma RemoveUndoesInsert(ts: seq<Translation>, locale: string, title: string, description: Option<string>)
    requires FindLocale(ts, locale).None?
    ensures Removed(Upserted(ts, locale, title, description), locale) == ts
  {
    var r := Upserted(ts, locale, title, description);
    assert r[|ts|].locale == locale;
    assert FindLocale(r, locale) == Some(|ts|);
    assert r[..|ts|] == ts;
  }

  // ---------------------------------------------------------------- attribute updates

  /** The columns after `setattr(event, key, value)` for each update in turn. */
  function Applied(columns: map<string, Json>, updates: seq<(string, Json)>): map<string, Json> {
    if updates == [] then columns
    else
      var n := |updates| - 1;
      Applied(columns, updates[..n])[updates[n].0 := updates[n].1]
  }

  /** `update_event` sets exactly the given keys: each to its last value in the updates, every
      other column keeps its value, and no column is dropped or added besides the given keys. */
  lemma {:induction false} AppliedMeaning(columns: map<string, Json>, updates: seq<(string, Json)>)
    ensures forall i :: 0 <= i < |updates| && (forall j :: i < j < |updates| ==> updates[j].0 != updates[i].0) ==>
      updates[i].0 in Applied(columns, updates) && Applied(columns, updates)[updates[i].0] == updates[i].1
    ensures forall k :: (forall i :: 0 <= i < |updates| ==> updates[i].0 != k) ==>
      (k in Applied(columns, updates) <==> k in columns)
      && (k in columns ==> Applied(columns, updates)[k] == columns[k])
    ensures forall k :: k in Applied(columns, updates) <==> k in columns || exists i :: 0 <= i < |updates| && updates[i].0 == k
  {
    AppliedLastAll(columns, updates);
    AppliedUntouchedAll(columns, updates);
    AppliedKeysAll(columns, updates);
  }

  lemma AppliedLastAll(columns: map<string, Json>, updates: seq<(string, Json)>)
    ensures forall i :: 0 <= i < |updates| && (forall j :: i < j < |updates| ==> updates[j].0 != updates[i].0) ==>
      updates[i].0 in Applied(columns, updates) && Applied(columns, updates)[updates[i].0] == updates[i].1
  {
    forall i | 0 <= i < |updates| && (forall j :: i < j < |updates| ==> updates[j].0 != updates[i].0)
      ensures updates[i].0 in Applied(columns, updates) && Applied(columns, updates)[updates[i].0] == updates[i].1
    {
      AppliedLast(columns, updates, i);
    }
  }

  lemma AppliedUntouchedAll(columns: map<string, Json>, updates: seq<(string, Json)>)
    ensures forall k :: (forall i :: 0 <= i < |updates| ==> updates[i].0 != k) ==>
      (k in Applied(columns, updates) <==> k in columns)
      && (k in columns ==> Applied(columns, updates)[k] == columns[k])
  {
    forall k | forall i :: 0 <= i < |updates| ==> updates[i].0 != k
      ensures (k in Applied(columns, updates) <==> k in columns)
        && (k in columns ==> Applied(columns, updates)[k] == columns[k])
    {
      AppliedUntouched(columns, updates, k);
    }
  }

  lemma AppliedKeysAll(columns: map<string, Json>, updates: seq<(string, Json)>)
    ensures forall k :: k in Applied(columns, updates) <==> k in columns || exists i :: 0 <= i < |updates| && updates[i].0 == k
  {
    forall k ensures k in Applied(columns, updates) <==> k in columns || exists i :: 0 <= i < |updates| && updates[i].0 == k {
      AppliedKeys(columns, updates, k);
    }
  }

  /** The last update of a key decides its value. */
  lemma {:induction false} AppliedLast(columns: map<string, Json>, updates: seq<(string, Json)>, i: nat)
    requires i < |updates| && forall j :: i < j < |updates| ==> updates[j].0 != updates[i].0
    ensures updates[i].0 in Applied(columns, updates) && Applied(columns, updates)[updates[i].0] == updates[i].1
  {
    var n := |updates| - 1;
    if i < n {
      var front := updates[..n];
      assert front[i] == updates[i];
      assert forall j :: i < j < n ==> front[j] == updates[j];
      AppliedLast(columns, front, i);
    }
  }

  /** A key no update names keeps its column, or its absence. */
  lemma {:induction false} AppliedUntouched(columns: map<string, Json>, updates: seq<(string, Json)>, k: string)
    requires forall i :: 0 <= i < |updates| ==> updates[i].0 != k
    ensures k in Applied(columns, updates) <==> k in columns
    ensures k in columns ==> Applied(columns, updates)[k] == columns[k]
  {
    if updates != [] {
      var n := |updates| - 1;
      var front := updates[..n];
      assert forall i :: 0 <= i < n ==> front[i] == updates[i];
      AppliedUntouched(columns, front, k);
    }
  }

  /** The keys after the updates: the columns' and the updated ones. */
  lemma {:induction false} AppliedKeys(columns: map<string, Json>, updates: seq<(string, Json)>, k: string)
    ensures k in Applied(columns, updates) <==> k in columns || exists i :: 0 <= i < |updates| && updates[i].0 == k
  {
    if updates != [] {
      var n := |updates| - 1;
      var front := updates[..n];
      assert forall i :: 0 <= i < n ==> front[i] == updates[i];
      AppliedKeys(columns, front, k);
      if k == updates[n].0 {
        assert updates[n].0 == k;
      } else if k !in columns && k in Applied(columns, front) {
        var i :| 0 <= i < n && front[i].0 == k;
        assert updates[i].0 == k;
      }
    }
  }

  // ---------------------------------------------------------------- the event

  /** A loaded event: its scalar columns by name (`status` and `fallback_locale` among them),
      its translations and its approval log. */
  class Event {
    const id: int
    var columns: map<string, Json>
    var translations: seq<Translation>
    var approvalLogs: seq<ApprovalLog>

    /** `event.fallback_locale`. */
    function FallbackLocale(): Json
      reads this
    {
      if "fallback_locale" in columns then columns["fallback_locale"] else Null
    }

    predicate Valid()
      reads this
    {
      UniqueLocales(translations)
    }

    /** A row loaded from the database: its translations already have distinct locales. */
    constructor(id: int, columns: map<string, Json>, translations: seq<Translation>)
      requires UniqueLocales(translations)
      ensures Valid()
      ensures this.id == id && this.columns == columns && this.translations == translations
      ensures approvalLogs == []
    {
      this.id := id;
      this.columns := columns;
      this.translations := translations;
      approvalLogs := [];
    }

    /** `upsert_translation(event, locale=…, title=…, description=…, fallback=…)`: overwrite or
        add the locale's translation; `fallback` True makes the locale the fallback, False stops
        it being the fallback if it was, `None` leaves the fallback alone. */
    method UpsertTranslation(locale: string, title: string, description: Option<string>, fallback: Option<bool>)
      returns (t: Translation)
      requires Valid()
      modifies this
      ensures t == Translation(locale, title, description)
      ensures translations == Upserted(old(translations), locale, title, description)
      ensures fallback == Some(true) ==> columns == old(columns)["fallback_locale" := Str(locale)]
      ensures fallback == Some(false) && old(FallbackLocale()) == Str(locale) ==>
        columns == old(columns)["fallback_locale" := Null]
      ensures fallback.None? || (fallback == Some(false) && old(FallbackLocale()) != Str(locale)) ==>
        columns == old(columns)
      ensures approvalLogs == old(approvalLogs)
      ensures Valid()
    {
      var fb := FallbackLocale();
      var i := 0;
      while i < |translations| && translations[i].locale != locale
        invariant i <= |translations|
        invariant forall j :: 0 <= j < i ==> translations[j].locale != locale
      {
        i := i + 1;
      }
      var ts := translations;
      FoundAt(ts, locale, i);
      t := Translation(locale, title, description);
      if i == |translations| {
        translations := translations + [t];
      } else {
        translations := translations[i := t];
      }
      assert translations == Upserted(ts, locale, title, description);
      assert UniqueLocales(translations) by {
        UpsertedMeaning(ts, locale, title, description);
      }
      if fallback == Some(true) {
        columns := columns["fallback_locale" := Str(locale)];
      } else if fallback == Some(false) && fb == Str(locale) {
        columns := columns["fallback_locale" := Null];
      }
    }

    /** `remove_translation(event, locale)`: a `LookupError` for a locale without a translation,
        leaving the event as it was; otherwise the translation goes, and so does the fallback
        locale if it was that locale. */
    method RemoveTranslation(locale: string) returns (r: Result<(), string>)
      requires Valid()
      modifies this
      ensures r.Err? <==> FindLocale(old(translations), locale).None?
      ensures r.Err? ==>
        && r.error == "Translation " + locale + " not found for event " + IntToString(id)
        && translations == old(translations) && columns == old(columns)
      ensures r.Ok? ==> translations == Removed(old(translations), locale)
      ensures r.Ok? && old(FallbackLocale()) == Str(locale) ==> columns == old(columns)["fallback_locale" := Null]
      ensures r.Ok? && old(FallbackLocale()) != Str(locale) ==> columns == old(columns)
      ensures approvalLogs == old(approvalLogs)
      ensures Valid()
    {
      var i := 0;
      while i < |translations| && translations[i].locale != locale
        invariant i <= |translations|
        invariant forall j :: 0 <= j < i ==> translations[j].locale != locale
      {
        i := i + 1;
      }
      if i == |translations| {
        return Err("Translation " + locale + " not found for event " + IntToString(id));
      }
      assert FindLocale(translations, locale) == Some(i);
      RemovedMeaning(translations, locale);
      translations := translations[..i] + translations[i + 1..];
      if FallbackLocale() == Str(locale) {
        columns := columns["fallback_locale" := Null];
      }
      return Ok(());
    }

    /** `update_event(event, updates)`: `setattr` for each update in turn. */
    method UpdateEvent(updates: seq<(string, Json)>)
      requires Valid()
      modifies this
      ensures columns == Applied(old(columns), updates)
      ensures translations == old(translations) && approvalLogs == old(approvalLogs)
      ensures Valid()
    {
      for k := 0 to |updates|
        invariant columns == Applied(old(columns), updates[..k])
        invariant translations == old(translations) && approvalLogs == old(approvalLogs)
      {
        assert updates[..k + 1][..k] == updates[..k];
        columns := columns[updates[k].0 := updates[k].1];
      }
      assert updates[..|updates|] == updates;
    }

    /** `log_status_change(event, previous_status=…, new_status=…, actor=…, notes=…)`: one log
        entry recording the change, and the event's status set to the new one. */
    method LogStatusChange(previousStatus: Option<string>, newStatus: string, actor: Option<string>,
                           notes: Option<string>)
      returns (log: ApprovalLog)
      requires Valid()
      modifies this
      ensures log == ApprovalLog(previousStatus, newStatus, actor, notes)
      ensures approvalLogs == old(approvalLogs) + [log]
      ensures columns == old(columns)["status" := Str(newStatus)]
      ensures translations == old(translations)
      ensures Valid()
    {
      log := ApprovalLog(previousStatus, newStatus, actor, notes);
      approvalLogs := approvalLogs + [log];
      columns := columns["status" := Str(newStatus)];
    }
  }
}
