/** The speaker, organiser and sponsor services: the validation of their payloads, the display
    order given to a new entry, and the update that changes nothing. */
module Participants {
  import opened Wrappers
  import opened Text
  import opened JsonValue
  import opened Validation

  const SchemaMessage: string := "Payload JSON invalide: un objet est requis."
  const SpeakerNameMessage: string := "Nom complet requis."
  const SponsorNameMessage: string := "Nom du sponsor requis."
  const RoleMessage: string := "Type d'intervenant invalide."
  const ValueMessage: string := "Valeur invalide."
  const TopicsMessage: string := "Th\U{e9}matiques invalides."
  const MetadataMessage: string := "M\U{e9}tadonn\U{e9}es invalides."
  const OrderMessage: string := "Ordre d'affichage invalide."

  /** `SpeakerService.ALLOWED_ROLES`. */
  const AllowedRoles: set<string> := {"speaker", "organizer"}

  /** The optional text fields of a speaker and of a sponsor, in the order they are checked. */
  const SpeakerFields: seq<string> := ["title", "company", "bio", "contact_email", "photo_url"]
  const SponsorFields: seq<string> := ["level", "description", "website", "logo_url", "contact_email"]

  // ---------------------------------------------------------------- the field checks

  /** The name, checked when present or required: a non-blank string, stored stripped under
      `key`; the error is reported under `name`. */
  function NameOutcome(data: Json, required: bool, key: string, message: string): Outcome {
    if !Has(data, "name") && !required then Skip
    else
      var name := Get(data, "name");
      if !name.Str? || Strip(name.s) == "" then Reject("name", message) else Store(key, Str(Strip(name.s)))
  }

  /** A present role is one of the allowed roles, stored as given. */
  function RoleOutcome(data: Json): Outcome {
    if !Has(data, "role") then Skip
    else
      var role := Get(data, "role");
      if role.Str? && role.s in AllowedRoles then Store("role", role) else Reject("role", RoleMessage)
  }

  /** A present optional text field is `None` or a string; a string with text is stripped. */
  function OptionalOutcome(data: Json, field: string): Outcome {
    if !Has(data, field) then Skip
    else
      var value := Get(data, field);
      if value.Null? || value.Str? then Store(field, StrippedOrKept(value)) else Reject(field, ValueMessage)
  }

  /** The checks of the optional text fields, one per field. */
  function OptionalOutcomes(data: Json, fields: seq<string>): (r: seq<Outcome>)
    ensures |r| == |fields|
  {
    seq(|fields|, i requires 0 <= i < |fields| => OptionalOutcome(data, fields[i]))
  }

  /** A present `topics` or `metadata` is `None` or a dict, stored as given. */
  function DictOutcome(data: Json, field: string, message: string): Outcome {
    if !Has(data, field) then Skip
    else
      var value := Get(data, field);
      if value.Null? || value.Obj? then Store(field, value) else Reject(field, message)
  }

  /** A present display order is an int (a bool is one) that is not negative, stored as given. */
  function OrderOutcome(data: Json): Outcome {
    if !Has(data, "display_order") then Skip
    else
      var order := Get(data, "display_order");
      if IsInt(order) && IntValue(order) >= 0 then Store("display_order", order) else Reject("display_order", OrderMessage)
  }

  /** The loop over the optional text fields shared by both validators: each present field is
      checked in turn, its cleaned value set in `clean` or its error added to `errors`. */
  method CheckOptionalFields(data: Json, fields: seq<string>, clean0: seq<(string, Json)>, errors0: Errors,
                             ghost done: seq<Outcome>)
    returns (clean: seq<(string, Json)>, errors: Errors)
    requires clean0 == Stored(done) && errors0 == Rejections(done)
    ensures clean == Stored(done + OptionalOutcomes(data, fields))
    ensures errors == Rejections(done + OptionalOutcomes(data, fields))
  {
    clean, errors := clean0, errors0;
    ghost var outcomes := OptionalOutcomes(data, fields);
    PrefixGrows(done, outcomes, 0);
    for k := 0 to |fields|
      invariant clean == Stored(done + outcomes[..k])
      invariant errors == Rejections(done + outcomes[..k])
    {
      var o := OptionalOutcome(data, fields[k]);
      assert o == outcomes[k];
      Snoc(done + outcomes[..k], o);
      clean, errors := StoreStep(clean, o), RejectStep(errors, o);
      PrefixGrows(done, outcomes, k + 1);
    }
    PrefixGrows(done, outcomes, |fields|);
  }

  /** `done` followed by the first `k` items of `s`, one more each step; all of `s` at the
      end. */
  lemma PrefixGrows<T>(done: seq<T>, s: seq<T>, k: nat)
    requires k <= |s|
    ensures k == 0 ==> done + s[..k] == done
    ensures k > 0 ==> done + s[..k] == done + s[..k - 1] + [s[k - 1]]
    ensures k == |s| ==> done + s[..k] == done + s
  {
    if k > 0 {
      assert s[..k] == s[..k - 1] + [s[k - 1]];
    }
  }

  // ---------------------------------------------------------------- SpeakerService._validate_payload

  /** The checks of the speaker validator, in its order. */
  function SpeakerOutcomes(data: Json, requireName: bool): seq<Outcome> {
    [NameOutcome(data, requireName, "full_name", SpeakerNameMessage)] + [RoleOutcome(data)]
    + OptionalOutcomes(data, SpeakerFields)
    + [DictOutcome(data, "topics", TopicsMessage)] + [DictOutcome(data, "metadata", MetadataMessage)] + [OrderOutcome(data)]
  }

  const SpeakerKeys: seq<string> := ["full_name"] + ["role"] + SpeakerFields + ["topics"] + ["metadata"] + ["display_order"]

  /** `SpeakerService._validate_payload(data, require_name=…)`: the clean dict filled check after
      check, the optional text fields in a loop. */
  method ValidateSpeakerPayload(data: Json, requireName: bool) returns (r: Result<Json, Errors>)
    ensures r == Validated(data, SpeakerOutcomes(data, requireName), SchemaMessage)
  {
    if !data.Obj? {
      return Err([("_schema", [SchemaMessage])]);
    }
    var clean: seq<(string, Json)> := [];
    var errors: Errors := [];
    ghost var done: seq<Outcome> := [];
    assert forall o :: done + [o] == [o];
    var o := NameOutcome(data, requireName, "full_name", SpeakerNameMessage);
    Snoc(done, o);
    clean, errors, done := StoreStep(clean, o), RejectStep(errors, o), done + [o];
    o := RoleOutcome(data);
    Snoc(done, o);
    clean, errors, done := StoreStep(clean, o), RejectStep(errors, o), done + [o];
    clean, errors := CheckOptionalFields(data, SpeakerFields, clean, errors, done);
    done := done + OptionalOutcomes(data, SpeakerFields);
    o := DictOutcome(data, "topics", TopicsMessage);
    Snoc(done, o);
    clean, errors, done := StoreStep(clean, o), RejectStep(errors, o), done + [o];
    o := DictOutcome(data, "metadata", MetadataMessage);
    Snoc(done, o);
    clean, errors, done := StoreStep(clean, o), RejectStep(errors, o), done + [o];
    o := OrderOutcome(data);
    Snoc(done, o);
    clean, errors, done := StoreStep(clean, o), RejectStep(errors, o), done + [o];
    assert done == SpeakerOutcomes(data, requireName);
    if errors != [] {
      return Err(errors);
    }
    return Ok(Obj(clean));
  }

  /** Every check of the speaker validator stores under its own key, and the keys differ. */
  lemma SpeakerKeyed(data: Json, requireName: bool)
    ensures KeyedBy(SpeakerOutcomes(data, requireName), SpeakerKeys) && Distinct(SpeakerKeys)
  {
    var keys := SpeakerKeys;
    forall i, j | 0 <= i < j < |keys| ensures keys[i] != keys[j] {
      assert |keys[i]| != |keys[j]| || keys[i][0] != keys[j][0];
    }
    OptionalKeyed(data, SpeakerFields);
    var name, role := NameOutcome(data, requireName, "full_name", SpeakerNameMessage), RoleOutcome(data);
    KeyedAppend([name], ["full_name"], [role], ["role"]);
    KeyedAppend([name] + [role], ["full_name"] + ["role"], OptionalOutcomes(data, SpeakerFields), SpeakerFields);
    var front, frontKeys := [name] + [role] + OptionalOutcomes(data, SpeakerFields), ["full_name"] + ["role"] + SpeakerFields;
    KeyedAppend(front, frontKeys, [DictOutcome(data, "topics", TopicsMessage)], ["topics"]);
    KeyedAppend(front + [DictOutcome(data, "topics", TopicsMessage)], frontKeys + ["topics"],
                [DictOutcome(data, "metadata", MetadataMessage)], ["metadata"]);
    KeyedAppend(front + [DictOutcome(data, "topics", TopicsMessage)] + [DictOutcome(data, "metadata", MetadataMessage)],
                frontKeys + ["topics"] + ["metadata"], [OrderOutcome(data)], ["display_order"]);
  }

  /** Each optional text field's check stores under that field. */
  lemma OptionalKeyed(data: Json, fields: seq<string>)
    ensures KeyedBy(OptionalOutcomes(data, fields), fields)
  {
  }

  /** An accepted speaker payload: a present or required name is a non-blank string, stored
      stripped as `full_name`; a present role is `speaker` or `organizer`; a present display
      order is an int that is not negative. A required name that is missing or blank is always
      reported. */
  lemma SpeakerMeaning(data: Json, requireName: bool)
    ensures var r := Validated(data, SpeakerOutcomes(data, requireName), SchemaMessage);
      r.Ok? && (requireName || Has(data, "name")) ==>
        && Get(data, "name").Str? && Strip(Get(data, "name").s) != ""
        && Lookup(r.value.fields, "full_name") == Str(Strip(Get(data, "name").s))
    ensures var r := Validated(data, SpeakerOutcomes(data, requireName), SchemaMessage);
      r.Ok? && Has(data, "role") ==>
        && Lookup(r.value.fields, "role") == Get(data, "role")
        && Get(data, "role").Str? && Get(data, "role").s in AllowedRoles
    ensures var r := Validated(data, SpeakerOutcomes(data, requireName), SchemaMessage);
      r.Ok? && Has(data, "display_order") ==>
        && Lookup(r.value.fields, "display_order") == Get(data, "display_order")
        && IsInt(Get(data, "display_order")) && IntValue(Get(data, "display_order")) >= 0
    ensures var r := Validated(data, SpeakerOutcomes(data, requireName), SchemaMessage);
      data.Obj? && requireName && !(Get(data, "name").Str? && Strip(Get(data, "name").s) != "") ==>
        r.Err? && ("name", [SpeakerNameMessage]) in r.error
  {
    var outcomes := SpeakerOutcomes(data, requireName);
    assert outcomes[0] == NameOutcome(data, requireName, "full_name", SpeakerNameMessage);
    assert outcomes[1] == RoleOutcome(data) && outcomes[9] == OrderOutcome(data);
    if Validated(data, outcomes, SchemaMessage).Ok? {
      SpeakerKeyed(data, requireName);
      if requireName || Has(data, "name") {
        StoredKeyed(outcomes, SpeakerKeys, 0);
      }
      if Has(data, "role") {
        StoredKeyed(outcomes, SpeakerKeys, 1);
      }
      if Has(data, "display_order") {
        StoredKeyed(outcomes, SpeakerKeys, 9);
      }
    }
  }

  /** An accepted speaker payload holds each present optional text field as `None` or a string,
      stripped when it has text, and each present `topics` or `metadata` as `None` or a dict. */
  lemma SpeakerOptionalMeaning(data: Json, requireName: bool, field: string)
    requires field in SpeakerFields + ["topics", "metadata"]
    requires Validated(data, SpeakerOutcomes(data, requireName), SchemaMessage).Ok? && Has(data, field)
    ensures var clean := Validated(data, SpeakerOutcomes(data, requireName), SchemaMessage).value.fields;
      field in SpeakerFields ==>
        (Get(data, field).Null? || Get(data, field).Str?) && Lookup(clean, field) == StrippedOrKept(Get(data, field))
    ensures var clean := Validated(data, SpeakerOutcomes(data, requireName), SchemaMessage).value.fields;
      field !in SpeakerFields ==>
        (Get(data, field).Null? || Get(data, field).Obj?) && Lookup(clean, field) == Get(data, field)
  {
    var outcomes := SpeakerOutcomes(data, requireName);
    SpeakerKeyed(data, requireName);
    var i :| 0 <= i < 7 && (SpeakerFields + ["topics", "metadata"])[i] == field;
    assert SpeakerKeys[2 + i] == field;
    if i < 5 {
      assert outcomes[2 + i] == OptionalOutcome(data, field);
    } else if i == 5 {
      assert outcomes[7] == DictOutcome(data, "topics", TopicsMessage);
    } else {
      assert outcomes[8] == DictOutcome(data, "metadata", MetadataMessage);
    }
    StoredKeyed(outcomes, SpeakerKeys, 2 + i);
  }

  // ---------------------------------------------------------------- SponsorService._validate_payload

  /** The checks of the sponsor validator, in its order. */
  function SponsorOutcomes(data: Json, partial: bool): seq<Outcome> {
    [NameOutcome(data, !partial, "name", SponsorNameMessage)]
    + OptionalOutcomes(data, SponsorFields)
    + [DictOutcome(data, "metadata", MetadataMessage)] + [OrderOutcome(data)]
  }

  const SponsorKeys: seq<string> := ["name"] + SponsorFields + ["metadata"] + ["display_order"]

  /** `SponsorService._validate_payload(data, partial=…)`: the clean dict filled check after
      check, the optional text fields in a loop. */
  method ValidateSponsorPayload(data: Json, partial: bool) returns (r: Result<Json, Errors>)
    ensures r == Validated(data, SponsorOutcomes(data, partial), SchemaMessage)
  {
    if !data.Obj? {
      return Err([("_schema", [SchemaMessage])]);
    }
    var clean: seq<(string, Json)> := [];
    var errors: Errors := [];
    ghost var done: seq<Outcome> := [];
    assert forall o :: done + [o] == [o];
    var o := NameOutcome(data, !partial, "name", SponsorNameMessage);
    Snoc(done, o);
    clean, errors, done := StoreStep(clean, o), RejectStep(errors, o), done + [o];
    clean, errors := CheckOptionalFields(data, SponsorFields, clean, errors, done);
    done := done + OptionalOutcomes(data, SponsorFields);
    o := DictOutcome(data, "metadata", MetadataMessage);
    Snoc(done, o);
    clean, errors, done := StoreStep(clean, o), RejectStep(errors, o), done + [o];
    o := OrderOutcome(data);
    Snoc(done, o);
    clean, errors, done := StoreStep(clean, o), RejectStep(errors, o), done + [o];
    assert done == SponsorOutcomes(data, partial);
    if errors != [] {
      return Err(errors);
    }
    return Ok(Obj(clean));
  }

  /** Every check of the sponsor validator stores under its own key, and the keys differ. */
  lemma SponsorKeyed(data: Json, partial: bool)
    ensures KeyedBy(SponsorOutcomes(data, partial), SponsorKeys) && Distinct(SponsorKeys)
  {
    var keys := SponsorKeys;
    forall i, j | 0 <= i < j < |keys| ensures keys[i] != keys[j] {
      assert |keys[i]| != |keys[j]| || keys[i][0] != keys[j][0];
    }
    OptionalKeyed(data, SponsorFields);
    var name := NameOutcome(data, !partial, "name", SponsorNameMessage);
    KeyedAppend([name], ["name"], OptionalOutcomes(data, SponsorFields), SponsorFields);
    var front, frontKeys := [name] + OptionalOutcomes(data, SponsorFields), ["name"] + SponsorFields;
    KeyedAppend(front, frontKeys, [DictOutcome(data, "metadata", MetadataMessage)], ["metadata"]);
    KeyedAppend(front + [DictOutcome(data, "metadata", MetadataMessage)], frontKeys + ["metadata"],
                [OrderOutcome(data)], ["display_order"]);
  }

  /** An accepted sponsor payload: a present name, or any name when not partial, is a non-blank
      string stored stripped; a present display order is an int that is not negative; each
      present optional text field is `None` or a string, stripped when it has text. A missing or
      blank name on a full payload is always reported. */
  lemma SponsorMeaning(data: Json, partial: bool)
    ensures var r := Validated(data, SponsorOutcomes(data, partial), SchemaMessage);
      r.Ok? && (!partial || Has(data, "name")) ==>
        && Get(data, "name").Str? && Strip(Get(data, "name").s) != ""
        && Lookup(r.value.fields, "name") == Str(Strip(Get(data, "name").s))
    ensures var r := Validated(data, SponsorOutcomes(data, partial), SchemaMessage);
      r.Ok? && Has(data, "display_order") ==>
        && Lookup(r.value.fields, "display_order") == Get(data, "display_order")
        && IsInt(Get(data, "display_order")) && IntValue(Get(data, "display_order")) >= 0
    ensures var r := Validated(data, SponsorOutcomes(data, partial), SchemaMessage);
      data.Obj? && !partial && !(Get(data, "name").Str? && Strip(Get(data, "name").s) != "") ==>
        r.Err? && ("name", [SponsorNameMessage]) in r.error
  {
    var outcomes := SponsorOutcomes(data, partial);
    assert outcomes[0] == NameOutcome(data, !partial, "name", SponsorNameMessage);
    assert outcomes[7] == OrderOutcome(data);
    if Validated(data, outcomes, SchemaMessage).Ok? {
      SponsorKeyed(data, partial);
      if !partial || Has(data, "name") {
        StoredKeyed(outcomes, SponsorKeys, 0);
      }
      if Has(data, "display_order") {
        StoredKeyed(outcomes, SponsorKeys, 7);
      }
    }
  }

  /** An accepted sponsor payload holds each present optional text field as `None` or a string,
      stripped when it has text, and a present `metadata` as `None` or a dict. */
  lemma SponsorOptionalMeaning(data: Json, partial: bool, field: string)
    requires field in SponsorFields + ["metadata"]
    requires Validated(data, SponsorOutcomes(data, partial), SchemaMessage).Ok? && Has(data, field)
    ensures var clean := Validated(data, SponsorOutcomes(data, partial), SchemaMessage).value.fields;
      field in SponsorFields ==>
        (Get(data, field).Null? || Get(data, field).Str?) && Lookup(clean, field) == StrippedOrKept(Get(data, field))
    ensures var clean := Validated(data, SponsorOutcomes(data, partial), SchemaMessage).value.fields;
      field !in SponsorFields ==>
        (Get(data, field).Null? || Get(data, field).Obj?) && Lookup(clean, field) == Get(data, field)
  {
    var outcomes := SponsorOutcomes(data, partial);
    SponsorKeyed(data, partial);
    var i :| 0 <= i < 6 && (SponsorFields + ["metadata"])[i] == field;
    assert SponsorKeys[1 + i] == field;
    if i < 5 {
      assert outcomes[1 + i] == OptionalOutcome(data, field);
    } else {
      assert outcomes[6] == DictOutcome(data, "metadata", MetadataMessage);
    }
    StoredKeyed(outcomes, SponsorKeys, 1 + i);
  }

  // ---------------------------------------------------------------- _next_display_order

  /** `max(orders)`. */
  function MaxOf(orders: seq<int>): int
    requires orders != []
  {
    if |orders| == 1 then orders[0]
    else
      var rest := MaxOf(orders[1..]);
      if orders[0] >= rest then orders[0] else rest
  }

  /** The largest order is one of the orders and no order exceeds it. */
  lemma {:induction false} MaxOfMeaning(orders: seq<int>)
    requires orders != []
    ensures MaxOf(orders) in orders
    ensures forall o :: o in orders ==> o <= MaxOf(orders)
  {
    if |orders| > 1 {
      MaxOfMeaning(orders[1..]);
      assert orders == [orders[0]] + orders[1..];
    }
  }

  /** `_next_display_order(event_id)` over the display orders of the event's entries: 0 when
      there are none, one past the largest otherwise. */
  function NextDisplayOrder(orders: seq<int>): int {
    if orders == [] then 0 else MaxOf(orders) + 1
  }

  /** The next display order comes after every existing one, is 0 for an event with no entries
      and otherwise directly follows one of the orders; it is never negative when the orders
      are not. */
  lemma NextDisplayOrderMeaning(orders: seq<int>)
    ensures forall o :: o in orders ==> NextDisplayOrder(orders) > o
    ensures orders == [] ==> NextDisplayOrder(orders) == 0
    ensures orders != [] ==> NextDisplayOrder(orders) - 1 in orders
    ensures (forall o :: o in orders ==> o >= 0) ==> NextDisplayOrder(orders) >= 0
  {
    if orders != [] {
      MaxOfMeaning(orders);
    }
  }

  // ---------------------------------------------------------------- add and update

  /** Why an add or an update is refused: the event or the entry is unknown (both raise the
      service's not-found error), or the payload is invalid. */
  datatype ParticipantError = NotFound | Invalid(errors: Errors)

  /** What an update does: nothing, or write the clean payload onto the entry. */
  datatype UpdatePlan = Unchanged | Write(changes: seq<(string, Json)>)

  /** `add_profile` / `add_sponsor`, up to the write: the event must exist, the payload must be
      valid, and a payload without a display order gets the next one after `orders`, the orders
      of the event's entries. */
  function Added(eventExists: bool, validated: Result<Json, Errors>, orders: seq<int>): Result<seq<(string, Json)>, ParticipantError>
    requires validated.Ok? ==> validated.value.Obj?
  {
    if !eventExists then Err(NotFound)
    else if validated.Err? then Err(Invalid(validated.error))
    else
      var clean := validated.value.fields;
      if Lookup(clean, "display_order").Null? then Ok(SetField(clean, "display_order", Int(NextDisplayOrder(orders))))
      else Ok(clean)
  }

  /** `update_profile` / `update_sponsor`, up to the write: the event, then the entry, must exist;
      then the payload must be valid, and an empty clean payload changes nothing. */
  function Updated(eventExists: bool, entryExists: bool, validated: Result<Json, Errors>): Result<UpdatePlan, ParticipantError>
    requires validated.Ok? ==> validated.value.Obj?
  {
    if !eventExists || !entryExists then Err(NotFound)
    else if validated.Err? then Err(Invalid(validated.error))
    else if validated.value.fields == [] then Ok(Unchanged)
    else Ok(Write(validated.value.fields))
  }

  function AddSpeaker(eventExists: bool, data: Json, orders: seq<int>): Result<seq<(string, Json)>, ParticipantError> {
    Added(eventExists, Validated(data, SpeakerOutcomes(data, true), SchemaMessage), orders)
  }

  function UpdateSpeaker(eventExists: bool, speakerExists: bool, data: Json): Result<UpdatePlan, ParticipantError> {
    Updated(eventExists, speakerExists, Validated(data, SpeakerOutcomes(data, false), SchemaMessage))
  }

  function AddSponsor(eventExists: bool, data: Json, orders: seq<int>): Result<seq<(string, Json)>, ParticipantError> {
    Added(eventExists, Validated(data, SponsorOutcomes(data, false), SchemaMessage), orders)
  }

  function UpdateSponsor(eventExists: bool, sponsorExists: bool, data: Json): Result<UpdatePlan, ParticipantError> {
    Updated(eventExists, sponsorExists, Validated(data, SponsorOutcomes(data, true), SchemaMessage))
  }

  /** A new entry always has a display order: the one given, or else one past every order the
      event already has. An unknown event is refused before the payload is looked at. */
  lemma AddedOrder(eventExists: bool, validated: Result<Json, Errors>, orders: seq<int>)
    requires validated.Ok? ==> validated.value.Obj?
    ensures !eventExists ==> Added(eventExists, validated, orders) == Err(NotFound)
    ensures eventExists && validated.Err? ==> Added(eventExists, validated, orders) == Err(Invalid(validated.error))
    ensures Added(eventExists, validated, orders).Ok? ==>
      var given := Lookup(validated.value.fields, "display_order");
      var order := Lookup(Added(eventExists, validated, orders).value, "display_order");
      && (!given.Null? ==> order == given)
      && (given.Null? ==> order.Int? && (forall o :: o in orders ==> order.i > o))
    ensures Added(eventExists, validated, orders).Ok? ==>
      forall k :: k != "display_order" ==>
        Lookup(Added(eventExists, validated, orders).value, k) == Lookup(validated.value.fields, k)
  {
    NextDisplayOrderMeaning(orders);
  }

  /** A speaker added without a display order comes after every speaker of the event. */
  lemma AddSpeakerOrder(eventExists: bool, data: Json, orders: seq<int>)
    ensures AddSpeaker(eventExists, data, orders).Ok? && !Has(data, "display_order") ==>
      var order := Lookup(AddSpeaker(eventExists, data, orders).value, "display_order");
      order.Int? && forall o :: o in orders ==> order.i > o
    ensures AddSpeaker(eventExists, data, orders).Ok? && Has(data, "display_order") ==>
      Lookup(AddSpeaker(eventExists, data, orders).value, "display_order") == Get(data, "display_order")
  {
    var validated := Validated(data, SpeakerOutcomes(data, true), SchemaMessage);
    AddedOrder(eventExists, validated, orders);
    if validated.Ok? {
      SpeakerMeaning(data, true);
      if !Has(data, "display_order") {
        SpeakerNoOrder(data, true);
      }
    }
  }

  /** A sponsor added without a display order comes after every sponsor of the event. */
  lemma AddSponsorOrder(eventExists: bool, data: Json, orders: seq<int>)
    ensures AddSponsor(eventExists, data, orders).Ok? && !Has(data, "display_order") ==>
      var order := Lookup(AddSponsor(eventExists, data, orders).value, "display_order");
      order.Int? && forall o :: o in orders ==> order.i > o
    ensures AddSponsor(eventExists, data, orders).Ok? && Has(data, "display_order") ==>
      Lookup(AddSponsor(eventExists, data, orders).value, "display_order") == Get(data, "display_order")
  {
    var validated := Validated(data, SponsorOutcomes(data, false), SchemaMessage);
    AddedOrder(eventExists, validated, orders);
    if validated.Ok? {
      SponsorMeaning(data, false);
      if !Has(data, "display_order") {
        SponsorNoOrder(data, false);
      }
    }
  }

  /** A speaker payload without a display order leaves none in the clean dict. */
  lemma SpeakerNoOrder(data: Json, requireName: bool)
    requires !Has(data, "display_order")
    ensures Lookup(Stored(SpeakerOutcomes(data, requireName)), "display_order") == Null
  {
    var outcomes := SpeakerOutcomes(data, requireName);
    SpeakerKeyed(data, requireName);
    assert !outcomes[9].Store?;
    forall i | 0 <= i < |outcomes| && i != 9 && outcomes[i].Store? ensures outcomes[i].key != "display_order" {
      assert SpeakerKeys[i] != SpeakerKeys[9];
    }
    StoredAbsent(outcomes, "display_order");
  }

  /** A sponsor payload without a display order leaves none in the clean dict. */
  lemma SponsorNoOrder(data: Json, partial: bool)
    requires !Has(data, "display_order")
    ensures Lookup(Stored(SponsorOutcomes(data, partial)), "display_order") == Null
  {
    var outcomes := SponsorOutcomes(data, partial);
    SponsorKeyed(data, partial);
    assert !outcomes[7].Store?;
    forall i | 0 <= i < |outcomes| && i != 7 && outcomes[i].Store? ensures outcomes[i].key != "display_order" {
      assert SponsorKeys[i] != SponsorKeys[7];
    }
    StoredAbsent(outcomes, "display_order");
  }

  /** The payload keys the speaker and sponsor checks read, one per check. */
  const SpeakerInputs: seq<string> := ["name"] + ["role"] + SpeakerFields + ["topics"] + ["metadata"] + ["display_order"]
  const SponsorInputs: seq<string> := ["name"] + SponsorFields + ["metadata"] + ["display_order"]

  lemma OptionalSkips(data: Json, fields: seq<string>)
    ensures SkipsWhenAbsent(data, OptionalOutcomes(data, fields), fields)
  {
  }

  /** On an update each speaker check does nothing exactly when its key is missing. */
  lemma SpeakerSkips(data: Json)
    ensures SkipsWhenAbsent(data, SpeakerOutcomes(data, false), SpeakerInputs)
  {
    var name, role := NameOutcome(data, false, "full_name", SpeakerNameMessage), RoleOutcome(data);
    OptionalSkips(data, SpeakerFields);
    SkipsAppend(data, [name], ["name"], [role], ["role"]);
    SkipsAppend(data, [name] + [role], ["name"] + ["role"], OptionalOutcomes(data, SpeakerFields), SpeakerFields);
    var front, frontKeys := [name] + [role] + OptionalOutcomes(data, SpeakerFields), ["name"] + ["role"] + SpeakerFields;
    SkipsAppend(data, front, frontKeys, [DictOutcome(data, "topics", TopicsMessage)], ["topics"]);
    SkipsAppend(data, front + [DictOutcome(data, "topics", TopicsMessage)], frontKeys + ["topics"],
                [DictOutcome(data, "metadata", MetadataMessage)], ["metadata"]);
    SkipsAppend(data, front + [DictOutcome(data, "topics", TopicsMessage)] + [DictOutcome(data, "metadata", MetadataMessage)],
                frontKeys + ["topics"] + ["metadata"], [OrderOutcome(data)], ["display_order"]);
  }

  /** On a partial update each sponsor check does nothing exactly when its key is missing. */
  lemma SponsorSkips(data: Json)
    ensures SkipsWhenAbsent(data, SponsorOutcomes(data, true), SponsorInputs)
  {
    var name := NameOutcome(data, false, "name", SponsorNameMessage);
    OptionalSkips(data, SponsorFields);
    SkipsAppend(data, [name], ["name"], OptionalOutcomes(data, SponsorFields), SponsorFields);
    var front, frontKeys := [name] + OptionalOutcomes(data, SponsorFields), ["name"] + SponsorFields;
    SkipsAppend(data, front, frontKeys, [DictOutcome(data, "metadata", MetadataMessage)], ["metadata"]);
    SkipsAppend(data, front + [DictOutcome(data, "metadata", MetadataMessage)], frontKeys + ["metadata"],
                [OrderOutcome(data)], ["display_order"]);
  }

  /** An unknown event or speaker is refused whatever the payload; otherwise the update changes
      nothing exactly when the payload holds none of the speaker's keys, and a write always has
      something to write. */
  lemma UpdateSpeakerShortcut(eventExists: bool, speakerExists: bool, data: Json)
    ensures !eventExists || !speakerExists ==> UpdateSpeaker(eventExists, speakerExists, data) == Err(NotFound)
    ensures eventExists && speakerExists && data.Obj? ==>
      (UpdateSpeaker(eventExists, speakerExists, data) == Ok(Unchanged) <==>
       forall i :: 0 <= i < |SpeakerInputs| ==> !Has(data, SpeakerInputs[i]))
    ensures UpdateSpeaker(eventExists, speakerExists, data).Ok? && UpdateSpeaker(eventExists, speakerExists, data).value.Write? ==>
      UpdateSpeaker(eventExists, speakerExists, data).value.changes != []
  {
    if data.Obj? {
      SpeakerSkips(data);
      EmptyIffAbsent(data, SpeakerOutcomes(data, false), SpeakerInputs, SchemaMessage);
    }
  }

  /** An unknown event or sponsor is refused whatever the payload; otherwise the update changes
      nothing exactly when the payload holds none of the sponsor's keys, and a write always has
      something to write. */
  lemma UpdateSponsorShortcut(eventExists: bool, sponsorExists: bool, data: Json)
    ensures !eventExists || !sponsorExists ==> UpdateSponsor(eventExists, sponsorExists, data) == Err(NotFound)
    ensures eventExists && sponsorExists && data.Obj? ==>
      (UpdateSponsor(eventExists, sponsorExists, data) == Ok(Unchanged) <==>
       forall i :: 0 <= i < |SponsorInputs| ==> !Has(data, SponsorInputs[i]))
    ensures UpdateSponsor(eventExists, sponsorExists, data).Ok? && UpdateSponsor(eventExists, sponsorExists, data).value.Write? ==>
      UpdateSponsor(eventExists, sponsorExists, data).value.changes != []
  {
    if data.Obj? {
      SponsorSkips(data);
      EmptyIffAbsent(data, SponsorOutcomes(data, true), SponsorInputs, SchemaMessage);
    }
  }
}
