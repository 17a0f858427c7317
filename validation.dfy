/** What the payload validators of the services share: each field check stores a cleaned value,
    records an error or does nothing; the errors and the clean dict are filled check after check,
    and a single validation error carrying every field error is raised at the end. */
module Validation {
  import opened Wrappers
  import opened Text
  import opened JsonValue

  /** The error dict of a validation error: field name to its messages, in insertion order. */
  type Errors = seq<(string, seq<string>)>

  /** What one field check does: nothing, store a cleaned value, or record an error. */
  datatype Outcome = Skip | Store(key: string, value: Json) | Reject(field: string, message: string)

  /** The error dict: one entry per rejected field, in order. */
  function Rejections(outcomes: seq<Outcome>): seq<(string, seq<string>)> {
    if outcomes == [] then [] else RejectStep(Rejections(outcomes[..|outcomes| - 1]), outcomes[|outcomes| - 1])
  }

  /** The clean dict: every stored value set in turn. */
  function Stored(outcomes: seq<Outcome>): seq<(string, Json)> {
    if outcomes == [] then [] else StoreStep(Stored(outcomes[..|outcomes| - 1]), outcomes[|outcomes| - 1])
  }

  /** `errors[field] = [message]` after a rejecting check. */
  function RejectStep(errors: Errors, o: Outcome): Errors {
    match o
    case Reject(field, message) => errors + [(field, [message])]
    case _ => errors
  }

  /** `clean[key] = value` after a storing check. */
  function StoreStep(clean: seq<(string, Json)>, o: Outcome): seq<(string, Json)> {
    match o
    case Store(key, value) => SetField(clean, key, value)
    case _ => clean
  }

  /** Running one more check: the dicts after it are those before it updated by it. */
  lemma Snoc(done: seq<Outcome>, o: Outcome)
    ensures Stored(done + [o]) == StoreStep(Stored(done), o)
    ensures Rejections(done + [o]) == RejectStep(Rejections(done), o)
  {
    assert (done + [o])[..|done|] == done;
  }

  /** The errors are empty exactly when no check rejected, and hold every rejected field with
      its message. */
  lemma {:induction false} RejectionsMeaning(outcomes: seq<Outcome>)
    ensures Rejections(outcomes) == [] <==> forall i :: 0 <= i < |outcomes| ==> !outcomes[i].Reject?
    ensures forall i :: 0 <= i < |outcomes| && outcomes[i].Reject? ==>
      (outcomes[i].field, [outcomes[i].message]) in Rejections(outcomes)
  {
    if outcomes != [] {
      var n := |outcomes| - 1;
      RejectionsMeaning(outcomes[..n]);
      assert forall i :: 0 <= i < n ==> outcomes[..n][i] == outcomes[i];
    }
  }

  /** A value stored by a check and not overwritten by a later one is in the clean dict. */
  lemma {:induction false} StoredLookup(outcomes: seq<Outcome>, i: nat)
    requires i < |outcomes| && outcomes[i].Store?
    requires forall j :: i < j < |outcomes| && outcomes[j].Store? ==> outcomes[j].key != outcomes[i].key
    ensures Lookup(Stored(outcomes), outcomes[i].key) == outcomes[i].value
  {
    var n := |outcomes| - 1;
    if i < n {
      StoredLookup(outcomes[..n], i);
    }
  }

  /** What the first check decides on its own: its error is reported, and when no check fails,
      a value it stores and no later check overwrites is in the clean dict. */
  lemma FirstOutcome(outcomes: seq<Outcome>, first: Outcome)
    requires outcomes != [] && outcomes[0] == first
    requires first.Store? ==> forall j :: 0 < j < |outcomes| && outcomes[j].Store? ==> outcomes[j].key != first.key
    ensures first.Reject? ==> (first.field, [first.message]) in Rejections(outcomes)
    ensures Rejections(outcomes) == [] ==> !first.Reject?
    ensures Rejections(outcomes) == [] && first.Store? ==> Lookup(Stored(outcomes), first.key) == first.value
  {
    RejectionsMeaning(outcomes);
    if first.Store? {
      StoredLookup(outcomes, 0);
    }
  }

  /** The clean dict is empty exactly when no check stored anything. */
  lemma {:induction false} StoredEmpty(outcomes: seq<Outcome>)
    ensures Stored(outcomes) == [] <==> forall i :: 0 <= i < |outcomes| ==> !outcomes[i].Store?
  {
    if outcomes != [] {
      var n := |outcomes| - 1;
      StoredEmpty(outcomes[..n]);
      assert forall i :: 0 <= i < n ==> outcomes[..n][i] == outcomes[i];
      if outcomes[n].Store? {
        assert Lookup(Stored(outcomes), outcomes[n].key) == outcomes[n].value;
      }
    }
  }

  /** What a validator returns: a `_schema` error for a payload that is not a dict, otherwise
      every field error at once when any check failed, and the clean dict when none did. */
  function Validated(data: Json, outcomes: seq<Outcome>, schema: string): (r: Result<Json, Errors>)
    ensures !data.Obj? ==> r == Err([("_schema", [schema])])
    ensures data.Obj? ==> (r.Ok? <==> forall i :: 0 <= i < |outcomes| ==> !outcomes[i].Reject?)
    ensures data.Obj? && r.Err? ==>
      forall i :: 0 <= i < |outcomes| && outcomes[i].Reject? ==> (outcomes[i].field, [outcomes[i].message]) in r.error
    ensures r.Ok? ==> r.value == Obj(Stored(outcomes))
  {
    RejectionsMeaning(outcomes);
    if !data.Obj? then Err([("_schema", [schema])])
    else if Rejections(outcomes) != [] then Err(Rejections(outcomes))
    else Ok(Obj(Stored(outcomes)))
  }

  /** A string kept as given unless it has something besides whitespace, in which case it is
      stripped: `v.strip() if isinstance(v, str) and v.strip() else v`. */
  function StrippedOrKept(v: Json): (r: Json)
    ensures !v.Str? ==> r == v
    ensures v.Str? ==> r.Str? && (AllSpace(v.s) ==> r == v) && (!AllSpace(v.s) ==> r.s == Strip(v.s) && r.s != "")
  {
    if v.Str? && Strip(v.s) != "" then Str(Strip(v.s)) else v
  }

  /** The check at position `i` can only store under `keys[i]`. */
  predicate KeyedBy(outcomes: seq<Outcome>, keys: seq<string>) {
    |outcomes| == |keys| && forall i :: 0 <= i < |outcomes| && outcomes[i].Store? ==> outcomes[i].key == keys[i]
  }

  /** A key no check stores under is missing from the clean dict. */
  lemma {:induction false} StoredAbsent(outcomes: seq<Outcome>, k: string)
    requires forall i :: 0 <= i < |outcomes| && outcomes[i].Store? ==> outcomes[i].key != k
    ensures Lookup(Stored(outcomes), k) == Null
  {
    if outcomes != [] {
      StoredAbsent(outcomes[..|outcomes| - 1], k);
    }
  }

  /** Checks run one block after another are keyed by the blocks' keys in turn. */
  lemma KeyedAppend(a: seq<Outcome>, keysA: seq<string>, b: seq<Outcome>, keysB: seq<string>)
    requires KeyedBy(a, keysA) && KeyedBy(b, keysB)
    ensures KeyedBy(a + b, keysA + keysB)
  {
    forall i | 0 <= i < |a + b| && (a + b)[i].Store? ensures (a + b)[i].key == (keysA + keysB)[i] {
      if i >= |a| {
        assert (a + b)[i] == b[i - |a|];
      }
    }
  }

  /** The check at position `i` does nothing exactly when the payload lacks `inputs[i]`. */
  predicate SkipsWhenAbsent(data: Json, outcomes: seq<Outcome>, inputs: seq<string>) {
    |outcomes| == |inputs| && forall i :: 0 <= i < |outcomes| ==> (outcomes[i].Skip? <==> !Has(data, inputs[i]))
  }

  lemma SkipsAppend(data: Json, a: seq<Outcome>, inputsA: seq<string>, b: seq<Outcome>, inputsB: seq<string>)
    requires SkipsWhenAbsent(data, a, inputsA) && SkipsWhenAbsent(data, b, inputsB)
    ensures SkipsWhenAbsent(data, a + b, inputsA + inputsB)
  {
    forall i | 0 <= i < |a + b| ensures ((a + b)[i].Skip? <==> !Has(data, (inputsA + inputsB)[i])) {
      if i >= |a| {
        assert (a + b)[i] == b[i - |a|] && (inputsA + inputsB)[i] == inputsB[i - |a|];
      }
    }
  }

  /** When every check that sees its field stores or rejects, a payload is accepted with an empty
      clean dict exactly when it holds none of the fields. */
  lemma EmptyIffAbsent(data: Json, outcomes: seq<Outcome>, inputs: seq<string>, schema: string)
    requires data.Obj? && SkipsWhenAbsent(data, outcomes, inputs)
    ensures Validated(data, outcomes, schema) == Ok(Obj([])) <==> forall i :: 0 <= i < |inputs| ==> !Has(data, inputs[i])
  {
    StoredEmpty(outcomes);
    RejectionsMeaning(outcomes);
  }

  /** In an accepted payload no check rejected, and each stored value is under its check's key. */
  lemma ValidatedKeeps(data: Json, outcomes: seq<Outcome>, schema: string, keys: seq<string>, i: nat)
    requires Validated(data, outcomes, schema).Ok?
    requires KeyedBy(outcomes, keys) && Distinct(keys) && i < |outcomes|
    ensures !outcomes[i].Reject?
    ensures outcomes[i].Store? ==> Lookup(Validated(data, outcomes, schema).value.fields, keys[i]) == outcomes[i].value
  {
    if outcomes[i].Store? {
      StoredKeyed(outcomes, keys, i);
    }
  }

  /** When every check has its own key, each stored value is found in the clean dict. */
  lemma StoredKeyed(outcomes: seq<Outcome>, keys: seq<string>, i: nat)
    requires KeyedBy(outcomes, keys) && Distinct(keys)
    requires i < |outcomes| && outcomes[i].Store?
    ensures Lookup(Stored(outcomes), keys[i]) == outcomes[i].value
  {
    StoredLookup(outcomes, i);
  }
}
