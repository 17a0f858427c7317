/** The registration and attendance engine of `RegistrationService`
    (src/services/registrations.py), as functions over a snapshot of the database rows it reads
    and writes. Each public operation gives its result (or the exception it raises), the rows
    afterwards, and the calls it made to the payment service. A `session.rollback()` is the
    return of the snapshot the operation started from; calls to the payment service are not
    undone by it. */
module Registrations {
  import opened Wrappers
  import opened Text
  import opened JsonValue
  import opened Dates
  import Resilience

  /** The `registration_status` column. */
  datatype Status = Confirmed | CheckedIn | Cancelled | NoShow {
    /** Counted by `_count_confirmed_registrations`: the registration occupies a seat. */
    predicate HoldsSeat() {
      this == Confirmed || this == CheckedIn
    }
  }

  /** The columns of an `events` row the engine reads. */
  datatype Event = Event(
    id: int,
    title: string,
    attendees: int,
    registrationOpen: bool,
    registrationDeadline: Option<DateTime>,
    eventDate: Date,
    settings: Json)

  /** The `metadata` text column: empty, text that does not decode as JSON, or a JSON document. */
  datatype Metadata = NoMetadata | NotJson | Document(doc: Json)

  /** A `registrations` row; `token` is the opaque `check_in_token`. */
  datatype Registration = Registration(
    id: nat,
    eventId: int,
    email: string,
    name: Option<string>,
    status: Status,
    token: nat,
    metadata: Metadata)

  /** A `waitlist_entries` row. */
  datatype WaitlistEntry = WaitlistEntry(id: nat, eventId: int, email: string, name: Option<string>)

  /** A `no_show_penalties` row. */
  datatype Penalty = Penalty(email: string, eventId: int, reason: string, expiresAt: Option<DateTime>)

  /** An `attendance_records` row, keyed in the store by its (unique) registration id. */
  datatype Attendance = Attendance(checkInTime: DateTime, checkInMethod: string, scanPayload: Json)

  /** The rows the engine works on. Registrations and waitlist entries are kept in creation order
      (the `created_at` order the relationships and the promotion query sort by). `nextId` is the
      next fresh value, used for new row ids and check-in tokens. */
  datatype Store = Store(
    events: map<int, Event>,
    registrations: seq<Registration>,
    waitlist: seq<WaitlistEntry>,
    penalties: seq<Penalty>,
    attendance: map<nat, Attendance>,
    nextId: nat)

  /** What the payment service answered, as `_execute` hands it back: the decoded body, or the
      `IntegrationError` (a `CircuitOpenError` included) it raised. */
  datatype GatewayReply = Replied(body: Json) | Failed(error: Resilience.IntegrationError)

  /** A request sent to the payment service. */
  datatype GatewayCall =
    | Capture(eventId: int, email: string, amount: real, currency: string, metadata: Json)
    | Refund(paymentId: Json, reason: string)

  /** The exceptions the operations raise. `NotAMapping` is the `AttributeError` of calling
      `.get` on a JSON value that is not an object. */
  datatype RegistrationError =
    | EventNotFound
    | RegistrationNotFound
    | RegistrationClosed
    | InvalidEmail
    | PenaltyActive
    | AlreadyRegistered
    | AlreadyWaitlisted
    | InvalidToken
    | CheckInCancelled
    | CheckInNoShow
    | PaymentFailed
    | RefundFailed
    | NotAMapping
    | DateOverflow

  /** One operation: its result, the rows afterwards, the payment calls it made. */
  datatype Outcome<T> = Outcome(result: Result<T, RegistrationError>, store: Store, calls: seq<GatewayCall>)

  function Fail<T>(s: Store, e: RegistrationError): Outcome<T> {
    Outcome(Err(e), s, [])
  }

  /** The database constraints and the bookkeeping the engine relies on: every row points to an
      existing event, ids and tokens are fresh and grow in creation order, an event's
      `attendees` is non-negative (`ck_events_attendees_non_negative`), and every attendance
      record belongs to an id already handed out. */
  predicate StoreValid(s: Store) {
    && (forall id :: id in s.events ==> s.events[id].id == id && s.events[id].attendees >= 0 && ValidDate(s.events[id].eventDate))
    && (forall i :: 0 <= i < |s.registrations| ==>
          s.registrations[i].eventId in s.events && s.registrations[i].id < s.nextId && s.registrations[i].token < s.nextId)
    && (forall i, j :: 0 <= i < j < |s.registrations| ==>
          s.registrations[i].id < s.registrations[j].id && s.registrations[i].token < s.registrations[j].token)
    && (forall i :: 0 <= i < |s.waitlist| ==> s.waitlist[i].eventId in s.events && s.waitlist[i].id < s.nextId)
    && (forall i, j :: 0 <= i < j < |s.waitlist| ==> s.waitlist[i].id < s.waitlist[j].id)
    && (forall id :: id in s.attendance ==> id < s.nextId)
  }

  /** An email as `_normalize_email` leaves it. */
  predicate Normalized(email: string) {
    NormalizeEmail(Str(email)) == Some(email)
  }

  // ---------------------------------------------------------------------------------------
  // Queries
  // ---------------------------------------------------------------------------------------

  /** `_count_confirmed_registrations`: registrations of the event that are `confirmed` or
      `checked_in`. */
  function Seats(regs: seq<Registration>, eventId: int): (n: nat)
    ensures n <= |regs|
  {
    if regs == [] then 0
    else
      var last := regs[|regs| - 1];
      Seats(regs[..|regs| - 1], eventId) + (if last.eventId == eventId && last.status.HoldsSeat() then 1 else 0)
  }

  /** The waitlist of one event, oldest first. */
  function Waiting(w: seq<WaitlistEntry>, eventId: int): (r: seq<WaitlistEntry>)
    ensures |r| <= |w|
    ensures forall k :: 0 <= k < |r| ==> r[k].eventId == eventId && r[k] in w
  {
    if w == [] then []
    else (if w[0].eventId == eventId then [w[0]] else []) + Waiting(w[1..], eventId)
  }

  /** The waitlist without the entry with id `id` (`session.delete(entry)`). */
  function RemoveEntry(w: seq<WaitlistEntry>, id: nat): (r: seq<WaitlistEntry>)
    ensures |r| <= |w|
    ensures forall k :: 0 <= k < |r| ==> r[k].id != id && r[k] in w
  {
    if w == [] then []
    else (if w[0].id == id then [] else [w[0]]) + RemoveEntry(w[1..], id)
  }

  /** `_get_registration`: the registration with this id and event. */
  function FindRegistration(regs: seq<Registration>, eventId: int, id: nat): (r: Option<nat>)
    ensures r.Some? ==> r.value < |regs| && regs[r.value].id == id && regs[r.value].eventId == eventId
    ensures r.None? ==> forall k :: 0 <= k < |regs| ==> !(regs[k].id == id && regs[k].eventId == eventId)
  {
    if regs == [] then None
    else if regs[0].id == id && regs[0].eventId == eventId then Some(0)
    else match FindRegistration(regs[1..], eventId, id)
      case None => None
      case Some(k) => Some(k + 1)
  }

  /** `_get_registration_by_token`: the registration holding this check-in token. */
  function FindToken(regs: seq<Registration>, token: nat): (r: Option<nat>)
    ensures r.Some? ==> r.value < |regs| && regs[r.value].token == token
    ensures r.None? ==> forall k :: 0 <= k < |regs| ==> regs[k].token != token
  {
    if regs == [] then None
    else if regs[0].token == token then Some(0)
    else match FindToken(regs[1..], token)
      case None => None
      case Some(k) => Some(k + 1)
  }

  /** A penalty blocks `email` at `now` when it is for that email and has no expiry or expires
      later than `now`. */
  predicate Blocks(p: Penalty, email: string, now: DateTime) {
    p.email == email && (p.expiresAt.None? || InstantBefore(now, p.expiresAt.value))
  }

  /** `_has_active_penalty`: over the penalties of every event. */
  predicate HasActivePenalty(s: Store, email: string, now: DateTime) {
    exists k :: 0 <= k < |s.penalties| && Blocks(s.penalties[k], email, now)
  }

  /** The first check of `_ensure_not_already_registered`: a registration for the event and
      email that is not `cancelled` (a `no_show` or `checked_in` one counts). */
  predicate HoldsRegistration(s: Store, eventId: int, email: string) {
    exists k :: 0 <= k < |s.registrations| && Holds(s.registrations[k], eventId, email)
  }

  predicate Holds(r: Registration, eventId: int, email: string) {
    r.eventId == eventId && r.email == email && r.status != Cancelled
  }

  /** The second check: any waitlist entry for the event and email. */
  predicate OnWaitlist(s: Store, eventId: int, email: string) {
    exists k :: 0 <= k < |s.waitlist| && s.waitlist[k].eventId == eventId && s.waitlist[k].email == email
  }

  /** `_ensure_registration_is_open`: open, and no deadline already passed. */
  predicate RegistrationIsOpen(e: Event, now: DateTime) {
    e.registrationOpen && !(e.registrationDeadline.Some? && InstantBefore(e.registrationDeadline.value, now))
  }

  // ---------------------------------------------------------------------------------------
  // Pure helpers
  // ---------------------------------------------------------------------------------------

  /** `_normalize_email`: `None` where it raises `ValueError` (not a string, or blank). */
  function NormalizeEmail(email: Json): (r: Option<string>)
    ensures r.Some? <==> email.Str? && !AllSpace(email.s)
    ensures r.Some? ==> r.value != [] && !IsSpace(r.value[0]) && !IsSpace(r.value[|r.value| - 1])
    ensures r.Some? ==> forall k :: 0 <= k < |r.value| ==> !('A' <= r.value[k] <= 'Z')
  {
    if email.Str? && Strip(email.s) != [] then
      LowerKeepsEnds(Strip(email.s));
      Some(Lower(Strip(email.s)))
    else None
  }

  lemma LowerKeepsEnds(t: string)
    requires t != [] && !IsSpace(t[0]) && !IsSpace(t[|t| - 1])
    ensures var r := Lower(t);
      r != [] && !IsSpace(r[0]) && !IsSpace(r[|r| - 1]) && forall k :: 0 <= k < |r| ==> !('A' <= r[k] <= 'Z')
  {
    var r := Lower(t);
    assert r[0] == LowerChar(t[0]);
    assert r[|r| - 1] == LowerChar(t[|t| - 1]);
  }

  /** `_metadata_as_dict`: the stored document when it is an object, `{}` otherwise. */
  function MetadataAsDict(m: Metadata): (r: Json)
    ensures r.Obj?
    ensures m.Document? && m.doc.Obj? ==> r == m.doc
    ensures !(m.Document? && m.doc.Obj?) ==> r == Obj([])
  {
    if m.Document? && m.doc.Obj? then m.doc else Obj([])
  }

  function Pow10(n: nat): (r: nat)
    ensures r >= 1
  {
    if n == 0 then 1 else 10 * Pow10(n - 1)
  }

  function IndexOfDot(t: string): (k: nat)
    ensures k <= |t|
    ensures k < |t| ==> t[k] == '.'
    ensures forall j :: 0 <= j < k ==> t[j] != '.'
  {
    if t == [] then 0 else if t[0] == '.' then 0 else 1 + IndexOfDot(t[1..])
  }

  /** `float(s)` for the decimal forms `digits`, `digits.`, `.digits` and `digits.digits`. */
  function ParseUnsigned(t: string): (r: Option<real>)
    ensures r.Some? ==> r.value >= 0.0
  {
    var dot := IndexOfDot(t);
    var whole := t[..dot];
    var frac := if dot < |t| then t[dot + 1..] else [];
    if (whole == [] && frac == []) || !AllDigits(whole) || !AllDigits(frac) then None
    else Some(Decimal(whole, frac))
  }

  /** The number written `whole.frac`. */
  function Decimal(whole: string, frac: string): (x: real)
    requires AllDigits(whole) && AllDigits(frac)
    ensures x >= 0.0
  {
    DigitsValue(whole) as real + DigitsValue(frac) as real / Pow10(|frac|) as real
  }

  /** What `float` reads from digits around a point: the number they write. */
  lemma ParseUnsignedValue(whole: string, frac: string)
    requires AllDigits(whole) && AllDigits(frac) && (whole != [] || frac != [])
    ensures ParseUnsigned(whole + "." + frac) == Some(Decimal(whole, frac))
  {
    var t := whole + "." + frac;
    assert IndexOfDot(t) == |whole| && t[..|whole|] == whole && t[|whole| + 1..] == frac by {
      DotAfter(whole, "." + frac);
      assert t == whole + ("." + frac);
    }
  }

  /** A run of digits without a point reads as the whole number it writes. */
  lemma ParseUnsignedWhole(digits: string)
    requires AllDigits(digits) && digits != []
    ensures ParseUnsigned(digits) == Some(DigitsValue(digits) as real)
  {
    assert IndexOfDot(digits) == |digits| && digits[..|digits|] == digits by {
      DotAfter(digits, []);
    }
    assert Decimal(digits, []) == DigitsValue(digits) as real;
  }

  /** The first point of `digits + rest` is the first point of `rest`, after the digits. */
  lemma DotAfter(digits: string, rest: string)
    requires AllDigits(digits) && (rest != [] ==> rest[0] == '.')
    ensures IndexOfDot(digits + rest) == |digits|
  {
    var t := digits + rest;
    assert forall j :: 0 <= j < |digits| ==> t[j] == digits[j];
    if rest != [] {
      assert t[|digits|] == '.';
    }
  }

  /** `float(str(n)) == n` for a natural number `n`. */
  lemma ParseUnsignedOfNat(n: nat)
    ensures ParseUnsigned(NatToString(n)) == Some(n as real)
  {
    DigitsValueOfNat(n);
    ParseUnsignedWhole(NatToString(n));
  }

  /** `float(s)` on a string: surrounding whitespace, an optional sign, a decimal number. */
  function ParseDecimal(s: string): Option<real> {
    var t := Strip(s);
    if t != [] && (t[0] == '+' || t[0] == '-') then
      match ParseUnsigned(t[1..])
      case None => None
      case Some(x) => Some(if t[0] == '-' then -x else x)
    else ParseUnsigned(t)
  }

  /** `float(v)`: `None` where it raises `TypeError` or `ValueError`. */
  function FloatOf(v: Json): Option<real> {
    match v
    case Int(i) => Some(i as real)
    case Bool(b) => Some(if b then 1.0 else 0.0)
    case Num(r) => Some(r)
    case Str(s) => ParseDecimal(s)
    case _ => None
  }

  /** The `{"amount", "currency"}` dict `_extract_pricing` returns. */
  datatype Pricing = Pricing(amount: real, currency: string)

  /** `_extract_pricing`: a price exists only when `settings.pricing` is an object whose `amount`
      converts to a float greater than zero; the currency falls back to "EUR" when missing or
      falsy and is upper-cased. */
  function ExtractPricing(settings: Json): (r: Option<Pricing>)
    ensures var pricing := Get(settings, "pricing");
      r.Some? <==> pricing.Obj? && FloatOf(Get(pricing, "amount")).Some? && FloatOf(Get(pricing, "amount")).value > 0.0
    ensures r.Some? ==> r.value.amount == FloatOf(Get(Get(settings, "pricing"), "amount")).value && r.value.amount > 0.0
    ensures r.Some? && !Truthy(Get(Get(settings, "pricing"), "currency")) ==> r.value.currency == "EUR"
    ensures r.Some? && Get(Get(settings, "pricing"), "currency").Str? && Truthy(Get(Get(settings, "pricing"), "currency")) ==>
      r.value.currency == Upper(Get(Get(settings, "pricing"), "currency").s)
    ensures r.Some? ==> forall k :: 0 <= k < |r.value.currency| ==> !('a' <= r.value.currency[k] <= 'z')
  {
    var pricing := Get(settings, "pricing");
    if !pricing.Obj? then None
    else
      var currency := GetOr(pricing, "currency", Str("EUR"));
      match FloatOf(Get(pricing, "amount"))
      case None => None
      case Some(amount) =>
        if amount <= 0.0 then None
        else
          assert Has(pricing, "currency") ==> Get(pricing, "currency") == currency;
          Some(Pricing(amount, CurrencyCode(currency)))
  }

  /** `str(currency or "EUR").upper()`. */
  function CurrencyCode(currency: Json): (c: string)
    ensures !Truthy(currency) || currency == Str("EUR") ==> c == "EUR"
    ensures currency.Str? && Truthy(currency) ==> c == Upper(currency.s)
    ensures forall k :: 0 <= k < |c| ==> !('a' <= c[k] <= 'z')
  {
    var c := Upper(PyStr(Or(currency, Str("EUR"))));
    assert forall k :: 0 <= k < |c| ==> c[k] == UpperChar(PyStr(Or(currency, Str("EUR")))[k]);
    c
  }

  /** The payment record `_capture_payment` stores: the id (`id`, else `payment_id`) and status
      (default "captured") of the reply's `payment` object, or of the reply itself when it has
      no `payment` key, with the amount and currency charged. */
  function CaptureRecord(p: Pricing, reply: GatewayReply): (r: Result<Json, RegistrationError>)
    ensures reply.Failed? ==> r == Err(PaymentFailed)
    ensures r.Ok? ==> reply.Replied? && reply.body.Obj? && r.value.Obj?
  {
    match reply
    case Failed(_) => Err(PaymentFailed)
    case Replied(body) =>
      if !body.Obj? then Err(NotAMapping)
      else
        var payload := GetOr(body, "payment", body);
        if !payload.Obj? then Err(NotAMapping)
        else
          var withId := Set(Obj([]), "id", Or(Get(payload, "id"), Get(payload, "payment_id")));
          var withStatus := Set(withId, "status", GetOr(payload, "status", Str("captured")));
          Ok(Set(Set(withStatus, "amount", Num(p.amount)), "currency", Str(p.currency)))
  }

  /** The metadata `_capture_payment` sends: the attendee's metadata with the registration id and
      the event title added. */
  function CaptureMetadata(payload: Json, registrationId: nat, title: string): Json
    requires payload.Obj?
  {
    Set(Set(payload, "registration_id", Int(registrationId)), "event_title", Str(title))
  }

  /** A fresh `confirmed` registration (`_create_registration`). */
  function NewRegistration(s: Store, eventId: int, email: string, name: Option<string>, payload: Json): Registration {
    Registration(s.nextId, eventId, email, name, Confirmed, s.nextId, Document(payload))
  }

  /** The payment step after `_create_registration` when the event is priced: capture, then
      store the payment record under the metadata's `payment` key. */
  function Pay(reg: Registration, e: Event, pricing: Option<Pricing>, payload: Json, reply: GatewayReply): (r: (Result<Registration, RegistrationError>, seq<GatewayCall>))
    requires payload.Obj?
    ensures pricing.None? ==> r == (Ok(reg), [])
    ensures pricing.Some? ==> r.1 == [Capture(e.id, reg.email, pricing.value.amount, pricing.value.currency, CaptureMetadata(payload, reg.id, e.title))]
    ensures pricing.Some? ==> (r.0.Err? <==> CaptureRecord(pricing.value, reply).Err?)
    ensures pricing.Some? && r.0.Ok? ==>
      r.0.value == reg.(metadata := Document(Set(payload, "payment", CaptureRecord(pricing.value, reply).value)))
  {
    match pricing
    case None => (Ok(reg), [])
    case Some(p) =>
      var call := Capture(e.id, reg.email, p.amount, p.currency, CaptureMetadata(payload, reg.id, e.title));
      match CaptureRecord(p, reply)
      case Err(err) => (Err(err), [call])
      case Ok(record) => (Ok(reg.(metadata := Document(Set(payload, "payment", record)))), [call])
  }

  // ---------------------------------------------------------------------------------------
  // register_attendee
  // ---------------------------------------------------------------------------------------

  datatype Admission = Admitted(registration: Registration) | Waitlisted(entry: WaitlistEntry)

  /** The checks `register_attendee` makes before writing anything, in its order: the
      normalised email when all pass. */
  function Screen(s: Store, eventId: int, e: Event, email: Json, now: DateTime): Result<string, RegistrationError> {
    if !RegistrationIsOpen(e, now) then Err(RegistrationClosed)
    else match NormalizeEmail(email)
      case None => Err(InvalidEmail)
      case Some(clean) =>
        if HasActivePenalty(s, clean, now) then Err(PenaltyActive)
        else if HoldsRegistration(s, eventId, clean) then Err(AlreadyRegistered)
        else if OnWaitlist(s, eventId, clean) then Err(AlreadyWaitlisted)
        else Ok(clean)
  }

  /** The admission decision: unlimited (capacity 0) or a seat left. */
  predicate HasRoom(s: Store, eventId: int, e: Event) {
    e.attendees == 0 || Seats(s.registrations, eventId) < e.attendees
  }

  /** What `register_attendee` writes once the checks pass. */
  function Admit(s: Store, eventId: int, e: Event, clean: string, fullName: Option<string>, metadata: seq<(string, Json)>,
                 reply: GatewayReply): Outcome<Admission>
  {
    if HasRoom(s, eventId, e) then
      var payload := Obj(metadata);
      var reg := NewRegistration(s, eventId, clean, fullName, payload);
      var paid := Pay(reg, e, ExtractPricing(e.settings), payload, reply);
      match paid.0
      case Err(err) => Outcome(Err(err), s, paid.1)
      case Ok(r) => Outcome(Ok(Admitted(r)), s.(registrations := s.registrations + [r], nextId := s.nextId + 1), paid.1)
    else
      var entry := WaitlistEntry(s.nextId, eventId, clean, fullName);
      Outcome(Ok(Waitlisted(entry)), s.(waitlist := s.waitlist + [entry], nextId := s.nextId + 1), [])
  }

  /** With room, the admission is whatever paying for the new registration gives. */
  lemma AdmitWithRoomPays(s: Store, eventId: int, e: Event, clean: string, fullName: Option<string>, metadata: seq<(string, Json)>,
                          reply: GatewayReply)
    requires HasRoom(s, eventId, e)
    ensures var reg := NewRegistration(s, eventId, clean, fullName, Obj(metadata));
      var paid := Pay(reg, e, ExtractPricing(e.settings), Obj(metadata), reply);
      var o := Admit(s, eventId, e, clean, fullName, metadata, reply);
      && o.calls == paid.1
      && (paid.0.Err? ==> o.result == Err(paid.0.error) && o.store == s)
      && (paid.0.Ok? ==>
            o.result == Ok(Admitted(paid.0.value))
            && o.store == s.(registrations := s.registrations + [paid.0.value], nextId := s.nextId + 1))
  {
  }

  /** `register_attendee(event_id, email=..., full_name=..., metadata=...)` at instant `now`;
      `reply` is what the payment service answers if a capture is made. `metadata` is the dict
      passed in (`None` is the empty dict). */
  function Register(s: Store, eventId: int, email: Json, fullName: Option<string>, metadata: seq<(string, Json)>,
                    now: DateTime, reply: GatewayReply): Outcome<Admission>
  {
    if eventId !in s.events then Fail(s, EventNotFound)
    else match Screen(s, eventId, s.events[eventId], email, now)
      case Err(err) => Fail(s, err)
      case Ok(clean) => Admit(s, eventId, s.events[eventId], clean, fullName, metadata, reply)
  }

  // ---------------------------------------------------------------------------------------
  // _promote_waitlist_if_possible and trigger_waitlist_promotion
  // ---------------------------------------------------------------------------------------

  function Max0(n: int): nat {
    if n < 0 then 0 else n
  }

  function Take<T>(xs: seq<T>, n: nat): (r: seq<T>)
    ensures |r| == if n < |xs| then n else |xs|
    ensures r == xs[..|r|]
  {
    if n < |xs| then xs[..n] else xs
  }

  /** One iteration of the promotion loop: a fresh `confirmed` registration for the entry,
      paid when the event is priced. */
  function PromoteOne(s: Store, e: Event, entry: WaitlistEntry, pricing: Option<Pricing>, reply: GatewayReply): (r: (Result<Registration, RegistrationError>, seq<GatewayCall>))
    ensures r.0.Ok? ==>
      var reg := r.0.value;
      reg.id == s.nextId && reg.token == s.nextId && reg.eventId == e.id && reg.status == Confirmed
      && reg.email == entry.email && reg.name == entry.name
    ensures pricing.None? ==> r.0.Ok? && r.1 == []
    ensures pricing.Some? ==> |r.1| == 1 && r.1[0].Capture? && r.1[0].eventId == e.id && r.1[0].amount == pricing.value.amount
  {
    Pay(NewRegistration(s, e.id, entry.email, entry.name, Obj([])), e, pricing, Obj([]), reply)
  }

  /** The store after promoting `entry` into `r`: the registration added, the entry deleted. */
  function Promoted(s: Store, r: Registration, entry: WaitlistEntry): Store {
    s.(registrations := s.registrations + [r], waitlist := RemoveEntry(s.waitlist, entry.id), nextId := s.nextId + 1)
  }

  /** The loop of `_promote_waitlist_if_possible` over `entries`, the `k`-th capture answered by
      `replies[k]`. On a failure the store it gives is the one it started from. */
  function PromoteEntries(s: Store, e: Event, entries: seq<WaitlistEntry>, pricing: Option<Pricing>, replies: seq<GatewayReply>): Outcome<seq<Registration>>
    requires |replies| >= |entries|
    decreases |entries|
  {
    if entries == [] then Outcome(Ok([]), s, [])
    else
      var paid := PromoteOne(s, e, entries[0], pricing, replies[0]);
      match paid.0
      case Err(err) => Outcome(Err(err), s, paid.1)
      case Ok(r) =>
        var rest := PromoteEntries(Promoted(s, r, entries[0]), e, entries[1..], pricing, replies[1..]);
        match rest.result
        case Err(err) => Outcome(Err(err), s, paid.1 + rest.calls)
        case Ok(regs) => Outcome(Ok([r] + regs), rest.store, paid.1 + rest.calls)
  }

  /** The seats `_promote_waitlist_if_possible` may fill: none for an unlimited event (capacity
      0), otherwise `max(capacity - confirmed, 0)`. */
  function FreeSeats(s: Store, e: Event): nat {
    if e.attendees == 0 then 0 else Max0(e.attendees - Seats(s.registrations, e.id))
  }

  /** `_promote_waitlist_if_possible(event)`: the oldest entries, as many as there are free
      seats; a failed capture rolls everything back. */
  function Promote(s: Store, e: Event, replies: seq<GatewayReply>): Outcome<seq<Registration>>
    requires |replies| >= |s.waitlist|
  {
    if FreeSeats(s, e) == 0 then Outcome(Ok([]), s, [])
    else PromoteEntries(s, e, Take(Waiting(s.waitlist, e.id), FreeSeats(s, e)), ExtractPricing(e.settings), replies)
  }

  /** `trigger_waitlist_promotion(event_id)`. */
  function TriggerPromotion(s: Store, eventId: int, replies: seq<GatewayReply>): Outcome<seq<Registration>>
    requires |replies| >= |s.waitlist|
  {
    if eventId !in s.events then Fail(s, EventNotFound) else Promote(s, s.events[eventId], replies)
  }

  // ---------------------------------------------------------------------------------------
  // cancel_registration
  // ---------------------------------------------------------------------------------------

  /** The cancellation payload: `{"status": <status>}` for a registration already cancelled or
      absent, `{"status": "cancelled", ["promoted": ...]}` otherwise. */
  datatype Cancellation = AlreadyFinal(status: Status) | CancelledNow(promoted: seq<Registration>)

  /** `_refund_payment(event, payment_info)`: no call without an id; otherwise the reply's status
      (default "refunded") and its `refund` entry (or the whole reply) are recorded. */
  function RefundPayment(payment: Json, eventId: int, reply: GatewayReply): (r: (Result<Json, RegistrationError>, seq<GatewayCall>))
    requires payment.Obj?
    ensures !Truthy(Get(payment, "id")) ==> r == (Ok(payment), [])
    ensures Truthy(Get(payment, "id")) ==> r.1 == [Refund(Get(payment, "id"), "Annulation inscription événement " + IntToString(eventId))]
    ensures Truthy(Get(payment, "id")) && reply.Failed? ==> r.0 == Err(RefundFailed)
    ensures r.0.Ok? && Truthy(Get(payment, "id")) ==> reply.Replied? && reply.body.Obj?
  {
    var id := Get(payment, "id");
    if !Truthy(id) then (Ok(payment), [])
    else
      var call := Refund(id, "Annulation inscription événement " + IntToString(eventId));
      match reply
      case Failed(_) => (Err(RefundFailed), [call])
      case Replied(body) =>
        if !body.Obj? then (Err(NotAMapping), [call])
        else
          var updated := Set(payment, "status", GetOr(body, "status", Str("refunded")));
          var refund := if Has(body, "refund") then Get(body, "refund") else body;
          (Ok(Set(updated, "refund", refund)), [call])
  }

  /** Whether cancelling sends a refund: the stored payment is truthy, an object, and has status
      "captured". */
  predicate RefundDue(payment: Json) {
    Truthy(payment) && payment.Obj? && Get(payment, "status") == Str("captured")
  }

  /** The refund step of `cancel_registration`: the new metadata document, if it changes. */
  function RefundStep(payload: Json, eventId: int, reply: GatewayReply): (r: (Result<Option<Json>, RegistrationError>, seq<GatewayCall>))
    requires payload.Obj?
    ensures !Truthy(Get(payload, "payment")) ==> r == (Ok(None), [])
    ensures Truthy(Get(payload, "payment")) && !Get(payload, "payment").Obj? ==> r == (Err(NotAMapping), [])
  {
    var payment := Get(payload, "payment");
    if !Truthy(payment) then (Ok(None), [])
    else if !payment.Obj? then (Err(NotAMapping), [])
    else if Get(payment, "status") != Str("captured") then (Ok(None), [])
    else
      var refunded := RefundPayment(payment, eventId, reply);
      match refunded.0
      case Err(err) => (Err(err), refunded.1)
      case Ok(updated) => (Ok(Some(Set(payload, "payment", updated))), refunded.1)
  }

  /** `cancel_registration(event_id, registration_id)`: `refundReply` answers the refund,
      `captureReplies` the captures of the promotion that follows. */
  function Cancel(s: Store, eventId: int, registrationId: nat, refundReply: GatewayReply, captureReplies: seq<GatewayReply>): Outcome<Cancellation>
    requires StoreValid(s)
    requires |captureReplies| >= |s.waitlist|
  {
    match FindRegistration(s.registrations, eventId, registrationId)
    case None => Fail(s, RegistrationNotFound)
    case Some(i) =>
      var reg := s.registrations[i];
      if reg.status == Cancelled || reg.status == NoShow then Outcome(Ok(AlreadyFinal(reg.status)), s, [])
      else CancelHeld(s, eventId, i, refundReply, captureReplies)
  }

  /** The registration at `i` marked `cancelled`, with its metadata replaced when the refund
      step updated it. */
  function CancelledAt(s: Store, i: nat, newDoc: Option<Json>): (r: Store)
    requires i < |s.registrations|
    ensures r.events == s.events && r.waitlist == s.waitlist && r.penalties == s.penalties
    ensures r.attendance == s.attendance && r.nextId == s.nextId
    ensures |r.registrations| == |s.registrations|
    ensures r.registrations[i].status == Cancelled && r.registrations[i].id == s.registrations[i].id
    ensures newDoc.None? ==> r.registrations[i].metadata == s.registrations[i].metadata
    ensures forall k :: 0 <= k < |s.registrations| && k != i ==> r.registrations[k] == s.registrations[k]
  {
    var reg := s.registrations[i];
    var metadata := if newDoc.Some? then Document(newDoc.value) else reg.metadata;
    s.(registrations := s.registrations[i := reg.(status := Cancelled, metadata := metadata)])
  }

  /** `cancel_registration` for a registration that still holds a seat: refund, cancel, promote;
      a failure in the refund or in a capture of the promotion rolls everything back. */
  function CancelHeld(s: Store, eventId: int, i: nat, refundReply: GatewayReply, captureReplies: seq<GatewayReply>): Outcome<Cancellation>
    requires StoreValid(s)
    requires i < |s.registrations| && s.registrations[i].eventId == eventId
    requires |captureReplies| >= |s.waitlist|
  {
    var reg := s.registrations[i];
    var refund := RefundStep(MetadataAsDict(reg.metadata), eventId, refundReply);
    match refund.0
    case Err(err) => Outcome(Err(err), s, refund.1)
    case Ok(newDoc) =>
      var promoted := Promote(CancelledAt(s, i, newDoc), s.events[eventId], captureReplies);
      match promoted.result
      case Err(err) => Outcome(Err(err), s, refund.1 + promoted.calls)
      case Ok(regs) => Outcome(Ok(CancelledNow(regs)), promoted.store, refund.1 + promoted.calls)
  }

  /** The JSON payload of a cancellation, with the promoted registrations by id. */
  function CancellationPayload(c: Cancellation): (r: Json)
    ensures r.Obj? && Has(r, "status")
    ensures Has(r, "promoted") <==> c.CancelledNow? && c.promoted != []
  {
    match c
    case AlreadyFinal(status) =>
      SetFieldKeys([], "status", Str(StatusName(status)));
      Set(Obj([]), "status", Str(StatusName(status)))
    case CancelledNow(promoted) =>
      SetFieldKeys([], "status", Str("cancelled"));
      var payload := Set(Obj([]), "status", Str("cancelled"));
      if promoted == [] then payload
      else
        var ids := Arr(seq(|promoted|, k requires 0 <= k < |promoted| => Int(promoted[k].id)));
        SetFieldKeys(payload.fields, "promoted", ids);
        Set(payload, "promoted", ids)
  }

  function StatusName(status: Status): string {
    match status
    case Confirmed => "confirmed"
    case CheckedIn => "checked_in"
    case Cancelled => "cancelled"
    case NoShow => "no_show"
  }

  // ---------------------------------------------------------------------------------------
  // check_in_attendee
  // ---------------------------------------------------------------------------------------

  /** `_serialize_attendance`: the registration and its attendance record, if any. */
  datatype AttendanceView = AttendanceView(registration: Registration, record: Option<Attendance>)

  function RecordOf(s: Store, id: nat): Option<Attendance> {
    if id in s.attendance then Some(s.attendance[id]) else None
  }

  /** `method or "qr"`. */
  function CheckInMethod(methodName: Option<string>): (r: string)
    ensures r != ""
    ensures methodName.Some? && methodName.value != "" ==> r == methodName.value
  {
    if methodName.Some? && methodName.value != "" then methodName.value else "qr"
  }

  /** `check_in_attendee(token, method=..., metadata=...)` at instant `now`. */
  function CheckIn(s: Store, token: nat, methodName: Option<string>, metadata: seq<(string, Json)>, now: DateTime): Outcome<AttendanceView> {
    match FindToken(s.registrations, token)
    case None => Fail(s, InvalidToken)
    case Some(i) =>
      var reg := s.registrations[i];
      if reg.status == Cancelled then Fail(s, CheckInCancelled)
      else if reg.status == NoShow then Fail(s, CheckInNoShow)
      else if reg.status == CheckedIn then Outcome(Ok(AttendanceView(reg, RecordOf(s, reg.id))), s, [])
      else
        var record := Attendance(now, CheckInMethod(methodName), Obj(metadata));
        var reg' := reg.(status := CheckedIn);
        Outcome(Ok(AttendanceView(reg', Some(record))),
                s.(registrations := s.registrations[i := reg'], attendance := s.attendance[reg.id := record]), [])
  }

  // ---------------------------------------------------------------------------------------
  // detect_no_shows
  // ---------------------------------------------------------------------------------------

  const NoShowReason: string := "Absence non signalée"

  /** A registration the sweep marks: for the event, still `confirmed`, never checked in. */
  predicate Absent(r: Registration, eventId: int, attendance: map<nat, Attendance>) {
    r.eventId == eventId && r.status == Confirmed && r.id !in attendance
  }

  function MarkAbsent(r: Registration, eventId: int, attendance: map<nat, Attendance>): Registration {
    if Absent(r, eventId, attendance) then r.(status := NoShow) else r
  }

  /** The registrations after the sweep: each absent one becomes `no_show`. */
  function MarkedAbsent(regs: seq<Registration>, eventId: int, attendance: map<nat, Attendance>): (r: seq<Registration>)
    ensures |r| == |regs|
    ensures forall k :: 0 <= k < |regs| ==> r[k] == MarkAbsent(regs[k], eventId, attendance)
  {
    seq(|regs|, k requires 0 <= k < |regs| => MarkAbsent(regs[k], eventId, attendance))
  }

  /** The penalties the sweep adds, one per absent registration, in registration order. */
  function AbsentPenalties(regs: seq<Registration>, eventId: int, attendance: map<nat, Attendance>, expiry: DateTime): (ps: seq<Penalty>)
    ensures |ps| <= |regs|
  {
    if regs == [] then []
    else
      var last := regs[|regs| - 1];
      AbsentPenalties(regs[..|regs| - 1], eventId, attendance, expiry)
        + (if Absent(last, eventId, attendance) then [Penalty(last.email, eventId, NoShowReason, Some(expiry))] else [])
  }

  /** `detect_no_shows(event_id, current_date=today)`: the penalties it creates. */
  function DetectNoShows(s: Store, eventId: int, today: Date): Outcome<seq<Penalty>>
    requires StoreValid(s)
  {
    if eventId !in s.events then Fail(s, EventNotFound)
    else
      var e := s.events[eventId];
      if !Before(e.eventDate, today) then Outcome(Ok([]), s, [])
      else match AddDays(e.eventDate, 30)
        case None => Fail(s, DateOverflow)
        case Some(d) =>
          var expiry := Midnight(d);
          var ps := AbsentPenalties(s.registrations, eventId, s.attendance, expiry);
          var regs := MarkedAbsent(s.registrations, eventId, s.attendance);
          Outcome(Ok(ps), s.(registrations := regs, penalties := s.penalties + ps), [])
  }

  // ---------------------------------------------------------------------------------------
  // send_reminders
  // ---------------------------------------------------------------------------------------

  datatype Reminder = Reminder(eventId: int, email: string, eventDate: string)

  /** The rows the reminder query selects: today <= event date <= threshold, registrations open. */
  predicate InReminderWindow(e: Event, today: Date, threshold: Date) {
    OnOrBefore(today, e.eventDate) && OnOrBefore(e.eventDate, threshold) && e.registrationOpen
  }

  /** The reminders for one event: its `confirmed` registrations, in registration order. */
  function EventReminders(e: Event, regs: seq<Registration>): seq<Reminder>
    requires ValidDate(e.eventDate)
  {
    if regs == [] then []
    else
      var last := regs[|regs| - 1];
      EventReminders(e, regs[..|regs| - 1])
        + (if last.eventId == e.id && last.status == Confirmed then [Reminder(e.id, last.email, FormatIso(e.eventDate))] else [])
  }

  /** The reminders for the events listed in `order` (the order the database returns them in). */
  function RemindersFor(s: Store, order: seq<int>, today: Date, threshold: Date): seq<Reminder>
    requires StoreValid(s)
    requires forall k :: 0 <= k < |order| ==> order[k] in s.events
  {
    if order == [] then []
    else
      var id := order[|order| - 1];
      assert id in s.events;
      var e := s.events[id];
      assert ValidDate(e.eventDate);
      RemindersFor(s, order[..|order| - 1], today, threshold)
        + (if InReminderWindow(e, today, threshold) then EventReminders(e, s.registrations) else [])
  }

  /** `order` lists every stored event exactly once: the table the reminder query reads, in
      the order the database returns its rows. */
  predicate ListsEvents(events: map<int, Event>, order: seq<int>) {
    && (forall k :: 0 <= k < |order| ==> order[k] in events)
    && (forall id :: id in events ==> id in order)
    && (forall i, j :: 0 <= i < j < |order| ==> order[i] != order[j])
  }

  /** `send_reminders(within_days)` on day `today`: the threshold `today + within_days` days
      (`OverflowError` outside the years 1 to 9999), then the reminders of the events the query
      selects, scanning the whole table in `order`. */
  function SendReminders(s: Store, order: seq<int>, today: Date, withinDays: int): Result<seq<Reminder>, RegistrationError>
    requires StoreValid(s) && ValidDate(today)
    requires ListsEvents(s.events, order)
  {
    match ShiftDays(today, withinDays)
    case None => Err(DateOverflow)
    case Some(threshold) => Ok(RemindersFor(s, order, today, threshold))
  }
}
