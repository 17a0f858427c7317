/** `RegistrationService` as an object: the tables it reads and writes through its database
    session are fields, each operation is a method that updates them step by step as the
    service does, and each method is proved to leave exactly the state (and return exactly the
    result) that the corresponding function of `Registrations` describes. `gatewayCalls` logs
    the requests sent to the payment service; a rollback restores the tables but cannot take
    back a request that has already gone out. */
module RegistrationEngine {
  import opened Wrappers
  import opened JsonValue
  import opened Dates
  import opened Registrations
  import opened RegistrationProperties

  /** What is left of a promotion run once `done` entries have been promoted with the requests
      `calls`, given the outcome `rest` of the remaining entries: a failure rolls back to
      `start`. */
  function Resume(start: Store, done: seq<Registration>, calls: seq<GatewayCall>, rest: Outcome<seq<Registration>>): Outcome<seq<Registration>> {
    match rest.result
    case Err(err) => Outcome(Err(err), start, calls + rest.calls)
    case Ok(regs) => Outcome(Ok(done + regs), rest.store, calls + rest.calls)
  }

  /** Nothing promoted yet: the run is the whole loop. */
  lemma ResumeStart(start: Store, e: Event, entries: seq<WaitlistEntry>, pricing: Option<Pricing>, replies: seq<GatewayReply>)
    requires |replies| >= |entries|
    ensures PromoteEntries(start, e, entries, pricing, replies) == Resume(start, [], [], PromoteEntries(start, e, entries, pricing, replies))
  {
    var o := PromoteEntries(start, e, entries, pricing, replies);
    PromoteEntriesRollback(start, e, entries, pricing, replies);
    assert [] + o.calls == o.calls;
    if o.result.Ok? {
      assert [] + o.result.value == o.result.value;
    }
  }

  lemma AppendAssoc<T>(a: seq<T>, b: seq<T>, c: seq<T>)
    ensures a + (b + c) == (a + b) + c
  {
  }

  lemma StoredDateValid(s: Store, id: int)
    requires StoreValid(s) && id in s.events
    ensures ValidDate(s.events[id].eventDate)
  {
  }

  lemma AppendEmpty<T>(a: seq<T>)
    ensures a + [] == a
  {
  }

  /** One more entry promoted: a failed capture ends the run rolled back to `start`, a
      successful one moves the entry into `done`. */
  lemma ResumeStep(start: Store, here: Store, e: Event, entries: seq<WaitlistEntry>, pricing: Option<Pricing>,
                   replies: seq<GatewayReply>, done: seq<Registration>, calls: seq<GatewayCall>)
    requires entries != [] && |replies| >= |entries|
    ensures var paid := PromoteOne(here, e, entries[0], pricing, replies[0]);
      var whole := Resume(start, done, calls, PromoteEntries(here, e, entries, pricing, replies));
      && (paid.0.Err? ==> whole == Outcome(Err(paid.0.error), start, calls + paid.1))
      && (paid.0.Ok? ==> whole == Resume(start, done + [paid.0.value], calls + paid.1,
                                         PromoteEntries(Promoted(here, paid.0.value, entries[0]), e, entries[1..], pricing, replies[1..])))
  {
    var paid := PromoteOne(here, e, entries[0], pricing, replies[0]);
    if paid.0.Ok? {
      var r := paid.0.value;
      var rest := PromoteEntries(Promoted(here, r, entries[0]), e, entries[1..], pricing, replies[1..]);
      if rest.result.Ok? {
        assert PromoteEntries(here, e, entries, pricing, replies) == Outcome(Ok([r] + rest.result.value), rest.store, paid.1 + rest.calls);
        AppendAssoc(done, [r], rest.result.value);
      } else {
        assert PromoteEntries(here, e, entries, pricing, replies) == Outcome(Err(rest.result.error), here, paid.1 + rest.calls);
      }
      AppendAssoc(calls, paid.1, rest.calls);
    }
  }

  /** The reminders for one event, collected by scanning the registrations in order. */
  method CollectEventReminders(e: Event, regs: seq<Registration>) returns (reminders: seq<Reminder>)
    requires ValidDate(e.eventDate)
    ensures reminders == EventReminders(e, regs)
  {
    reminders := [];
    var j := 0;
    while j < |regs|
      invariant 0 <= j <= |regs|
      invariant reminders == EventReminders(e, regs[..j])
    {
      assert regs[..j + 1][..j] == regs[..j];
      if regs[j].eventId == e.id && regs[j].status == Confirmed {
        reminders := reminders + [Reminder(e.id, regs[j].email, FormatIso(e.eventDate))];
      }
      j := j + 1;
    }
    assert regs[..j] == regs;
  }

  /** The sweep's loop: each absent registration of the event becomes `no_show` and gets a
      penalty expiring at `expiry`, in registration order. */
  method MarkNoShows(regs: seq<Registration>, eventId: int, attendance: map<nat, Attendance>, expiry: DateTime)
    returns (marked: seq<Registration>, penalized: seq<Penalty>)
    ensures |marked| == |regs|
    ensures forall j :: 0 <= j < |regs| ==> marked[j] == MarkAbsent(regs[j], eventId, attendance)
    ensures penalized == AbsentPenalties(regs, eventId, attendance, expiry)
  {
    marked := regs;
    penalized := [];
    var k := 0;
    while k < |regs|
      invariant |marked| == |regs| && 0 <= k <= |regs|
      invariant forall j :: 0 <= j < k ==> marked[j] == MarkAbsent(regs[j], eventId, attendance)
      invariant forall j :: k <= j < |regs| ==> marked[j] == regs[j]
      invariant penalized == AbsentPenalties(regs[..k], eventId, attendance, expiry)
    {
      var reg := marked[k];
      assert regs[..k + 1][..k] == regs[..k];
      if reg.eventId == eventId && reg.status == Confirmed && reg.id !in attendance {
        marked := marked[k := reg.(status := NoShow)];
        penalized := penalized + [Penalty(reg.email, eventId, NoShowReason, Some(expiry))];
      }
      k := k + 1;
    }
    assert regs[..k] == regs;
  }

  class RegistrationService {
    var events: map<int, Event>
    var registrations: seq<Registration>
    var waitlist: seq<WaitlistEntry>
    var penalties: seq<Penalty>
    var attendance: map<nat, Attendance>
    var nextId: nat
    var gatewayCalls: seq<GatewayCall>

    /** The tables as one value. */
    function Snapshot(): Store
      reads this
    {
      Store(events, registrations, waitlist, penalties, attendance, nextId)
    }

    predicate Valid()
      reads this
    {
      StoreValid(Snapshot())
    }

    /** A service over the given events, with empty tables. */
    constructor(events: map<int, Event>)
      requires forall id :: id in events ==> events[id].id == id && events[id].attendees >= 0 && ValidDate(events[id].eventDate)
      ensures Valid()
      ensures Snapshot() == Store(events, [], [], [], map[], 0) && gatewayCalls == []
    {
      this.events := events;
      registrations := [];
      waitlist := [];
      penalties := [];
      attendance := map[];
      nextId := 0;
      gatewayCalls := [];
    }

    /** `session.rollback()`: the tables go back to `st`; the request log stays. */
    method Restore(st: Store)
      modifies this
      ensures Snapshot() == st && gatewayCalls == old(gatewayCalls)
    {
      events := st.events;
      registrations := st.registrations;
      waitlist := st.waitlist;
      penalties := st.penalties;
      attendance := st.attendance;
      nextId := st.nextId;
    }

    /** `register_attendee(event_id, email=..., full_name=..., metadata=...)` at instant `now`,
        with `reply` the payment service's answer to a capture. */
    method RegisterAttendee(eventId: int, email: Json, fullName: Option<string>, metadata: seq<(string, Json)>,
                            now: DateTime, reply: GatewayReply) returns (r: Result<Admission, RegistrationError>)
      requires Valid()
      modifies this
      ensures var o := Register(old(Snapshot()), eventId, email, fullName, metadata, now, reply);
        r == o.result && Snapshot() == o.store && gatewayCalls == old(gatewayCalls) + o.calls
      ensures Valid()
    {
      RegisterKeepsValid(Snapshot(), eventId, email, fullName, metadata, now, reply);
      AppendEmpty(gatewayCalls);
      var start := Snapshot();
      if eventId !in events {
        return Err(EventNotFound);
      }
      var e := events[eventId];
      var screened := Screen(start, eventId, e, email, now);
      if screened.Err? {
        return Err(screened.error);
      }
      r := AdmitAttendee(eventId, e, screened.value, fullName, metadata, reply);
    }

    /** The second half of `register_attendee`, once the checks have passed: a confirmed
        registration (paid if the event is priced) when there is room, a waitlist entry
        otherwise. */
    method AdmitAttendee(eventId: int, e: Event, clean: string, fullName: Option<string>, metadata: seq<(string, Json)>,
                         reply: GatewayReply) returns (r: Result<Admission, RegistrationError>)
      modifies this
      ensures var o := Admit(old(Snapshot()), eventId, e, clean, fullName, metadata, reply);
        r == o.result && Snapshot() == o.store && gatewayCalls == old(gatewayCalls) + o.calls
    {
      if !HasRoom(Snapshot(), eventId, e) {
        AppendEmpty(gatewayCalls);
        var entry := WaitlistEntry(nextId, eventId, clean, fullName);
        waitlist := waitlist + [entry];
        nextId := nextId + 1;
        return Ok(Waitlisted(entry));
      }
      r := AdmitWithRoom(eventId, e, clean, fullName, metadata, reply);
    }

    /** The branch of `register_attendee` for an event with room: the new registration, and the
        payment captured for it when the event is priced. */
    method AdmitWithRoom(eventId: int, e: Event, clean: string, fullName: Option<string>, metadata: seq<(string, Json)>,
                         reply: GatewayReply) returns (r: Result<Admission, RegistrationError>)
      requires HasRoom(Snapshot(), eventId, e)
      modifies this
      ensures var o := Admit(old(Snapshot()), eventId, e, clean, fullName, metadata, reply);
        r == o.result && Snapshot() == o.store && gatewayCalls == old(gatewayCalls) + o.calls
    {
      AppendEmpty(gatewayCalls);
      var start := Snapshot();
      var payload := Obj(metadata);
      var reg := NewRegistration(start, eventId, clean, fullName, payload);
      registrations := registrations + [reg];
      nextId := nextId + 1;
      var pricing := ExtractPricing(e.settings);
      AdmitWithRoomPays(start, eventId, e, clean, fullName, metadata, reply);
      if pricing.Some? {
        Log([Capture(e.id, clean, pricing.value.amount, pricing.value.currency, CaptureMetadata(payload, reg.id, e.title))]);
        var record := CaptureRecord(pricing.value, reply);
        if record.Err? {
          Restore(start);
          return Err(record.error);
        }
        reg := reg.(metadata := Document(Set(payload, "payment", record.value)));
        registrations := start.registrations + [reg];
      }
      return Ok(Admitted(reg));
    }

    /** `_promote_waitlist_if_possible(event)`, with `replies[i]` the payment service's answer
        for the i-th promoted entry. */
    method PromoteWaitlist(e: Event, replies: seq<GatewayReply>) returns (r: Result<seq<Registration>, RegistrationError>)
      requires |replies| >= |waitlist|
      modifies this
      ensures var o := Promote(old(Snapshot()), e, replies);
        r == o.result && Snapshot() == o.store && gatewayCalls == old(gatewayCalls) + o.calls
    {
      var start := Snapshot();
      var free := FreeSeats(start, e);
      if free == 0 {
        return Ok([]);
      }
      var entries := Take(Waiting(waitlist, e.id), free);
      var pricing := ExtractPricing(e.settings);
      var done: seq<Registration> := [];
      ghost var calls: seq<GatewayCall> := [];
      ghost var log0 := gatewayCalls;
      assert log0 + [] == log0;
      ResumeStart(start, e, entries, pricing, replies);
      var i := 0;
      while i < |entries|
        invariant 0 <= i <= |entries| <= |replies|
        invariant gatewayCalls == log0 + calls
        invariant PromoteEntries(start, e, entries, pricing, replies)
          == Resume(start, done, calls, PromoteEntries(Snapshot(), e, entries[i..], pricing, replies[i..]))
      {
        var entry := entries[i];
        ResumeStep(start, Snapshot(), e, entries[i..], pricing, replies[i..], done, calls);
        assert entries[i..][0] == entry && replies[i..][0] == replies[i];
        assert entries[i..][1..] == entries[i + 1..] && replies[i..][1..] == replies[i + 1..];
        var paid := PromoteOne(Snapshot(), e, entry, pricing, replies[i]);
        AppendAssoc(log0, calls, paid.1);
        Log(paid.1);
        if paid.0.Err? {
          Restore(start);
          return Err(paid.0.error);
        }
        AddPromoted(paid.0.value, entry);
        done := done + [paid.0.value];
        calls := calls + paid.1;
        i := i + 1;
      }
      assert entries[i..] == [];
      assert PromoteEntries(Snapshot(), e, [], pricing, replies[i..]) == Outcome(Ok([]), Snapshot(), []);
      assert done + [] == done && calls + [] == calls;
      return Ok(done);
    }

    /** A request sent to the payment service. */
    method Log(calls: seq<GatewayCall>)
      modifies this
      ensures Snapshot() == old(Snapshot()) && gatewayCalls == old(gatewayCalls) + calls
    {
      gatewayCalls := gatewayCalls + calls;
    }

    /** One turn of the promotion loop that succeeded: the registration is added and the
        entry deleted from the waitlist. */
    method AddPromoted(r: Registration, entry: WaitlistEntry)
      modifies this
      ensures Snapshot() == Promoted(old(Snapshot()), r, entry) && gatewayCalls == old(gatewayCalls)
    {
      registrations := registrations + [r];
      waitlist := RemoveEntry(waitlist, entry.id);
      nextId := nextId + 1;
    }

    /** `trigger_waitlist_promotion(event_id)`. */
    method TriggerWaitlistPromotion(eventId: int, replies: seq<GatewayReply>) returns (r: Result<seq<Registration>, RegistrationError>)
      requires Valid() && |replies| >= |waitlist|
      modifies this
      ensures var o := TriggerPromotion(old(Snapshot()), eventId, replies);
        r == o.result && Snapshot() == o.store && gatewayCalls == old(gatewayCalls) + o.calls
      ensures Valid()
    {
      TriggerPromotionKeepsValid(Snapshot(), eventId, replies);
      if eventId !in events {
        return Err(EventNotFound);
      }
      r := PromoteWaitlist(events[eventId], replies);
    }

    /** `cancel_registration(event_id, registration_id)`, with `refundReply` the payment
        service's answer to a refund and `captureReplies` its answers during promotion. */
    method CancelRegistration(eventId: int, registrationId: nat, refundReply: GatewayReply, captureReplies: seq<GatewayReply>)
      returns (r: Result<Cancellation, RegistrationError>)
      requires Valid() && |captureReplies| >= |waitlist|
      modifies this
      ensures var o := Cancel(old(Snapshot()), eventId, registrationId, refundReply, captureReplies);
        r == o.result && Snapshot() == o.store && gatewayCalls == old(gatewayCalls) + o.calls
      ensures Valid()
    {
      CancelKeepsValid(Snapshot(), eventId, registrationId, refundReply, captureReplies);
      AppendEmpty(gatewayCalls);
      var found := FindRegistration(registrations, eventId, registrationId);
      if found.None? {
        return Err(RegistrationNotFound);
      }
      var reg := registrations[found.value];
      if reg.status == Cancelled || reg.status == NoShow {
        return Ok(AlreadyFinal(reg.status));
      }
      r := CancelActive(eventId, found.value, refundReply, captureReplies);
    }

    /** The cancellation of a registration that still holds its seat: mark it cancelled,
        refund a captured payment, then promote from the waitlist; a failed refund or capture
        rolls everything back. */
    method CancelActive(eventId: int, i: nat, refundReply: GatewayReply, captureReplies: seq<GatewayReply>)
      returns (r: Result<Cancellation, RegistrationError>)
      requires Valid() && i < |registrations| && registrations[i].eventId == eventId && |captureReplies| >= |waitlist|
      modifies this
      ensures var o := CancelHeld(old(Snapshot()), eventId, i, refundReply, captureReplies);
        r == o.result && Snapshot() == o.store && gatewayCalls == old(gatewayCalls) + o.calls
    {
      var before := Snapshot();
      ghost var log0 := gatewayCalls;
      var reg := registrations[i];
      var payload := MetadataAsDict(reg.metadata);
      registrations := registrations[i := reg.(status := Cancelled)];
      var refund := RefundStep(payload, eventId, refundReply);
      Log(refund.1);
      if refund.0.Err? {
        Restore(before);
        return Err(refund.0.error);
      }
      if refund.0.value.Some? {
        registrations := registrations[i := reg.(status := Cancelled, metadata := Document(refund.0.value.value))];
      }
      assert Snapshot() == CancelledAt(before, i, refund.0.value);
      var e := before.events[eventId];
      AppendAssoc(log0, refund.1, Promote(Snapshot(), e, captureReplies).calls);
      var promoted := PromoteWaitlist(e, captureReplies);
      if promoted.Err? {
        Restore(before);
        return Err(promoted.error);
      }
      return Ok(CancelledNow(promoted.value));
    }

    /** `check_in_attendee(token, method=..., metadata=...)` at instant `now`. */
    method CheckInAttendee(token: nat, methodName: Option<string>, metadata: seq<(string, Json)>, now: DateTime)
      returns (r: Result<AttendanceView, RegistrationError>)
      requires Valid()
      modifies this
      ensures var o := CheckIn(old(Snapshot()), token, methodName, metadata, now);
        r == o.result && Snapshot() == o.store && gatewayCalls == old(gatewayCalls)
      ensures Valid()
    {
      CheckInKeepsValid(Snapshot(), token, methodName, metadata, now);
      var found := FindToken(registrations, token);
      if found.None? {
        return Err(InvalidToken);
      }
      var i := found.value;
      var reg := registrations[i];
      if reg.status == Cancelled {
        return Err(CheckInCancelled);
      }
      if reg.status == NoShow {
        return Err(CheckInNoShow);
      }
      if reg.status == CheckedIn {
        return Ok(AttendanceView(reg, RecordOf(Snapshot(), reg.id)));
      }
      var record := Attendance(now, CheckInMethod(methodName), Obj(metadata));
      attendance := attendance[reg.id := record];
      reg := reg.(status := CheckedIn);
      registrations := registrations[i := reg];
      return Ok(AttendanceView(reg, Some(record)));
    }

    /** `detect_no_shows(event_id, current_date=today)`. */
    method DetectNoShows(eventId: int, today: Date) returns (r: Result<seq<Penalty>, RegistrationError>)
      requires Valid()
      modifies this
      ensures var o := Registrations.DetectNoShows(old(Snapshot()), eventId, today);
        r == o.result && Snapshot() == o.store && gatewayCalls == old(gatewayCalls)
      ensures Valid()
    {
      SweepKeepsValid(Snapshot(), eventId, today);
      if eventId !in events {
        return Err(EventNotFound);
      }
      var e := events[eventId];
      if !Before(e.eventDate, today) {
        return Ok([]);
      }
      var last := AddDays(e.eventDate, 30);
      if last.None? {
        return Err(DateOverflow);
      }
      var expiry := Midnight(last.value);
      var marked, penalized := MarkNoShows(registrations, eventId, attendance, expiry);
      registrations := marked;
      penalties := penalties + penalized;
      return Ok(penalized);
    }

    /** `send_reminders(within_days)` on day `today`; `order` lists every event id once, in the
        order the database returns them. Nothing is written. */
    method SendReminders(order: seq<int>, today: Date, withinDays: int) returns (r: Result<seq<Reminder>, RegistrationError>)
      requires Valid() && ValidDate(today)
      requires ListsEvents(events, order)
      ensures r == Registrations.SendReminders(Snapshot(), order, today, withinDays)
    {
      var end := ShiftDays(today, withinDays);
      if end.None? {
        return Err(DateOverflow);
      }
      var threshold := end.value;
      var s := Snapshot();
      assert StoreValid(s) && s.events == events;
      var reminders: seq<Reminder> := [];
      var k := 0;
      while k < |order|
        invariant 0 <= k <= |order|
        invariant StoreValid(s) && s.events == events
        invariant reminders == RemindersFor(s, order[..k], today, threshold)
      {
        var e := s.events[order[k]];
        StoredDateValid(s, order[k]);
        assert order[..k + 1][..k] == order[..k];
        if InReminderWindow(e, today, threshold) {
          var forEvent := CollectEventReminders(e, registrations);
          reminders := reminders + forEvent;
        }
        k := k + 1;
      }
      assert order[..k] == order;
      return Ok(reminders);
    }
  }
}
