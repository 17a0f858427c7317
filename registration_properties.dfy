/** What `RegistrationService` guarantees, stated over the functions of `Registrations`: the
    fail-fast order of `register_attendee`, the admission decision and the capacity invariant,
    payment capture and refund, first-in-first-out promotion, idempotent check-in, the no-show
    sweep, the reminder selection, and the store invariant every operation keeps. */
module RegistrationProperties {
  import opened Wrappers
  import opened Text
  import opened JsonValue
  import opened Dates
  import opened Registrations

  // ---------------------------------------------------------------------------------------
  // Counting and list helpers
  // ---------------------------------------------------------------------------------------

  /** 1 when `r` occupies a seat of event `eventId`. */
  function SeatOf(r: Registration, eventId: int): nat {
    if r.eventId == eventId && r.status.HoldsSeat() then 1 else 0
  }

  lemma SeatsAppend(regs: seq<Registration>, r: Registration, eventId: int)
    ensures Seats(regs + [r], eventId) == Seats(regs, eventId) + SeatOf(r, eventId)
  {
    assert (regs + [r])[..|regs|] == regs;
  }

  lemma AppendOne<T>(a: seq<T>, x: T, b: seq<T>)
    ensures (a + [x]) + b == a + ([x] + b)
  {
  }

  lemma SliceOfTail<T>(q: seq<T>, n: nat)
    requires 1 <= n <= |q|
    ensures q[1..][..n - 1] == q[1..n]
    ensures q[1..][n - 1..] == q[n..]
  {
  }

  /** Replacing one registration changes the count by the difference of the two seats. */
  lemma {:induction false} SeatsUpdate(regs: seq<Registration>, i: nat, x: Registration, eventId: int)
    requires i < |regs|
    ensures Seats(regs[i := x], eventId) + SeatOf(regs[i], eventId) == Seats(regs, eventId) + SeatOf(x, eventId)
    decreases |regs|
  {
    var n := |regs| - 1;
    if i == n {
      assert regs[i := x][..n] == regs[..n];
    } else {
      assert regs[i := x][..n] == regs[..n][i := x];
      SeatsUpdate(regs[..n], i, x, eventId);
    }
  }

  /** Appending registrations that all hold a seat of the event adds one seat each. */
  lemma {:induction false} SeatsAppendHolders(regs: seq<Registration>, more: seq<Registration>, eventId: int)
    requires forall k :: 0 <= k < |more| ==> more[k].eventId == eventId && more[k].status == Confirmed
    ensures Seats(regs + more, eventId) == Seats(regs, eventId) + |more|
    decreases |more|
  {
    if more != [] {
      var n := |more| - 1;
      assert regs + more == (regs + more[..n]) + [more[n]];
      SeatsAppendHolders(regs, more[..n], eventId);
      SeatsAppend(regs + more[..n], more[n], eventId);
    } else {
      assert regs + more == regs;
    }
  }

  /** Appending registrations of other events leaves the count of `eventId` alone. */
  lemma {:induction false} SeatsAppendOthers(regs: seq<Registration>, more: seq<Registration>, eventId: int)
    requires forall k :: 0 <= k < |more| ==> more[k].eventId != eventId
    ensures Seats(regs + more, eventId) == Seats(regs, eventId)
    decreases |more|
  {
    if more != [] {
      var n := |more| - 1;
      assert regs + more == (regs + more[..n]) + [more[n]];
      SeatsAppendOthers(regs, more[..n], eventId);
      SeatsAppend(regs + more[..n], more[n], eventId);
    } else {
      assert regs + more == regs;
    }
  }

  /** `_normalize_email` is idempotent: its result is already normalised. */
  lemma NormalizeEmailIdempotent(email: Json)
    requires NormalizeEmail(email).Some?
    ensures Normalized(NormalizeEmail(email).value)
  {
    var x := NormalizeEmail(email).value;
    var t := Strip(email.s);
    assert x == Lower(t);
    StripNoEdges(x);
    LowerIdempotent(t);
  }

  // ---------------------------------------------------------------------------------------
  // register_attendee
  // ---------------------------------------------------------------------------------------

  /** `register_attendee` checks, in this order and before writing anything: registration is
      open, the email is valid, no penalty is active, the attendee holds no registration and no
      waitlist entry for the event. */
  lemma ScreenOrder(s: Store, eventId: int, e: Event, email: Json, now: DateTime)
    ensures var r := Screen(s, eventId, e, email, now);
      && (!RegistrationIsOpen(e, now) ==> r == Err(RegistrationClosed))
      && (RegistrationIsOpen(e, now) && NormalizeEmail(email).None? ==> r == Err(InvalidEmail))
      && (RegistrationIsOpen(e, now) && NormalizeEmail(email).Some? ==>
            var clean := NormalizeEmail(email).value;
            && (HasActivePenalty(s, clean, now) ==> r == Err(PenaltyActive))
            && (!HasActivePenalty(s, clean, now) && HoldsRegistration(s, eventId, clean) ==> r == Err(AlreadyRegistered))
            && (!HasActivePenalty(s, clean, now) && !HoldsRegistration(s, eventId, clean) && OnWaitlist(s, eventId, clean) ==>
                  r == Err(AlreadyWaitlisted))
            && (!HasActivePenalty(s, clean, now) && !HoldsRegistration(s, eventId, clean) && !OnWaitlist(s, eventId, clean) ==>
                  r == Ok(clean)))
  {
  }

  /** A failed registration writes nothing: an unknown event or a failed check leaves the store
      as it was without calling the payment service, and a failed capture is rolled back. */
  lemma RegisterFailsFast(s: Store, eventId: int, email: Json, fullName: Option<string>, metadata: seq<(string, Json)>, now: DateTime, reply: GatewayReply)
    ensures var o := Register(s, eventId, email, fullName, metadata, now, reply);
      && (eventId !in s.events ==> o.result == Err(EventNotFound))
      && (eventId in s.events && Screen(s, eventId, s.events[eventId], email, now).Err? ==>
            o.result == Err(Screen(s, eventId, s.events[eventId], email, now).error) && o.calls == [])
      && (o.result.Err? ==> o.store == s)
  {
    if eventId in s.events {
      var e := s.events[eventId];
      var screen := Screen(s, eventId, e, email, now);
      if screen.Ok? {
        var o := Admit(s, eventId, e, screen.value, fullName, metadata, reply);
        assert Register(s, eventId, email, fullName, metadata, now, reply) == o;
        assert o.result.Err? ==> o.store == s by {
          AdmitPaymentFails(s, eventId, e, screen.value, fullName, metadata, reply);
        }
      }
    }
  }

  /** The admission decision: a `confirmed` registration with a fresh id and token is created
      exactly when the event is unlimited (capacity 0) or has fewer seats taken than its
      capacity; otherwise one waitlist entry is created, with no payment. Exactly one row is
      added, and no other table changes. */
  lemma AdmitDecision(s: Store, eventId: int, e: Event, clean: string, fullName: Option<string>, metadata: seq<(string, Json)>, reply: GatewayReply)
    requires StoreValid(s)
    ensures var o := Admit(s, eventId, e, clean, fullName, metadata, reply);
      o.result.Ok? ==>
        && (o.result.value.Admitted? <==> e.attendees == 0 || Seats(s.registrations, eventId) < e.attendees)
        && (o.result.value.Admitted? ==>
              var r := o.result.value.registration;
              && o.store.registrations == s.registrations + [r] && o.store.waitlist == s.waitlist
              && r.status == Confirmed && r.eventId == eventId && r.email == clean && r.name == fullName
              && (forall k :: 0 <= k < |s.registrations| ==> s.registrations[k].id != r.id && s.registrations[k].token != r.token))
        && (o.result.value.Waitlisted? ==>
              var w := o.result.value.entry;
              && o.store.registrations == s.registrations && o.store.waitlist == s.waitlist + [w] && o.calls == []
              && w.eventId == eventId && w.email == clean && w.name == fullName)
        && o.store.events == s.events && o.store.penalties == s.penalties && o.store.attendance == s.attendance
  {
  }

  /** The capacity invariant for registration: with a capacity C > 0 and at most C seats taken,
      registering never takes the count above C; the counts of other events do not move. */
  lemma AdmitKeepsCapacity(s: Store, eventId: int, e: Event, clean: string, fullName: Option<string>, metadata: seq<(string, Json)>, reply: GatewayReply)
    requires StoreValid(s)
    ensures var o := Admit(s, eventId, e, clean, fullName, metadata, reply);
      && (e.attendees > 0 && Seats(s.registrations, eventId) <= e.attendees ==> Seats(o.store.registrations, eventId) <= e.attendees)
      && (forall other :: other != eventId ==> Seats(o.store.registrations, other) == Seats(s.registrations, other))
  {
    var o := Admit(s, eventId, e, clean, fullName, metadata, reply);
    AdmitDecision(s, eventId, e, clean, fullName, metadata, reply);
    if o.result.Ok? && o.result.value.Admitted? {
      forall other {
        SeatsAppend(s.registrations, o.result.value.registration, other);
      }
      SeatsAppend(s.registrations, o.result.value.registration, eventId);
    }
  }

  /** Payment on registration: a priced admission sends one capture for the price and stores
      the capture record under `payment`; an unpriced one sends nothing. */
  lemma AdmitCharges(s: Store, eventId: int, e: Event, clean: string, fullName: Option<string>, metadata: seq<(string, Json)>, reply: GatewayReply)
    ensures var o := Admit(s, eventId, e, clean, fullName, metadata, reply);
      o.result.Ok? && o.result.value.Admitted? ==>
        var pricing := ExtractPricing(e.settings);
        var r := o.result.value.registration;
        && (pricing.None? ==> o.calls == [] && MetadataAsDict(r.metadata) == Obj(metadata))
        && (pricing.Some? ==>
              && |o.calls| == 1 && o.calls[0].Capture?
              && o.calls[0].amount == pricing.value.amount && o.calls[0].currency == pricing.value.currency
              && Get(MetadataAsDict(r.metadata), "payment") == CaptureRecord(pricing.value, reply).value)
  {
    var o := Admit(s, eventId, e, clean, fullName, metadata, reply);
    if HasRoom(s, eventId, e) {
      var payload := Obj(metadata);
      var reg := NewRegistration(s, eventId, clean, fullName, payload);
      var pricing := ExtractPricing(e.settings);
      var paid := Pay(reg, e, pricing, payload, reply);
      assert o.calls == paid.1;
      if paid.0.Ok? {
        assert o.result == Ok(Admitted(paid.0.value));
        if pricing.Some? {
          PaidRecord(reg, e, pricing.value, payload, reply);
        }
      }
    }
  }

  /** A successful capture leaves its record under `payment` in the stored metadata. */
  lemma PaidRecord(reg: Registration, e: Event, pricing: Pricing, payload: Json, reply: GatewayReply)
    requires payload.Obj?
    ensures var paid := Pay(reg, e, Some(pricing), payload, reply);
      paid.0.Ok? ==> Get(MetadataAsDict(paid.0.value.metadata), "payment") == CaptureRecord(pricing, reply).value
  {
    var paid := Pay(reg, e, Some(pricing), payload, reply);
    if paid.0.Ok? {
      var doc := Set(payload, "payment", CaptureRecord(pricing, reply).value);
      assert paid.0.value.metadata == Document(doc);
      assert Get(doc, "payment") == CaptureRecord(pricing, reply).value;
    }
  }

  /** When the capture fails (an `IntegrationError`, the breaker being open included),
      `PaymentProcessingError` is raised after one capture attempt and no registration survives;
      every failed admission leaves the store as it was. */
  lemma AdmitPaymentFails(s: Store, eventId: int, e: Event, clean: string, fullName: Option<string>, metadata: seq<(string, Json)>, reply: GatewayReply)
    ensures var o := Admit(s, eventId, e, clean, fullName, metadata, reply);
      && (HasRoom(s, eventId, e) && ExtractPricing(e.settings).Some? && reply.Failed? ==>
            o.result == Err(PaymentFailed) && o.store == s && |o.calls| == 1)
      && (o.result.Err? ==> o.store == s)
  {
    var o := Admit(s, eventId, e, clean, fullName, metadata, reply);
    if HasRoom(s, eventId, e) {
      var payload := Obj(metadata);
      var reg := NewRegistration(s, eventId, clean, fullName, payload);
      var pricing := ExtractPricing(e.settings);
      var paid := Pay(reg, e, pricing, payload, reply);
      assert o.calls == paid.1;
      if paid.0.Err? {
        assert o.result == Err(paid.0.error) && o.store == s;
      }
    }
  }

  // ---------------------------------------------------------------------------------------
  // _promote_waitlist_if_possible
  // ---------------------------------------------------------------------------------------

  /** Waitlist ids grow in creation order (`created_at`), as `StoreValid` keeps them. */
  predicate IdsIncreasing(w: seq<WaitlistEntry>) {
    forall i, j :: 0 <= i < j < |w| ==> w[i].id < w[j].id
  }

  /** Every call is a capture of `amount` for event `eventId`. */
  predicate CapturesOf(calls: seq<GatewayCall>, eventId: int, amount: real) {
    forall k :: 0 <= k < |calls| ==> calls[k].Capture? && calls[k].eventId == eventId && calls[k].amount == amount
  }

  lemma CapturesAppend(a: seq<GatewayCall>, b: seq<GatewayCall>, eventId: int, amount: real)
    requires CapturesOf(a, eventId, amount) && CapturesOf(b, eventId, amount)
    ensures CapturesOf(a + b, eventId, amount)
  {
    forall k | 0 <= k < |a + b| ensures (a + b)[k].Capture? && (a + b)[k].eventId == eventId && (a + b)[k].amount == amount {
      if k >= |a| { assert (a + b)[k] == b[k - |a|]; }
    }
  }

  lemma PromoteOneCaptures(s: Store, e: Event, entry: WaitlistEntry, pricing: Option<Pricing>, reply: GatewayReply)
    requires pricing.Some?
    ensures CapturesOf(PromoteOne(s, e, entry, pricing, reply).1, e.id, pricing.value.amount)
  {
  }

  /** A failed capture in the promotion loop leaves the store as it started; an unpriced event
      never fails and never calls the payment service. Every call is a capture of the price. */
  lemma {:induction false} PromoteEntriesRollback(s: Store, e: Event, entries: seq<WaitlistEntry>, pricing: Option<Pricing>, replies: seq<GatewayReply>)
    requires |replies| >= |entries|
    ensures var o := PromoteEntries(s, e, entries, pricing, replies);
      && (o.result.Err? ==> o.store == s && pricing.Some?)
      && (pricing.None? ==> o.calls == [])
      && (pricing.Some? ==> CapturesOf(o.calls, e.id, pricing.value.amount))
      && (pricing.Some? && o.result.Ok? ==> |o.calls| == |entries|)
    decreases |entries|
  {
    if entries != [] {
      var entry := entries[0];
      var paid := PromoteOne(s, e, entry, pricing, replies[0]);
      if paid.0.Ok? {
        var r := paid.0.value;
        var s1 := Promoted(s, r, entry);
        PromoteEntriesRollback(s1, e, entries[1..], pricing, replies[1..]);
        var rest := PromoteEntries(s1, e, entries[1..], pricing, replies[1..]);
        assert PromoteEntries(s, e, entries, pricing, replies).calls == paid.1 + rest.calls;
        if pricing.Some? {
          PromoteOneCaptures(s, e, entry, pricing, replies[0]);
          CapturesAppend(paid.1, rest.calls, e.id, pricing.value.amount);
        }
      }
    }
  }

  /** A successful promotion loop appends one registration per entry and touches no table but
      the registrations and the waitlist. */
  lemma {:induction false} PromoteEntriesAppends(s: Store, e: Event, entries: seq<WaitlistEntry>, pricing: Option<Pricing>, replies: seq<GatewayReply>)
    requires |replies| >= |entries|
    ensures var o := PromoteEntries(s, e, entries, pricing, replies);
      o.result.Ok? ==>
        && |o.result.value| == |entries|
        && o.store.registrations == s.registrations + o.result.value
        && o.store.nextId == s.nextId + |entries|
        && o.store.events == s.events && o.store.penalties == s.penalties && o.store.attendance == s.attendance
    decreases |entries|
  {
    if entries != [] {
      var paid := PromoteOne(s, e, entries[0], pricing, replies[0]);
      if paid.0.Ok? {
        var r := paid.0.value;
        var s1 := Promoted(s, r, entries[0]);
        PromoteEntriesAppends(s1, e, entries[1..], pricing, replies[1..]);
        var rest := PromoteEntries(s1, e, entries[1..], pricing, replies[1..]);
        if rest.result.Ok? {
          AppendOne(s.registrations, r, rest.result.value);
          assert PromoteEntries(s, e, entries, pricing, replies) == Outcome(Ok([r] + rest.result.value), rest.store, paid.1 + rest.calls);
        }
      }
    }
  }

  /** `regs` are, in order, `confirmed` registrations of event `eventId` for the emails and
      names of `entries`, with consecutive ids and tokens from `base`. */
  predicate PromotedFrom(regs: seq<Registration>, entries: seq<WaitlistEntry>, base: nat, eventId: int) {
    forall k :: 0 <= k < |regs| && k < |entries| ==>
      && regs[k].id == base + k && regs[k].token == base + k
      && regs[k].eventId == eventId && regs[k].status == Confirmed
      && regs[k].email == entries[k].email && regs[k].name == entries[k].name
  }

  lemma PromotedFromCons(r: Registration, rest: seq<Registration>, entries: seq<WaitlistEntry>, base: nat, eventId: int)
    requires entries != []
    requires r.id == base && r.token == base && r.eventId == eventId && r.status == Confirmed
    requires r.email == entries[0].email && r.name == entries[0].name
    requires PromotedFrom(rest, entries[1..], base + 1, eventId)
    ensures PromotedFrom([r] + rest, entries, base, eventId)
  {
    var regs := [r] + rest;
    forall k | 0 <= k < |regs| && k < |entries|
      ensures regs[k].id == base + k && regs[k].token == base + k
      ensures regs[k].eventId == eventId && regs[k].status == Confirmed
      ensures regs[k].email == entries[k].email && regs[k].name == entries[k].name
    {
      if k > 0 {
        assert regs[k] == rest[k - 1];
        assert entries[k] == entries[1..][k - 1];
      }
    }
  }

  /** The registrations a successful promotion loop creates are, in entry order, `confirmed`
      registrations of the event for the entries' emails and names, with consecutive fresh ids
      and tokens. */
  lemma {:induction false} PromoteEntriesFresh(s: Store, e: Event, entries: seq<WaitlistEntry>, pricing: Option<Pricing>, replies: seq<GatewayReply>)
    requires |replies| >= |entries|
    ensures var o := PromoteEntries(s, e, entries, pricing, replies);
      o.result.Ok? ==> PromotedFrom(o.result.value, entries, s.nextId, e.id)
    decreases |entries|
  {
    if entries != [] {
      var paid := PromoteOne(s, e, entries[0], pricing, replies[0]);
      if paid.0.Ok? {
        var r := paid.0.value;
        var s1 := Promoted(s, r, entries[0]);
        assert s1.nextId == s.nextId + 1;
        PromoteEntriesFresh(s1, e, entries[1..], pricing, replies[1..]);
        var rest := PromoteEntries(s1, e, entries[1..], pricing, replies[1..]);
        if rest.result.Ok? {
          assert PromoteEntries(s, e, entries, pricing, replies) == Outcome(Ok([r] + rest.result.value), rest.store, paid.1 + rest.calls);
          PromotedFromCons(r, rest.result.value, entries, s.nextId, e.id);
        }
      }
    }
  }

  /** Removing an id no entry has changes nothing. */
  lemma {:induction false} RemoveAbsent(w: seq<WaitlistEntry>, id: nat)
    requires forall k :: 0 <= k < |w| ==> w[k].id != id
    ensures RemoveEntry(w, id) == w
  {
    if w != [] {
      RemoveAbsent(w[1..], id);
    }
  }

  /** Deleting entries keeps the waitlist in creation order. */
  lemma {:induction false} RemoveKeepsOrder(w: seq<WaitlistEntry>, id: nat)
    requires IdsIncreasing(w)
    ensures IdsIncreasing(RemoveEntry(w, id))
  {
    if w != [] {
      var tail := w[1..];
      assert IdsIncreasing(tail) by {
        forall i, j | 0 <= i < j < |tail| ensures tail[i].id < tail[j].id {
          assert tail[i] == w[i + 1] && tail[j] == w[j + 1];
        }
      }
      RemoveKeepsOrder(tail, id);
      var rest := RemoveEntry(tail, id);
      if w[0].id != id {
        assert RemoveEntry(w, id) == [w[0]] + rest;
        forall k | 0 <= k < |rest| ensures w[0].id < rest[k].id {
          var m :| 0 <= m < |tail| && tail[m] == rest[k];
          assert tail[m] == w[m + 1];
        }
        ConsIncreasing(w[0], rest);
      } else {
        assert RemoveEntry(w, id) == rest;
      }
    }
  }

  /** An entry older than every entry of an ordered queue can go in front of it. */
  lemma ConsIncreasing(x: WaitlistEntry, rest: seq<WaitlistEntry>)
    requires IdsIncreasing(rest) && forall k :: 0 <= k < |rest| ==> x.id < rest[k].id
    ensures IdsIncreasing([x] + rest)
  {
    var r := [x] + rest;
    forall i, j | 0 <= i < j < |r| ensures r[i].id < r[j].id {
      assert r[j] == rest[j - 1];
      if i > 0 {
        assert r[i] == rest[i - 1];
      }
    }
  }

  /** Deleting the oldest entry of an event shifts that event's queue by one and leaves every
      other event's queue alone. */
  lemma {:induction false} RemoveFirstWaiting(w: seq<WaitlistEntry>, eventId: int)
    requires IdsIncreasing(w) && Waiting(w, eventId) != []
    ensures Waiting(RemoveEntry(w, Waiting(w, eventId)[0].id), eventId) == Waiting(w, eventId)[1..]
    ensures forall other :: other != eventId ==>
      Waiting(RemoveEntry(w, Waiting(w, eventId)[0].id), other) == Waiting(w, other)
  {
    var x := Waiting(w, eventId)[0];
    if w[0].eventId == eventId {
      assert x == w[0];
      forall k | 0 <= k < |w[1..]| ensures w[1..][k].id != x.id {
        assert w[1..][k] == w[k + 1];
      }
      RemoveAbsent(w[1..], x.id);
      assert RemoveEntry(w, x.id) == w[1..];
    } else {
      IdsIncreasingRest(w);
      RemoveFirstWaiting(w[1..], eventId);
      RemoveFirstWaitingLater(w, eventId);
    }
  }

  /** The tail of a queue with increasing ids has increasing ids, all above the head's. */
  lemma IdsIncreasingRest(w: seq<WaitlistEntry>)
    requires w != [] && IdsIncreasing(w)
    ensures IdsIncreasing(w[1..])
    ensures forall k :: 0 <= k < |w[1..]| ==> w[0].id < w[1..][k].id
  {
    forall i, j | 0 <= i < j < |w[1..]| ensures w[1..][i].id < w[1..][j].id {
      assert w[1..][i] == w[i + 1] && w[1..][j] == w[j + 1];
    }
    forall k | 0 <= k < |w[1..]| ensures w[0].id < w[1..][k].id {
      assert w[1..][k] == w[k + 1];
    }
  }

  /** `Waiting` on a queue given as its head and its tail. */
  lemma WaitingCons(y: WaitlistEntry, t: seq<WaitlistEntry>, eventId: int)
    ensures Waiting([y] + t, eventId) == (if y.eventId == eventId then [y] else []) + Waiting(t, eventId)
  {
    assert ([y] + t)[1..] == t;
  }

  /** `RemoveEntry` keeps a head with another id. */
  lemma RemoveKeepsHead(w: seq<WaitlistEntry>, id: nat)
    requires w != [] && w[0].id != id
    ensures RemoveEntry(w, id) == [w[0]] + RemoveEntry(w[1..], id)
  {
  }

  /** `RemoveFirstWaiting` when the queue's head belongs to another event, given that it holds
      for the tail. */
  lemma RemoveFirstWaitingLater(w: seq<WaitlistEntry>, eventId: int)
    requires w != [] && w[0].eventId != eventId && Waiting(w[1..], eventId) != []
    requires forall k :: 0 <= k < |w[1..]| ==> w[0].id < w[1..][k].id
    requires var x := Waiting(w[1..], eventId)[0];
      && Waiting(RemoveEntry(w[1..], x.id), eventId) == Waiting(w[1..], eventId)[1..]
      && forall other :: other != eventId ==> Waiting(RemoveEntry(w[1..], x.id), other) == Waiting(w[1..], other)
    ensures Waiting(w, eventId) == Waiting(w[1..], eventId)
    ensures var x := Waiting(w, eventId)[0];
      && Waiting(RemoveEntry(w, x.id), eventId) == Waiting(w, eventId)[1..]
      && forall other :: other != eventId ==> Waiting(RemoveEntry(w, x.id), other) == Waiting(w, other)
  {
    var t := w[1..];
    var x := Waiting(t, eventId)[0];
    assert Waiting(w, eventId) == Waiting(t, eventId);
    assert x in t;
    var j :| 0 <= j < |t| && t[j] == x;
    var r := RemoveEntry(t, x.id);
    RemoveKeepsHead(w, x.id);
    WaitingCons(w[0], r, eventId);
    forall other | other != eventId ensures Waiting(RemoveEntry(w, x.id), other) == Waiting(w, other) {
      WaitingCons(w[0], r, other);
      HeadTail(w);
      WaitingCons(w[0], t, other);
    }
  }

  /** The promotion loop over a prefix of an event's queue removes exactly that prefix from the
      queue and leaves the queues of other events alone. */
  lemma {:induction false} PromoteEntriesFifo(s: Store, e: Event, entries: seq<WaitlistEntry>, pricing: Option<Pricing>, replies: seq<GatewayReply>)
    requires |replies| >= |entries|
    requires IdsIncreasing(s.waitlist)
    requires |entries| <= |Waiting(s.waitlist, e.id)| && entries == Waiting(s.waitlist, e.id)[..|entries|]
    ensures var o := PromoteEntries(s, e, entries, pricing, replies);
      o.result.Ok? ==>
        && Waiting(o.store.waitlist, e.id) == Waiting(s.waitlist, e.id)[|entries|..]
        && IdsIncreasing(o.store.waitlist)
        && forall other :: other != e.id ==> Waiting(o.store.waitlist, other) == Waiting(s.waitlist, other)
    decreases |entries|
  {
    if entries != [] {
      var entry := entries[0];
      var paid := PromoteOne(s, e, entry, pricing, replies[0]);
      if paid.0.Ok? {
        var r := paid.0.value;
        var w1 := RemoveEntry(s.waitlist, entry.id);
        var s1 := Promoted(s, r, entry);
        var q := Waiting(s.waitlist, e.id);
        assert entry == q[0];
        RemoveFirstWaiting(s.waitlist, e.id);
        RemoveKeepsOrder(s.waitlist, entry.id);
        assert s1.waitlist == w1;
        assert Waiting(w1, e.id) == q[1..];
        assert entries[1..] == q[1..|entries|];
        SliceOfTail(q, |entries|);
        PromoteEntriesFifo(s1, e, entries[1..], pricing, replies[1..]);
        var rest := PromoteEntries(s1, e, entries[1..], pricing, replies[1..]);
        if rest.result.Ok? {
          assert PromoteEntries(s, e, entries, pricing, replies) == Outcome(Ok([r] + rest.result.value), rest.store, paid.1 + rest.calls);
        }
      }
    }
  }

  /** The number of entries `_promote_waitlist_if_possible` takes. */
  function PromotionCount(s: Store, e: Event): nat {
    var free := FreeSeats(s, e);
    var queued := |Waiting(s.waitlist, e.id)|;
    if free < queued then free else queued
  }

  /** First in, first out: an unlimited event never promotes; otherwise the promoted
      registrations are, in order, the `min(free seats, queue length)` oldest entries of the
      event's queue, each confirmed, and exactly those entries leave the queue. A failed capture
      restores the store as it was. */
  lemma PromoteFifo(s: Store, e: Event, replies: seq<GatewayReply>)
    requires |replies| >= |s.waitlist|
    requires IdsIncreasing(s.waitlist)
    ensures var o := Promote(s, e, replies);
      && (e.attendees == 0 ==> o == Outcome(Ok([]), s, []))
      && (o.result.Err? ==> o.store == s)
      && (o.result.Ok? ==>
            var regs := o.result.value;
            var queue := Waiting(s.waitlist, e.id);
            && |regs| == PromotionCount(s, e)
            && o.store.registrations == s.registrations + regs
            && (forall k :: 0 <= k < |regs| ==>
                  regs[k].email == queue[k].email && regs[k].name == queue[k].name
                  && regs[k].status == Confirmed && regs[k].eventId == e.id)
            && Waiting(o.store.waitlist, e.id) == queue[|regs|..]
            && (forall other :: other != e.id ==> Waiting(o.store.waitlist, other) == Waiting(s.waitlist, other)))
  {
    if FreeSeats(s, e) > 0 {
      var entries := Take(Waiting(s.waitlist, e.id), FreeSeats(s, e));
      PromoteEntriesRollback(s, e, entries, ExtractPricing(e.settings), replies);
      PromoteEntriesAppends(s, e, entries, ExtractPricing(e.settings), replies);
      PromoteEntriesFresh(s, e, entries, ExtractPricing(e.settings), replies);
      PromoteEntriesFifo(s, e, entries, ExtractPricing(e.settings), replies);
    }
  }

  /** Every call is a capture. */
  predicate AllCaptures(calls: seq<GatewayCall>) {
    forall k :: 0 <= k < |calls| ==> calls[k].Capture?
  }

  lemma CapturesAfter(first: seq<GatewayCall>, rest: seq<GatewayCall>)
    requires AllCaptures(rest)
    ensures forall k :: |first| <= k < |first + rest| ==> (first + rest)[k].Capture?
    ensures AllCaptures(first) ==> AllCaptures(first + rest)
  {
  }

  /** Promotion calls the payment service for captures only. */
  lemma PromoteCalls(s: Store, e: Event, replies: seq<GatewayReply>)
    requires |replies| >= |s.waitlist|
    ensures AllCaptures(Promote(s, e, replies).calls)
  {
    if FreeSeats(s, e) > 0 {
      var entries := Take(Waiting(s.waitlist, e.id), FreeSeats(s, e));
      PromoteEntriesRollback(s, e, entries, ExtractPricing(e.settings), replies);
    }
  }

  /** The capacity invariant for promotion: with a capacity C > 0 and at most C seats taken,
      promotion never takes the count above C, and it fills every free seat when the queue is
      long enough. The counts of other events do not move. */
  lemma PromoteKeepsCapacity(s: Store, e: Event, replies: seq<GatewayReply>)
    requires |replies| >= |s.waitlist|
    ensures var o := Promote(s, e, replies);
      o.result.Ok? ==>
        && Seats(o.store.registrations, e.id) == Seats(s.registrations, e.id) + |o.result.value|
        && (e.attendees > 0 && Seats(s.registrations, e.id) <= e.attendees ==>
              && Seats(o.store.registrations, e.id) <= e.attendees
              && (FreeSeats(s, e) <= |Waiting(s.waitlist, e.id)| ==> Seats(o.store.registrations, e.id) == e.attendees))
        && (forall other :: other != e.id ==> Seats(o.store.registrations, other) == Seats(s.registrations, other))
  {
    if FreeSeats(s, e) > 0 {
      var entries := Take(Waiting(s.waitlist, e.id), FreeSeats(s, e));
      var o := PromoteEntries(s, e, entries, ExtractPricing(e.settings), replies);
      PromoteEntriesAppends(s, e, entries, ExtractPricing(e.settings), replies);
      PromoteEntriesFresh(s, e, entries, ExtractPricing(e.settings), replies);
      if o.result.Ok? {
        SeatsAppendHolders(s.registrations, o.result.value, e.id);
        forall other | other != e.id ensures Seats(o.store.registrations, other) == Seats(s.registrations, other) {
          SeatsAppendOthers(s.registrations, o.result.value, other);
        }
      }
    }
  }

  // ---------------------------------------------------------------------------------------
  // cancel_registration
  // ---------------------------------------------------------------------------------------

  /** The reason `_refund_payment` sends. */
  function RefundReason(eventId: int): string {
    "Annulation inscription événement " + IntToString(eventId)
  }

  /** The stored payment of a registration. */
  function PaymentOf(r: Registration): Json {
    Get(MetadataAsDict(r.metadata), "payment")
  }

  /** Whether cancelling `r` calls the refund endpoint: a captured payment with an id. */
  predicate RefundSent(r: Registration) {
    RefundDue(PaymentOf(r)) && Truthy(Get(PaymentOf(r), "id"))
  }

  /** An unknown registration raises `RegistrationNotFound`; a `cancelled` or `no_show` one is
      returned with its status and nothing changes; any failure restores the store. */
  lemma CancelFinal(s: Store, eventId: int, registrationId: nat, refundReply: GatewayReply, captureReplies: seq<GatewayReply>)
    requires StoreValid(s) && |captureReplies| >= |s.waitlist|
    ensures var o := Cancel(s, eventId, registrationId, refundReply, captureReplies);
      var found := FindRegistration(s.registrations, eventId, registrationId);
      && (found.None? ==> o == Fail(s, RegistrationNotFound))
      && (found.Some? && !s.registrations[found.value].status.HoldsSeat() ==>
            o == Outcome(Ok(AlreadyFinal(s.registrations[found.value].status)), s, []))
      && (o.result.Ok? && o.result.value.CancelledNow? ==> found.Some? && s.registrations[found.value].status.HoldsSeat())
      && (o.result.Err? ==> o.store == s)
  {
  }

  /** The payment record stored after a capture: the gateway's id (or `payment_id`) and status
      (default "captured") from its `payment` object or from the whole reply, and the charged
      amount and currency; a reply that is not a mapping is refused. */
  lemma CaptureRecordFields(p: Pricing, reply: GatewayReply)
    ensures reply.Replied? && !reply.body.Obj? ==> CaptureRecord(p, reply) == Err(NotAMapping)
    ensures var r := CaptureRecord(p, reply);
      r.Ok? ==>
        var payload := GetOr(reply.body, "payment", reply.body);
        && Get(r.value, "amount") == Num(p.amount)
        && Get(r.value, "currency") == Str(p.currency)
        && Get(r.value, "id") == Or(Get(payload, "id"), Get(payload, "payment_id"))
        && Get(r.value, "status") == GetOr(payload, "status", Str("captured"))
  {
    if reply.Replied? && reply.body.Obj? {
      var payload := GetOr(reply.body, "payment", reply.body);
      if payload.Obj? {
        var withId := Set(Obj([]), "id", Or(Get(payload, "id"), Get(payload, "payment_id")));
        var withStatus := Set(withId, "status", GetOr(payload, "status", Str("captured")));
        var withAmount := Set(withStatus, "amount", Num(p.amount));
        var id := Or(Get(payload, "id"), Get(payload, "payment_id"));
        var status := GetOr(payload, "status", Str("captured"));
        var record := Set(withAmount, "currency", Str(p.currency));
        assert CaptureRecord(p, reply) == Ok(record);
        GetSet(Obj([]), "id", id, "id");
        GetSet(withId, "status", status, "id");
        GetSet(withId, "status", status, "status");
        GetSet(withStatus, "amount", Num(p.amount), "id");
        GetSet(withStatus, "amount", Num(p.amount), "status");
        GetSet(withStatus, "amount", Num(p.amount), "amount");
        GetSet(withAmount, "currency", Str(p.currency), "id");
        GetSet(withAmount, "currency", Str(p.currency), "status");
        GetSet(withAmount, "currency", Str(p.currency), "amount");
        GetSet(withAmount, "currency", Str(p.currency), "currency");
      }
    }
  }

  /** The payment record after a refund: its status is the gateway's (default "refunded"), its
      `refund` entry the reply's `refund` object or the whole reply, and every other entry is kept. */
  lemma RefundPaymentFields(payment: Json, eventId: int, reply: GatewayReply)
    requires payment.Obj?
    ensures Truthy(Get(payment, "id")) && reply.Replied? && !reply.body.Obj? ==>
      RefundPayment(payment, eventId, reply).0 == Err(NotAMapping)
    ensures var r := RefundPayment(payment, eventId, reply);
      r.0.Ok? && Truthy(Get(payment, "id")) ==>
        && Get(r.0.value, "status") == GetOr(reply.body, "status", Str("refunded"))
        && Get(r.0.value, "refund") == (if Has(reply.body, "refund") then Get(reply.body, "refund") else reply.body)
        && forall k :: k != "status" && k != "refund" ==> Get(r.0.value, k) == Get(payment, k)
  {
  }

  /** The refund step calls the refund endpoint exactly when the stored payment was captured
      and has an id, and fails when that call fails. */
  lemma RefundStepCalls(payload: Json, eventId: int, reply: GatewayReply)
    requires payload.Obj?
    ensures var r := RefundStep(payload, eventId, reply);
      var payment := Get(payload, "payment");
      && r.1 == (if RefundDue(payment) && Truthy(Get(payment, "id")) then [Refund(Get(payment, "id"), RefundReason(eventId))] else [])
      && (RefundDue(payment) && Truthy(Get(payment, "id")) && reply.Failed? ==> r.0 == Err(RefundFailed))
  {
  }

  /** The refund: the refund endpoint is called, first and with the event's reason, exactly when
      the stored payment was captured and has an id; when it fails the cancellation raises
      `PaymentProcessingError` and the status stays as it was. Every other call is a capture
      made by the promotion. */
  lemma CancelRefund(s: Store, eventId: int, registrationId: nat, refundReply: GatewayReply, captureReplies: seq<GatewayReply>)
    requires StoreValid(s) && |captureReplies| >= |s.waitlist|
    ensures var o := Cancel(s, eventId, registrationId, refundReply, captureReplies);
      var found := FindRegistration(s.registrations, eventId, registrationId);
      found.Some? && s.registrations[found.value].status.HoldsSeat() ==>
        var reg := s.registrations[found.value];
        && (RefundSent(reg) ==> |o.calls| >= 1 && o.calls[0] == Refund(Get(PaymentOf(reg), "id"), RefundReason(eventId)))
        && (RefundSent(reg) && refundReply.Failed? ==> o == Outcome(Err(RefundFailed), s, [Refund(Get(PaymentOf(reg), "id"), RefundReason(eventId))]))
        && (!RefundSent(reg) ==> AllCaptures(o.calls))
        && (forall k :: 1 <= k < |o.calls| ==> o.calls[k].Capture?)
  {
    var found := FindRegistration(s.registrations, eventId, registrationId);
    if found.Some? && s.registrations[found.value].status.HoldsSeat() {
      var i := found.value;
      var reg := s.registrations[i];
      var o := Cancel(s, eventId, registrationId, refundReply, captureReplies);
      assert o == CancelHeld(s, eventId, i, refundReply, captureReplies);
      var refund := RefundStep(MetadataAsDict(reg.metadata), eventId, refundReply);
      RefundStepCalls(MetadataAsDict(reg.metadata), eventId, refundReply);
      if refund.0.Ok? {
        var s1 := CancelledAt(s, i, refund.0.value);
        var promoted := Promote(s1, s.events[eventId], captureReplies);
        assert o.calls == refund.1 + promoted.calls;
        assert AllCaptures(promoted.calls) by {
          PromoteCalls(s1, s.events[eventId], captureReplies);
        }
        CapturesAfter(refund.1, promoted.calls);
      }
    }
  }

  lemma PrefixOfAppend<T>(a: seq<T>, b: seq<T>)
    ensures (a + b)[..|a|] == a && (a + b)[|a|..] == b
  {
  }

  /** A cancellation that goes through marks the registration `cancelled`, changes no other
      registration, and appends the promoted registrations after the existing ones. */
  lemma CancelEffect(s: Store, eventId: int, registrationId: nat, refundReply: GatewayReply, captureReplies: seq<GatewayReply>)
    requires StoreValid(s) && |captureReplies| >= |s.waitlist|
    ensures var o := Cancel(s, eventId, registrationId, refundReply, captureReplies);
      var found := FindRegistration(s.registrations, eventId, registrationId);
      found.Some? && o.result.Ok? && o.result.value.CancelledNow? ==>
        var i := found.value;
        var promoted := o.result.value.promoted;
        && |o.store.registrations| == |s.registrations| + |promoted|
        && o.store.registrations[i].status == Cancelled
        && o.store.registrations[i] == s.registrations[i].(status := Cancelled, metadata := o.store.registrations[i].metadata)
        && (forall k :: 0 <= k < |s.registrations| && k != i ==> o.store.registrations[k] == s.registrations[k])
        && o.store.registrations[|s.registrations|..] == promoted
  {
    var found := FindRegistration(s.registrations, eventId, registrationId);
    var o := Cancel(s, eventId, registrationId, refundReply, captureReplies);
    if found.Some? && o.result.Ok? && o.result.value.CancelledNow? {
      var i := found.value;
      var reg := s.registrations[i];
      assert o == CancelHeld(s, eventId, i, refundReply, captureReplies);
      var refund := RefundStep(MetadataAsDict(reg.metadata), eventId, refundReply);
      var s1 := CancelledAt(s, i, refund.0.value);
      var e := s.events[eventId];
      var promoted := Promote(s1, e, captureReplies);
      assert o.store == promoted.store && o.result.value.promoted == promoted.result.value;
      var regs := promoted.result.value;
      assert promoted.store.registrations == s1.registrations + regs by {
        PromoteFifo(s1, e, captureReplies);
      }
      PrefixOfAppend(s1.registrations, regs);
      forall k | 0 <= k < |s.registrations| && k != i
        ensures o.store.registrations[k] == s.registrations[k]
      {
        assert o.store.registrations[k] == s1.registrations[k];
      }
    }
  }

  /** The registrations a cancellation promotes are the oldest entries of the event's queue, in
      order and confirmed, and exactly those entries leave the queue. An unlimited event
      promotes nobody. */
  lemma CancelPromotesQueue(s: Store, eventId: int, registrationId: nat, refundReply: GatewayReply, captureReplies: seq<GatewayReply>)
    requires StoreValid(s) && |captureReplies| >= |s.waitlist|
    ensures var o := Cancel(s, eventId, registrationId, refundReply, captureReplies);
      o.result.Ok? && o.result.value.CancelledNow? ==>
        var promoted := o.result.value.promoted;
        var queue := Waiting(s.waitlist, eventId);
        && |promoted| <= |queue|
        && (forall k :: 0 <= k < |promoted| ==>
              promoted[k].email == queue[k].email && promoted[k].name == queue[k].name
              && promoted[k].status == Confirmed && promoted[k].eventId == eventId)
        && Waiting(o.store.waitlist, eventId) == queue[|promoted|..]
        && (eventId in s.events && s.events[eventId].attendees == 0 ==> promoted == [])
  {
    var o := Cancel(s, eventId, registrationId, refundReply, captureReplies);
    var s1 := CancelStep(s, eventId, registrationId, refundReply, captureReplies);
    if o.result.Ok? && o.result.value.CancelledNow? {
      PromoteFifo(s1, s.events[eventId], captureReplies);
    }
  }

  lemma CancelledSeatsOthers(regs: seq<Registration>, i: nat, cancelled: Registration, eventId: int)
    requires i < |regs| && regs[i].eventId == eventId && cancelled.eventId == eventId
    ensures forall other :: other != eventId ==> Seats(regs[i := cancelled], other) == Seats(regs, other)
  {
    forall other | other != eventId ensures Seats(regs[i := cancelled], other) == Seats(regs, other) {
      SeatsUpdate(regs, i, cancelled, other);
    }
  }

  /** A completed cancellation is a promotion run on the store with the registration
      cancelled, which has one seat fewer for the event and the same queues. */
  lemma CancelStep(s: Store, eventId: int, registrationId: nat, refundReply: GatewayReply, captureReplies: seq<GatewayReply>)
    returns (s1: Store)
    requires StoreValid(s) && |captureReplies| >= |s.waitlist|
    ensures var o := Cancel(s, eventId, registrationId, refundReply, captureReplies);
      o.result.Ok? && o.result.value.CancelledNow? ==>
        && eventId in s.events && s.events[eventId].id == eventId
        && s1.events == s.events && s1.waitlist == s.waitlist
        && Seats(s1.registrations, eventId) + 1 == Seats(s.registrations, eventId)
        && (forall other :: other != eventId ==> Seats(s1.registrations, other) == Seats(s.registrations, other))
        && var p := Promote(s1, s.events[eventId], captureReplies);
           p.result.Ok? && o.store == p.store && o.result.value.promoted == p.result.value
  {
    s1 := s;
    var found := FindRegistration(s.registrations, eventId, registrationId);
    var o := Cancel(s, eventId, registrationId, refundReply, captureReplies);
    if o.result.Ok? && o.result.value.CancelledNow? {
      var i := found.value;
      assert o == CancelHeld(s, eventId, i, refundReply, captureReplies);
      s1 := CancelHeldStep(s, eventId, i, refundReply, captureReplies);
    }
  }

  /** `CancelStep` for a registration that still holds its seat. */
  lemma CancelHeldStep(s: Store, eventId: int, i: nat, refundReply: GatewayReply, captureReplies: seq<GatewayReply>)
    returns (s1: Store)
    requires StoreValid(s) && i < |s.registrations| && s.registrations[i].eventId == eventId
    requires |captureReplies| >= |s.waitlist|
    requires s.registrations[i].status != Cancelled && s.registrations[i].status != NoShow
    ensures var o := CancelHeld(s, eventId, i, refundReply, captureReplies);
      o.result.Ok? ==>
        && eventId in s.events && s.events[eventId].id == eventId
        && s1.events == s.events && s1.waitlist == s.waitlist
        && Seats(s1.registrations, eventId) + 1 == Seats(s.registrations, eventId)
        && (forall other :: other != eventId ==> Seats(s1.registrations, other) == Seats(s.registrations, other))
        && var p := Promote(s1, s.events[eventId], captureReplies);
           p.result.Ok? && o.store == p.store && o.result.value.promoted == p.result.value
  {
    s1 := s;
    var o := CancelHeld(s, eventId, i, refundReply, captureReplies);
    if o.result.Ok? {
      var reg := s.registrations[i];
      var refund := RefundStep(MetadataAsDict(reg.metadata), eventId, refundReply);
      s1 := CancelledAt(s, i, refund.0.value);
      CancelledAtSeats(s, i, refund.0.value, eventId);
    }
  }

  /** Cancelling a registration that holds its seat frees that seat and no other event's. */
  lemma CancelledAtSeats(s: Store, i: nat, newDoc: Option<Json>, eventId: int)
    requires i < |s.registrations| && s.registrations[i].eventId == eventId
    requires s.registrations[i].status.HoldsSeat()
    ensures Seats(CancelledAt(s, i, newDoc).registrations, eventId) + 1 == Seats(s.registrations, eventId)
    ensures forall other :: other != eventId ==>
      Seats(CancelledAt(s, i, newDoc).registrations, other) == Seats(s.registrations, other)
  {
    var s1 := CancelledAt(s, i, newDoc);
    var cancelled := s1.registrations[i];
    assert s1.registrations == s.registrations[i := cancelled];
    SeatsUpdate(s.registrations, i, cancelled, eventId);
    CancelledSeatsOthers(s.registrations, i, cancelled, eventId);
  }

  /** Seat accounting for cancellation: the cancelled registration frees its seat, each promoted
      one takes one, and no other event's count moves. */
  lemma CancelSeats(s: Store, eventId: int, registrationId: nat, refundReply: GatewayReply, captureReplies: seq<GatewayReply>)
    requires StoreValid(s) && |captureReplies| >= |s.waitlist|
    ensures var o := Cancel(s, eventId, registrationId, refundReply, captureReplies);
      o.result.Ok? && o.result.value.CancelledNow? ==>
        && eventId in s.events
        && Seats(o.store.registrations, eventId) + 1 == Seats(s.registrations, eventId) + |o.result.value.promoted|
        && (forall other :: other != eventId ==> Seats(o.store.registrations, other) == Seats(s.registrations, other))
  {
    var o := Cancel(s, eventId, registrationId, refundReply, captureReplies);
    var s1 := CancelStep(s, eventId, registrationId, refundReply, captureReplies);
    if o.result.Ok? && o.result.value.CancelledNow? {
      PromoteKeepsCapacity(s1, s.events[eventId], captureReplies);
    }
  }

  /** The capacity invariant for cancellation: with a capacity C > 0 and at most C seats taken,
      the freed seat is filled from the queue when it is not empty, as many entries are promoted
      as there are free seats or queued entries, whichever is fewer, and the count never exceeds C. */
  lemma CancelKeepsCapacity(s: Store, eventId: int, registrationId: nat, refundReply: GatewayReply, captureReplies: seq<GatewayReply>)
    requires StoreValid(s) && |captureReplies| >= |s.waitlist|
    ensures var o := Cancel(s, eventId, registrationId, refundReply, captureReplies);
      o.result.Ok? && o.result.value.CancelledNow? && eventId in s.events
      && 0 < s.events[eventId].attendees && Seats(s.registrations, eventId) <= s.events[eventId].attendees ==>
        var promoted := o.result.value.promoted;
        var free := s.events[eventId].attendees - Seats(s.registrations, eventId) + 1;
        var queued := |Waiting(s.waitlist, eventId)|;
        && Seats(o.store.registrations, eventId) <= s.events[eventId].attendees
        && |promoted| == if free < queued then free else queued
  {
    var o := Cancel(s, eventId, registrationId, refundReply, captureReplies);
    var s1 := CancelStep(s, eventId, registrationId, refundReply, captureReplies);
    if o.result.Ok? && o.result.value.CancelledNow? && eventId in s.events
      && 0 < s.events[eventId].attendees && Seats(s.registrations, eventId) <= s.events[eventId].attendees {
      var e := s.events[eventId];
      assert FreeSeats(s1, e) == e.attendees - Seats(s.registrations, eventId) + 1;
      PromoteKeepsCapacity(s1, e, captureReplies);
      PromoteFifo(s1, e, captureReplies);
    }
  }

  /** The behaviour the source keeps on a failed promotion inside a cancellation: the
      cancellation is undone, although the refund request has already gone out. */
  lemma CancelRollbackKeepsRefund(s: Store, eventId: int, registrationId: nat, refundReply: GatewayReply, captureReplies: seq<GatewayReply>)
    requires StoreValid(s) && |captureReplies| >= |s.waitlist|
    ensures var o := Cancel(s, eventId, registrationId, refundReply, captureReplies);
      var found := FindRegistration(s.registrations, eventId, registrationId);
      found.Some? && s.registrations[found.value].status.HoldsSeat() && RefundSent(s.registrations[found.value]) && o.result.Err? ==>
        && o.store == s
        && o.calls[0] == Refund(Get(PaymentOf(s.registrations[found.value]), "id"), RefundReason(eventId))
  {
    CancelFinal(s, eventId, registrationId, refundReply, captureReplies);
    CancelRefund(s, eventId, registrationId, refundReply, captureReplies);
  }

  // ---------------------------------------------------------------------------------------
  // check_in_attendee
  // ---------------------------------------------------------------------------------------

  /** Check-in tokens grow in creation order, so each one names one registration. */
  predicate TokensIncreasing(regs: seq<Registration>) {
    forall i, j :: 0 <= i < j < |regs| ==> regs[i].token < regs[j].token
  }

  lemma {:induction false} FindTokenUnique(regs: seq<Registration>, i: nat)
    requires TokensIncreasing(regs) && i < |regs|
    ensures FindToken(regs, regs[i].token) == Some(i)
  {
    if i > 0 {
      assert regs[0].token < regs[i].token;
      assert regs[1..][i - 1] == regs[i];
      FindTokenUnique(regs[1..], i - 1);
    }
  }

  /** The errors of `check_in_attendee`: an unknown token, a `cancelled` or a `no_show`
      registration raise `CheckInError` and change nothing; a registration already checked in
      is returned as it is, with its record. */
  lemma CheckInRefusals(s: Store, token: nat, methodName: Option<string>, metadata: seq<(string, Json)>, now: DateTime)
    ensures var o := CheckIn(s, token, methodName, metadata, now);
      var found := FindToken(s.registrations, token);
      && o.calls == []
      && (found.None? ==> o == Fail(s, InvalidToken))
      && (found.Some? && s.registrations[found.value].status == Cancelled ==> o == Fail(s, CheckInCancelled))
      && (found.Some? && s.registrations[found.value].status == NoShow ==> o == Fail(s, CheckInNoShow))
      && (found.Some? && s.registrations[found.value].status == CheckedIn ==>
            o.store == s && o.result == Ok(AttendanceView(s.registrations[found.value], RecordOf(s, s.registrations[found.value].id))))
      && (o.result.Err? ==> o.store == s)
  {
  }

  /** Checking in a `confirmed` registration sets it to `checked_in` and records one attendance
      for it, with the method defaulting to "qr"; no other registration changes and no seat
      count moves. */
  lemma CheckInEffect(s: Store, token: nat, methodName: Option<string>, metadata: seq<(string, Json)>, now: DateTime)
    ensures var o := CheckIn(s, token, methodName, metadata, now);
      var found := FindToken(s.registrations, token);
      found.Some? && s.registrations[found.value].status == Confirmed ==>
        var i := found.value;
        var record := Attendance(now, CheckInMethod(methodName), Obj(metadata));
        && o.result == Ok(AttendanceView(s.registrations[i].(status := CheckedIn), Some(record)))
        && o.store.registrations == s.registrations[i := s.registrations[i].(status := CheckedIn)]
        && o.store.attendance == s.attendance[s.registrations[i].id := record]
        && o.store.attendance.Keys == s.attendance.Keys + {s.registrations[i].id}
        && o.store.events == s.events && o.store.waitlist == s.waitlist && o.store.penalties == s.penalties
        && (forall eventId :: Seats(o.store.registrations, eventId) == Seats(s.registrations, eventId))
  {
    var o := CheckIn(s, token, methodName, metadata, now);
    var found := FindToken(s.registrations, token);
    if found.Some? && s.registrations[found.value].status == Confirmed {
      var i := found.value;
      forall eventId ensures Seats(o.store.registrations, eventId) == Seats(s.registrations, eventId) {
        SeatsUpdate(s.registrations, i, s.registrations[i].(status := CheckedIn), eventId);
      }
    }
  }

  /** Check-in is idempotent: once it has succeeded, checking in again with the same token, at
      any instant and with any method, changes nothing and returns the same registration and
      attendance record. */
  lemma CheckInIdempotent(s: Store, token: nat, methodName: Option<string>, metadata: seq<(string, Json)>, now: DateTime,
                          methodName': Option<string>, metadata': seq<(string, Json)>, now': DateTime)
    requires TokensIncreasing(s.registrations)
    ensures var o := CheckIn(s, token, methodName, metadata, now);
      o.result.Ok? ==>
        CheckIn(o.store, token, methodName', metadata', now') == Outcome(o.result, o.store, [])
  {
    var o := CheckIn(s, token, methodName, metadata, now);
    if o.result.Ok? {
      var i := FindToken(s.registrations, token).value;
      var regs := o.store.registrations;
      assert regs[i].token == token;
      assert TokensIncreasing(regs) by {
        forall a, b | 0 <= a < b < |regs| ensures regs[a].token < regs[b].token {
          assert regs[a].token == s.registrations[a].token && regs[b].token == s.registrations[b].token;
        }
      }
      FindTokenUnique(regs, i);
    }
  }

  // ---------------------------------------------------------------------------------------
  // detect_no_shows
  // ---------------------------------------------------------------------------------------

  /** The penalty the sweep gives the attendee of `r`. */
  function PenaltyFor(r: Registration, eventId: int, expiry: DateTime): Penalty {
    Penalty(r.email, eventId, NoShowReason, Some(expiry))
  }

  /** `p` is the penalty of some absent registration of `regs`. */
  predicate FromAbsentee(p: Penalty, regs: seq<Registration>, eventId: int, attendance: map<nat, Attendance>, expiry: DateTime) {
    exists k :: 0 <= k < |regs| && Absent(regs[k], eventId, attendance) && p == PenaltyFor(regs[k], eventId, expiry)
  }

  /** The sweep's penalties are exactly those of the absent registrations, each expiring at
      `expiry` with the no-show reason. */
  lemma {:induction false} AbsentPenaltiesExact(regs: seq<Registration>, eventId: int, attendance: map<nat, Attendance>, expiry: DateTime)
    ensures forall p :: p in AbsentPenalties(regs, eventId, attendance, expiry) ==> FromAbsentee(p, regs, eventId, attendance, expiry)
    ensures forall k :: 0 <= k < |regs| && Absent(regs[k], eventId, attendance) ==>
      PenaltyFor(regs[k], eventId, expiry) in AbsentPenalties(regs, eventId, attendance, expiry)
  {
    if regs != [] {
      var n := |regs| - 1;
      var init := regs[..n];
      AbsentPenaltiesExact(init, eventId, attendance, expiry);
      var ps := AbsentPenalties(regs, eventId, attendance, expiry);
      var front := AbsentPenalties(init, eventId, attendance, expiry);
      var last := if Absent(regs[n], eventId, attendance) then [PenaltyFor(regs[n], eventId, expiry)] else [];
      assert ps == front + last;
      forall p | p in ps ensures FromAbsentee(p, regs, eventId, attendance, expiry) {
        if p in front {
          assert FromAbsentee(p, init, eventId, attendance, expiry);
          var k :| 0 <= k < |init| && Absent(init[k], eventId, attendance) && p == PenaltyFor(init[k], eventId, expiry);
          assert regs[k] == init[k];
        } else {
          assert p in last;
          assert Absent(regs[n], eventId, attendance) && p == PenaltyFor(regs[n], eventId, expiry);
        }
      }
      forall k | 0 <= k < |regs| && Absent(regs[k], eventId, attendance)
        ensures PenaltyFor(regs[k], eventId, expiry) in ps
      {
        if k < n {
          assert init[k] == regs[k];
          assert PenaltyFor(regs[k], eventId, expiry) in front;
        } else {
          assert PenaltyFor(regs[k], eventId, expiry) in last;
        }
      }
    }
  }

  /** With nobody absent the sweep gives no penalty. */
  lemma {:induction false} AbsentPenaltiesNone(regs: seq<Registration>, eventId: int, attendance: map<nat, Attendance>, expiry: DateTime)
    requires forall k :: 0 <= k < |regs| ==> !Absent(regs[k], eventId, attendance)
    ensures AbsentPenalties(regs, eventId, attendance, expiry) == []
  {
    if regs != [] {
      var n := |regs| - 1;
      assert forall k :: 0 <= k < n ==> regs[..n][k] == regs[k];
      AbsentPenaltiesNone(regs[..n], eventId, attendance, expiry);
    }
  }

  /** The sweep does nothing for an unknown event (`LookupError`) or while the event date is
      today or later. */
  lemma SweepNoop(s: Store, eventId: int, today: Date)
    requires StoreValid(s)
    ensures var o := DetectNoShows(s, eventId, today);
      && (eventId !in s.events ==> o == Fail(s, EventNotFound))
      && (eventId in s.events && !Before(s.events[eventId].eventDate, today) ==> o == Outcome(Ok([]), s, []))
      && o.calls == []
  {
  }

  /** After the event date, the sweep marks `no_show` exactly the `confirmed` registrations of
      the event without an attendance record, leaves every other registration alone, and adds
      one penalty per absentee, with the no-show reason, expiring at midnight thirty days after
      the event date. */
  lemma SweepEffect(s: Store, eventId: int, today: Date)
    requires StoreValid(s)
    ensures var o := DetectNoShows(s, eventId, today);
      o.result.Ok? && eventId in s.events && Before(s.events[eventId].eventDate, today) ==>
        var regs := s.registrations;
        var ps := o.result.value;
        && AddDays(s.events[eventId].eventDate, 30).Some?
        && var expiry := Midnight(AddDays(s.events[eventId].eventDate, 30).value);
        && |o.store.registrations| == |regs|
        && (forall k :: 0 <= k < |regs| ==>
              if Absent(regs[k], eventId, s.attendance) then o.store.registrations[k] == regs[k].(status := NoShow)
              else o.store.registrations[k] == regs[k])
        && o.store.penalties == s.penalties + ps
        && (forall p :: p in ps ==> FromAbsentee(p, regs, eventId, s.attendance, expiry))
        && (forall k :: 0 <= k < |regs| && Absent(regs[k], eventId, s.attendance) ==> PenaltyFor(regs[k], eventId, expiry) in ps)
        && o.store.events == s.events && o.store.waitlist == s.waitlist && o.store.attendance == s.attendance
  {
    var o := DetectNoShows(s, eventId, today);
    if o.result.Ok? && eventId in s.events && Before(s.events[eventId].eventDate, today) {
      var expiry := Midnight(AddDays(s.events[eventId].eventDate, 30).value);
      AbsentPenaltiesExact(s.registrations, eventId, s.attendance, expiry);
    }
  }

  /** The sweep keeps the store invariant. */
  lemma SweepKeepsValid(s: Store, eventId: int, today: Date)
    requires StoreValid(s)
    ensures StoreValid(DetectNoShows(s, eventId, today).store)
  {
    var o := DetectNoShows(s, eventId, today);
    if o.result.Ok? && eventId in s.events && Before(s.events[eventId].eventDate, today) {
      SweepEffect(s, eventId, today);
      var regs := o.store.registrations;
      assert forall k :: 0 <= k < |regs| ==>
        regs[k].id == s.registrations[k].id && regs[k].token == s.registrations[k].token && regs[k].eventId == s.registrations[k].eventId;
    }
  }

  /** Marking changes nothing when nobody is absent. */
  lemma MarkedAbsentIdle(regs: seq<Registration>, eventId: int, attendance: map<nat, Attendance>)
    requires forall k :: 0 <= k < |regs| ==> !Absent(regs[k], eventId, attendance)
    ensures MarkedAbsent(regs, eventId, attendance) == regs
  {
    var r := MarkedAbsent(regs, eventId, attendance);
    assert forall k :: 0 <= k < |regs| ==> r[k] == regs[k];
  }

  /** A second sweep penalises nobody: after a sweep that ran, sweeping the same event again, on
      any day, changes nothing and returns no penalty. */
  lemma SweepIdempotent(s: Store, eventId: int, today: Date, later: Date)
    requires StoreValid(s)
    ensures var o := DetectNoShows(s, eventId, today);
      o.result.Ok? && eventId in s.events && Before(s.events[eventId].eventDate, today) ==>
        && StoreValid(o.store)
        && DetectNoShows(o.store, eventId, later) == Outcome(Ok([]), o.store, [])
  {
    var o := DetectNoShows(s, eventId, today);
    if o.result.Ok? && eventId in s.events && Before(s.events[eventId].eventDate, today) {
      assert StoreValid(o.store) by {
        SweepKeepsValid(s, eventId, today);
      }
      var s' := o.store;
      var regs := s'.registrations;
      assert s'.attendance == s.attendance && s'.events == s.events && |regs| == |s.registrations|;
      assert forall k :: 0 <= k < |regs| ==> regs[k] == MarkAbsent(s.registrations[k], eventId, s.attendance);
      assert forall k :: 0 <= k < |regs| ==> !Absent(regs[k], eventId, s'.attendance);
      if Before(s'.events[eventId].eventDate, later) {
        var expiry := Midnight(AddDays(s'.events[eventId].eventDate, 30).value);
        AbsentPenaltiesNone(regs, eventId, s'.attendance, expiry);
        var o2 := DetectNoShows(s', eventId, later);
        assert o2.store.registrations == regs by {
          MarkedAbsentIdle(regs, eventId, s'.attendance);
        }
        assert s'.penalties + [] == s'.penalties;
      }
    }
  }

  /** A penalty is active exactly while `now` is before its expiry, for its own email. The
      penalties of a sweep therefore block each absentee until midnight thirty days after the
      event date, and not after. */
  lemma PenaltyWindow(p: Penalty, email: string, now: DateTime)
    requires p.expiresAt.Some?
    ensures Blocks(p, email, now) <==> p.email == email && InstantBefore(now, p.expiresAt.value)
  {
  }

  lemma IndexAppended<T>(a: seq<T>, b: seq<T>, j: nat)
    requires j < |b|
    ensures (a + b)[|a| + j] == b[j]
  {
  }

  /** After a sweep, each absentee has a penalty that blocks their email until it expires. */
  lemma SweepPenalizes(s: Store, eventId: int, today: Date, k: nat, now: DateTime)
    requires StoreValid(s)
    requires k < |s.registrations| && Absent(s.registrations[k], eventId, s.attendance)
    ensures var o := DetectNoShows(s, eventId, today);
      o.result.Ok? && eventId in s.events && Before(s.events[eventId].eventDate, today) ==>
        var expiry := Midnight(AddDays(s.events[eventId].eventDate, 30).value);
        InstantBefore(now, expiry) ==> HasActivePenalty(o.store, s.registrations[k].email, now)
  {
    var o := DetectNoShows(s, eventId, today);
    if o.result.Ok? && eventId in s.events && Before(s.events[eventId].eventDate, today) {
      assert AddDays(s.events[eventId].eventDate, 30).Some? by {
        SweepEffect(s, eventId, today);
      }
      var expiry := Midnight(AddDays(s.events[eventId].eventDate, 30).value);
      var p := PenaltyFor(s.registrations[k], eventId, expiry);
      var ps := o.result.value;
      assert p in ps && o.store.penalties == s.penalties + ps by {
        SweepEffect(s, eventId, today);
      }
      var j :| 0 <= j < |ps| && ps[j] == p;
      var pens := o.store.penalties;
      assert pens[|s.penalties| + j] == p by {
        IndexAppended(s.penalties, ps, j);
      }
      if InstantBefore(now, expiry) {
        assert Blocks(pens[|s.penalties| + j], s.registrations[k].email, now);
      }
    }
  }

  /** Across operations: after a sweep, an absentee who tries to register again (for any event
      still open) with an email that normalises to theirs is refused with `PenaltyActive` until
      the penalty expires. */
  lemma SweepBlocksRegistration(s: Store, eventId: int, today: Date, k: nat,
                                target: int, email: string, fullName: Option<string>, metadata: seq<(string, Json)>, now: DateTime, reply: GatewayReply)
    requires StoreValid(s)
    requires k < |s.registrations| && Absent(s.registrations[k], eventId, s.attendance)
    requires NormalizeEmail(Str(email)) == Some(s.registrations[k].email)
    ensures var o := DetectNoShows(s, eventId, today);
      o.result.Ok? && eventId in s.events && Before(s.events[eventId].eventDate, today) ==>
        var expiry := Midnight(AddDays(s.events[eventId].eventDate, 30).value);
        target in o.store.events && RegistrationIsOpen(o.store.events[target], now) && InstantBefore(now, expiry) ==>
          Register(o.store, target, Str(email), fullName, metadata, now, reply).result == Err(PenaltyActive)
  {
    var o := DetectNoShows(s, eventId, today);
    if o.result.Ok? && eventId in s.events && Before(s.events[eventId].eventDate, today) {
      SweepPenalizes(s, eventId, today, k, now);
      if target in o.store.events && RegistrationIsOpen(o.store.events[target], now) {
        ScreenOrder(o.store, target, o.store.events[target], Str(email), now);
      }
    }
  }

  // ---------------------------------------------------------------------------------------
  // Reminders
  // ---------------------------------------------------------------------------------------

  /** A registration that is due a reminder for event `e`. */
  predicate RemindedBy(e: Event, r: Reminder, reg: Registration)
    requires ValidDate(e.eventDate)
  {
    reg.eventId == e.id && reg.status == Confirmed && r == Reminder(e.id, reg.email, FormatIso(e.eventDate))
  }

  /** An event's reminders are exactly one per `confirmed` registration of that event. */
  lemma {:induction false} EventRemindersExact(e: Event, regs: seq<Registration>)
    requires ValidDate(e.eventDate)
    ensures forall r :: r in EventReminders(e, regs) <==> exists i :: 0 <= i < |regs| && RemindedBy(e, r, regs[i])
  {
    if regs != [] {
      var init := regs[..|regs| - 1];
      var last := regs[|regs| - 1];
      EventRemindersExact(e, init);
      forall r ensures r in EventReminders(e, regs) <==> exists i :: 0 <= i < |regs| && RemindedBy(e, r, regs[i]) {
        if exists i :: 0 <= i < |regs| && RemindedBy(e, r, regs[i]) {
          var i :| 0 <= i < |regs| && RemindedBy(e, r, regs[i]);
          if i < |init| {
            assert RemindedBy(e, r, init[i]);
          }
        }
        if exists i :: 0 <= i < |init| && RemindedBy(e, r, init[i]) {
          var i :| 0 <= i < |init| && RemindedBy(e, r, init[i]);
          assert RemindedBy(e, r, regs[i]);
        }
      }
    }
  }

  /** An event's reminder count is its number of `confirmed` registrations. */
  function ConfirmedCount(regs: seq<Registration>, eventId: int): nat {
    if regs == [] then 0
    else
      ConfirmedCount(regs[..|regs| - 1], eventId)
        + (if regs[|regs| - 1].eventId == eventId && regs[|regs| - 1].status == Confirmed then 1 else 0)
  }

  lemma {:induction false} EventRemindersCount(e: Event, regs: seq<Registration>)
    requires ValidDate(e.eventDate)
    ensures |EventReminders(e, regs)| == ConfirmedCount(regs, e.id)
    ensures ConfirmedCount(regs, e.id) <= |regs|
  {
    if regs != [] {
      EventRemindersCount(e, regs[..|regs| - 1]);
    }
  }

  /** The reminders of a stored event, whose date is valid by the store invariant. */
  function StoredReminders(s: Store, id: int): seq<Reminder>
    requires StoreValid(s) && id in s.events
  {
    assert ValidDate(s.events[id].eventDate);
    EventReminders(s.events[id], s.registrations)
  }

  predicate RemindedIn(s: Store, id: int, r: Reminder, reg: Registration)
    requires StoreValid(s) && id in s.events
  {
    assert ValidDate(s.events[id].eventDate);
    RemindedBy(s.events[id], r, reg)
  }

  lemma StoredRemindersExact(s: Store, id: int)
    requires StoreValid(s) && id in s.events
    ensures forall r :: r in StoredReminders(s, id) <==>
      exists i :: 0 <= i < |s.registrations| && RemindedIn(s, id, r, s.registrations[i])
  {
    EventRemindersExact(s.events[id], s.registrations);
  }

  /** The reminders of a run are exactly those of the listed events inside the window. */
  lemma {:induction false} RemindersForExact(s: Store, order: seq<int>, today: Date, threshold: Date)
    requires StoreValid(s)
    requires forall k :: 0 <= k < |order| ==> order[k] in s.events
    ensures forall r :: r in RemindersFor(s, order, today, threshold) <==>
      exists k :: 0 <= k < |order| && InReminderWindow(s.events[order[k]], today, threshold)
        && r in StoredReminders(s, order[k])
  {
    if order != [] {
      var init := order[..|order| - 1];
      RemindersForExact(s, init, today, threshold);
      forall r ensures r in RemindersFor(s, order, today, threshold) <==>
        exists k :: 0 <= k < |order| && InReminderWindow(s.events[order[k]], today, threshold)
          && r in StoredReminders(s, order[k])
      {
        if exists k :: 0 <= k < |order| && InReminderWindow(s.events[order[k]], today, threshold) && r in StoredReminders(s, order[k]) {
          var k :| 0 <= k < |order| && InReminderWindow(s.events[order[k]], today, threshold)
            && r in StoredReminders(s, order[k]);
          if k < |init| {
            assert init[k] == order[k];
          }
        }
        if exists k :: 0 <= k < |init| && InReminderWindow(s.events[init[k]], today, threshold) && r in StoredReminders(s, init[k]) {
          var k :| 0 <= k < |init| && InReminderWindow(s.events[init[k]], today, threshold)
            && r in StoredReminders(s, init[k]);
          assert order[k] == init[k];
        }
      }
    }
  }

  /** `send_reminders(within_days)`: it fails exactly when `today + within_days` days leaves the
      calendar; otherwise a reminder goes out exactly for each `confirmed` registration of a
      stored event that is open for registration and falls between today and the threshold, and
      a negative window sends nothing. */
  lemma SendRemindersExact(s: Store, order: seq<int>, today: Date, withinDays: int)
    requires StoreValid(s) && ValidDate(today)
    requires ListsEvents(s.events, order)
    ensures SendReminders(s, order, today, withinDays).Err? <==> ShiftDays(today, withinDays).None?
    ensures var o := SendReminders(s, order, today, withinDays);
      o.Ok? ==>
        var threshold := ShiftDays(today, withinDays).value;
        forall r :: r in o.value <==>
          exists id, i :: id in s.events && 0 <= i < |s.registrations|
            && InReminderWindow(s.events[id], today, threshold)
            && RemindedIn(s, id, r, s.registrations[i])
    ensures withinDays < 0 && SendReminders(s, order, today, withinDays).Ok? ==>
      SendReminders(s, order, today, withinDays).value == []
  {
    if ShiftDays(today, withinDays).Some? {
      var threshold := ShiftDays(today, withinDays).value;
      RemindersForExact(s, order, today, threshold);
      forall k | 0 <= k < |order| {
        StoredRemindersExact(s, order[k]);
      }
      forall r ensures r in RemindersFor(s, order, today, threshold) <==>
        exists id, i :: id in s.events && 0 <= i < |s.registrations|
          && InReminderWindow(s.events[id], today, threshold)
          && RemindedIn(s, id, r, s.registrations[i])
      {
        if exists id, i :: (id in s.events && 0 <= i < |s.registrations|
          && InReminderWindow(s.events[id], today, threshold)
          && RemindedIn(s, id, r, s.registrations[i]))
        {
          var id, i :| id in s.events && 0 <= i < |s.registrations|
            && InReminderWindow(s.events[id], today, threshold)
            && RemindedIn(s, id, r, s.registrations[i]);
          var k :| 0 <= k < |order| && order[k] == id;
          assert r in StoredReminders(s, order[k]);
        }
      }
      if withinDays < 0 {
        EmptyWindow(s, order, today, threshold);
      }
    }
  }

  /** A window that ends before it starts selects no event, which is why a negative
      `within_days` sends nothing. */
  lemma EmptyWindow(s: Store, order: seq<int>, today: Date, threshold: Date)
    requires StoreValid(s)
    requires forall k :: 0 <= k < |order| ==> order[k] in s.events
    requires Before(threshold, today)
    ensures RemindersFor(s, order, today, threshold) == []
  {
    RemindersForExact(s, order, today, threshold);
  }

  // ---------------------------------------------------------------------------------------
  // The store invariant
  // ---------------------------------------------------------------------------------------

  /** A store that appends registrations with the next ids and tokens to a valid store, and
      whose waitlist is ordered and refers to known events, is valid. */
  lemma AppendFreshValid(s: Store, t: Store, regs: seq<Registration>)
    requires StoreValid(s)
    requires t.events == s.events && t.attendance == s.attendance
    requires t.registrations == s.registrations + regs && t.nextId >= s.nextId + |regs|
    requires forall k :: 0 <= k < |regs| ==> regs[k].id == s.nextId + k && regs[k].token == s.nextId + k && regs[k].eventId in s.events
    requires forall k :: 0 <= k < |t.waitlist| ==> t.waitlist[k].eventId in s.events && t.waitlist[k].id < t.nextId
    requires IdsIncreasing(t.waitlist)
    ensures StoreValid(t)
  {
    var all := t.registrations;
    forall i | 0 <= i < |all|
      ensures all[i].eventId in t.events && all[i].id < t.nextId && all[i].token < t.nextId
    {
      if i >= |s.registrations| {
        assert all[i] == regs[i - |s.registrations|];
      }
    }
    forall i, j | 0 <= i < j < |all|
      ensures all[i].id < all[j].id && all[i].token < all[j].token
    {
      if j >= |s.registrations| {
        assert all[j] == regs[j - |s.registrations|];
        if i >= |s.registrations| {
          assert all[i] == regs[i - |s.registrations|];
        }
      }
    }
  }

  /** Admission keeps the store invariant: the new registration or waitlist entry takes the
      next id (and token), which is larger than every id in the store. */
  lemma AdmitKeepsValid(s: Store, eventId: int, clean: string, fullName: Option<string>, metadata: seq<(string, Json)>, reply: GatewayReply)
    requires StoreValid(s) && eventId in s.events
    ensures StoreValid(Admit(s, eventId, s.events[eventId], clean, fullName, metadata, reply).store)
  {
    var e := s.events[eventId];
    var o := Admit(s, eventId, e, clean, fullName, metadata, reply);
    if o.result.Ok? {
      if HasRoom(s, eventId, e) {
        var payload := Obj(metadata);
        var reg := NewRegistration(s, eventId, clean, fullName, payload);
        var r := Pay(reg, e, ExtractPricing(e.settings), payload, reply).0.value;
        assert r.id == s.nextId && r.token == s.nextId && r.eventId == eventId;
        assert o.store == s.(registrations := s.registrations + [r], nextId := s.nextId + 1);
        AppendFreshValid(s, o.store, [r]);
      } else {
        var w := o.store.waitlist;
        assert w == s.waitlist + [WaitlistEntry(s.nextId, eventId, clean, fullName)];
        assert IdsIncreasing(w) by {
          forall i, j | 0 <= i < j < |w| ensures w[i].id < w[j].id {
            if j < |s.waitlist| { assert w[i] == s.waitlist[i] && w[j] == s.waitlist[j]; }
            else { assert w[i] == s.waitlist[i]; }
          }
        }
        AppendFreshValid(s, o.store, []);
      }
    }
  }

  /** `register_attendee` keeps the store invariant. */
  lemma RegisterKeepsValid(s: Store, eventId: int, email: Json, fullName: Option<string>, metadata: seq<(string, Json)>,
                           now: DateTime, reply: GatewayReply)
    requires StoreValid(s)
    ensures StoreValid(Register(s, eventId, email, fullName, metadata, now, reply).store)
  {
    if eventId in s.events && Screen(s, eventId, s.events[eventId], email, now).Ok? {
      AdmitKeepsValid(s, eventId, Screen(s, eventId, s.events[eventId], email, now).value, fullName, metadata, reply);
    }
  }

  /** Every entry of `a` is an entry of `b`. */
  predicate EntriesOf(a: seq<WaitlistEntry>, b: seq<WaitlistEntry>) {
    forall k :: 0 <= k < |a| ==> a[k] in b
  }

  lemma EntriesOfTrans(a: seq<WaitlistEntry>, b: seq<WaitlistEntry>, c: seq<WaitlistEntry>)
    requires EntriesOf(a, b) && EntriesOf(b, c)
    ensures EntriesOf(a, c)
  {
    forall k | 0 <= k < |a| ensures a[k] in c {
      var j :| 0 <= j < |b| && b[j] == a[k];
    }
  }

  /** The promotion loop only ever deletes waitlist entries. */
  lemma {:induction false} PromoteEntriesShrinks(s: Store, e: Event, entries: seq<WaitlistEntry>, pricing: Option<Pricing>, replies: seq<GatewayReply>)
    requires |replies| >= |entries|
    ensures EntriesOf(PromoteEntries(s, e, entries, pricing, replies).store.waitlist, s.waitlist)
    decreases |entries|
  {
    var o := PromoteEntries(s, e, entries, pricing, replies);
    if entries == [] || o.store == s {
      assert EntriesOf(s.waitlist, s.waitlist) by {
        forall k | 0 <= k < |s.waitlist| ensures s.waitlist[k] in s.waitlist { }
      }
    } else {
      var s1 := PromoteEntriesStep(s, e, entries, pricing, replies);
      PromoteEntriesShrinks(s1, e, entries[1..], pricing, replies[1..]);
      assert EntriesOf(s1.waitlist, s.waitlist);
      EntriesOfTrans(o.store.waitlist, s1.waitlist, s.waitlist);
    }
  }

  /** A promotion loop that changed the store promoted its first entry, giving `s1`, and
      ended where the loop over the other entries from `s1` ends. */
  lemma PromoteEntriesStep(s: Store, e: Event, entries: seq<WaitlistEntry>, pricing: Option<Pricing>, replies: seq<GatewayReply>)
    returns (s1: Store)
    requires |replies| >= |entries| && entries != []
    requires PromoteEntries(s, e, entries, pricing, replies).store != s
    ensures exists r :: s1 == Promoted(s, r, entries[0])
    ensures PromoteEntries(s, e, entries, pricing, replies).store
         == PromoteEntries(s1, e, entries[1..], pricing, replies[1..]).store
  {
    var paid := PromoteOne(s, e, entries[0], pricing, replies[0]);
    s1 := Promoted(s, paid.0.value, entries[0]);
  }

  /** Promotion keeps the store invariant: the promoted registrations take fresh increasing ids
      and tokens, and the waitlist only loses entries. */
  lemma PromoteKeepsValid(s: Store, e: Event, replies: seq<GatewayReply>)
    requires StoreValid(s) && e.id in s.events && |replies| >= |s.waitlist|
    ensures StoreValid(Promote(s, e, replies).store)
  {
    if FreeSeats(s, e) > 0 {
      var entries := Take(Waiting(s.waitlist, e.id), FreeSeats(s, e));
      PromoteEntriesValid(s, e, entries, ExtractPricing(e.settings), replies);
    }
  }

  /** The promotion loop over the first waiting entries of an event keeps the store invariant. */
  lemma PromoteEntriesValid(s: Store, e: Event, entries: seq<WaitlistEntry>, pricing: Option<Pricing>, replies: seq<GatewayReply>)
    requires StoreValid(s) && e.id in s.events && |replies| >= |entries|
    requires |entries| <= |Waiting(s.waitlist, e.id)| && entries == Waiting(s.waitlist, e.id)[..|entries|]
    ensures StoreValid(PromoteEntries(s, e, entries, pricing, replies).store)
  {
    var o := PromoteEntries(s, e, entries, pricing, replies);
    if o.result.Err? {
      assert o.store == s by {
        PromoteEntriesRollback(s, e, entries, pricing, replies);
      }
    } else {
      var regs := o.result.value;
      assert o.store.events == s.events && o.store.attendance == s.attendance
        && o.store.registrations == s.registrations + regs && o.store.nextId >= s.nextId + |regs|
        && |regs| == |entries|
      by {
        PromoteEntriesAppends(s, e, entries, pricing, replies);
      }
      assert forall k :: 0 <= k < |regs| ==>
        regs[k].id == s.nextId + k && regs[k].token == s.nextId + k && regs[k].eventId in s.events
      by {
        PromoteEntriesFresh(s, e, entries, pricing, replies);
      }
      PromotedWaitlistValid(s, e, entries, pricing, replies);
      AppendFreshValid(s, o.store, regs);
    }
  }

  /** What stays on the waitlist after a promotion came from it, so keeps its events, ids and
      order. */
  lemma PromotedWaitlistValid(s: Store, e: Event, entries: seq<WaitlistEntry>, pricing: Option<Pricing>, replies: seq<GatewayReply>)
    requires StoreValid(s) && |replies| >= |entries|
    requires |entries| <= |Waiting(s.waitlist, e.id)| && entries == Waiting(s.waitlist, e.id)[..|entries|]
    ensures var o := PromoteEntries(s, e, entries, pricing, replies);
      o.result.Ok? ==>
        && (forall i :: 0 <= i < |o.store.waitlist| ==>
              o.store.waitlist[i].eventId in s.events && o.store.waitlist[i].id < s.nextId)
        && IdsIncreasing(o.store.waitlist)
  {
    var o := PromoteEntries(s, e, entries, pricing, replies);
    if o.result.Ok? {
      assert forall i :: 0 <= i < |o.store.waitlist| ==>
        o.store.waitlist[i].eventId in s.events && o.store.waitlist[i].id < s.nextId
      by {
        PromoteEntriesShrinks(s, e, entries, pricing, replies);
        forall i | 0 <= i < |o.store.waitlist|
          ensures o.store.waitlist[i].eventId in s.events && o.store.waitlist[i].id < s.nextId
        {
          assert o.store.waitlist[i] in s.waitlist;
          var j :| 0 <= j < |s.waitlist| && s.waitlist[j] == o.store.waitlist[i];
        }
      }
      assert IdsIncreasing(o.store.waitlist) by {
        PromoteEntriesFifo(s, e, entries, pricing, replies);
      }
    }
  }

  /** `trigger_waitlist_promotion` keeps the store invariant. */
  lemma TriggerPromotionKeepsValid(s: Store, eventId: int, replies: seq<GatewayReply>)
    requires StoreValid(s) && |replies| >= |s.waitlist|
    ensures StoreValid(TriggerPromotion(s, eventId, replies).store)
  {
    if eventId in s.events {
      PromoteKeepsValid(s, s.events[eventId], replies);
    }
  }

  /** Marking a registration cancelled (and rewriting its metadata) keeps the store invariant. */
  lemma CancelledAtValid(s: Store, i: nat, newDoc: Option<Json>)
    requires StoreValid(s) && i < |s.registrations|
    ensures StoreValid(CancelledAt(s, i, newDoc))
  {
    var s1 := CancelledAt(s, i, newDoc);
    forall k | 0 <= k < |s1.registrations|
      ensures s1.registrations[k].id == s.registrations[k].id && s1.registrations[k].token == s.registrations[k].token
      ensures s1.registrations[k].eventId == s.registrations[k].eventId
    {
    }
  }

  /** Cancellation keeps the store invariant. */
  lemma CancelKeepsValid(s: Store, eventId: int, registrationId: nat, refundReply: GatewayReply, captureReplies: seq<GatewayReply>)
    requires StoreValid(s) && |captureReplies| >= |s.waitlist|
    ensures StoreValid(Cancel(s, eventId, registrationId, refundReply, captureReplies).store)
  {
    var found := FindRegistration(s.registrations, eventId, registrationId);
    var o := Cancel(s, eventId, registrationId, refundReply, captureReplies);
    if found.Some? && o.store != s {
      var i := found.value;
      var reg := s.registrations[i];
      assert o == CancelHeld(s, eventId, i, refundReply, captureReplies);
      var refund := RefundStep(MetadataAsDict(reg.metadata), eventId, refundReply);
      CancelledAtValid(s, i, refund.0.value);
      PromoteKeepsValid(CancelledAt(s, i, refund.0.value), s.events[eventId], captureReplies);
    }
  }

  /** Check-in keeps the store invariant: only a status changes and the attendance record is
      keyed by an existing registration. */
  lemma CheckInKeepsValid(s: Store, token: nat, methodName: Option<string>, metadata: seq<(string, Json)>, now: DateTime)
    requires StoreValid(s)
    ensures StoreValid(CheckIn(s, token, methodName, metadata, now).store)
  {
    var o := CheckIn(s, token, methodName, metadata, now);
    var found := FindToken(s.registrations, token);
    if found.Some? && s.registrations[found.value].status == Confirmed {
      var i := found.value;
      var regs := o.store.registrations;
      assert regs == s.registrations[i := s.registrations[i].(status := CheckedIn)];
      assert forall k :: 0 <= k < |regs| ==>
        regs[k].id == s.registrations[k].id && regs[k].token == s.registrations[k].token && regs[k].eventId == s.registrations[k].eventId;
    }
  }
}
