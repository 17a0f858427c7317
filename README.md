# Meetinity event service — a verified model of its core

This project models, in Dafny, the core logic of the Meetinity event service: the back end that
runs events, their registrations and waitlists, attendance, feedback, speakers and sponsors,
networking suggestions, search and the iCalendar feed. Its parts are these:

- **Registration and attendance engine** (`registrations.dfy`, `registration_service.dfy`,
  `registration_properties.dfy`). `RegistrationService` covers registration, cancellation with
  refund, FIFO waitlist promotion, check-in, the no-show sweep with its penalties, and reminders.
  `Registrations` gives each operation as a function over a snapshot of the rows it reads and
  writes (`Store`). `RegistrationEngine.RegistrationService` is the same service as an object whose
  fields are those tables; each of its methods updates them step by step, as the service does, and
  is proved to reach exactly the state the function describes. `RegistrationProperties` proves what
  the engine promises:
  - the order in which registration screens a request;
  - admission or waitlisting, exactly one of them;
  - the capacity invariant (seats never exceed a non-zero capacity);
  - FIFO promotion;
  - refund and rollback behaviour, where a rollback returns to the snapshot the operation started
    from but a payment request that has gone out stays sent;
  - idempotent check-in;
  - a no-show sweep that penalises nobody twice.
- **Resilience wrapper** (`resilience.dfy`). The circuit breaker is a class with a failure counter
  and an `open_until` instant. The retry loop has exponential, capped backoff and consults the
  breaker before every attempt. The HTTP client contributes its URL joining and its headers. Time
  is integer ticks, and the downstream call is an oracle.
- **Calendar feed** (`calendar.dfy`). The iCalendar feed, one VEVENT per dated event, with the TEXT
  escaping of section 3.3.11 of RFC 5545 and its inverse.
- **Search** (`search_matching.dfy`, `search_sort.dfy`, `search_service.dfy`). The in-memory
  fallback search covers argument clamping, order-preserving filtering, taxonomy, language and date
  matching, Python's stable `sorted`, pagination and suggestions. It also builds the Elasticsearch
  request as data and formats its response.
- **Indexer** (`indexer.dfy`). How an event becomes the indexed document: coordinate precedence,
  taxonomies, de-duplicated languages and `None`-free layout. It also gives the index, delete and
  bulk requests.
- **Networking** (`networking.dfy`). Profile validation, list sanitising with de-duplication,
  pair scoring with exact constants, candidate ranking, and the guards and writes of
  `generate_suggestions`.
- **Payload validators** (`validation.dfy`, `events.dfy`, `feedback.dfy`, `participants.dfy`).
  Every check runs, per-field errors are collected and raised together, and otherwise the clean
  payload is returned. This part also covers the event list filters, the next display order, and
  the empty-update shortcuts.
- **Event repository** (`event_repository.dfy`). An in-memory `Event` object covers translation
  upsert and removal with fallback-locale bookkeeping, `setattr` updates and the approval log.
- **Support** (`json.dfy`, `text.dfy`, `dates.dfy`, `wrappers.dfy`). Python values as they come
  from JSON, with dicts in insertion order. Python's `strip`, `lower`, `join`, string order and
  order-keeping de-duplication. Dates with `strptime("%Y-%m-%d")` and `isoformat`.

The source's integers are Python integers and are modelled as unbounded `int`. Scores, prices and
coordinates are exact `real` values.

## Where the code and its description differ

The description of the service says a failure after the circuit breaker's cooldown re-opens it at
once. The code does otherwise: `allow()` resets the whole breaker state, the counter included,
once the cooldown has passed (src/integrations/base.py:44-45). Re-opening therefore takes
`circuit_breaker_failure_threshold` fresh failures. The model follows the code; see
`Resilience.ReopenNeedsThresholdFailures`.

## Model

| member | source | states |
|---|---|---|
| Registrations.Seats | src/services/registrations.py:315-322 | the number of registrations of the event that are `confirmed` or `checked_in`, never more than the registrations |
| Registrations.Waiting | src/services/registrations.py:467-473 | the event's queue is no longer than the waitlist, and each of its entries is a waitlist entry of that event |
| Registrations.RemoveEntry | src/services/registrations.py:497 | after deleting by id, no entry has that id and every entry left was already on the waitlist |
| Registrations.FindRegistration | src/services/registrations.py:501-512 | the index found holds that id for that event; no index is found only when no registration matches |
| Registrations.FindToken | src/services/registrations.py:514-519 | the index found holds the check-in token; none is found only when no registration has it |
| Registrations.NormalizeEmail | src/services/registrations.py:521-525 | fails exactly for a non-string or blank email; otherwise the result is non-empty, has no surrounding whitespace and is lower case |
| Registrations.MetadataAsDict | src/services/registrations.py:364-372 | always a JSON object: the stored document when it decodes to an object, `{}` otherwise |
| Registrations.ParseUnsigned | src/services/registrations.py:383 | `float` of unsigned decimal text is never negative, and is `None` unless the text is digits with at most one point and at least one digit |
| Registrations.ParseUnsignedValue | src/services/registrations.py:383 | `float("W.F")`, for digit strings `W` and `F` not both empty, is the number `W + F / 10^len(F)` |
| Registrations.ParseUnsignedWhole | src/services/registrations.py:383 | `float("W")` for a non-empty digit string is the integer `W` |
| Registrations.ParseUnsignedOfNat | src/services/registrations.py:383 | `float(str(n)) == n` for every natural number `n` |
| Registrations.ExtractPricing | src/services/registrations.py:374-389 | a price exists only for an object `settings.pricing` whose amount parses as a number greater than 0, and then its currency is upper case and is "EUR" when none or an empty one is given |
| Registrations.CaptureRecord | src/services/registrations.py:409-430 | a failed capture is `PaymentProcessingError`; a record is only built from a reply that is a JSON object, and is itself an object |
| Registrations.Pay | src/services/registrations.py:122-133 | an unpriced event makes no call and keeps the registration; a priced one makes exactly one capture call and fails exactly when the capture fails |
| Registrations.AdmitWithRoomPays | src/services/registrations.py:114-137 | with room, registration makes the calls of the payment step and either fails leaving the store as it was, or appends the paid registration and advances the id counter |
| Registrations.Take | src/services/registrations.py:467-473 | the first `min(n, len)` entries of a queue, as the SQL `LIMIT` gives them |
| Registrations.PromoteOne | src/services/registrations.py:477-496 | when it succeeds, one promotion step yields a `confirmed` registration with the next id and token for the entry's email and name; an unpriced event always succeeds with no call, a priced one sends exactly one capture of the price |
| Registrations.RefundPayment | src/services/registrations.py:432-458 | a payment without a truthy id is returned unchanged with no call; otherwise exactly one refund call for that id with the event's reason, a failure is `PaymentProcessingError`, and success needs an object reply |
| Registrations.RefundStep | src/services/registrations.py:155-167 | no stored payment means no call and no change; a truthy payment that is not a mapping fails as `AttributeError` does, with no call |
| Registrations.CancelledAt | src/services/registrations.py:160-167 | only the registration at `i` changes, and no other table: it keeps its id, becomes `cancelled`, and keeps its metadata unless a new document is given |
| Registrations.CancellationPayload | src/services/registrations.py:151-174 | the payload's `status` is the registration's status, and the `promoted` key is present iff some registration was promoted |
| Registrations.CheckInMethod | src/services/registrations.py:212 | the given method when one is given and non-empty, "qr" otherwise |
| Registrations.MarkedAbsent | src/services/registrations.py:228-230 | the registrations in the same order, each absent one marked `no_show` and every other one unchanged |
| Registrations.AbsentPenalties | src/services/registrations.py:228-243 | at most one penalty per registration |
| RegistrationProperties.NormalizeEmailIdempotent | src/services/registrations.py:521-525 | normalising a normalised email gives it back unchanged |
| RegistrationProperties.ScreenOrder | src/services/registrations.py:99-108 | the checks fail in the source's order: closed or past deadline, then blank email, then active penalty, then duplicate registration or waitlist entry |
| RegistrationProperties.RegisterFailsFast | src/services/registrations.py:99-108 | an unknown event or a failed check writes nothing and makes no payment call; any failed registration leaves the store unchanged |
| RegistrationProperties.AdmitDecision | src/services/registrations.py:112-149 | a `confirmed` registration with the next id and token is created iff the event is unlimited or has a seat left; otherwise exactly one waitlist entry is created and no payment call is made |
| RegistrationProperties.AdmitKeepsCapacity | src/services/registrations.py:112-115 | with capacity C > 0 and at most C seats taken, registration keeps the seats taken at most C |
| RegistrationProperties.AdmitCharges | src/services/registrations.py:122-133 | a priced admission sends one capture for the price and currency and stores the capture record under `payment` |
| RegistrationProperties.PaidRecord | src/services/registrations.py:131-132 | after a successful capture, the stored metadata's `payment` is the capture record |
| RegistrationProperties.AdmitPaymentFails | src/services/registrations.py:417-421 | a failed capture with room and a price ends in `PaymentProcessingError` after one call, with the store rolled back; every failure leaves the store unchanged |
| RegistrationProperties.PromoteOneCaptures | src/services/registrations.py:485-492 | each call of one promotion step is a capture of the price for the event |
| RegistrationProperties.PromoteEntriesRollback | src/services/registrations.py:417-421 | a failed capture in the promotion loop rolls the store back to where the loop started, and an unpriced event never fails |
| RegistrationProperties.PromoteEntriesAppends | src/services/registrations.py:477-499 | a successful loop appends one registration per entry with consecutive ids and touches no other table |
| RegistrationProperties.PromoteEntriesFresh | src/services/registrations.py:477-484 | the registrations created are, in entry order, `confirmed` registrations of the event for the entries' emails and names |
| RegistrationProperties.RemoveAbsent | src/services/registrations.py:497 | deleting an id no entry has changes nothing |
| RegistrationProperties.RemoveKeepsOrder | src/services/registrations.py:497 | deleting an entry keeps the waitlist in creation order |
| RegistrationProperties.RemoveFirstWaiting | src/services/registrations.py:467-473 | deleting the oldest entry of an event drops the head of that event's queue and leaves every other event's queue alone |
| RegistrationProperties.PromoteEntriesFifo | src/services/registrations.py:477-499 | the loop over a prefix of an event's queue removes exactly that prefix from the queue |
| RegistrationProperties.PromoteFifo | src/services/registrations.py:460-499 | an unlimited event never promotes; otherwise the promoted registrations come from the oldest entries of the queue, no more than the free seats, and those entries leave the queue |
| RegistrationProperties.PromoteCalls | src/services/registrations.py:485-492 | promotion sends only capture requests |
| RegistrationProperties.PromoteKeepsCapacity | src/services/registrations.py:460-475 | with capacity C > 0 and at most C seats taken, promotion keeps the seats taken at most C |
| RegistrationProperties.CancelFinal | src/services/registrations.py:151-154 | an unknown registration is `LookupError`; a `cancelled` or `no_show` one is returned with its status, the store unchanged and no call made |
| RegistrationProperties.CaptureRecordFields | src/services/registrations.py:422-430 | the capture record's id is the reply's `id`, else its `payment_id`; its status is the reply's, default "captured"; its amount and currency are the price's |
| RegistrationProperties.RefundPaymentFields | src/services/registrations.py:452-458 | after a refund the status is the gateway's (default "refunded"), the refund record is the reply's `refund` or the whole reply, and every other field is kept |
| RegistrationProperties.RefundStepCalls | src/services/registrations.py:159-167 | the refund step calls the refund endpoint exactly when the stored payment was captured and has an id |
| RegistrationProperties.CancelRefund | src/services/registrations.py:159-167 | a cancellation sends the refund first, with the event's reason, exactly when the payment was captured with an id, and after it only captures |
| RegistrationProperties.CancelEffect | src/services/registrations.py:151-174 | a completed cancellation marks that registration `cancelled`, leaves every other earlier registration unchanged, and appends exactly the promoted registrations |
| RegistrationProperties.CancelPromotesQueue | src/services/registrations.py:168 | the promoted registrations come from the oldest entries of the event's queue, which lose exactly those; an unlimited event promotes nobody |
| RegistrationProperties.CancelStep | src/services/registrations.py:157-168 | a completed cancellation is the promotion run on the store with that registration cancelled |
| RegistrationProperties.CancelSeats | src/services/registrations.py:160-168 | the cancelled registration frees its seat, and each promoted registration takes one |
| RegistrationProperties.CancelKeepsCapacity | src/services/registrations.py:151-174 | with capacity C > 0 and at most C seats taken, cancellation keeps the seats taken at most C |
| RegistrationProperties.CancelRollbackKeepsRefund | src/services/registrations.py:418 | a capture failure during the promotion rolls back the cancellation too, while the refund request already sent stays in the request log |
| RegistrationProperties.FindTokenUnique | src/services/registrations.py:514-519 | with tokens in creation order, the token lookup finds exactly the registration holding that token |
| RegistrationProperties.CheckInRefusals | src/services/registrations.py:197-204 | an unknown token, a `cancelled` or a `no_show` registration is a `CheckInError` that changes nothing |
| RegistrationProperties.CheckInEffect | src/services/registrations.py:205-218 | `checked_in` returns unchanged; a `confirmed` registration becomes `checked_in` with one attendance record holding the time, the method (default "qr") and the payload, and nothing else changes |
| RegistrationProperties.CheckInIdempotent | src/services/registrations.py:205-206 | once a check-in succeeded, checking in again with the same token changes nothing |
| RegistrationProperties.AbsentPenaltiesExact | src/services/registrations.py:228-243 | the sweep's penalties are exactly those of the absent registrations, in order, each expiring at the given instant |
| RegistrationProperties.AbsentPenaltiesNone | src/services/registrations.py:228-229 | with nobody absent the sweep gives no penalty |
| RegistrationProperties.SweepNoop | src/services/registrations.py:220-224 | an unknown event is `LookupError`, and while the event date is today or later the sweep changes nothing |
| RegistrationProperties.SweepEffect | src/services/registrations.py:226-247 | after the event date, exactly the `confirmed` registrations without attendance become `no_show`, each with one penalty expiring at midnight of event date + 30 days |
| RegistrationProperties.SweepKeepsValid | src/services/registrations.py:220-247 | the sweep keeps the store invariant |
| RegistrationProperties.MarkedAbsentIdle | src/services/registrations.py:228-229 | marking changes nothing when nobody is absent |
| RegistrationProperties.SweepIdempotent | src/services/registrations.py:228-229 | a second sweep of the same event, on any later day, penalises nobody and changes no registration |
| RegistrationProperties.PenaltyWindow | src/services/registrations.py:286-293 | a penalty is active for its own email exactly while `now` is before its expiry, or always when it has none |
| RegistrationProperties.SweepPenalizes | src/services/registrations.py:226-243 | after a sweep, each absentee has a penalty that blocks their email until midnight of event date + 30 days |
| RegistrationProperties.SweepBlocksRegistration | src/services/registrations.py:103-106 | after a sweep, an absentee who registers again for any open event before the expiry gets `PenaltyActiveError` |
| RegistrationProperties.EventRemindersExact | src/services/registrations.py:262-269 | an event's reminders are exactly one per `confirmed` registration of that event |
| RegistrationProperties.EventRemindersCount | src/services/registrations.py:262-269 | an event's reminder count is its number of `confirmed` registrations |
| RegistrationProperties.StoredRemindersExact | src/services/registrations.py:262-269 | the same for a stored event |
| RegistrationProperties.RemindersForExact | src/services/registrations.py:250-269 | the reminders of a run are exactly those of the listed events inside the window with registrations open |
| RegistrationProperties.SendRemindersExact | src/services/registrations.py:249-269 | `send_reminders` raises exactly when `today + within_days` falls outside the dates from 0001-01-01 to 9999-12-31; otherwise a reminder goes out exactly for each `confirmed` registration of a stored, open event dated from today to that threshold, whatever order the events come in; a negative `within_days` sends nothing |
| RegistrationProperties.EmptyWindow | src/services/registrations.py:250-256 | a threshold before today selects no event, so no reminder goes out for any listing of the events |
| RegistrationProperties.AppendFreshValid | src/services/registrations.py:324-345 | appending registrations with the next ids and tokens keeps the store invariant |
| RegistrationProperties.AdmitKeepsValid | src/services/registrations.py:112-149 | admission keeps the store invariant |
| RegistrationProperties.RegisterKeepsValid | src/services/registrations.py:91-149 | `register_attendee` keeps the store invariant |
| RegistrationProperties.PromoteEntriesShrinks | src/services/registrations.py:497 | the promotion loop only deletes waitlist entries |
| RegistrationProperties.PromoteKeepsValid | src/services/registrations.py:460-499 | promotion keeps the store invariant |
| RegistrationProperties.PromoteEntriesValid | src/services/registrations.py:477-499 | the promotion loop over the first waiting entries keeps the store invariant |
| RegistrationProperties.PromotedWaitlistValid | src/services/registrations.py:497 | what stays on the waitlist after a promotion keeps its events, its ids and its creation order |
| RegistrationProperties.TriggerPromotionKeepsValid | src/services/registrations.py:191-195 | `trigger_waitlist_promotion` keeps the store invariant |
| RegistrationProperties.CancelledAtValid | src/services/registrations.py:160-167 | marking a registration cancelled keeps the store invariant |
| RegistrationProperties.CancelKeepsValid | src/services/registrations.py:151-174 | cancellation keeps the store invariant |
| RegistrationProperties.CheckInKeepsValid | src/services/registrations.py:197-218 | check-in keeps the store invariant |
| RegistrationEngine.ResumeStart | src/services/registrations.py:477-499 | before any entry is promoted, the rest of the run is the whole promotion loop |
| RegistrationEngine.ResumeStep | src/services/registrations.py:477-499 | one more promoted entry advances the run; a failed capture ends it rolled back |
| RegistrationEngine.CollectEventReminders | src/services/registrations.py:262-269 | the loop collects the reminders of the `confirmed` registrations of the event, in order |
| RegistrationEngine.MarkNoShows | src/services/registrations.py:228-243 | the loop gives the marked registrations and the penalties of the absent ones |
| RegistrationEngine.RegistrationService.constructor | src/services/registrations.py:67-77 | a fresh service over the given events has empty tables, a zero id counter and an empty request log, and satisfies the store invariant |
| RegistrationEngine.RegistrationService.Restore | src/services/registrations.py:418-448 | `session.rollback()`: the tables go back to the snapshot and the request log stays |
| RegistrationEngine.RegistrationService.RegisterAttendee | src/services/registrations.py:91-149 | the new tables, the result and the requests sent are those `Registrations.Register` gives, and the store invariant holds |
| RegistrationEngine.RegistrationService.AdmitAttendee | src/services/registrations.py:112-149 | the writes after the checks are those `Registrations.Admit` gives |
| RegistrationEngine.RegistrationService.AdmitWithRoom | src/services/registrations.py:115-137 | the branch with room gives what `Registrations.Admit` gives |
| RegistrationEngine.RegistrationService.PromoteWaitlist | src/services/registrations.py:460-499 | the loop's result, tables and requests are those `Registrations.Promote` gives |
| RegistrationEngine.RegistrationService.TriggerWaitlistPromotion | src/services/registrations.py:191-195 | the result and the new state are those `Registrations.TriggerPromotion` gives, and the store invariant still holds |
| RegistrationEngine.RegistrationService.CancelRegistration | src/services/registrations.py:151-174 | the result, tables and requests are those `Registrations.Cancel` gives, and the store invariant still holds |
| RegistrationEngine.RegistrationService.CancelActive | src/services/registrations.py:157-174 | the refund, cancel and promote steps give what `Registrations.CancelHeld` gives for a cancellation that goes through |
| RegistrationEngine.RegistrationService.CheckInAttendee | src/services/registrations.py:197-218 | the result and the new tables are those `Registrations.CheckIn` gives, and the store invariant still holds |
| RegistrationEngine.RegistrationService.DetectNoShows | src/services/registrations.py:220-247 | the penalties and the new tables are those `Registrations.DetectNoShows` gives, and the store invariant still holds |
| RegistrationEngine.RegistrationService.SendReminders | src/services/registrations.py:249-269 | the method visits every stored event and returns exactly what `Registrations.SendReminders` gives, the overflow error included; it writes nothing |
| Resilience.AllowStep | src/integrations/base.py:40-45 | `allow()` refuses exactly while the breaker is open with `open_until` still ahead, and then changes nothing; past the instant it resets the whole state, failure counter included; a closed breaker allows and stays as it is |
| Resilience.FailureStep | src/integrations/base.py:50-55 | `record_failure()` counts one more failure; from the threshold on it sets `open_until` to now + reset timeout, below it leaves `open_until` alone |
| Resilience.CircuitBreaker.constructor | src/integrations/base.py:36-38 | a new breaker is closed with a zero counter |
| Resilience.CircuitBreaker.Allow | src/integrations/base.py:40-45 | raises `CircuitOpenError` exactly when the step refuses, and leaves the state the step gives |
| Resilience.CircuitBreaker.RecordSuccess | src/integrations/base.py:47-48 | `record_success()` restores the closed zero state |
| Resilience.CircuitBreaker.RecordFailure | src/integrations/base.py:50-55 | the state becomes the failure step's |
| Resilience.ReopenNeedsThresholdFailures | src/integrations/base.py:44-55 | after the cooldown `allow()` passes and resets the counter, so fewer than `threshold` new failures leave the breaker closed at every later instant |
| Resilience.FailuresBelowThreshold | src/integrations/base.py:50-55 | from the closed state, failures below the threshold only count up and never open the breaker |
| Resilience.FailuresFrom | src/integrations/base.py:50-55 | below the threshold each failure adds one to the counter and leaves the breaker closed |
| Resilience.FirstAttempt | src/integrations/base.py:76-91 | one pass of the loop: an open breaker stops the run before any call; a result or a `CircuitOpenError` stops it after one call; a failure on the last attempt raises `IntegrationError`; any other failure sleeps `delay` and goes on with the delay doubled up to its cap |
| Resilience.ExecuteFrom | src/integrations/base.py:76-91 | from the `attempts`-th failure on, the loop calls the operation at most `max(1, max_attempts) - attempts` more times |
| Resilience.ExecuteBounded | src/integrations/base.py:73-91 | every call before the last one failed; a success is the value the last call returned and leaves the breaker closed; `IntegrationError` comes only after `max(1, max_attempts)` failed calls |
| Resilience.ExecuteBackoff | src/integrations/base.py:72-88 | the first sleep is `backoff_factor`, each next one doubles the previous up to `max(backoff_factor, max_backoff)`, none exceeds that cap, and no sleep follows the final call |
| Resilience.ExecuteRespectsBreaker | src/integrations/base.py:76-81 | an open breaker at entry means no call and `CircuitOpenError` with the state untouched; a `CircuitOpenError` from the operation ends the run at once, unretried |
| Resilience.IntegrationClient.constructor | src/integrations/base.py:66-68 | a new client holds a fresh, closed breaker with the client's configuration |
| Resilience.IntegrationClient.Execute | src/integrations/base.py:70-91 | the retry loop's result, call count, sleeps, clock and final breaker state are exactly those of the reference run `Resilience.ExecuteRun` |
| Resilience.IntegrationClient.Attempt | src/integrations/base.py:77-88 | one pass asks the breaker and calls the operation at most once; it gives an answer when the run stops here, and otherwise records the failure and leaves an attempt to spare |
| Resilience.BuildUrlJoins | src/integrations/base.py:144-149 | an `http://` or `https://` path is returned unchanged; any other result is the base without its trailing slashes, one "/", and the path without its leading slashes |
| Resilience.SlashLedNotAbsolute | src/integrations/base.py:145 | a path starting with "/" is never taken for an absolute URL |
| Resilience.BuildUrlIgnoresExtraSlashes | src/integrations/base.py:147-149 | a trailing slash on the base and a leading slash on a relative path change nothing |
| Resilience.Headers | src/integrations/base.py:101-107 | `Content-Type` is always present and is "application/json" unless the caller overrides it; `Authorization` is present iff a secret is set or the caller gives one, and is "Bearer " + secret unless overridden; every extra header is kept as given; no other key appears |
| Calendar.Escape | src/services/calendar.py:63-69 | an escaped value holds no raw newline |
| Calendar.EscapeAppend | src/services/calendar.py:63-69 | escaping a concatenation escapes each part |
| Calendar.EscapeOne | src/services/calendar.py:63-69 | one character escapes as section 3.3.11 of RFC 5545 writes it |
| Calendar.EscapeIsPerCharacter | src/services/calendar.py:63-69 | because the backslash is replaced first, the chain of replacements escapes each character independently, which is the RFC 5545 reference escaping |
| Calendar.UnescapeEscape | src/services/calendar.py:63-69 | decoding an escaped value gives the value back, so `_escape` loses nothing |
| Calendar.EachRoundTrip | src/services/calendar.py:63-69 | decoding the per-character escaping gives the value back |
| Calendar.EscapePlain | src/services/calendar.py:63-69 | a value with no backslash, comma, semicolon or newline is left as it is |
| Calendar.TextOrMeaning | src/services/calendar.py:24-31 | a falsy value gives the default ("Event" for the title, "" otherwise); a truthy string gives a text that decodes back to it; a truthy non-string fails as `str.replace` would |
| Calendar.EventResults | src/services/calendar.py:22-57 | one contribution per event |
| Calendar.CrlfJoinTerminates | src/services/calendar.py:60 | joining by CRLF and adding a final CRLF ends every line, the last included, with CRLF |
| Calendar.FeedFrame | src/services/calendar.py:13-60 | the feed is the five header lines, the event blocks and END:VCALENDAR, each followed by CRLF |
| Calendar.CollectFail | src/services/calendar.py:22-57 | the feed fails exactly when some event raises, and then with the exception of the first such event |
| Calendar.VEventMarkers | src/services/calendar.py:34-57 | a block opens with BEGIN:VEVENT, closes with END:VEVENT, and holds each marker exactly once |
| Calendar.PropertiesHaveNoMarker | src/services/calendar.py:37-56 | no property line is a VEVENT marker |
| Calendar.EventBlockCounts | src/services/calendar.py:26-57 | an event with a string date gives one block with one marker of each kind; any other event gives no line |
| Calendar.CollectCount | src/services/calendar.py:22-57 | when each non-empty contribution holds a marker once and each empty one holds none, the feed holds it once per non-empty contribution |
| Calendar.DatedAreNonEmpty | src/services/calendar.py:26-28 | the events with a string date are exactly the events that contribute lines |
| Calendar.BlocksCount | src/services/calendar.py:22-57 | the event lines hold exactly one BEGIN:VEVENT and one END:VEVENT per event with a string date |
| Calendar.FeedEventCount | src/services/calendar.py:13-60 | the whole feed holds exactly one BEGIN:VEVENT and one END:VEVENT per event with a string date |
| Calendar.HeaderHasNoBlocks | src/services/calendar.py:14-20 | the header holds no VEVENT marker |
| Calendar.EventDates | src/services/calendar.py:29-30 | DTSTART is the date with its hyphens removed, and DTEND is the next calendar day in YYYYMMDD form |
| Calendar.EventDateErrors | src/services/calendar.py:30 | a date `strptime` rejects raises `ValueError`, and 9999-12-31 raises `OverflowError` |
| Calendar.EventOptionalLines | src/services/calendar.py:32-56 | the URL line is present iff the share mapping has a truthy url, and then it decodes to that url; the CATEGORIES line is present iff some tag gives a string name |
| Calendar.TagNamesNonEmpty | src/services/calendar.py:48-55 | `tag_values` is non-empty iff some tag gives a string name |
| Calendar.DtStartCanonical | src/services/calendar.py:29 | for a date in `isoformat` with a four-digit year, removing the hyphens gives its YYYYMMDD form |
| Calendar.GenerateIcsFeed | src/services/calendar.py:10-60 | the loop that extends `lines` produces exactly the feed `Calendar.IcsFeed` describes |
| Calendar.EventLines | src/services/calendar.py:23-57 | the loop body for one event produces exactly that event's block |
| Calendar.CollectTagNames | src/services/calendar.py:50-54 | the loop over the tags collects exactly the string names in order |
| SearchMatching.Texts | src/services/search.py:296 | `str(value)` of every item, in order: a string is itself, anything else is its `repr`, with lists and dicts shown item by item and strings quoted and escaped as Python does |
| JsonValue.WholeFloatRepr | src/services/search.py:296 | `str` of a whole float below 1e16 is its digits followed by `.0` |
| JsonValue.OneDecimalFloatRepr | src/services/search.py:296 | `str` of a float with one decimal place, from 1.1 on, is its digits around the point, as in `str(2.5) == "2.5"` |
| JsonValue.PlainStrRepr | src/services/search.py:296 | `repr` of a printable ASCII string without a backslash or single quote is that string between single quotes |
| SearchMatching.StripAll | src/services/search.py:296 | the stripped text of every item, in order, one per item |
| SearchMatching.DropBlank | src/services/search.py:296 | the filter keeps no more texts than it is given |
| SearchMatching.StrippedAreStripped | src/services/search.py:296 | every normalised text is already stripped |
| SearchMatching.DropBlankExact | src/services/search.py:296 | the filter keeps exactly the non-empty texts: each kept text is a non-empty input, and each non-empty input is kept |
| SearchMatching.DropBlankKeeps | src/services/search.py:296 | a property every input text has, every kept text has |
| SearchMatching.NormaliseMeaning | src/services/search.py:292-296 | every normalised value is non-blank and stripped, and the stripped text of each item is kept when it is not empty |
| SearchMatching.AvailableNamesExact | src/services/search.py:329-337 | the names `_matches_taxonomy` collects are exactly the lower-cased string names of the items |
| SearchMatching.TaxonomyMeaning | src/services/search.py:325-339 | false for a falsy collection; otherwise true iff some expected value equals some item name, both lower-cased |
| SearchMatching.DateRangeMeaning | src/services/search.py:360-371 | with no bound or no string date every event passes; otherwise an event passes iff start <= date <= end in string order, for the bounds given |
| SearchMatching.FirstPair | src/services/search.py:404-409 | the pair found is that of the first candidate giving one, and none is found only when no candidate gives one |
| SearchMatching.NoCriteriaKeepsMappings | src/services/search.py:243-258 | without any criterion, exactly the mappings are kept |
| SearchMatching.EmptyCriterionInactive | src/services/search.py:246-256 | an empty text, empty date bounds or a zero radius decide the same as no criterion |
| SearchMatching.AnyNameMatches | src/services/search.py:306-313 | the tag or category loop finds a match iff some item's name holds the lower-cased text |
| SearchMatching.MatchText | src/services/search.py:298-323 | the loops of `_matches_text` answer exactly the text-matching predicate: the four scalar fields, the tag names or the category names |
| SearchMatching.AnyExpected | src/services/search.py:338-339 | true iff some expected value, lower-cased, is available |
| SearchMatching.MatchTaxonomy | src/services/search.py:325-339 | the loops of `_matches_taxonomy` answer exactly the taxonomy predicate |
| SearchMatching.CollectTranslationLocales | src/services/search.py:347-353 | the loop collects exactly the lower-cased string locales of the mapping translations, in order |
| SearchMatching.CollectLocales | src/services/search.py:343-356 | the locales are the default, then the translations', then the fallback, lower-cased |
| SearchMatching.MatchLanguages | src/services/search.py:341-358 | the loops of `_matches_languages` answer exactly the language predicate |
| SearchMatching.FindCoordinates | src/services/search.py:388-409 | the loops of `_extract_coordinates` give exactly the specified pair: the top-level pair when both are numbers, else the first candidate pair of the settings |
| SearchSort.KeyLessIrreflexive | src/services/search.py:263-274 | no key sorts before itself |
| SearchSort.KeyLessTransitive | src/services/search.py:263-274 | the key order is transitive |
| SearchSort.KeyLessWeak | src/services/search.py:263-274 | between keys of one kind the order is a strict weak order |
| SearchSort.LexIrreflexive | src/services/search.py:263-274 | comparing lists item by item, no list is smaller than itself |
| SearchSort.LexTransitive | src/services/search.py:263-274 | the item-by-item list order is transitive when the item order is transitive and irreflexive |
| SearchSort.LexTotal | src/services/search.py:263-274 | of two different lists one is smaller when the item order is total: the first differing item decides, and a proper prefix is smaller |
| SearchSort.InsertPerm | src/services/search.py:274 | inserting adds the element and keeps the others |
| SearchSort.SortByPerm | src/services/search.py:274 | `sorted` returns a permutation of its input |
| SearchSort.InsertSorted | src/services/search.py:274 | inserting into a sorted list keeps it sorted |
| SearchSort.SortBySorted | src/services/search.py:274 | `sorted` returns its input in order |
| SearchSort.TiedWithAppend | src/services/search.py:274 | the tied elements of a concatenation are those of each part |
| SearchSort.InsertStable | src/services/search.py:274 | inserting keeps the relative order of tied elements |
| SearchSort.SortByStable | src/services/search.py:274 | `sorted` is stable: the elements tied with any given one come out in input order |
| SearchSort.SortByKind | src/services/search.py:274 | sorting keeps the kind of the keys |
| SearchSort.SortResults | src/services/search.py:261-274 | `TypeError` exactly when two or more results have keys not all of one kind (strings, numbers, lists of strings or lists of numbers); otherwise a permutation of the results, sorted by the key in the chosen direction |
| SearchSort.SortResultsMeaning | src/services/search.py:261-274 | the same in Python's terms: no result's key is smaller than an earlier one's, or larger when the argument starts with "-"; `TypeError` exactly when the keys are not all of one kind |
| SearchSort.SortResultsStable | src/services/search.py:261-274 | events with tied keys keep their relative order, in either direction |
| SearchSort.TranslateSortMeaning | src/services/search.py:211-223 | descending exactly for a leading "-"; the field is the argument without it, with "date" mapped to "event_date", so the public name never reaches the index |
| SearchSort.SortDirectionsAgree | src/services/search.py:215-264 | the fallback and the Elasticsearch paths read the direction of a sort argument the same way |
| SearchService.Filtered | src/services/search.py:228-259 | the filter returns no more events than it is given |
| SearchService.FilteredAppend | src/services/search.py:243-258 | filtering distributes over concatenation, so kept events keep their relative order |
| SearchService.FilteredMembers | src/services/search.py:243-258 | an event is in the result iff it is an input event that passes every filter |
| SearchService.FilteredNoCriteria | src/services/search.py:243-258 | without criteria the filter returns the mappings as they are |
| SearchService.KeepEvent | src/services/search.py:244-257 | the per-event tests, in the source's order, decide exactly the filter predicate |
| SearchService.FilterEvents | src/services/search.py:242-259 | the loop returns exactly the filtered events |
| SearchService.MatchingTitlesMembers | src/services/search.py:282-286 | a title is collected iff it is the string title of some result that holds the text case-insensitively |
| SearchService.FirstFive | src/services/search.py:287 | `[:5]`: a prefix of at most five values, all of them when there are no more than five |
| SearchService.SuggestionsMeaning | src/services/search.py:276-287 | nothing without text; otherwise at most five distinct titles of the results, each holding the text case-insensitively; a matching title is missing only when five were found |
| SearchService.BuildSuggestions | src/services/search.py:276-287 | the loop returns exactly the specified suggestions |
| SearchService.ClampPage | src/services/search.py:55 | the page is at least 1, and unchanged when it already is |
| SearchService.ClampSize | src/services/search.py:56 | the size is in [1, 100], unchanged inside it and 100 above it |
| SearchService.PageOf | src/services/search.py:96-99 | `results[start:end]`: at most `size` items, exactly those at positions `(page-1)*size + k` that exist |
| SearchService.QueryBodyMeaning | src/services/search.py:128-178 | `match_all` is sent iff no criterion is in effect; a sort clause iff a sort is given; a suggest block iff suggestions are asked for and there is text; the range clause carries only the bounds given |
| SearchService.MatchAllKeepsEveryMapping | src/services/search.py:162-258 | when `match_all` is sent, the fallback would keep every mapping too |
| SearchService.BuildFilters | src/services/search.py:139-160 | the clauses appended one by one are exactly the specified filter clauses |
| SearchService.BuildQuery | src/services/search.py:111-178 | the request body built step by step is exactly the specified body |
| SearchService.HitSources | src/services/search.py:185-190 | every collected result is a mapping |
| SearchService.FormatResponseMeaning | src/services/search.py:180-209 | fails only on a `total` that is not a mapping; otherwise the results are mappings, the total is the backend's integer or the number of results, the suggestions are the option texts without repeats, and page and size are passed through |
| SearchService.CollectSources | src/services/search.py:185-190 | the results loop collects exactly the `_source` mappings of the mapping hits |
| SearchService.AddOptionTexts | src/services/search.py:199-202 | the inner loop adds each new string option text once, in order |
| SearchService.AddEntryTexts | src/services/search.py:196-202 | the middle loop adds the option texts of each entry once, in order |
| SearchService.AddSuggestTexts | src/services/search.py:193-202 | the outer loop gives the option texts of every suggester without repeats |
| SearchService.FormatEsResponse | src/services/search.py:180-209 | the method gives exactly the specified formatted response |
| SearchService.PageFromMeaning | src/services/search.py:94-106 | page and size are clamped, `total` counts every sorted event, the results are the requested window (at most `size`), suggestions are empty when not asked for, and only the sort can fail |
| SearchService.FallbackMeaning | src/services/search.py:81-106 | the fallback's `total` counts every event that passed the filters, and every result is one of them |
| SearchService.PassedToPage | src/services/search.py:94-106 | paging a permutation of the passed events keeps their count and takes every result from them |
| SearchService.RequestWindow | src/services/search.py:55-73 | the request asks for the window `from = (page-1)*size`, `from >= 0`, `1 <= size <= 100` |
| SearchService.SearchEvents | src/services/search.py:31-106 | the method gives exactly what `SearchService.Search` describes: the client path with a client, the fallback otherwise |
| SearchService.ClientSearch | src/services/search.py:61-78 | the client path gives exactly the formatted answer to the built request |
| SearchService.FallbackSearch | src/services/search.py:80-106 | the fallback path gives exactly the specified page |
| Text.DigitsValueOfNat | src/search/indexer.py:90 | the digits `str` writes for a natural number read back as that number |
| Indexer.ParseIntOfString | src/search/indexer.py:90 | `int(str(i)) == i` for every integer |
| Indexer.PyInt | src/search/indexer.py:90 | `int(v)` is the value of an integer or bool, a number truncated toward zero, and raises for `None`, a list or a mapping |
| Indexer.CoordinatePrecedence | src/search/indexer.py:136-156 | the top-level pair wins when both are numbers; otherwise the settings' `coordinates` (or else `geo`) mapping when there is one, else the settings' `location` mapping; with no settings mapping there are no coordinates |
| Indexer.NameOf | src/search/indexer.py:164-167 | an item gives at most one name, exactly when it is a mapping with a string `name` |
| Indexer.IdOf | src/search/indexer.py:164-170 | an item gives at most one identifier, exactly when it is a mapping with an integer `id` |
| Indexer.TaxonomyMeaning | src/search/indexer.py:158-171 | names and identifiers are gathered independently: a name exactly when some mapping item has it as a string `name`, an identifier exactly when some mapping item has it as an integer `id`; non-mappings are ignored |
| Indexer.ExtractTaxonomy | src/search/indexer.py:158-171 | the loop collects exactly the specified names and identifiers, in order |
| Indexer.LanguagesMeaning | src/search/indexer.py:173-189 | the languages are the default, translation and fallback locales with repeats removed, first occurrence kept: no repeats, every candidate present, the default first, the fallback present |
| Indexer.ExtractLanguages | src/search/indexer.py:173-189 | the loop gives exactly the specified languages |
| Indexer.Title | src/search/indexer.py:91 | a string title is kept and a missing one is "" |
| Indexer.BuildDocument | src/search/indexer.py:72-108 | fails exactly when `int(event.get("id"))` raises, and then with that value; otherwise the document carries the converted id |
| Indexer.DocumentMeaning | src/search/indexer.py:79-108 | the date is `date` when truthy, else `event_date`; a series name or share URL is set only when `series` or `share` is a mapping; a string title is kept and a missing one is ""; languages have no repeats and taxonomy ids are integers |
| Indexer.TaxonomyIdsAreInts | src/search/indexer.py:169-170 | every collected identifier is an integer |
| Indexer.DropNoneMeaning | src/search/indexer.py:62 | the comprehension keeps, in order, exactly the entries whose value is not `None`, and keeps keys distinct |
| Indexer.DropNoneLookup | src/search/indexer.py:62 | with distinct keys, dropping the `None` entries changes no `get` |
| Indexer.LookupEntry | src/search/indexer.py:62 | with distinct keys, an entry is what `get` finds under its key |
| Indexer.PayloadKeysDistinct | src/search/indexer.py:41-61 | the nineteen keys of the payload are all different |
| Indexer.AsDictMeaning | src/search/indexer.py:40-62 | `asdict` holds no `None` and no key twice, answers every `get` as the full payload does, and holds each payload entry exactly when its value is not `None` |
| Indexer.AsDictAlwaysHas | src/search/indexer.py:42-60 | `indexed_at`, `id`, `title` and the five lists are always present, with their values |
| Indexer.RefreshArg | src/search/indexer.py:113-133 | no `refresh` key for a falsy value, "wait_for" for `True`, any other truthy value passed through |
| Indexer.IndexEvent | src/search/indexer.py:110-115 | the request exists exactly when the document can be built, and then carries the index, the document id, `asdict` of the document and the refresh argument |
| Indexer.DeleteEvent | src/search/indexer.py:130-134 | the request names the index and the id, with a refresh key only for a truthy value |
| Indexer.BulkSucceeds | src/search/indexer.py:121-124 | the operations exist exactly when every event can be built |
| Indexer.BulkLayout | src/search/indexer.py:120-124 | exactly two operations per event in input order: at `2k` the index action with the k-th document's id, at `2k+1` that document |
| Indexer.BulkIndexEvents | src/search/indexer.py:117-128 | the loop builds exactly the specified operations, with the refresh argument, and fails exactly when some event cannot be built |
| Indexer.BulkAbort | src/search/indexer.py:121-122 | once some event of a prefix fails to build, the whole bulk call fails |
| Networking.CleanMeaning | src/services/networking.py:236-237 | a clean text is its own `strip()`, and a `strip()` that is not blank is clean |
| Networking.EntryText | src/services/networking.py:233-237 | one entry contributes at most one text: its stripped form, exactly when it is a string that is not blank after stripping |
| Networking.SanitizedListMeaning | src/services/networking.py:220-239 | `None` gives the empty list; a string or scalar is invalid; a valid result repeats nothing and holds only clean texts; a list always passes and holds exactly its stripped non-blank string entries |
| Networking.SanitizedEntries | src/services/networking.py:232-239 | the loop's result repeats nothing, holds only clean texts, and holds exactly the stripped non-blank string entries |
| Networking.SanitizeClean | src/services/networking.py:220-239 | a list of distinct clean strings sanitises to itself |
| Networking.SanitizedStrs | src/services/networking.py:220-239 | a list of clean strings sanitises to its order-keeping de-duplication |
| Networking.CollectStrs | src/services/networking.py:233-237 | the entries of a clean list contribute the list itself |
| Networking.SanitizeStringList | src/services/networking.py:220-239 | the service's `_sanitize_string_list` returns exactly the sanitised list described above |
| Networking.SanitizeEntries | src/services/networking.py:232-239 | the loop keeps each stripped non-blank string entry the first time it appears, in order |
| Networking.ExtractListMeaning | src/services/networking.py:302-310 | every extracted text is stripped and non-blank; a container that is neither a dict nor a list gives nothing |
| Networking.ExtractWrapped | src/services/networking.py:190-204 | a clean list stored wrapped under its key by validation is read back unchanged by `_extract_list` |
| Networking.Common | src/services/networking.py:262 | `set(a) & set(b)` holds exactly the texts in both lists |
| Networking.CompareCompanies | src/services/networking.py:279-283 | the company comparison is skipped exactly when either company is missing or empty |
| Networking.ScoreMeaning | src/services/networking.py:272-283 | the score is never negative; it is positive exactly when something is shared or the companies differ; it is two per shared interest plus one per shared goal plus 1.5 for shared slots, times 0.8 for the same company and plus 0.5 for different companies |
| Networking.RationaleMeaning | src/services/networking.py:285-293 | the rationale is "complémentarité potentielle" exactly when nothing is shared |
| Networking.ScorePairMeaning | src/services/networking.py:257-300 | a pair's score is never negative and positive exactly when the profiles share an interest, a goal or a slot, or name different companies; the fallback rationale appears exactly when they share nothing |
| Networking.ScorePairSymmetric | src/services/networking.py:257-300 | swapping the two profiles changes neither score, rationale nor metadata |
| Networking.EligibleMeaning | src/services/networking.py:247-253 | the kept candidates are exactly the other profiles whose score is positive, each with its own score |
| Networking.SortDescMeaning | src/services/networking.py:254 | the descending sort returns a permutation of its input in non-increasing key order |
| Networking.SortDescStable | src/services/networking.py:254 | `sort(reverse=True)` is stable: the entries with any one key appear in their input order |
| Networking.RankingMeaning | src/services/networking.py:241-255 | the ranking is in non-increasing score order, a permutation of the eligible candidates, lists exactly the other profiles with a positive score, and keeps candidates with equal scores in candidate order |
| Networking.RankCandidates | src/services/networking.py:241-255 | the loop and sort give the stable descending sort of the eligible candidates |
| Networking.FirstWithEmail | src/services/networking.py:87-90 | no profile is found exactly when none has the email; a found profile is one of the profiles and has that email |
| Networking.Capped | src/services/networking.py:101 | the capped ranking is a prefix of the ranking, no longer than the limit, and the whole ranking when there is no limit or the ranking is short |
| Networking.Upserts | src/services/networking.py:102-111 | one write per capped candidate, in ranking order, for the target, the candidate and its score |
| Networking.Cap | src/services/networking.py:78-101 | a limit that passed the sign check is kept as a count of the same value |
| Networking.TargetWritesMeaning | src/services/networking.py:99-111 | each target gets at most `limit` writes, all for itself, each suggesting another profile with a positive score |
| Networking.Ids | src/services/networking.py:106 | the participant ids of the targets, in order |
| Networking.AllWritesMeaning | src/services/networking.py:99-111 | every write over all targets suggests another profile with a positive score and is for one of the targets |
| Networking.SuggestionsMeaning | src/services/networking.py:78-111 | a negative limit is refused first, a missing event next, an unknown email after that; every stored suggestion is for another profile with a positive score; with an email, all writes are for the first profile with that email and there are at most `limit` of them |
| Networking.WriteTarget | src/services/networking.py:100-111 | the upserts for one target are its ranking capped at the limit |
| Networking.UpsertAll | src/services/networking.py:102-111 | the inner loop performs exactly the upserts of the capped ranking |
| Networking.WriteAll | src/services/networking.py:99-111 | the outer loop performs the upserts of each target in turn |
| Networking.GenerateSuggestions | src/services/networking.py:71-111 | `generate_suggestions` refuses or performs exactly the writes `Suggestions` describes |
| Networking.ValidateProfilePayload | src/services/networking.py:145-218 | every field check runs; the result is the error dict when any check failed, else the clean dict; a non-dict payload is refused with the schema message |
| Networking.ProfileValidationMeaning | src/services/networking.py:154-158 | without a non-blank string email there is an `email` error; a payload that passes stores the email stripped and lower-cased |
| Networking.ListOutcomeMeaning | src/services/networking.py:187-206 | an absent list field is skipped; a failing one is reported under its own name; a passing one is stored wrapped, with distinct clean values |
| Events.ValidationRefused | src/services/events.py:137-229 | a dict payload is refused exactly when the title, attendees, date, series or series id check fails |
| Events.ValidationReports | src/services/events.py:140-229 | a refused payload reports every failing check under its own field, all at once: the title, attendee and series-id entries exactly when those checks fail, and the date and series entries with their own messages |
| Events.Refused | src/services/events.py:137-229 | the errors of a refused payload are the failing checks' entries, in the order the checks run |
| Events.Accepted | src/services/events.py:137-231 | an accepted payload is a dict that passed every check, and its clean payload holds what each check kept |
| Events.CreateDefaults | src/services/events.py:140-192 | a created event has a non-blank stripped title, a non-negative attendee count (0 when absent), a valid date (today when `None`), and "TBD" and "general" for a missing location and type |
| Events.CreateChecks | src/services/events.py:140-192 | the title and attendee checks of a create keep a stripped non-blank title and a non-negative count, and absent location and type get their defaults |
| Events.CreateDate | src/services/events.py:160-180 | a create's date check that passes keeps a valid date, today when the date is `None` |
| Events.DateMeaning | src/services/events.py:173-176 | an accepted date string is the date it spells once stripped |
| Events.DateKept | src/services/events.py:160-180 | a date string that passes its check is the date it spells once stripped |
| Events.DateRoundTrip | src/services/events.py:173-176 | the `YYYY-MM-DD` form of any valid date passes the date check as that date |
| Events.SeriesMeaning | src/services/events.py:194-226 | an accepted series id is never negative, `None` becomes 0 (unassign) on update and is ignored on create, and a series name is never blank |
| Events.SeriesChecks | src/services/events.py:194-226 | the series checks keep only a non-negative id and a stripped non-blank name, and map a `None` id to 0 on update only |
| Events.CleanStrip | src/services/events.py:198-206 | a `strip()` that is not blank is non-empty and has no whitespace at either end |
| Events.UpdateShortcut | src/services/events.py:90-93 | a dict payload with none of the event's fields leaves the event as it is; a write always changes at least one column; an invalid payload is refused before the event is looked up |
| Events.NormalizeFilterValue | src/services/events.py:243-248 | a non-string passes through; a string becomes `None` exactly when it is blank, and otherwise a stripped non-blank text |
| Events.NormalizeIdempotent | src/services/events.py:243-248 | normalising twice is normalising once |
| Events.ParseFilterDate | src/services/events.py:233-241 | `None` gives no date and only `None` does; an error is the filter message under the filter's own field; a parsed date is valid |
| Events.FilterDateRoundTrip | src/services/events.py:49-55 | as `list_events` chains them, a blank filter is dropped and the padded ISO form of a date gives back that date |
| Feedback.RatingOutcome | src/services/feedback.py:92-96 | a stored rating is an int (a bool counts as one) from 1 to 5, under `rating` |
| Feedback.CommentOutcome | src/services/feedback.py:98-102 | a stored comment is `None` or a string, under `comment` |
| Feedback.MetadataOutcome | src/services/feedback.py:129-136 | stored metadata is `None` or a dict, under `metadata` |
| Feedback.SubmissionOrder | src/services/feedback.py:92-136 | the checks run in the source's order: rating, comment, email, name, sentiment, metadata |
| Feedback.SubmissionKeyed | src/services/feedback.py:92-136 | each check stores under its own clean key, and the keys are distinct |
| Feedback.SubmissionMeaning | src/services/feedback.py:83-141 | an accepted submission has a rating from 1 to 5, a comment that is `None` or a string, and metadata that is `None` or a dict |
| Feedback.SubmissionRatingReported | src/services/feedback.py:92-96 | a dict whose rating is not an int from 1 to 5 is refused, with the rating message among the errors whatever else is wrong |
| Feedback.SubmissionStores | src/services/feedback.py:138-141 | in an accepted submission no check rejected, and each stored value is found under its key |
| Feedback.SubmissionEmail | src/services/feedback.py:104-109 | an accepted email string is stored stripped and lower-cased |
| Feedback.SubmissionName | src/services/feedback.py:113-118 | an accepted name string is stored stripped |
| Feedback.ValidateModeration | src/services/feedback.py:143-161 | a non-dict is refused with the schema message; a list or dict status raises `TypeError` on the set lookup; otherwise a decision is accepted exactly when the status is pending, approved or rejected and the moderator is `None` or a non-blank string; it then carries that status and the stripped moderator; each error is reported exactly when its own check fails |
| Participants.CheckOptionalFields | src/services/participants.py:122-128 | the loop over the optional text fields adds exactly what their checks store to the clean dict and what they reject to the errors |
| Participants.ValidateSpeakerPayload | src/services/participants.py:100-154 | the speaker validator runs every check, refusing a non-dict with the schema message, and returns all errors together or the clean dict |
| Participants.SpeakerKeyed | src/services/participants.py:108-149 | every speaker check stores under its own key, and the keys are distinct |
| Participants.OptionalKeyed | src/services/participants.py:122-128 | each optional text field's check stores under that field |
| Participants.SpeakerMeaning | src/services/participants.py:46-149 | an accepted speaker payload has a present or required name that is a non-blank string, stored stripped as `full_name`; a present role that is `speaker` or `organizer`; a present display order that is a non-negative int; a required name that is missing or blank is always reported |
| Participants.SpeakerOptionalMeaning | src/services/participants.py:122-142 | an accepted speaker payload holds each present optional text field as `None` or a string, stripped when it has text, and a present `topics` or `metadata` as `None` or a dict |
| Participants.ValidateSponsorPayload | src/services/participants.py:235-274 | the sponsor validator runs every check, refusing a non-dict with the schema message, and returns all errors together or the clean dict |
| Participants.SponsorKeyed | src/services/participants.py:243-270 | every sponsor check stores under its own key, and the keys are distinct |
| Participants.SponsorMeaning | src/services/participants.py:243-270 | an accepted sponsor payload has a non-blank name, stored stripped, whenever the payload is full or names one; a present display order is a non-negative int; a missing or blank name on a full payload is always reported |
| Participants.SponsorOptionalMeaning | src/services/participants.py:250-263 | an accepted sponsor payload holds each present optional text field as `None` or a string, stripped when it has text, and a present `metadata` as `None` or a dict |
| Participants.MaxOfMeaning | src/services/participants.py:160 | `max(orders)` is one of the orders and no order exceeds it |
| Participants.NextDisplayOrderMeaning | src/services/participants.py:156-160 | the next display order is greater than every existing one, 0 for an event with no entries, one past an existing order otherwise, and never negative when no order is |
| Participants.AddedOrder | src/services/participants.py:53-58 | an unknown event is refused before the payload is looked at; an invalid payload is refused with its errors; a new entry keeps a given display order and otherwise gets one past every order of the event; no other column changes |
| Participants.AddSpeakerOrder | src/services/participants.py:53-58 | a speaker added without a display order comes after every speaker of the event; one added with a display order keeps it |
| Participants.AddSponsorOrder | src/services/participants.py:188-193 | a sponsor added without a display order comes after every sponsor of the event; one added with a display order keeps it |
| Participants.SpeakerNoOrder | src/services/participants.py:144-149 | a speaker payload without a display order leaves none in the clean dict |
| Participants.SponsorNoOrder | src/services/participants.py:265-270 | a sponsor payload without a display order leaves none in the clean dict |
| Participants.SpeakerSkips | src/services/participants.py:108-149 | on an update each speaker check does nothing exactly when its key is missing |
| Participants.SponsorSkips | src/services/participants.py:243-270 | on a partial update each sponsor check does nothing exactly when its key is missing |
| Participants.UpdateSpeakerShortcut | src/services/participants.py:62-72 | an unknown event or speaker is refused whatever the payload; otherwise the update changes nothing exactly when the payload holds none of the speaker's keys, and a write always has something to write |
| Participants.UpdateSponsorShortcut | src/services/participants.py:197-207 | an unknown event or sponsor is refused whatever the payload; otherwise the update changes nothing exactly when the payload holds none of the sponsor's keys, and a write always has something to write |
| EventRepository.FindLocale | src/repositories/events.py:192-195 | the position found is the first translation with the locale; none is found exactly when no translation has it |
| EventRepository.UpsertedMeaning | src/repositories/events.py:192-206 | after an upsert the locale has exactly one translation, with the new title and description; every other translation is kept and none is added; one locale per translation (the unique constraint of src/models/__init__.py:208-210) is preserved |
| EventRepository.UpsertIdempotent | src/repositories/events.py:183-213 | upserting the same translation twice is upserting it once |
| EventRepository.RemovedMeaning | src/repositories/events.py:215-219 | a removal takes out exactly the locale's translation, keeps the others, leaves none with that locale and preserves one locale per translation |
| EventRepository.RemoveUndoesInsert | src/repositories/events.py:183-221 | adding a translation for a new locale and removing it again gives back the translations the event had |
| EventRepository.AppliedMeaning | src/repositories/events.py:158-160 | `update_event` sets each given key to its last value in the updates; every other column keeps its value; no column is added besides the given keys |
| EventRepository.Event.constructor | src/models/__init__.py:206-220 | a loaded event whose translations have distinct locales holds its columns and translations and no approval log yet, and satisfies the object invariant every mutator keeps |
| EventRepository.Event.UpsertTranslation | src/repositories/events.py:183-213 | the translation returned is the new one; the translations become their upsert; `fallback=True` sets the fallback locale, `fallback=False` clears it only when it was this locale, and otherwise no column changes; logs are untouched and one locale per translation is kept |
| EventRepository.Event.RemoveTranslation | src/repositories/events.py:215-221 | a locale without a translation raises and changes nothing; otherwise its translation is removed and the fallback locale is cleared exactly when it was this locale; logs are untouched and one locale per translation is kept |
| EventRepository.Event.UpdateEvent | src/repositories/events.py:158-163 | the columns become the updates applied in turn; translations and logs are untouched |
| EventRepository.Event.LogStatusChange | src/repositories/events.py:223-243 | one approval log (src/models/__init__.py:242-254) with the given statuses, actor and notes is appended, the event's status becomes the new status, and the translations are untouched |
| Validation.Validated | src/services/feedback.py:83-141 | a payload that is not a dict is refused with the `_schema` message; a dict is accepted exactly when no check rejected; a refusal reports every rejecting check's field and message; an accepted payload is the clean dict the checks stored |
| Validation.Snoc | src/services/feedback.py:89-136 | running one more check updates the clean dict and the error dict by that check alone |
| Validation.RejectionsMeaning | src/services/feedback.py:138-139 | the error dict is empty exactly when no check rejected, and holds every rejected field with its message |
| Validation.StoredLookup | src/services/networking.py:152-158 | a value stored by a check and not overwritten later is found under its key in the clean dict |
| Validation.StoredEmpty | src/services/participants.py:68-69 | the clean dict is empty exactly when no check stored anything |
| Validation.StrippedOrKept | src/services/participants.py:126 | a non-string is kept; a blank string is kept as given; a string with text is stripped, and the result is not empty |
| Validation.StoredAbsent | src/services/participants.py:56 | a key no check stores under reads as `None` in the clean dict |
| Validation.EmptyIffAbsent | src/services/participants.py:68-69 | when every check that sees its key stores or rejects, the clean dict is empty and accepted exactly when the payload holds none of the keys |
| Validation.ValidatedKeeps | src/services/feedback.py:138-141 | in an accepted payload no check rejected, and each stored value is found under its check's key |
| Validation.StoredKeyed | src/services/networking.py:152-218 | when every check has its own key, each stored value is found in the clean dict |
| JsonValue.Lookup | src/services/participants.py:56 | `d.get(k)` is a value stored under `k`, and `None` when no entry has that key |
| JsonValue.SetField | src/services/participants.py:57 | after `d[k] = v`, `k` reads as `v` and every other key reads as before |
| JsonValue.SetFieldKeys | src/services/participants.py:57 | after `d[k] = v`, `k` is a key and the other keys are those the dict had |
| JsonValue.GetSet | src/services/participants.py:56-57 | after `d[k] = v`, `d.get(k)` is `v` and every other key reads as before |
| JsonValue.Iter | src/services/networking.py:233 | a non-iterable visits nothing and a list visits its items |
| JsonValue.CollectMeaning | src/services/networking.py:233-238 | a loop gathers a value exactly when some item contributes it, and no more values than items when each contributes at most one |
| Text.LStrip | src/services/events.py:142 | `lstrip()` removes a leading run of whitespace and leaves no whitespace in front |
| Text.RStrip | src/services/events.py:142 | `rstrip()` removes a trailing run of whitespace and leaves no whitespace at the end |
| Text.Strip | src/services/events.py:142-147 | `strip()` leaves no whitespace at either end, and is empty exactly when the text is all whitespace |
| Text.StripSlice | src/services/events.py:147 | what `strip()` keeps is a slice of the text with only whitespace before and after it |
| Text.StripIdempotent | src/services/events.py:147 | stripping twice is stripping once |
| Text.StripNoEdges | src/services/events.py:147 | a text with no whitespace at either end is its own `strip()` |
| Text.StripPadded | src/services/events.py:174 | whitespace around a text with no whitespace at either end is exactly what `strip()` removes |
| Text.RStripChar | src/integrations/base.py:147 | `rstrip("/")` removes exactly a trailing run of slashes |
| Text.LStripChar | src/integrations/base.py:148 | `lstrip("/")` removes exactly a leading run of slashes |
| Text.LowerIdempotent | src/services/networking.py:158 | lower-casing twice is lower-casing once, and leaves no upper-case ASCII letter |
| Text.StrLessTotal | src/services/search.py:263-274 | any two strings are equal or ordered one way or the other |
| Text.StrLessTransitive | src/services/search.py:263-274 | string order is transitive |
| Text.StrLessAsymmetric | src/services/search.py:263-274 | string order is asymmetric |
| Text.ReplaceChar | src/services/calendar.py:65-68 | after `replace(c, rep)` with `c` not in `rep` no `c` is left, and a text without `c` is unchanged |
| Text.ReplaceCharAppend | src/services/calendar.py:65-68 | replacing a character in a concatenation replaces it in each part |
| Text.NatToString | src/services/networking.py:287 | `str(n)` of a natural number is a non-empty run of decimal digits |
| Text.DedupOntoMeaning | src/services/networking.py:237-238 | the de-duplicating loop keeps what it had, holds exactly the old values and the new ones, and repeats nothing when the old values did not |
| Text.DedupOntoAppend | src/services/networking.py:233-238 | adding two runs of values in turn is adding their concatenation |
| Text.DedupOntoSnoc | src/services/networking.py:237-238 | one more value is appended exactly when it is new |
| Text.DedupOntoDistinct | src/services/networking.py:237-238 | values that are distinct and new are all appended as they are |
| Dates.NextDay | src/services/calendar.py:30 | the next day is a later valid date, and does not exist exactly after 9999-12-31, where Python raises |
| Dates.AddDays | src/services/registrations.py:227 | `d + timedelta(days=n)` is a valid date no earlier than `d`, and later when `n` is positive |
| Dates.NextDayExact | src/services/calendar.py:30 | the next day is the very next: the day before it is `d`, and it is on or before every date after `d` |
| Dates.PrevDay | src/services/registrations.py:250 | the previous day is an earlier valid date, and does not exist exactly at 0001-01-01, where Python raises |
| Dates.PrevDayExact | src/services/registrations.py:250 | the day after the previous day is the day itself |
| Dates.SubDays | src/services/registrations.py:250 | `d - timedelta(days=n)` is a valid date no later than `d`, and earlier when `n` is positive |
| Dates.ShiftDays | src/services/registrations.py:250 | `d + timedelta(days=n)` for any integer `n` is a valid date, no earlier than `d` for `n >= 0` and earlier for `n < 0` |
| Dates.ParseMonth | src/services/events.py:176 | `%m` reads one or two characters giving a month from 1 to 12 |
| Dates.ParseDay | src/services/events.py:176 | `%d` reads one or two characters giving a day from 1 to 31 |
| Dates.ParseIsoDate | src/services/events.py:176 | `strptime("%Y-%m-%d")` only gives valid dates |
| Dates.ParseFormatRoundTrip | src/services/events.py:173-176 | every date printed by `isoformat` is read back as that date by `strptime("%Y-%m-%d")` |

## Left out

- **QR codes and tokens.** QR image rendering (`_build_qr_code`: `qrcode`, PNG, base64) is not
  modelled. Check-in tokens are fresh numbers taken from the store's id counter instead of
  `uuid4` strings, so tokens are unique by construction rather than with high probability.
- **`RegistrationScheduler`.** The APScheduler background jobs are timers and threads; the two
  jobs only call `send_reminders` and `trigger_waitlist_promotion`, which are modelled.
- **The database layer.** The SQLAlchemy session (add, flush, refresh, commit), the SQL queries
  and relationship loading are not modelled; the store is a value. `session.rollback()` is a
  restore of the snapshot the operation started from. A `session.delete` takes effect at once in
  the model; in the source the row goes at the next flush.
- **Serialisation and listing.** `open_registrations`, `close_registrations`,
  `list_registrations`, `list_waitlist`, `list_attendance` and the `_serialize_*` helpers only
  read or flip a flag and format rows; they are not modelled.
- **Exception messages.** Errors are modelled by kind. The text of not-found and lookup
  messages is not modelled, except `remove_translation`'s. Validation messages are kept
  word for word.
- **Clock, network, database and search back end.** These are parameters:
  - `date.today()`, `datetime.utcnow()` and `time.monotonic()` are passed-in dates, instants and
    integer ticks;
  - `time.sleep` is recorded as the list of delays;
  - the payment service's replies are an oracle sequence;
  - the Elasticsearch client is a function from request to response;
  - the event provider is a list of events;
  - the feed's DTSTAMP is a parameter.
- **Outbound clients.** `HttpClient.request` (the `requests` call), `GrpcClient` and the thin
  service clients in `src/integrations/*_service.py` are not modelled. `IntegrationClient.Execute`
  stands for every call they make.
- **Floating point.** Durations, scores, prices and coordinates are exact reals or integer ticks,
  with no binary rounding. The haversine distance and `_matches_geo`'s comparison are the
  `within` predicate supplied by the caller. The feedback averages and the SQL aggregates are not
  modelled.
- **`float()` on strings.** The model accepts only optional whitespace, an optional sign and a
  decimal number. Exponents, `inf`, `nan` and underscores are not accepted, so such an amount
  means "no pricing" in the model.
- **Unicode.** `lower()`, `casefold()` and `upper()` act on ASCII letters only. `strip()` uses
  Python's whitespace set. There is no normalisation.
- **Event writes.** `create_event` and the writing half of `update_event` are not modelled:
  - series lookup and creation (`get_series_by_id`, `get_or_create_series`, `assign_series`);
  - `repository.create_event`;
  - `list_events`' SQL query;
  - `update_event`'s serialisation.
  What is modelled of them is their validation, the empty-payload shortcut and the filters.
- **Unhashable roles.** `role not in ALLOWED_ROLES` raises `TypeError` in Python for an unhashable
  role such as a list or dict. The model reports that case as an invalid role. (The moderation
  status has the same lookup and is modelled with its `TypeError`.)
- **Routes and the rest of the service.** The Flask and Socket.IO layer, the thin CRUD
  repositories, migrations, configuration loading and the recommendation engine's float scoring
  are not modelled.
- **Registrations.AbsentPenalties:** its own contract says only that there is at most one penalty
  per registration. The exact statement, one penalty per absent registration in order, each
  expiring at the given instant, is `RegistrationProperties.AbsentPenaltiesExact`.
- **SearchService.SearchEvents:** it requires the category, tag and language arguments to be
  iterable when they are truthy, as their declared types say. A truthy non-iterable value makes
  Python raise `TypeError`, which is not modelled.
- **The unique-email constraint on registrations.** `src/models/__init__.py:296-299` declares
  `(event_id, attendee_email)` unique. That constraint would make the database reject a
  re-registration after a cancellation, which `src/services/registrations.py:300` lets through.
  The model follows the service code and has no such constraint.
- **Indexer.ParseInt:** a string is read as ASCII digits with an optional sign and surrounding
  whitespace. Python's `int()` also accepts underscores between digits (`"1_000"`) and non-ASCII
  decimal digits; the model refuses those strings.
- **Indexer.PyInt:** a string goes through `Indexer.ParseInt`, with the same limits.
- **Indexer.BuildDocument:** an id string goes through `Indexer.ParseInt`, with the same limits.
- **Dates.ParseIsoDate:** its contract says only that a parsed date is valid; the exact reading is
  stated by `Dates.ParseFormatRoundTrip`. Its digits are ASCII digits, whereas `strptime`'s `\d`
  also matches non-ASCII decimal digits; the model refuses such text.
- **SearchSort.SortResults:** a list-valued key is ordered only when it holds only strings or only
  numbers. Python compares lists item by item and raises only when it reaches two unequal items it
  cannot order, so lists of mixed, nested or mapping items that Python happens to sort are
  refused by the model.
- **SearchMatching.Texts:** it writes each value with `JsonValue.PyStr`; see the next line.
- **JsonValue.PyStr:** floats are exact reals. `repr` of a float is
  written from the real's own decimal expansion, not from the shortest string that rounds to the
  same binary double, and a real with no terminating expansion is cut after 400 digits. Strings
  escape the ASCII and Latin-1 control characters and the soft hyphen; other non-printable
  characters above U+00AD are shown unescaped.
