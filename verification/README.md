# Single-barber booking: slots, claims and cancellations

A Dafny model of the core of a one-provider barber booking app. The app
has three parts:

- The booking page computes the day's bookable slots from a weekly
  template. It steps 30 minutes at a time from opening time and emits every
  step that starts before closing time. It renders one button per slot and
  disables the buttons whose "HH:MM" reading is among the taken times the
  server reports. It also computes `availableSlots`, the slots whose reading
  is not taken, but never renders that list.
- The `book` endpoint validates a request and derives the document id
  `date#barberId#time`. It answers 409 when a document already exists
  there. Otherwise it writes a booking carrying a fresh cancellation token,
  sends a best-effort notification and answers `{ ok: true }`.
- The `cancel` endpoint deletes every booking whose token matches, or
  answers 404. The `bookings` endpoint lists the `time` of the bookings of
  a day and provider.

Each handler is a pure function. It takes the request, the `bookings`
collection (a `map<string, Doc>` keyed by document id) and, for `book`,
the drawn token and the clock reading. It returns the status and JSON
reply and the collection afterwards. Times are minute offsets from local
midnight. The day of the week (0 = Sunday) is an input.

Modules, one per concern:

- `Common` (common.dfy): request fields, the booking document, the collection and replies.
- `Clock` (clock.dfy): `toHHMM` and reading the template's "HH:MM" strings.
- `Schedule` (schedule.dfy): `SCHEDULE`, `SLOT_MINUTES`, the slot generator and `isClosed`.
- `Client` (client.dfy): the available-slot filter, the reading of the query reply and `handleSubmit`'s checks.
- `Book`, `Cancel`, `Bookings` (book.dfy, cancel.dfy, bookings.dfy): the three handlers.
- `Flows` (flows.dfy): properties that span several handlers.

Behaviour of the code that a reader may not expect, kept as written:

- **Slot count.** The loop runs while `t < end`. A window that is not a
  whole number of slots therefore gets ceil((end-start)/30) slots. The last
  one runs past closing time (`Schedule.LastSlotCoversEnd`,
  `Schedule.PartialSlotKept`). Dropping the partial slot would give
  floor((end-start)/30) instead.
- **Claims are not atomic.** `book` reads the document, then writes it in a
  separate step. The model is sequential, so it states only the sequential
  guarantee: a second claim after a successful one gets 409. Two concurrent
  claims can both succeed in the real code.
- **The success reply is `{ ok: true }` only.** It carries no booking id
  and no cancellation token, so a client never learns its token.
- **Times are not normalised.** "9:30" and "09:30" are different documents
  (`Flows.UnnormalisedTimesBothSucceed`). A '#' inside the date or the
  provider can make two different slots share one document id
  (`Book.KeyCollision`).
- **`book` does not check the time against the template**
  (`Flows.OutOfHoursClaimAccepted`).
- **The taken-slot query never sees a booking that `book` wrote.** `book`
  stores the provider as `barberId`, but the query filters on `barber_id`
  (`Flows.BookedSlotNotListed`).
- **The page never reads the query's list.** The query answers `{ taken }`
  without `ok`, and the page keeps the list only when `j.ok` is true
  (`Flows.PageSeesNothingTaken`). So the page leaves every slot button
  enabled whatever is booked (`Flows.PageEnablesEverySlot`), and its unused
  `availableSlots` list holds every slot too (`Flows.PageOffersEverySlot`).
  Only the 409 stops a double booking.
- The page's heading text gives Saturday as 09:30–14:00. The template opens
  at 09:00, and the model follows the template (`Schedule.SaturdaySlots`).

## Model

| member | source | states |
|---|---|---|
| Clock.ToHHMM | src/App.jsx:45-51 | the reading is always five characters "DD:DD"; its hour field is the offset's hour modulo 24 and its minute field the offset's minute, both zero-padded |
| Clock.ParseClock | src/App.jsx:68-74 | a template time string is read exactly when it has the "DD:DD" form |
| Clock.ParseToHHMM | src/App.jsx:45-51 | reading back the "HH:MM" text of any time of day gives the same minute offset |
| Clock.ToHHMMOfParse | src/App.jsx:68-74 | an in-range "HH:MM" template string, once read, renders back to the identical string |
| Clock.ToHHMMInjective | src/App.jsx:45-51 | two different times of one day never render to the same "HH:MM" text |
| Clock.ToHHMMNextDay | src/App.jsx:45-51 | an offset that steps past midnight renders as the same wall-clock time of the next day |
| Schedule.Template | src/App.jsx:8-17 | the template has opening hours exactly for days 1 to 6; each is written "DD:DD" and opens before it closes |
| Schedule.IsClosed | src/App.jsx:193-196 | a day is closed exactly when it is Sunday (0) or a number the template has no key for |
| Schedule.SlotsForDay | src/App.jsx:62-83 | a day without opening hours yields no slots; otherwise the day's slots are the generator's slots between the read opening and closing times |
| Schedule.SlotsBetween | src/App.jsx:76-82 | the generator yields ceil((end-start)/30) slots when end > start and none otherwise; slot i is start + 30·i; every slot starts in [start, end) |
| Schedule.SlotsAscending | src/App.jsx:76-82 | the slots are strictly ascending and consecutive ones are exactly 30 minutes apart |
| Schedule.FirstSlot | src/App.jsx:76-78 | there are no slots exactly when end <= start; otherwise the first slot is the opening time |
| Schedule.LastSlotCoversEnd | src/App.jsx:76-82 | the last slot starts before closing time and ends at or after it, so a trailing partial slot is kept |
| Schedule.PartialSlotKept | src/App.jsx:76-82 | a 45-minute window yields the two slots 0 and 30 |
| Schedule.ClosedIffNoSlots | src/App.jsx:193-196 | a day is shown as closed exactly when it offers no slots, and a day the template maps to null (Sunday) offers none |
| Schedule.WeekdaySlots | src/App.jsx:9-14 | Monday to Friday offer 19 slots, the first "09:30" and the last "18:30" |
| Schedule.SaturdaySlots | src/App.jsx:15 | Saturday offers 10 slots, the first "09:00" and the last "13:30" |
| Client.AvailableSlots | src/App.jsx:104-106 | a slot is in `availableSlots` exactly when it is one of the day's slots and its "HH:MM" is not taken; every occurrence of a kept slot is kept and every occurrence of a taken one dropped; the result is a subsequence of the day's slots, in their order (the page computes this list but does not render it) |
| Client.SlotButtons | src/App.jsx:285-311 | the page renders one button per slot of the day, in order, each carrying the slot's "HH:MM", the value tested against the taken list and selected on click (the visible label is `fmtTime`, left out); a button is enabled exactly when its slot is in `availableSlots` |
| Client.AvailableAscending | src/App.jsx:104-106 | filtering ascending slots leaves them ascending |
| Client.NothingTakenAllOffered | src/App.jsx:104-106 | with no taken times every slot is offered |
| Client.TakenFromReply | src/App.jsx:117-118 | a query reply without `ok: true` is read as nothing taken; with it, as its `taken` list |
| Client.Submit | src/App.jsx:130-150 | submitting is refused for a missing slot or "HH:MM" and otherwise for an empty name or phone; an accepted form posts its own date, time, service, name, phone and notes for provider "juanma" |
| Client.SubmittedFormIsComplete | src/App.jsx:142-150 | a payload the page sends passes the handler's required-field check whenever a date is filled in |
| Book.Handler | api/book.js:52-107 | non-POST gives 405 and a missing required field gives 400, both leaving the collection alone; an existing document gives 409 and leaves it untouched; success happens exactly when the slot's id is free, answers `{ ok: true }`, adds exactly that one document with the drawn token and the clock reading, keeps all others, and is the only outcome that sends a notification or changes the collection; the notification sent is the booking's notice text |
| Book.WrittenDefaults | api/book.js:76-88 | the written document has no service exactly when none was sent, notes "" exactly when none were sent, and the request's date, time, provider, name and phone, with `barber_id` unset |
| Book.MissingFields | api/book.js:62 | a request lacks a required field exactly when its date, time, provider, name or phone is absent or empty |
| Book.DocKey | api/book.js:67 | the document id is the date, a '#', the provider, a '#' and the time, in that order and nothing else |
| Book.NewDoc | api/book.js:76-88 | the written document has no service exactly when none was sent, notes "" exactly when none were sent, the sent provider under `barberId` with `barber_id` unset, the drawn token and the clock reading |
| Book.ShownOrDash | api/book.js:97-98 | a field shows as "-" when absent or empty and as the sent value otherwise |
| Book.NoticeText | api/book.js:91-98 | the notification starts with the "Nueva reserva" line and ends with the service line and the notes line, each showing "-" when absent |
| Book.KeyInjective | api/book.js:67 | when the day and provider hold no '#', equal document ids come from the same day, provider and time |
| Book.KeyCollision | api/book.js:67 | a '#' in the day lets two different slots share one document id |
| Cancel.Without | api/cancel.js:13-15 | the batch delete keeps exactly the bookings whose token differs, unchanged |
| Cancel.Handler | api/cancel.js:3-17 | non-POST gives 405 and a missing token 400; 404 exactly when no booking carries the token, leaving the collection alone; otherwise 200, every booking with the token is gone and every other one is kept; no outcome adds or alters a booking |
| Cancel.CancelTwice | api/cancel.js:10-15 | after a successful cancellation no booking carries the token, so repeating it gets 404 and changes nothing |
| Bookings.BarberOf | api/bookings.js:7 | an absent provider parameter defaults to "juanma"; a present one, even empty, is used as given |
| Bookings.TakenTimes | api/bookings.js:10-17 | the list holds the time of every booking whose `date` and `barber_id` match, and nothing else |
| Bookings.Handler | api/bookings.js:3-18 | non-GET gives 405 and a missing date 400; otherwise 200 with a `taken` list and no `ok` field, holding exactly the times of the matching bookings; it returns no collection, so the query cannot change one |
| Bookings.EmptyWhenNothingMatches | api/bookings.js:10-18 | when nothing matches, the reply is 200 with an empty list, not an error |
| Flows.SecondClaimConflicts | api/book.js:71-74 | after a successful claim, the identical claim gets 409 and leaves the collection as it was |
| Flows.OtherSlotUnaffected | api/book.js:67-78 | a successful booking does not change the reply to a claim on any other document id |
| Flows.BookThenCancel | api/cancel.js:10-15 | cancelling with a booking's fresh token succeeds and restores the collection to what it was before the booking |
| Flows.BookedSlotNotListed | api/bookings.js:13 | a booking written by the handler never changes what the taken-slot query answers, because it has no `barber_id` |
| Flows.PageSeesNothingTaken | src/App.jsx:118 | whatever the collection holds, the page reads the query reply as nothing taken |
| Flows.PageOffersEverySlot | src/App.jsx:101-118 | the page's `availableSlots` holds every slot of the day whatever is booked |
| Flows.PageEnablesEverySlot | src/App.jsx:285-311 | the page renders no slot button disabled, whatever is booked |
| Flows.PayloadKey | src/App.jsx:142-150 | a sent form with a date claims the document id date + "#juanma#" + the chosen "HH:MM" |
| Flows.OutOfHoursClaimAccepted | api/book.js:62-78 | a Monday claim for "09:00" succeeds although no Monday slot reads "09:00" |
| Flows.UnnormalisedTimesBothSucceed | api/book.js:67 | claims for "9:30" and "09:30" on the same day and provider both succeed |
| Flows.MondayScenario | api/book.js:52-107 | on an empty collection, booking "09:30" succeeds; the query then still lists nothing; repeating the claim gets 409; cancelling with the token empties the collection; cancelling again gets 404 |

## Left out

- Time zones. `toLocalISODate`, `localMidnight`, `fmtTime` and the `toLocaleString` round trips depend on the host's time zone and `Intl`. The day of the week is therefore an input, and times are offsets from local midnight. Daylight-saving shifts are not modelled.
- Clock.ParseClock: reads only the two-digit "DD:DD" form. `Number` also accepts other spellings: whitespace, one digit, an empty field read as 0, extra ':' parts. The template uses none of them.
- Bookings.Handler: `taken` is a set. The array's order and any repeated times are not modelled, because the page only tests membership (`includes`).
- Book.Handler: does not model concurrency. The real read-then-write is not atomic, so "one winner among concurrent claims" is neither stated nor true of the code.
- Book.Handler: the drawn token is a parameter and is not assumed fresh. Freshness is a hypothesis only of `Flows.BookThenCancel`, which needs it.
- The notification's delivery (`sendTelegramFromBook` and the `send-telegram` endpoint) is outbound HTTP with environment lookups. The model returns the text that would be sent. A failed notification cannot change the reply, because the handler catches and ignores it. A slow one can: the handler waits for it before answering (api/book.js:100-101), so the model, which has no time, does not capture that delay.
- Book.Handler: neither `fetch` of the notification (api/book.js:13, 36) has a timeout. A hung relay can outlast the function's time limit, so the client gets an error after the booking was already written, and a retry then gets 409. The model answers 200 in that case.
- Storage and parse failures (the 500 replies) are not modelled: the collection is a total map, and request bodies arrive already parsed. Fields are strings or absent. Other JSON types, and repeated query parameters, are not modelled.
- Store credentials and client construction (`_firebase.js`) and the connectivity probe (`ping-firebase.js`) have no domain logic.
- React rendering, state hooks and `fetch` are not modelled, beyond the slot buttons' disabled state (`Client.SlotButtons`). The submit button's enabling (`disabled={!selectedSlot || sending || isClosed}`), the selection highlight, the "closed" message shown instead of the buttons, and the `fmtTime` labels and success message are not modelled.
- Document ids are flat map keys. Firestore reads a '/' in a document id as a path separator. One '/' makes `doc()` throw, which gives a 500; that case falls under the 500 replies above. Two '/' (a date like "2025/10/06") write the booking into a sub-collection that the top-level cancel query never searches.
- Flows.BookThenCancel: holds only for fields without '/'. A booking whose document id holds two '/' lands in a sub-collection, and cancelling it with its token answers 404 in the real code.
- Documents written by other tools are assumed to have the same fields as the ones `book` writes. The only difference allowed is `barber_id`, which may be set.
