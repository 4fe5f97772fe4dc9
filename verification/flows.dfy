/**
  Properties that span several handlers: booking then cancelling, booking
  twice, and what the page learns from the taken-slot query after a booking.
 */
module Flows {
  import opened Common
  import Clock
  import Schedule
  import Book
  import Cancel
  import Bookings
  import Client

  /** Sequentially, a second identical claim after a successful one gets 409 and changes nothing. */
  lemma SecondClaimConflicts(req: Book.Request, store: Store, token: string, now: int,
                             token': string, now': int)
    requires Book.Handler(req, store, token, now).reply.status == 200
    ensures var after := Book.Handler(req, store, token, now).store;
      var again := Book.Handler(req, after, token', now');
      again.reply.status == 409 && again.store == after
  {
  }

  /** A claim on another document id neither sees nor is seen by a successful booking. */
  lemma OtherSlotUnaffected(req: Book.Request, other: Book.Request, store: Store, token: string, now: int,
                            token': string, now': int)
    requires Book.Handler(req, store, token, now).reply.status == 200
    requires Book.Accepted(other) ==> Book.KeyOf(other) != Book.KeyOf(req)
    ensures var after := Book.Handler(req, store, token, now).store;
      Book.Handler(other, after, token', now').reply == Book.Handler(other, store, token', now').reply
  {
  }

  /**
    Cancelling with the token a booking received removes exactly that
    booking, provided no earlier booking carried the same token.
   */
  lemma BookThenCancel(req: Book.Request, store: Store, token: string, now: int)
    requires token != "" && !Cancel.Holds(store, token)
    requires Book.Handler(req, store, token, now).reply.status == 200
    ensures var after := Book.Handler(req, store, token, now).store;
      var cancelled := Cancel.Handler(Cancel.Request("POST", Some(token)), after);
      cancelled.reply.status == 200 && cancelled.store == store
  {
  }

  /**
    A booking the handler writes never shows up in the taken-slot query:
    the query filters on `barber_id`, which the handler leaves unset.
   */
  lemma {:induction false} BookedSlotNotListed(req: Book.Request, store: Store, token: string, now: int,
                                               q: Bookings.Query)
    requires Book.Handler(req, store, token, now).reply.status == 200
    ensures Bookings.Handler(q, Book.Handler(req, store, token, now).store) == Bookings.Handler(q, store)
  {
    var after := Book.Handler(req, store, token, now).store;
    if q.httpMethod == "GET" && !Falsy(q.date) {
      var d, b := q.date.value, Bookings.BarberOf(q);
      var key := Book.KeyOf(req);
      assert after[key].barber_id == None;
      var before, now' := Bookings.TakenTimes(store, d, b), Bookings.TakenTimes(after, d, b);
      forall t | t in now' ensures t in before {
        var k :| k in after && after[k].date == d && after[k].barber_id == Some(b) && after[k].time == t;
        assert k != key;
      }
      assert now' == before;
    }
  }

  /** The page never learns of a taken slot: the query's reply carries no `ok`. */
  lemma PageSeesNothingTaken(q: Bookings.Query, store: Store)
    ensures Client.TakenFromReply(Bookings.Handler(q, store)) == {}
  {
  }

  /** Hence the page offers every slot of the day, booked or not. */
  lemma PageOffersEverySlot(dow: int, q: Bookings.Query, store: Store)
    ensures Client.AvailableSlots(Schedule.SlotsForDay(dow), Client.TakenFromReply(Bookings.Handler(q, store)))
         == Schedule.SlotsForDay(dow)
  {
    Client.NothingTakenAllOffered(Schedule.SlotsForDay(dow));
  }

  /** The page renders no slot button disabled, booked or not. */
  lemma PageEnablesEverySlot(dow: int, q: Bookings.Query, store: Store)
    ensures var buttons := Client.SlotButtons(Schedule.SlotsForDay(dow),
                                              Client.TakenFromReply(Bookings.Handler(q, store)));
      forall i :: 0 <= i < |buttons| ==> !buttons[i].disabled
  {
  }

  /** The page's payload claims the document of the chosen day, provider and time. */
  lemma PayloadKey(f: Client.Form)
    requires Client.Submit(f).Send? && f.date != ""
    ensures Book.Accepted(Client.Submit(f).payload)
    ensures Book.KeyOf(Client.Submit(f).payload) == f.date + "#juanma#" + f.selectedTime24
  {
  }

  /**
    The handler does not check the time against the template: "09:00" is
    accepted on a Monday although no Monday slot reads "09:00".
   */
  lemma OutOfHoursClaimAccepted()
    ensures forall i :: 0 <= i < |Schedule.SlotsForDay(1)| ==> Clock.ToHHMM(Schedule.SlotsForDay(1)[i]) != "09:00"
    ensures Book.Handler(Book.Request("POST", Some("2025-10-06"), Some("09:00"), Some("juanma"),
                                      None, Some("Ana"), Some("099"), None), map[], "t1", 0).reply.status == 200
  {
  }

  /**
    Times are not normalised: "9:30" and "09:30" are different documents,
    so both claims for the same slot succeed.
   */
  lemma UnnormalisedTimesBothSucceed()
    ensures var first := Book.Handler(Book.Request("POST", Some("2025-10-06"), Some("9:30"), Some("juanma"),
                                                   None, Some("Ana"), Some("099"), None), map[], "t1", 0);
      && first.reply.status == 200
      && Book.Handler(Book.Request("POST", Some("2025-10-06"), Some("09:30"), Some("juanma"),
                                   None, Some("Luis"), Some("098"), None), first.store, "t2", 1).reply.status == 200
  {
  }

  /**
    Monday, empty collection: booking "09:30" succeeds, the page still
    reads nothing taken, a repeat claim gets 409, cancelling with the
    booking's token empties the collection again and a repeat cancel gets 404.
   */
  lemma MondayScenario()
    ensures var req := Book.Request("POST", Some("2025-10-06"), Some("09:30"), Some("juanma"),
                                    Some("corte"), Some("Ana"), Some("099"), Some(""));
      var booked := Book.Handler(req, map[], "tok", 0);
      var query := Bookings.Query("GET", Some("2025-10-06"), Some("juanma"));
      var cancel := Cancel.Request("POST", Some("tok"));
      var cancelled := Cancel.Handler(cancel, booked.store);
      && booked.reply == Succeeded()
      && Bookings.Handler(query, booked.store).taken == Some({})
      && Book.Handler(req, booked.store, "tok2", 1).reply.status == 409
      && cancelled.reply.status == 200 && cancelled.store == map[]
      && Cancel.Handler(cancel, cancelled.store).reply.status == 404
  {
    var req := Book.Request("POST", Some("2025-10-06"), Some("09:30"), Some("juanma"),
                            Some("corte"), Some("Ana"), Some("099"), Some(""));
    var query := Bookings.Query("GET", Some("2025-10-06"), Some("juanma"));
    BookedSlotNotListed(req, map[], "tok", 0, query);
    Bookings.EmptyWhenNothingMatches(query, map[]);
    SecondClaimConflicts(req, map[], "tok", 0, "tok2", 1);
    BookThenCancel(req, map[], "tok", 0);
  }
}
