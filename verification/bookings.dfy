/**
  The taken-slot query: the `time` of every booking of a day whose
  `barber_id` equals the requested provider. It only reads the collection,
  so the handler returns no collection.
 */
module Bookings {
  import opened Common

  /** The provider assumed when the query names none. */
  const DefaultBarberId: string := "juanma"

  /** The parsed query string, with the HTTP method. */
  datatype Query = Query(httpMethod: string, date: Option<string>, barberId: Option<string>)

  /**
    The provider the query filters on. The default applies only to an
    absent parameter: an empty `barberId=` is kept as the empty string.
   */
  function BarberOf(q: Query): (b: string)
    ensures q.barberId.None? ==> b == DefaultBarberId
    ensures q.barberId.Some? ==> b == q.barberId.value
  {
    q.barberId.GetOr(DefaultBarberId)
  }

  /** Times of the bookings whose `date` and `barber_id` fields equal the given ones. */
  function TakenTimes(store: Store, date: string, barber: string): (r: set<string>)
    ensures forall t :: t in r ==>
      exists k :: k in store && store[k].date == date && store[k].barber_id == Some(barber) && store[k].time == t
    ensures forall k :: k in store && store[k].date == date && store[k].barber_id == Some(barber) ==>
      store[k].time in r
  {
    set k | k in store && store[k].date == date && store[k].barber_id == Some(barber) :: store[k].time
  }

  /** The handler. Its success reply is `{ taken }`, with no `ok` field. */
  function Handler(q: Query, store: Store): (reply: Reply)
    ensures q.httpMethod != "GET" ==> reply == ErrorOnly(405, "Method not allowed")
    ensures q.httpMethod == "GET" && Falsy(q.date) ==> reply == ErrorOnly(400, "Missing date")
    ensures reply.status == 200 <==> q.httpMethod == "GET" && !Falsy(q.date)
    ensures reply.status == 200 ==>
      && reply.ok.None?
      && reply.taken.Some?
      && (forall t :: t in reply.taken.value <==>
            exists k :: k in store && store[k].date == q.date.value
                        && store[k].barber_id == Some(BarberOf(q)) && store[k].time == t)
  {
    if q.httpMethod != "GET" then
      ErrorOnly(405, "Method not allowed")
    else if Falsy(q.date) then
      ErrorOnly(400, "Missing date")
    else
      Reply(200, None, None, Some(TakenTimes(store, q.date.value, BarberOf(q))))
  }

  /** Nothing booked for the day and provider: the list is empty, not an error. */
  lemma EmptyWhenNothingMatches(q: Query, store: Store)
    requires q.httpMethod == "GET" && !Falsy(q.date)
    requires forall k :: k in store ==> store[k].date != q.date.value || store[k].barber_id != Some(BarberOf(q))
    ensures Handler(q, store) == Reply(200, None, None, Some({}))
  {
    var taken := TakenTimes(store, q.date.value, BarberOf(q));
    forall t | t in taken ensures false {
    }
    assert taken == {};
  }
}
