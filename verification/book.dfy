/**
  The booking handler: validates the request, derives the document id
  `date#barberId#time`, answers 409 when a document already sits there and
  otherwise writes the booking. The store, the fresh cancellation token and
  the clock reading are parameters; the notification it then sends is
  returned as text, since its outcome never reaches the reply.
 */
module Book {
  import opened Common

  /** The parsed body of a booking request, with its HTTP method. */
  datatype Request = Request(
    httpMethod: string,
    date: Option<string>,
    time: Option<string>,
    barberId: Option<string>,
    serviceId: Option<string>,
    name: Option<string>,
    phone: Option<string>,
    notes: Option<string>)

  /** What the handler answers, the collection afterwards, and the notification it sends. */
  datatype Outcome = Outcome(reply: Reply, store: Store, notice: Option<string>)

  /** Any of the five required fields is absent or empty. */
  predicate MissingFields(req: Request): (missing: bool)
    // a complete request carries all five fields, none of them empty
    ensures !missing <==>
      && req.date.Some? && |req.date.value| > 0
      && req.time.Some? && |req.time.value| > 0
      && req.barberId.Some? && |req.barberId.value| > 0
      && req.name.Some? && |req.name.value| > 0
      && req.phone.Some? && |req.phone.value| > 0
  {
    Falsy(req.date) || Falsy(req.time) || Falsy(req.barberId) || Falsy(req.name) || Falsy(req.phone)
  }

  /** A POST carrying all required fields. */
  predicate Accepted(req: Request) {
    req.httpMethod == "POST" && !MissingFields(req)
  }

  /** The document id of a booking: one per day, provider and time. */
  function DocKey(date: string, barberId: string, time: string): (key: string)
    // the three fields in order, each followed by a '#' separator but the last
    ensures |key| == |date| + |barberId| + |time| + 2
    ensures key[..|date|] == date && key[|date|] == '#'
    ensures key[|date| + 1..|date| + 1 + |barberId|] == barberId && key[|date| + 1 + |barberId|] == '#'
    ensures key[|date| + |barberId| + 2..] == time
  {
    date + "#" + barberId + "#" + time
  }

  /** The document id a complete request claims. */
  function KeyOf(req: Request): string
    requires !MissingFields(req)
  {
    DocKey(req.date.value, req.barberId.value, req.time.value)
  }

  /** The document the handler writes for a complete request. */
  function NewDoc(req: Request, token: string, now: int): (d: Doc)
    requires !MissingFields(req)
    ensures d.serviceId == None <==> Falsy(req.serviceId)
    ensures d.serviceId != None ==> d.serviceId == req.serviceId
    ensures d.notes == "" <==> Falsy(req.notes)
    ensures !Falsy(req.notes) ==> d.notes == req.notes.value
    ensures d.barberId == req.barberId && d.barber_id == None
    ensures d.cancelToken == token && d.createdAt == now
  {
    Doc(
      date := req.date.value,
      time := req.time.value,
      barberId := req.barberId,
      barber_id := None,
      serviceId := if Falsy(req.serviceId) then None else req.serviceId,
      name := req.name.value,
      phone := req.phone.value,
      notes := if Falsy(req.notes) then "" else req.notes.value,
      cancelToken := token,
      createdAt := now)
  }

  /** A field as the notification shows it: "-" when absent or empty. */
  function ShownOrDash(v: Option<string>): (r: string)
    ensures r == "-" <==> Falsy(v) || v.value == "-"
    ensures !Falsy(v) ==> r == v.value
  {
    if Falsy(v) then "-" else v.value
  }

  /** The first line of every notification. */
  const NoticeHeader: string := "\U{1F488} <b>Nueva reserva</b>\n"

  predicate StartsWith(s: string, prefix: string) {
    |prefix| <= |s| && s[..|prefix|] == prefix
  }

  predicate EndsWith(s: string, suffix: string) {
    |suffix| <= |s| && s[|s| - |suffix|..] == suffix
  }

  /** The notification text for a new booking. */
  function NoticeText(req: Request): (text: string)
    requires !MissingFields(req)
    ensures StartsWith(text, NoticeHeader)
    // the last two lines show the service and the notes, "-" when absent
    ensures EndsWith(text, "Servicio: " + ShownOrDash(req.serviceId) + "\n\U{1F4DD} " + ShownOrDash(req.notes))
  {
    NoticeHeader
    + "\U{1F4C5} " + req.date.value + " " + req.time.value + "\n"
    + "\U{1F464} " + req.name.value + "\n"
    + "\U{1F4DE} " + req.phone.value + "\n"
    + "\U{1F487}\U{200D}\U{2642}\U{FE0F} Barber: " + req.barberId.value + "\n"
    + "\U{2702}\U{FE0F} Servicio: " + ShownOrDash(req.serviceId) + "\n"
    + "\U{1F4DD} " + ShownOrDash(req.notes)
  }

  /**
    The handler. `token` stands for the `randomUUID()` drawn for this
    request and `now` for `Date.now()`.
   */
  function Handler(req: Request, store: Store, token: string, now: int): (out: Outcome)
    // wrong method: 405, nothing read or written
    ensures req.httpMethod != "POST" ==> out.reply == Failed(405, "Method not allowed") && out.store == store
    // a required field missing: 400, nothing read or written
    ensures req.httpMethod == "POST" && MissingFields(req) ==>
      out.reply == Failed(400, "Missing fields") && out.store == store
    // the slot's document exists: 409, the collection (the existing document too) untouched
    ensures Accepted(req) && KeyOf(req) in store ==>
      out.reply == Failed(409, "Slot already booked") && out.store == store
    // success exactly when a complete POST finds its slot free
    ensures out.reply.status == 200 <==> Accepted(req) && KeyOf(req) !in store
    ensures out.reply.status == 200 ==> out.reply == Succeeded()
    // on success exactly one document is added, under the slot's id
    ensures out.reply.status == 200 ==>
      && out.store.Keys == store.Keys + {KeyOf(req)}
      && (forall k :: k in store ==> out.store[k] == store[k])
      && out.store[KeyOf(req)].cancelToken == token
      && out.store[KeyOf(req)].createdAt == now
    // a notification goes out after, and only after, a successful write
    ensures out.notice.Some? <==> out.reply.status == 200
    ensures out.notice.Some? ==> out.notice.value == NoticeText(req)
    // the collection changes only on success
    ensures out.store != store ==> out.reply.status == 200
  {
    if req.httpMethod != "POST" then
      Outcome(Failed(405, "Method not allowed"), store, None)
    else if MissingFields(req) then
      Outcome(Failed(400, "Missing fields"), store, None)
    else
      var key := KeyOf(req);
      if key in store then
        Outcome(Failed(409, "Slot already booked"), store, None)
      else
        Outcome(Succeeded(), store[key := NewDoc(req, token, now)], Some(NoticeText(req)))
  }

  /** The written document takes the defaults for an absent service and notes. */
  lemma WrittenDefaults(req: Request, store: Store, token: string, now: int)
    requires Handler(req, store, token, now).reply.status == 200
    ensures var d := Handler(req, store, token, now).store[KeyOf(req)];
      && (d.serviceId == None <==> Falsy(req.serviceId))
      && (d.serviceId != None ==> d.serviceId == req.serviceId)
      && (d.notes == "" <==> Falsy(req.notes))
      && (!Falsy(req.notes) ==> d.notes == req.notes.value)
      && d.date == req.date.value && d.time == req.time.value
      && d.barberId == req.barberId && d.barber_id == None
      && d.name == req.name.value && d.phone == req.phone.value
  {
  }

  /**
    Splitting at the first '#': when neither left part holds a '#', equal
    joins have equal parts.
   */
  lemma SplitAtHash(a: string, r: string, a': string, r': string)
    requires '#' !in a && '#' !in a'
    requires a + "#" + r == a' + "#" + r'
    ensures a == a' && r == r'
  {
    var s := a + "#" + r;
    assert s[|a|] == '#' && s[|a'|] == '#';
    assert forall i :: 0 <= i < |a'| ==> s[i] == a'[i];
    assert forall i :: 0 <= i < |a| ==> s[i] == a[i];
    assert |a| == |a'|;
    assert a == s[..|a|] == a';
    assert r == s[|a| + 1..] == r';
  }

  /**
    Document ids determine the slot they were derived from, provided the
    day and the provider hold no '#'.
   */
  lemma KeyInjective(date: string, barberId: string, time: string,
                     date': string, barberId': string, time': string)
    requires '#' !in date && '#' !in barberId && '#' !in date' && '#' !in barberId'
    requires DocKey(date, barberId, time) == DocKey(date', barberId', time')
    ensures date == date' && barberId == barberId' && time == time'
  {
    assert DocKey(date, barberId, time) == date + "#" + (barberId + "#" + time);
    assert DocKey(date', barberId', time') == date' + "#" + (barberId' + "#" + time');
    SplitAtHash(date, barberId + "#" + time, date', barberId' + "#" + time');
    SplitAtHash(barberId, time, barberId', time');
  }

  /** Fields containing '#' can make two different slots share one document id. */
  lemma KeyCollision()
    ensures DocKey("2025-10-06#juanma", "x", "09:30") == DocKey("2025-10-06", "juanma#x", "09:30")
  {
  }
}
