/**
  The cancellation handler: deletes, in one batch, every booking whose
  cancellation token equals the one supplied, or answers 404 when none does.
 */
module Cancel {
  import opened Common

  /** The parsed body of a cancellation request, with its HTTP method. */
  datatype Request = Request(httpMethod: string, cancelToken: Option<string>)

  /** What the handler answers and the collection afterwards. */
  datatype Outcome = Outcome(reply: Reply, store: Store)

  /** Some booking carries the token. */
  predicate Holds(store: Store, token: string) {
    exists k :: k in store && store[k].cancelToken == token
  }

  /** The collection without the bookings that carry the token. */
  function Without(store: Store, token: string): (r: Store)
    ensures forall k :: k in r <==> k in store && store[k].cancelToken != token
    ensures forall k :: k in r ==> r[k] == store[k]
  {
    map k | k in store && store[k].cancelToken != token :: store[k]
  }

  /** The handler. */
  function Handler(req: Request, store: Store): (out: Outcome)
    // wrong method: 405, nothing read or written
    ensures req.httpMethod != "POST" ==> out.reply == ErrorOnly(405, "Method not allowed") && out.store == store
    // no token: 400, nothing read or written
    ensures req.httpMethod == "POST" && Falsy(req.cancelToken) ==>
      out.reply == ErrorOnly(400, "Missing cancel_token") && out.store == store
    // no booking carries the token: 404, nothing written
    ensures out.reply.status == 404 <==>
      req.httpMethod == "POST" && !Falsy(req.cancelToken) && !Holds(store, req.cancelToken.value)
    ensures out.reply.status == 404 ==> out.store == store
    // otherwise every booking with the token goes and every other one stays as it was
    ensures out.reply.status == 200 <==>
      req.httpMethod == "POST" && !Falsy(req.cancelToken) && Holds(store, req.cancelToken.value)
    ensures out.reply.status == 200 ==>
      && out.reply == Succeeded()
      && (forall k :: k in out.store <==> k in store && store[k].cancelToken != req.cancelToken.value)
      && |out.store| < |store|
    // no outcome adds or alters a booking
    ensures forall k :: k in out.store ==> k in store && out.store[k] == store[k]
  {
    if req.httpMethod != "POST" then
      Outcome(ErrorOnly(405, "Method not allowed"), store)
    else if Falsy(req.cancelToken) then
      Outcome(ErrorOnly(400, "Missing cancel_token"), store)
    else
      var token := req.cancelToken.value;
      if !Holds(store, token) then
        Outcome(ErrorOnly(404, "Not found"), store)
      else
        var rest := Without(store, token);
        assert rest.Keys < store.Keys by {
          var k :| k in store && store[k].cancelToken == token;
          assert k !in rest;
        }
        assert |rest| < |store| by {
          var k :| k in store && store[k].cancelToken == token;
          assert rest.Keys <= store.Keys - {k};
          SubsetSize(rest.Keys, store.Keys - {k});
        }
        Outcome(Succeeded(), rest)
  }

  /** After a successful cancellation no booking carries the token, so a repeat finds nothing. */
  lemma CancelTwice(req: Request, store: Store)
    requires Handler(req, store).reply.status == 200
    ensures !Holds(Handler(req, store).store, req.cancelToken.value)
    ensures var again := Handler(req, Handler(req, store).store);
      again.reply.status == 404 && again.store == Handler(req, store).store
  {
  }

  lemma SubsetSize<T>(a: set<T>, b: set<T>)
    requires a <= b
    ensures |a| <= |b|
    decreases b
  {
    if a != {} {
      var x :| x in a;
      SubsetSize(a - {x}, b - {x});
    }
  }
}
