/**
  Values shared by the booking handlers: optional request fields, the
  booking document kept in the `bookings` collection, the collection itself
  and the JSON reply a handler sends back.
 */
module Common {

  /** A field that may be absent from a parsed JSON body or query string. */
  datatype Option<+T> = None | Some(value: T) {
    function GetOr(default: T): T {
      match this
      case Some(v) => v
      case None => default
    }
  }

  /** JavaScript falsiness of a string-valued field: absent or empty. */
  predicate Falsy(v: Option<string>) {
    v.None? || v.value == ""
  }

  /**
    One document of the `bookings` collection. `book` writes the provider
    under `barberId`; the taken-slot query filters on `barber_id`, a field
    `book` never sets, so it is kept separately here.
   */
  datatype Doc = Doc(
    date: string,
    time: string,
    barberId: Option<string>,
    barber_id: Option<string>,
    serviceId: Option<string>,
    name: string,
    phone: string,
    notes: string,
    cancelToken: string,
    createdAt: int)

  /** The `bookings` collection, addressed by document id. */
  type Store = map<string, Doc>

  /**
    The JSON object a handler answers with, together with its HTTP status.
    A field that the handler does not put in the object is `None`.
   */
  datatype Reply = Reply(
    status: nat,
    ok: Option<bool>,
    error: Option<string>,
    taken: Option<set<string>>)

  /** `{ ok: false, error: msg }` */
  function Failed(status: nat, msg: string): Reply {
    Reply(status, Some(false), Some(msg), None)
  }

  /** `{ error: msg }`, the shape used by the cancel and query handlers */
  function ErrorOnly(status: nat, msg: string): Reply {
    Reply(status, None, Some(msg), None)
  }

  /** `{ ok: true }` */
  function Succeeded(): Reply {
    Reply(200, Some(true), None, None)
  }
}
