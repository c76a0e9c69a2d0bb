/** The Wekan board service as this system sees it: every read route either
    yields a decoded value or fails with a route error carrying an HTTP status. */
module Api {
  import opened Responses

  /** Outcome of one GET route: the decoded body, or `RouteError` with the status. */
  datatype Fetch<+T> = Ok(value: T) | RouteError(status: int)

  /** The status `send_get` reports when the service answers 200 with an empty body. */
  const NoContent: int := 204

  /** `send_get`: a non-200 answer fails with its own status, an empty 200 answer fails
      with 204, and only a 200 answer with a body yields the decoded value. */
  function SendGet<T>(status: int, bodyEmpty: bool, decoded: T): (r: Fetch<T>)
    ensures r.Ok? <==> status == 200 && !bodyEmpty
    ensures r.Ok? ==> r.value == decoded
    ensures r.RouteError? ==> r.status != 200
    ensures r == RouteError(NoContent) <==> status == NoContent || (status == 200 && bodyEmpty)
  {
    if status != 200 then RouteError(status)
    else if bodyEmpty then RouteError(NoContent)
    else Ok(decoded)
  }

  /** Puts `prefix` in front of a successful sequence result; a failure passes through. */
  function PrependOk<T>(prefix: seq<T>, r: Fetch<seq<T>>): Fetch<seq<T>>
  {
    match r
    case Ok(rest) => Ok(prefix + rest)
    case RouteError(s) => RouteError(s)
  }

  lemma PrependOkNothing<T>(r: Fetch<seq<T>>)
    ensures PrependOk([], r) == r
  {
    if r.Ok? {
      assert [] + r.value == r.value;
    }
  }

  lemma PrependOkTwice<T>(a: seq<T>, b: seq<T>, r: Fetch<seq<T>>)
    ensures PrependOk(a, PrependOk(b, r)) == PrependOk(a + b, r)
  {
    if r.Ok? {
      assert a + (b + r.value) == (a + b) + r.value;
    }
  }

  /** An immutable snapshot of the service for one run; each field is one route.
      Identifiers are passed as plain strings. */
  datatype Remote = Remote(
    customFields: string -> Fetch<seq<InlineCustomField>>,     // board id
    lists: string -> Fetch<seq<InlineList>>,                   // board id
    cards: (string, string) -> Fetch<seq<InlineCard>>,         // board id, list id
    card: (string, string, string) -> Fetch<Card>,             // board id, list id, card id
    comments: (string, string) -> Fetch<seq<InlineComment>>,   // board id, card id
    comment: (string, string, string) -> Fetch<Comment>,       // board id, card id, comment id
    users: Fetch<seq<InlineUser>>,
    user: string -> Fetch<User>)                               // user id
}
