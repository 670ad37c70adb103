/**
 * The Calendar API request `fetchEvents` builds and how it reads the reply.
 * The transport (`fetch`) and JSON decoding are outside the model: a reply is a status and
 * the decoded `items` field, or the decoding failure.
 */
module CalendarFetch {
  import opened Wrappers
  import Decimal
  import CalendarEvents

  const DEFAULT_CALENDAR_ID := "primary"
  const DEFAULT_MAX_RESULTS := 50

  /** The options object of `fetchEvents`; `None` is a property left undefined, so its default applies. */
  datatype FetchOptions = FetchOptions(calendarId: Option<string>, maxResults: Option<int>)

  /** A GET of the events of `calendarId` with query `query` and `Authorization` header `authorization`. */
  datatype Request = Request(calendarId: string, query: seq<(string, string)>, authorization: string)

  /** The value of the first query parameter called `name`. */
  function QueryValue(query: seq<(string, string)>, name: string): Option<string> {
    if query == [] then None
    else if query[0].0 == name then Some(query[0].1)
    else QueryValue(query[1..], name)
  }

  function QueryNames(query: seq<(string, string)>): seq<string> {
    if query == [] then [] else [query[0].0] + QueryNames(query[1..])
  }

  /**
   * The request of `fetchEvents(accessToken, opts)` issued at `nowIso` (`new Date().toISOString()`):
   * upcoming events from now, recurrences expanded, ordered by start, deleted ones excluded.
   */
  function BuildRequest(accessToken: string, opts: FetchOptions, nowIso: string): (r: Request)
    ensures r.calendarId == (if opts.calendarId.Some? then opts.calendarId.value else "primary")
    ensures QueryNames(r.query) == ["timeMin", "singleEvents", "orderBy", "maxResults", "showDeleted"]
    ensures QueryValue(r.query, "timeMin") == Some(nowIso)
    ensures QueryValue(r.query, "singleEvents") == Some("true")
    ensures QueryValue(r.query, "orderBy") == Some("startTime")
    ensures QueryValue(r.query, "showDeleted") == Some("false")
    ensures QueryValue(r.query, "maxResults").Some?
    ensures Decimal.ParseInt(QueryValue(r.query, "maxResults").value)
         == Some(if opts.maxResults.Some? then opts.maxResults.value else 50)
    ensures r.authorization == "Bearer " + accessToken
  {
    var maxResults := opts.maxResults.GetOr(DEFAULT_MAX_RESULTS);
    var query := [("timeMin", nowIso),
                  ("singleEvents", "true"),
                  ("orderBy", "startTime"),
                  ("maxResults", Decimal.ToDecimal(maxResults)),
                  ("showDeleted", "false")];
    Decimal.ParseIntToDecimal(maxResults);
    QueryOfFive(query);
    Request(opts.calendarId.GetOr(DEFAULT_CALENDAR_ID), query, "Bearer " + accessToken)
  }

  /** In a query whose names are pairwise distinct, each parameter is found under its own name. */
  lemma {:induction false} QueryValueAt(q: seq<(string, string)>, k: nat)
    requires k < |q|
    requires forall a, b :: 0 <= a < b < |q| ==> q[a].0 != q[b].0
    ensures QueryValue(q, q[k].0) == Some(q[k].1)
  {
    if k > 0 {
      QueryValueAt(q[1..], k - 1);
    }
  }

  lemma {:induction false} QueryNamesAt(q: seq<(string, string)>)
    ensures |QueryNames(q)| == |q| && forall k :: 0 <= k < |q| ==> QueryNames(q)[k] == q[k].0
  {
    if q != [] {
      QueryNamesAt(q[1..]);
    }
  }

  lemma QueryOfFive(q: seq<(string, string)>)
    requires |q| == 5
    requires forall a, b :: 0 <= a < b < 5 ==> q[a].0 != q[b].0
    ensures QueryNames(q) == [q[0].0, q[1].0, q[2].0, q[3].0, q[4].0]
    ensures forall k :: 0 <= k < 5 ==> QueryValue(q, q[k].0) == Some(q[k].1)
  {
    QueryNamesAt(q);
    forall k | 0 <= k < 5 ensures QueryValue(q, q[k].0) == Some(q[k].1) {
      QueryValueAt(q, k);
    }
  }

  /**
   * The decoded reply body: JSON `null` (so reading `j.items` throws), or an object whose `items`
   * is an array of events or anything else (missing, null, an object…).
   */
  datatype Items = NullJson | ItemsArray(events: seq<CalendarEvents.Event>) | NotAnArray

  /** A reply: `body` is `None` when `r.json()` rejects. */
  datatype Response = Response(status: int, body: Option<Items>)

  /** What `fetch` settles with: a network failure (rejection) or a reply. */
  datatype Transport = NetworkFailure | Received(response: Response)

  datatype FetchError = NetworkError | HttpStatus(status: int) | MalformedBody

  /** `r.ok`: the status is in the range 200-299. */
  predicate IsOk(resp: Response) {
    200 <= resp.status <= 299
  }

  /** What the `fetchEvents` promise settles with for a given transport outcome. */
  function FetchResult(t: Transport): (r: Result<seq<CalendarEvents.Event>, FetchError>)
    ensures t.NetworkFailure? ==> r == Err(NetworkError)
    ensures t.Received? && !IsOk(t.response) ==> r == Err(HttpStatus(t.response.status))
    ensures t.Received? && IsOk(t.response) && t.response.body.None? ==> r == Err(MalformedBody)
    ensures t.Received? && IsOk(t.response) && t.response.body == Some(NullJson) ==> r == Err(MalformedBody)
    ensures r.Ok? <==> t.Received? && IsOk(t.response) && t.response.body.Some? && t.response.body.value != NullJson
    ensures r.Ok? ==> (if t.response.body.value.ItemsArray? then r.value == t.response.body.value.events else r.value == [])
  {
    match t
    case NetworkFailure => Err(NetworkError)
    case Received(resp) =>
      if !IsOk(resp) then Err(HttpStatus(resp.status))
      else match resp.body
        case None => Err(MalformedBody)
        case Some(NullJson) => Err(MalformedBody)
        case Some(ItemsArray(es)) => Ok(es)
        case Some(NotAnArray) => Ok([])
  }
}
