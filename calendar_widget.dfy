/**
 * The Google Calendar widget of `mountGoogleCalendar`: the access token it holds, the three
 * buttons whose enablement follows it, and the status of the event list.
 *
 * The OAuth provider and the network are outside the model. Their completions are separate
 * input events applied one at a time: a token response, a revoke completion, and the
 * settling of an issued events request. Methods that start such a round trip return what
 * they ask of the outside world.
 */
module CalendarWidget {
  import opened Wrappers
  import CalendarEvents
  import CalendarFetch

  const CONNECT_LABEL := "Connect Google"
  const CONNECTED_LABEL := "Connected"

  /** `refresh` asks for up to 100 events of the primary calendar. */
  const REFRESH_OPTIONS := CalendarFetch.FetchOptions(Some("primary"), Some(100))

  /** What the widget asks of the OAuth provider. */
  datatype ProviderCall = RequestAccessToken(prompt: string) | RevokeToken(token: string)

  /** The argument of the token client's callback: an error, or a granted access token. */
  datatype TokenResponse = TokenError(error: string) | TokenGranted(accessToken: string)

  /** How far `mountGoogleCalendar` gets before building its shell. */
  datatype MountStart = TargetMissing | ClientIdMissing | Proceed

  /** A missing target element throws; a missing or empty client id shows an error message and stops. */
  function MountCheck(targetPresent: bool, clientId: Option<string>): (r: MountStart)
    ensures r == TargetMissing <==> !targetPresent
    ensures r == Proceed <==> targetPresent && clientId.Some? && clientId.value != ""
  {
    if !targetPresent then TargetMissing
    else if clientId.None? || clientId.value == "" then ClientIdMissing
    else Proceed
  }

  /** The contents of the event list. */
  datatype ListView =
    | Blank                                         // the empty list of the fresh shell
    | Loading                                       // "Loading…"
    | NoUpcoming                                    // "No upcoming events"
    | Agenda(days: seq<CalendarEvents.DayGroup>)     // one section per day
    | LoadFailed                                    // "Failed to load events."
    | SignedOut                                     // "Signed out."

  /** `renderList(container, events)`; the error is that of `groupByDate`, which `renderList` does not catch. */
  method RenderList(events: seq<CalendarEvents.Event>, fns: CalendarEvents.DateFns) returns (r: Result<ListView, nat>)
    ensures events == [] ==> r == Ok(NoUpcoming)
    ensures events != [] ==> (r.Ok? <==> CalendarEvents.AllKeyed(events, fns))
    ensures events != [] && r.Ok? ==> r.value.Agenda? && CalendarEvents.IsGroupingOf(events, fns, r.value.days)
  {
    if events == [] {
      return Ok(NoUpcoming);
    }
    var groups := CalendarEvents.GroupByDate(events, fns);
    match groups
    case Ok(days) => r := Ok(Agenda(days));
    case Err(i) => r := Err(i);
  }

  /** The list a settled events request leaves: anything thrown inside `refresh`'s `try` shows the failure message. */
  ghost predicate ViewFor(outcome: Result<seq<CalendarEvents.Event>, CalendarFetch.FetchError>, fns: CalendarEvents.DateFns, v: ListView) {
    match outcome
    case Err(_) => v == LoadFailed
    case Ok(events) =>
      if events == [] then v == NoUpcoming
      else if CalendarEvents.AllKeyed(events, fns) then v.Agenda? && CalendarEvents.IsGroupingOf(events, fns, v.days)
      else v == LoadFailed
  }

  /** The part of `refresh` after the `await`: render the events, or show the failure. */
  method SettledView(outcome: Result<seq<CalendarEvents.Event>, CalendarFetch.FetchError>, fns: CalendarEvents.DateFns) returns (v: ListView)
    ensures ViewFor(outcome, fns, v)
    ensures v == LoadFailed <==> outcome.Err? || (outcome.value != [] && !CalendarEvents.AllKeyed(outcome.value, fns))
  {
    match outcome
    case Err(_) => v := LoadFailed;
    case Ok(events) =>
      var rendered := RenderList(events, fns);
      v := if rendered.Ok? then rendered.value else LoadFailed;
  }

  class Widget {
    const fns: CalendarEvents.DateFns
    var accessToken: Option<string>
    var connectDisabled: bool
    var connectLabel: string
    var refreshDisabled: bool
    var signoutDisabled: bool
    var list: ListView
    /** Events requests issued whose promise has not settled yet. */
    var fetchesInFlight: nat
    /** Revoke calls issued whose completion has not arrived yet. */
    var revokesInFlight: nat
    /** Whether the five-minute auto-refresh interval is still armed. */
    var autoRefreshArmed: bool

    /** The buttons follow the token: Connect only without one, Refresh and Sign out only with one. */
    ghost predicate Valid()
      reads this
    {
      && refreshDisabled == accessToken.None?
      && signoutDisabled == accessToken.None?
      && connectDisabled == accessToken.Some?
      && connectLabel == (if accessToken.Some? then CONNECTED_LABEL else CONNECT_LABEL)
    }

    /** `if (!accessToken)` fails for `null` and for the empty string. */
    predicate HasToken()
      reads this
    {
      Truthy(accessToken)
    }

    /** The shell just built and the provider's script loaded: no token, only Connect enabled. */
    constructor (fns: CalendarEvents.DateFns)
      ensures Valid() && this.fns == fns
      ensures accessToken == None && !connectDisabled && refreshDisabled && signoutDisabled
      ensures list == Blank && fetchesInFlight == 0 && revokesInFlight == 0 && autoRefreshArmed
    {
      this.fns := fns;
      accessToken := None;
      connectDisabled, connectLabel := false, CONNECT_LABEL;
      refreshDisabled, signoutDisabled := true, true;
      list := Blank;
      fetchesInFlight, revokesInFlight := 0, 0;
      autoRefreshArmed := true;
    }

    /**
     * A click on Connect asks the token client for a token with an interactive consent prompt.
     * A disabled button (while a token is held) receives no click.
     */
    method OnConnectClick() returns (call: Option<ProviderCall>)
      requires Valid()
      ensures call.Some? <==> accessToken.None?
      ensures call.Some? ==> call.value == RequestAccessToken("consent")
    {
      if connectDisabled {
        return None;
      }
      call := Some(RequestAccessToken("consent"));
    }

    /** `refresh()` (also the Refresh button): without a token nothing happens; otherwise show Loading and request events. */
    method Refresh(nowIso: string) returns (req: Option<CalendarFetch.Request>)
      requires Valid()
      modifies this`list, this`fetchesInFlight
      ensures Valid()
      ensures !HasToken() ==> req.None? && list == old(list) && fetchesInFlight == old(fetchesInFlight)
      ensures HasToken() ==>
        && req == Some(CalendarFetch.BuildRequest(accessToken.value, REFRESH_OPTIONS, nowIso))
        && list == Loading && fetchesInFlight == old(fetchesInFlight) + 1
    {
      if !HasToken() {
        return None;
      }
      list := Loading;
      fetchesInFlight := fetchesInFlight + 1;
      req := Some(CalendarFetch.BuildRequest(accessToken.value, REFRESH_OPTIONS, nowIso));
    }

    /** The token client's callback. An error changes nothing; a token enables Refresh and Sign out, disables Connect, then refreshes. */
    method OnTokenResponse(resp: TokenResponse, nowIso: string) returns (req: Option<CalendarFetch.Request>)
      requires Valid()
      modifies this
      ensures Valid()
      ensures resp.TokenError? ==> req.None? && unchanged(this)
      ensures resp.TokenGranted? ==>
        && accessToken == Some(resp.accessToken)
        && !refreshDisabled && !signoutDisabled && connectDisabled && connectLabel == CONNECTED_LABEL
        && revokesInFlight == old(revokesInFlight) && autoRefreshArmed == old(autoRefreshArmed)
        && (resp.accessToken == "" ==> req.None? && list == old(list) && fetchesInFlight == old(fetchesInFlight))
        && (resp.accessToken != "" ==>
              && req == Some(CalendarFetch.BuildRequest(resp.accessToken, REFRESH_OPTIONS, nowIso))
              && list == Loading && fetchesInFlight == old(fetchesInFlight) + 1)
    {
      if resp.TokenError? {
        return None;
      }
      accessToken := Some(resp.accessToken);
      refreshDisabled := false;
      signoutDisabled := false;
      connectLabel := CONNECTED_LABEL;
      connectDisabled := true;
      req := Refresh(nowIso);
    }

    /** The Sign out button: without a token nothing happens; otherwise ask the provider to revoke it. */
    method OnSignOutClick() returns (call: Option<ProviderCall>)
      requires Valid()
      modifies this`revokesInFlight
      ensures Valid()
      ensures !HasToken() ==> call.None? && revokesInFlight == old(revokesInFlight)
      ensures HasToken() ==> call == Some(RevokeToken(accessToken.value)) && revokesInFlight == old(revokesInFlight) + 1
    {
      if !HasToken() {
        return None;
      }
      revokesInFlight := revokesInFlight + 1;
      call := Some(RevokeToken(accessToken.value));
    }

    /** The revoke completion: drop the token, restore the initial buttons and show "Signed out.". */
    method OnRevokeDone()
      requires Valid() && revokesInFlight > 0
      modifies this
      ensures Valid()
      ensures accessToken == None && !connectDisabled && refreshDisabled && signoutDisabled && connectLabel == CONNECT_LABEL
      ensures list == SignedOut && revokesInFlight == old(revokesInFlight) - 1
      ensures fetchesInFlight == old(fetchesInFlight) && autoRefreshArmed == old(autoRefreshArmed)
    {
      accessToken := None;
      connectLabel := CONNECT_LABEL;
      connectDisabled := false;
      refreshDisabled := true;
      signoutDisabled := true;
      list := SignedOut;
      revokesInFlight := revokesInFlight - 1;
    }

    /** An events request settles: its result is rendered whatever the token is by then. */
    method OnFetchSettled(t: CalendarFetch.Transport)
      requires Valid() && fetchesInFlight > 0
      modifies this`list, this`fetchesInFlight
      ensures Valid()
      ensures ViewFor(CalendarFetch.FetchResult(t), fns, list)
      ensures fetchesInFlight == old(fetchesInFlight) - 1
    {
      list := SettledView(CalendarFetch.FetchResult(t), fns);
      fetchesInFlight := fetchesInFlight - 1;
    }

    /** A tick of the five-minute interval: `accessToken && refresh()`, and nothing once unmounted. */
    method OnAutoRefreshTick(nowIso: string) returns (req: Option<CalendarFetch.Request>)
      requires Valid()
      modifies this`list, this`fetchesInFlight
      ensures Valid()
      ensures !(autoRefreshArmed && HasToken()) ==> req.None? && list == old(list) && fetchesInFlight == old(fetchesInFlight)
      ensures autoRefreshArmed && HasToken() ==>
        && req == Some(CalendarFetch.BuildRequest(accessToken.value, REFRESH_OPTIONS, nowIso))
        && list == Loading && fetchesInFlight == old(fetchesInFlight) + 1
    {
      if !autoRefreshArmed {
        return None;
      }
      req := Refresh(nowIso);
    }

    /** The function `mountGoogleCalendar` resolves with: clear the auto-refresh interval. */
    method Unmount()
      modifies this`autoRefreshArmed
      ensures !autoRefreshArmed
    {
      autoRefreshArmed := false;
    }
  }
}
