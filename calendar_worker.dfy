/** The Google Calendar REST client (src/google-calendar-worker.ts): every
    operation fetches a bearer token, builds one request against
    https://www.googleapis.com/calendar/v3/calendars/{calendarId}/events...,
    issues it, and classifies the reply.

    The token source and the network are not modelled: the outcome of
    `getAccessToken()` is an input, and the upstream server is a function from
    the request sent to the reply received. What an operation did is recorded
    as a trace of effects (the token fetch, then the HTTP request). */
module CalendarWorker {
  import opened Outcomes
  import opened Strings
  import opened JsValues
  import opened UrlEncoding

  const BaseUrl: string := "https://www.googleapis.com/calendar/v3/calendars/"

  /** `maxResults` when listEvents is not given one. */
  const DefaultMaxResults: int := 10

  /** A request as handed to fetch(); the body is the value JSON.stringify
      serializes. */
  datatype HttpRequest = HttpRequest(verb: string, url: string, headers: seq<(string, string)>, body: Option<Json>)

  /** The RequestInit an operation passes to apiFetch. */
  datatype RequestOptions = RequestOptions(verb: Option<string>, headers: seq<(string, string)>, body: Option<Json>)

  const NoOptions: RequestOptions := RequestOptions(None, [], None)

  /** A response: status, status text, body text, and what response.json()
      makes of the body (a parse failure is its error message). */
  datatype UpstreamResponse = UpstreamResponse(status: int, statusText: string, text: string, json: Result<Json>)

  /** What fetch() produced: a response, or a rejection (network failure). */
  datatype Reply = Answered(response: UpstreamResponse) | NetworkError(message: string)

  datatype Effect = TokenFetch | Http(request: HttpRequest)

  /** One API call: the effects it performed, in order, and its value or the
      message of the error it threw. */
  datatype Call = Call(effects: seq<Effect>, outcome: Result<Json>)

  /** The argument of listEvents; None is an absent property. */
  datatype ListOptions = ListOptions(timeMin: Option<string>, timeMax: Option<string>, maxResults: Option<int>)

  /** `listEvents()` called without an argument. */
  const NoListOptions: ListOptions := ListOptions(None, None, None)

  /** Response.ok: the status is in the range 200-299. */
  predicate IsOkStatus(status: int)
  {
    200 <= status <= 299
  }

  /** A JavaScript string is truthy when it is present and not empty. */
  predicate Truthy(s: Option<string>)
  {
    s.Some? && s.value != ""
  }

  // ---- the query of listEvents ----

  /** `maxResults`, 10 when absent (a destructuring default). */
  function MaxResults(opts: ListOptions): int
  {
    if opts.maxResults.Some? then opts.maxResults.value else DefaultMaxResults
  }

  /** The query listEvents sends, as its successive params.append calls
      build it. */
  function ListQuery(opts: ListOptions): seq<(string, string)>
  {
    (if Truthy(opts.timeMin) then [("timeMin", opts.timeMin.value)] else [])
    + (if Truthy(opts.timeMax) then [("timeMax", opts.timeMax.value)] else [])
    + [("maxResults", IntToString(MaxResults(opts))), ("singleEvents", "true"), ("orderBy", "startTime")]
  }

  /** The keys of the listEvents query, in order: timeMin and timeMax only
      when given and not empty, then maxResults, singleEvents, orderBy. */
  lemma ListQueryKeys(opts: ListOptions)
    ensures Keys(ListQuery(opts)) == (if Truthy(opts.timeMin) then ["timeMin"] else [])
                                     + (if Truthy(opts.timeMax) then ["timeMax"] else [])
                                     + ["maxResults", "singleEvents", "orderBy"]
    ensures DistinctKeys(ListQuery(opts))
  {
  }

  /** The time bounds of the listEvents query are the ones given; an empty
      bound is left out just like an absent one. */
  lemma ListQueryBounds(opts: ListOptions)
    ensures Lookup(ListQuery(opts), "timeMin") == if Truthy(opts.timeMin) then opts.timeMin else None
    ensures Lookup(ListQuery(opts), "timeMax") == if Truthy(opts.timeMax) then opts.timeMax else None
  {
    var q := ListQuery(opts);
    ListQueryKeys(opts);
    if Truthy(opts.timeMin) {
      LookupDistinct(q, 0);
    } else {
      LookupAbsent(q, "timeMin");
    }
    if Truthy(opts.timeMax) {
      LookupDistinct(q, if Truthy(opts.timeMin) then 1 else 0);
    } else {
      LookupAbsent(q, "timeMax");
    }
  }

  /** The listEvents query always asks for maxResults (the given number, or
      10), for recurring events expanded into single events, and for
      ordering by start time. */
  lemma ListQueryFixedParams(opts: ListOptions)
    ensures var q := ListQuery(opts);
      && Lookup(q, "singleEvents") == Some("true")
      && Lookup(q, "orderBy") == Some("startTime")
      && Lookup(q, "maxResults").Some?
      && ParseInt(Lookup(q, "maxResults").value) == Some(MaxResults(opts))
  {
    var q := ListQuery(opts);
    ListQueryKeys(opts);
    LookupDistinct(q, |q| - 3);
    LookupDistinct(q, |q| - 2);
    LookupDistinct(q, |q| - 1);
    ParseIntToString(MaxResults(opts));
  }

  /** listEvents' query builder: one params.append after another. ListEvents
      is a function and cannot call a method; it uses ListQuery, which this
      builder is proved to compute. */
  method BuildListQuery(opts: ListOptions) returns (params: seq<(string, string)>)
    ensures params == ListQuery(opts)
  {
    var maxResults := if opts.maxResults.Some? then opts.maxResults.value else DefaultMaxResults;
    params := [];
    if Truthy(opts.timeMin) {
      params := params + [("timeMin", opts.timeMin.value)];
    }
    if Truthy(opts.timeMax) {
      params := params + [("timeMax", opts.timeMax.value)];
    }
    params := params + [("maxResults", IntToString(maxResults))];
    params := params + [("singleEvents", "true")];
    params := params + [("orderBy", "startTime")];
  }

  // ---- headers and the classification of replies ----

  /** `{...(options.headers || {}), Authorization: ..., 'Content-Type': ...}`. */
  function MergeHeaders(caller: seq<(string, string)>, token: string): (h: seq<(string, string)>)
    requires DistinctKeys(caller)
    ensures DistinctKeys(h)
    ensures Lookup(h, "Authorization") == Some("Bearer " + token)
    ensures Lookup(h, "Content-Type") == Some("application/json")
    ensures forall k :: k != "Authorization" && k != "Content-Type" ==> Lookup(h, k) == Lookup(caller, k)
    ensures |Keys(caller)| <= |Keys(h)| && Keys(h)[..|Keys(caller)|] == Keys(caller)
  {
    Put(Put(caller, "Authorization", "Bearer " + token), "Content-Type", "application/json")
  }

  function ApiErrorMessage(r: UpstreamResponse): string
  {
    "Google Calendar API error: " + IntToString(r.status) + " " + r.statusText + " - " + r.text
  }

  /** The error of a failed response names its status, which can be read back
      from the message, then its status text after one space, and ends with
      the body text. */
  lemma ApiErrorMessageCarries(r: UpstreamResponse)
    ensures var m := ApiErrorMessage(r);
      var prefix := "Google Calendar API error: ";
      var at := |prefix| + |IntToString(r.status)| + 1;
      && StartsWith(m, prefix)
      && ParseInt(Split(m[|prefix|..], ' ')[0]) == Some(r.status)
      && at + |r.statusText| <= |m| && m[at..at + |r.statusText|] == r.statusText
      && |r.text| <= |m| && m[|m| - |r.text|..] == r.text
  {
    ParseIntToString(r.status);
    MessageLayout("Google Calendar API error: ", IntToString(r.status), r.statusText, r.text);
  }

  /** Where the parts of `${prefix}${num} ${statusText} - ${text}` sit, for a
      number written without spaces. */
  lemma MessageLayout(prefix: string, num: string, statusText: string, text: string)
    requires ' ' !in num
    ensures var m := prefix + num + " " + statusText + " - " + text;
      var at := |prefix| + |num| + 1;
      && StartsWith(m, prefix)
      && Split(m[|prefix|..], ' ')[0] == num
      && at + |statusText| <= |m| && m[at..at + |statusText|] == statusText
      && |text| <= |m| && m[|m| - |text|..] == text
  {
    var m := prefix + num + " " + statusText + " - " + text;
    var rest := statusText + " - " + text;
    assert m == prefix + (num + [' '] + rest);
    AfterPrefix(prefix, num + [' '] + rest);
    SplitPrefix(num, ' ', rest);
    AfterPrefix(prefix + num + " " + statusText + " - ", text);
    Infix(prefix + num + " ", statusText, " - " + text);
  }

  /** The middle part of a concatenation, sliced back out. */
  lemma Infix(a: string, b: string, c: string)
    ensures |a| + |b| <= |a + b + c| && (a + b + c)[|a|..|a| + |b|] == b
  {
  }

  /** What apiFetch makes of a reply: a thrown error unless the status is
      2xx, null for 204 No Content, otherwise the parsed body. */
  function Classify(reply: Reply): (r: Result<Json>)
    ensures r.Ok? ==> reply.Answered? && IsOkStatus(reply.response.status)
    ensures reply.NetworkError? ==> r == Err(reply.message)
    ensures reply.Answered? && !IsOkStatus(reply.response.status) ==> r == Err(ApiErrorMessage(reply.response))
    ensures reply.Answered? && reply.response.status == 204 ==> r == Ok(JNull)
    ensures (reply.Answered? && IsOkStatus(reply.response.status) && reply.response.status != 204)
              ==> r == reply.response.json
  {
    match reply
    case NetworkError(msg) => Err(msg)
    case Answered(resp) =>
      if !IsOkStatus(resp.status) then Err(ApiErrorMessage(resp))
      else if resp.status == 204 then Ok(JNull)
      else resp.json
  }

  // ---- reading a request URL back ----

  /** The resource a calendar API URL addresses, with its ids and query
      decoded to bytes. */
  datatype Target =
    | Collection(calendar: seq<Byte>)
    | Listing(calendar: seq<Byte>, query: seq<(seq<Byte>, seq<Byte>)>)
    | Single(calendar: seq<Byte>, event: seq<Byte>)

  /** Reads a URL of the form BaseUrl + {calendar} + "/events", followed by
      "?" and a query or by "/" and {event}. */
  function ParseTarget(url: string): Option<Target>
  {
    if StartsWith(url, BaseUrl) then ParseRelative(url[|BaseUrl|..]) else None
  }

  /** The part after the base: a path, then an optional query after the first '?'. */
  function ParseRelative(rest: string): Option<Target>
  {
    var halves := Split(rest, '?');
    ParsePath(Split(halves[0], '/'), if |halves| == 1 then None else Some(Join(halves[1..], '?')))
  }

  function ParsePath(segs: seq<string>, query: Option<string>): Option<Target>
  {
    if |segs| < 2 || segs[1] != "events" then None
    else match PercentDecode(Component, segs[0])
      case None => None
      case Some(cal) =>
        if |segs| == 2 && query.None? then Some(Collection(cal))
        else if |segs| == 2 then
          match ParseQuery(query.value)
          case Some(q) => Some(Listing(cal, q))
          case None => None
        else if |segs| == 3 && query.None? then
          match PercentDecode(Component, segs[2])
          case Some(e) => Some(Single(cal, e))
          case None => None
        else None
  }

  lemma EventsSegments(e: string)
    requires '/' !in e
    ensures Split(e + "/events", '/') == [e, "events"]
  {
    SlashEvents(e);
    SplitPrefix(e, '/', "events");
  }

  lemma SlashEvents(e: string)
    ensures e + "/events" == e + ['/'] + "events"
  {
  }

  lemma EventSegments(e: string, f: string)
    requires '/' !in e && '/' !in f
    ensures Split(e + ("/events/" + f), '/') == [e, "events", f]
  {
    var tail := "events" + ['/'] + f;
    assert e + ("/events/" + f) == e + ['/'] + tail;
    SplitPrefix("events", '/', f);
    SplitPrefix(e, '/', tail);
  }

  lemma ListingHalves(e: string, query: string)
    requires '?' !in e
    ensures Split(e + ("/events?" + query), '?') == [e + "/events"] + Split(query, '?')
  {
    assert e + ("/events?" + query) == (e + "/events") + ['?'] + query;
    SplitPrefix(e + "/events", '?', query);
  }

  /** The path of the events collection. */
  lemma ParseCollectionPath(e: string, cal: seq<Byte>)
    requires '?' !in e && '/' !in e && PercentDecode(Component, e) == Some(cal)
    ensures ParseRelative(e + "/events") == Some(Collection(cal))
  {
    EventsSegments(e);
    assert Split(e + "/events", '?') == [e + "/events"];
  }

  /** The path of a listing: the events collection and a query. */
  lemma ParseListingPath(e: string, cal: seq<Byte>, query: string, pairs: seq<(seq<Byte>, seq<Byte>)>)
    requires '?' !in e && '/' !in e && PercentDecode(Component, e) == Some(cal)
    requires ParseQuery(query) == Some(pairs)
    ensures ParseRelative(e + ("/events?" + query)) == Some(Listing(cal, pairs))
  {
    ListingHalves(e, query);
    EventsSegments(e);
    JoinSplit(query, '?');
  }

  /** The path of a single event. */
  lemma ParseSinglePath(e: string, cal: seq<Byte>, f: string, event: seq<Byte>)
    requires '?' !in e && '/' !in e && PercentDecode(Component, e) == Some(cal)
    requires '?' !in f && '/' !in f && PercentDecode(Component, f) == Some(event)
    ensures ParseRelative(e + ("/events/" + f)) == Some(Single(cal, event))
  {
    EventSegments(e, f);
    assert Split(e + ("/events/" + f), '?') == [e + ("/events/" + f)];
  }

  /** Every header apiFetch adds: the bearer token (section 2.1 of RFC 6750)
      and the JSON content type. */
  predicate Authorized(req: HttpRequest, token: string)
  {
    && Lookup(req.headers, "Authorization") == Some("Bearer " + token)
    && Lookup(req.headers, "Content-Type") == Some("application/json")
  }

  /** An API call fetched a token first and then, only if that succeeded,
      issued exactly one request: with this method, to this resource, with
      this body, authorized by that token and carrying no other header; its
      outcome is the classified reply to that request. */
  ghost predicate Performs(c: Call, token: Result<string>, upstream: HttpRequest -> Reply,
                     verb: string, target: Target, body: Option<Json>)
  {
    && |c.effects| >= 1 && c.effects[0] == TokenFetch
    && (token.Err? ==> c == Call([TokenFetch], Err(token.message)))
    && (token.Ok? ==>
          && |c.effects| == 2 && c.effects[1].Http?
          && var req := c.effects[1].request;
          && req.verb == verb && req.body == body
          && ParseTarget(req.url) == Some(target)
          && Authorized(req, token.value)
          && (forall k :: k != "Authorization" && k != "Content-Type" ==> Lookup(req.headers, k) == None)
          && c.outcome == Classify(upstream(req)))
  }

  /** Text written by encodeURIComponent holds no '?' and no '/'. */
  lemma EncodedSegment(s: string)
    ensures '?' !in EncodeURIComponent(s) && '/' !in EncodeURIComponent(s)
  {
    var e := EncodeURIComponent(s);
    forall i | 0 <= i < |e|
      ensures e[i] != '?' && e[i] != '/'
    {
      assert !Delimiter(e[i]);
    }
  }

  /** The GoogleCalendarWorker of one calendar. Its fields are set once, by
      the constructor; the token source is the `token` argument of each
      operation. */
  datatype GoogleCalendarWorker = GoogleCalendarWorker(calendarId: string)
  {
    function Url(path: string): string
    {
      BaseUrl + (EncodeURIComponent(calendarId) + path)
    }

    /** The URL of the events collection addresses this calendar. */
    lemma CollectionUrl()
      ensures ParseTarget(Url("/events")) == Some(Collection(Utf8(calendarId)))
    {
      var e := EncodeURIComponent(calendarId);
      AfterPrefix(BaseUrl, e + "/events");
      EncodedSegment(calendarId);
      DecodeEncodeURIComponent(calendarId);
      ParseCollectionPath(e, Utf8(calendarId));
    }

    /** The URL of a listing addresses this calendar and carries the query. */
    lemma ListingUrl(q: seq<(string, string)>)
      ensures ParseTarget(Url("/events?" + SerializeQuery(q)))
                == Some(Listing(Utf8(calendarId), Utf8Pairs(q)))
    {
      var e := EncodeURIComponent(calendarId);
      var query := SerializeQuery(q);
      AfterPrefix(BaseUrl, e + ("/events?" + query));
      EncodedSegment(calendarId);
      DecodeEncodeURIComponent(calendarId);
      ParseSerializeQuery(q);
      ParseListingPath(e, Utf8(calendarId), query, Utf8Pairs(q));
    }

    /** The URL of one event addresses this calendar and that event. */
    lemma EventUrl(eventId: string)
      ensures ParseTarget(Url("/events/" + EncodeURIComponent(eventId)))
                == Some(Single(Utf8(calendarId), Utf8(eventId)))
    {
      var e, f := EncodeURIComponent(calendarId), EncodeURIComponent(eventId);
      AfterPrefix(BaseUrl, e + ("/events/" + f));
      EncodedSegment(calendarId);
      EncodedSegment(eventId);
      DecodeEncodeURIComponent(calendarId);
      DecodeEncodeURIComponent(eventId);
      ParseSinglePath(e, Utf8(calendarId), f, Utf8(eventId));
    }

    /** Different events, or events of different calendars, have URLs that
        address different resources. */
    lemma EventUrlIdentifies(other: GoogleCalendarWorker, eventId: string, otherId: string)
      requires ParseTarget(Url("/events/" + EncodeURIComponent(eventId)))
               == ParseTarget(other.Url("/events/" + EncodeURIComponent(otherId)))
      ensures this == other && eventId == otherId
    {
      EventUrl(eventId);
      other.EventUrl(otherId);
      Utf8Injective(calendarId, other.calendarId);
      Utf8Injective(eventId, otherId);
    }

    /** apiFetch(path, options): fetch a token, then one request to the
        calendar's URL followed by path, with the merged headers. */
    function ApiFetch(path: string, options: RequestOptions, token: Result<string>,
                      upstream: HttpRequest -> Reply): Call
      requires DistinctKeys(options.headers)
    {
      match token
      case Err(msg) => Call([TokenFetch], Err(msg))
      case Ok(t) =>
        var req := HttpRequest(if options.verb.Some? then options.verb.value else "GET",
                               Url(path), MergeHeaders(options.headers, t), options.body);
        Call([TokenFetch, Http(req)], Classify(upstream(req)))
    }

    /** apiFetch fetches the token first and exactly once; a failed token
        fetch is the call's error and nothing is sent; otherwise one request
        goes to the calendar's URL with the caller's method (GET by default)
        and body, the bearer token and JSON content type replacing the
        caller's headers of those names and every other caller header kept,
        and the classified reply is the outcome. */
    lemma ApiFetchSends(path: string, options: RequestOptions, token: Result<string>,
                        upstream: HttpRequest -> Reply)
      requires DistinctKeys(options.headers)
      ensures var c := ApiFetch(path, options, token, upstream);
        && |c.effects| >= 1 && c.effects[0] == TokenFetch
        && TokenFetch !in c.effects[1..]
        && (token.Err? ==> c == Call([TokenFetch], Err(token.message)))
        && (token.Ok? ==>
              && |c.effects| == 2 && c.effects[1].Http?
              && var req := c.effects[1].request;
              && req.url == Url(path)
              && req.verb == (if options.verb.Some? then options.verb.value else "GET")
              && req.body == options.body
              && Authorized(req, token.value)
              && (forall k :: k != "Authorization" && k != "Content-Type" ==>
                    Lookup(req.headers, k) == Lookup(options.headers, k))
              && c.outcome == Classify(upstream(req)))
    {
      var c := ApiFetch(path, options, token, upstream);
      if token.Ok? {
        assert c.effects[1..] == [c.effects[1]];
      }
    }

    /** listEvents(opts): a GET of the events collection with ListQuery(opts). */
    function ListEvents(opts: ListOptions, token: Result<string>, upstream: HttpRequest -> Reply): Call
    {
      ApiFetch("/events?" + SerializeQuery(ListQuery(opts)), NoOptions, token, upstream)
    }

    /** listEvents lists this calendar's events with the query ListQuery(opts). */
    lemma ListEventsPerforms(opts: ListOptions, token: Result<string>, upstream: HttpRequest -> Reply)
      ensures Performs(ListEvents(opts, token, upstream), token, upstream,
                       "GET", Listing(Utf8(calendarId), Utf8Pairs(ListQuery(opts))), None)
    {
      ListingUrl(ListQuery(opts));
      ApiFetchSends("/events?" + SerializeQuery(ListQuery(opts)), NoOptions, token, upstream);
    }

    /** getEvent(eventId): a GET of that event. */
    function GetEvent(eventId: string, token: Result<string>, upstream: HttpRequest -> Reply): Call
    {
      ApiFetch("/events/" + EncodeURIComponent(eventId), NoOptions, token, upstream)
    }

    /** getEvent reads the one event named, without a body. */
    lemma GetEventPerforms(eventId: string, token: Result<string>, upstream: HttpRequest -> Reply)
      ensures Performs(GetEvent(eventId, token, upstream), token, upstream,
                       "GET", Single(Utf8(calendarId), Utf8(eventId)), None)
    {
      EventUrl(eventId);
      ApiFetchSends("/events/" + EncodeURIComponent(eventId), NoOptions, token, upstream);
    }

    /** createEvent(event): a POST of the event to the events collection. */
    function CreateEvent(event: Json, token: Result<string>, upstream: HttpRequest -> Reply): Call
    {
      ApiFetch("/events", RequestOptions(Some("POST"), [], Some(event)), token, upstream)
    }

    /** createEvent posts the event, as given, to this calendar's events. */
    lemma CreateEventPerforms(event: Json, token: Result<string>, upstream: HttpRequest -> Reply)
      ensures Performs(CreateEvent(event, token, upstream), token, upstream,
                       "POST", Collection(Utf8(calendarId)), Some(event))
    {
      CollectionUrl();
      ApiFetchSends("/events", RequestOptions(Some("POST"), [], Some(event)), token, upstream);
    }

    /** updateEvent(eventId, event): a PUT of the event to that event. */
    function UpdateEvent(eventId: string, event: Json, token: Result<string>, upstream: HttpRequest -> Reply): Call
    {
      ApiFetch("/events/" + EncodeURIComponent(eventId), RequestOptions(Some("PUT"), [], Some(event)), token, upstream)
    }

    /** updateEvent puts the event, as given, in place of the one named. */
    lemma UpdateEventPerforms(eventId: string, event: Json, token: Result<string>, upstream: HttpRequest -> Reply)
      ensures Performs(UpdateEvent(eventId, event, token, upstream), token, upstream,
                       "PUT", Single(Utf8(calendarId), Utf8(eventId)), Some(event))
    {
      EventUrl(eventId);
      ApiFetchSends("/events/" + EncodeURIComponent(eventId), RequestOptions(Some("PUT"), [], Some(event)), token, upstream);
    }

    /** deleteEvent(eventId): a DELETE of that event. */
    function DeleteEvent(eventId: string, token: Result<string>, upstream: HttpRequest -> Reply): Call
    {
      ApiFetch("/events/" + EncodeURIComponent(eventId), RequestOptions(Some("DELETE"), [], None), token, upstream)
    }

    /** deleteEvent deletes the one event named, without a body. */
    lemma DeleteEventPerforms(eventId: string, token: Result<string>, upstream: HttpRequest -> Reply)
      ensures Performs(DeleteEvent(eventId, token, upstream), token, upstream,
                       "DELETE", Single(Utf8(calendarId), Utf8(eventId)), None)
    {
      EventUrl(eventId);
      ApiFetchSends("/events/" + EncodeURIComponent(eventId), RequestOptions(Some("DELETE"), [], None), token, upstream);
    }
  }
}
