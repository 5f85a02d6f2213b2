/** The Worker entry point (src/index.ts): the service-account token source,
    the MCP tool dispatcher behind the /sse endpoint, and the HTTP route
    table of `fetch`.

    The KV namespace and the OAuth token exchange are inputs (`Env`), the
    Google Calendar API is the `upstream` function, and `request.json()` is
    the already parsed body (or the message of its parse error). The SSE
    handler's generator is the finite sequence of messages it yields. */
module Worker {
  import opened Outcomes
  import opened Strings
  import opened JsValues
  import opened UrlEncoding
  import opened CalendarWorker

  /** The calendar every route and tool works on. */
  const CalendarId: string := "primary"

  const MissingServiceAccount: string := "Service account JSON not found"

  /** The KV entry `gcp_service_account_json` (None when absent), and what
      parsing it and exchanging it for an access token yields. */
  datatype Env = Env(serviceAccountJson: Option<string>, exchange: string -> Result<string>)

  /** getAccessToken(env): a missing or empty KV entry is an error; any other
      entry is handed to the token exchange. */
  function GetAccessToken(env: Env): (r: Result<string>)
  {
    match env.serviceAccountJson
    case None => Err(MissingServiceAccount)
    case Some(json) => if json == "" then Err(MissingServiceAccount) else env.exchange(json)
  }

  /** The token source is only consulted through the KV entry: without a
      usable entry the token is the missing-credential error, and otherwise
      it is exactly what the exchange makes of the entry. */
  lemma GetAccessTokenCases(env: Env)
    ensures GetAccessToken(env) == Err(MissingServiceAccount)
              <== !Truthy(env.serviceAccountJson)
    ensures Truthy(env.serviceAccountJson) ==>
              GetAccessToken(env) == env.exchange(env.serviceAccountJson.value)
    ensures GetAccessToken(env).Ok? ==> Truthy(env.serviceAccountJson)
  {
  }

  /** The calendar the worker builds for every request. */
  const Primary: GoogleCalendarWorker := GoogleCalendarWorker(CalendarId)

  /** An SSE message: its event name and its data. */
  datatype Message = Message(event: string, data: Json)

  /** A description of one tool in the manifest. */
  function Tool(name: string, description: string, parameters: seq<(string, Json)>): Json
  {
    JObj([("name", JStr(name)), ("description", JStr(description)), ("parameters", JObj(parameters))])
  }

  const ListTool: Json := Tool("list-events", "List upcoming Google Calendar events.", [])

  const CreateTool: Json :=
    Tool("create-event", "Create a Google Calendar event.",
         [("summary", JStr("string")),
          ("start", JStr("string (RFC3339 datetime)")),
          ("end", JStr("string (RFC3339 datetime)"))])

  const DeleteTool: Json := Tool("delete-event", "Delete a Google Calendar event.", [("eventId", JStr("string"))])

  /** The tools the dispatcher knows, in manifest order. */
  const Tools: seq<Json> := [ListTool, CreateTool, DeleteTool]

  /** The manifest message: the tools the dispatcher knows. */
  const ManifestMessage: Message := Message("manifest", JObj([("tools", JArr(Tools))]))

  function ErrorMessage(message: string): Message
  {
    Message("error", JObj([("message", JStr(message))]))
  }

  function ToolResponse(tool: Json, result: Json): Message
  {
    Message("tool_response", JObj([("tool", tool), ("result", result)]))
  }

  /** The names of the tools a manifest message lists. */
  function ToolNames(m: Message): seq<Option<Json>>
  {
    match Get(m.data, "tools")
    case Some(JArr(tools)) => seq(|tools|, i requires 0 <= i < |tools| => Get(tools[i], "name"))
    case _ => []
  }

  /** The parameter names the manifest advertises for a tool. */
  function ParameterNames(tool: Json): seq<string>
  {
    match Get(tool, "parameters")
    case Some(JObj(ms)) => Keys(ms)
    case _ => []
  }

  /** The manifest lists exactly three tools, in this order. */
  lemma ManifestTools()
    ensures ToolNames(ManifestMessage)
              == [Some(JStr("list-events")), Some(JStr("create-event")), Some(JStr("delete-event"))]
  {
    ToolFields("list-events", "List upcoming Google Calendar events.", []);
    ToolFields("create-event", "Create a Google Calendar event.", CreateTool.members[2].1.members);
    ToolFields("delete-event", "Delete a Google Calendar event.", [("eventId", JStr("string"))]);
    assert Get(ManifestMessage.data, "tools") == Some(JArr(Tools)) by {
      LookupDistinct(ManifestMessage.data.members, 0);
    }
  }

  /** Each tool in the manifest names the parameters the dispatcher reads
      for it. */
  lemma ManifestParameters()
    ensures ParameterNames(ListTool) == []
    ensures ParameterNames(CreateTool) == ["summary", "start", "end"]
    ensures ParameterNames(DeleteTool) == ["eventId"]
  {
    ToolFields("list-events", "List upcoming Google Calendar events.", []);
    ToolFields("create-event", "Create a Google Calendar event.", CreateTool.members[2].1.members);
    ToolFields("delete-event", "Delete a Google Calendar event.", [("eventId", JStr("string"))]);
  }

  lemma ToolFields(name: string, description: string, parameters: seq<(string, Json)>)
    ensures Get(Tool(name, description, parameters), "name") == Some(JStr(name))
    ensures Get(Tool(name, description, parameters), "parameters") == Some(JObj(parameters))
  {
    var ms := Tool(name, description, parameters).members;
    assert DistinctKeys(ms);
    LookupDistinct(ms, 0);
    LookupDistinct(ms, 2);
  }

  /** The dispatcher reads nothing of `parameters` beyond what the manifest
      advertises for the tool: two invocations of a tool whose parameters
      agree on the advertised names are handled alike. */
  lemma AdvertisedParametersSuffice(tool: Json, name: string, request: Request, other: Request,
                                    env: Env, upstream: HttpRequest -> Reply)
    requires tool in Tools && Get(tool, "name") == Some(JStr(name))
    requires Invokes(request, name) && Invokes(other, name)
    requires name != "list-events" ==>
               && Parameters(request).Some? && Parameters(request).value != JNull
               && Parameters(other).Some? && Parameters(other).value != JNull
               && forall k :: k in ParameterNames(tool) ==>
                    Get(Parameters(request).value, k) == Get(Parameters(other).value, k)
    ensures SseHandler(request, env, upstream) == SseHandler(other, env, upstream)
  {
    if tool == ListTool {
      ToolFields("list-events", "List upcoming Google Calendar events.", []);
      SameListing(request, other, env, upstream);
    } else if tool == CreateTool {
      ToolFields("create-event", "Create a Google Calendar event.", CreateTool.members[2].1.members);
      CreateReadsAdvertised(request, other, env, upstream);
    } else {
      ToolFields("delete-event", "Delete a Google Calendar event.", [("eventId", JStr("string"))]);
      DeleteReadsAdvertised(request, other, env, upstream);
    }
  }

  lemma CreateReadsAdvertised(request: Request, other: Request, env: Env, upstream: HttpRequest -> Reply)
    requires Invokes(request, "create-event") && Invokes(other, "create-event")
    requires Parameters(request).Some? && Parameters(request).value != JNull
    requires Parameters(other).Some? && Parameters(other).value != JNull
    requires forall k :: k in ParameterNames(CreateTool) ==>
               Get(Parameters(request).value, k) == Get(Parameters(other).value, k)
    ensures SseHandler(request, env, upstream) == SseHandler(other, env, upstream)
  {
    ManifestParameters();
    var p, q := Parameters(request).value, Parameters(other).value;
    assert Get(p, "summary") == Get(q, "summary");
    assert Get(p, "start") == Get(q, "start");
    assert Get(p, "end") == Get(q, "end");
    SameEventCreated(request, other, env, upstream);
  }

  lemma DeleteReadsAdvertised(request: Request, other: Request, env: Env, upstream: HttpRequest -> Reply)
    requires Invokes(request, "delete-event") && Invokes(other, "delete-event")
    requires Parameters(request).Some? && Parameters(request).value != JNull
    requires Parameters(other).Some? && Parameters(other).value != JNull
    requires forall k :: k in ParameterNames(DeleteTool) ==>
               Get(Parameters(request).value, k) == Get(Parameters(other).value, k)
    ensures SseHandler(request, env, upstream) == SseHandler(other, env, upstream)
  {
    ManifestParameters();
    assert Get(Parameters(request).value, "eventId") == Get(Parameters(other).value, "eventId");
    SameEventDeleted(request, other, env, upstream);
  }

  lemma SameListing(request: Request, other: Request, env: Env, upstream: HttpRequest -> Reply)
    requires Invokes(request, "list-events") && Invokes(other, "list-events")
    ensures SseHandler(request, env, upstream) == SseHandler(other, env, upstream)
  {
  }

  lemma SameEventCreated(request: Request, other: Request, env: Env, upstream: HttpRequest -> Reply)
    requires Invokes(request, "create-event") && Invokes(other, "create-event")
    requires Parameters(request).Some? && Parameters(request).value != JNull
    requires Parameters(other).Some? && Parameters(other).value != JNull
    requires var p, q := Parameters(request).value, Parameters(other).value;
      Get(p, "summary") == Get(q, "summary") && Get(p, "start") == Get(q, "start") && Get(p, "end") == Get(q, "end")
    ensures SseHandler(request, env, upstream) == SseHandler(other, env, upstream)
  {
    assert NewEvent(Parameters(request).value) == NewEvent(Parameters(other).value);
  }

  lemma SameEventDeleted(request: Request, other: Request, env: Env, upstream: HttpRequest -> Reply)
    requires Invokes(request, "delete-event") && Invokes(other, "delete-event")
    requires Parameters(request).Some? && Parameters(request).value != JNull
    requires Parameters(other).Some? && Parameters(other).value != JNull
    requires Get(Parameters(request).value, "eventId") == Get(Parameters(other).value, "eventId")
    ensures SseHandler(request, env, upstream) == SseHandler(other, env, upstream)
  {
    DeleteDispatched(request, env, upstream);
    DeleteDispatched(other, env, upstream);
  }

  /** The TypeError a destructuring declaration throws when the value it
      destructures is null or undefined. */
  function DestructureError(property: string, source: string, value: Option<Json>): string
  {
    "Cannot destructure property '" + property + "' of '" + source + "' as it is "
      + (if value.None? then "undefined" else "null") + "."
  }

  /** The value destructured as `const { first, ... } = value` inside the
      try block: null and undefined throw. */
  function Destructure(value: Option<Json>, first: string, source: string): (r: Result<Json>)
    ensures r.Err? <==> value.None? || value.value == JNull
    ensures r.Ok? ==> Some(r.value) == value
  {
    match value
    case None => Err(DestructureError(first, source, value))
    case Some(JNull) => Err(DestructureError(first, source, value))
    case Some(v) => Ok(v)
  }

  /** The event create-event posts: `{summary, start: {dateTime: start},
      end: {dateTime: end}}`, as JSON.stringify writes it (an undefined
      property is dropped). */
  function NewEvent(parameters: Json): Json
  {
    JObj(Member("summary", Get(parameters, "summary"))
         + [("start", JObj(Member("dateTime", Get(parameters, "start")))),
            ("end", JObj(Member("dateTime", Get(parameters, "end"))))])
  }

  /** The posted event carries the parameters' summary, start and end, and
      nothing else. */
  lemma NewEventFields(parameters: Json)
    ensures var ev := NewEvent(parameters);
      && Get(ev, "summary") == Get(parameters, "summary")
      && Get(ev, "start") == Some(JObj(Member("dateTime", Get(parameters, "start"))))
      && Get(ev, "end") == Some(JObj(Member("dateTime", Get(parameters, "end"))))
      && Keys(ev.members) == (if Get(parameters, "summary").Some? then ["summary"] else []) + ["start", "end"]
  {
    var ev := NewEvent(parameters);
    var s := Member("summary", Get(parameters, "summary"));
    var tail: seq<(string, Json)> := [("start", JObj(Member("dateTime", Get(parameters, "start")))),
                                      ("end", JObj(Member("dateTime", Get(parameters, "end"))))];
    assert ev.members == s + tail;
    assert DistinctKeys(ev.members);
    LookupDistinct(ev.members, |s|);
    LookupDistinct(ev.members, |s| + 1);
    if s != [] {
      LookupDistinct(ev.members, 0);
    } else {
      LookupAbsent(ev.members, "summary");
    }
  }

  /** The message a finished calendar call yields: its value (or `result`
      when given) as a tool response, or its error. */
  function Answer(tool: Json, outcome: Result<Json>, result: Option<Json>): (m: Message)
  {
    match outcome
    case Err(message) => ErrorMessage(message)
    case Ok(v) => ToolResponse(tool, if result.Some? then result.value else v)
  }

  /** delete-event once its parameters destructured: `String(eventId)` is
      computed while deleteEvent builds its path, before apiFetch runs. */
  function DeleteBranch(tool: Json, parameters: Json, token: Result<string>,
                        upstream: HttpRequest -> Reply): (r: (Message, seq<Effect>))
    ensures r.0.event == "tool_response" || r.0.event == "error"
    ensures JsString(Get(parameters, "eventId")).Err? ==> r.1 == []
  {
    match JsString(Get(parameters, "eventId"))
    case Err(message) => (ErrorMessage(message), [])
    case Ok(eventId) =>
      var c := Primary.DeleteEvent(eventId, token, upstream);
      (Answer(tool, c.outcome, Some(JObj([("deleted", JBool(true))]))), c.effects)
  }

  /** The try block of sseHandler on the parsed body: the message it yields
      and the effects of the calendar call it made, if any. */
  function Dispatch(body: Result<Json>, env: Env, upstream: HttpRequest -> Reply): (r: (Message, seq<Effect>))
    ensures r.0.event == "tool_response" || r.0.event == "error"
  {
    var token := GetAccessToken(env);
    match body
    case Err(message) => (ErrorMessage(message), [])
    case Ok(b) =>
      if b == JNull then (ErrorMessage(DestructureError("tool", "body", Some(b))), [])
      else
        var tool := Get(b, "tool");
        var parameters := Get(b, "parameters");
        if tool == Some(JStr("list-events")) then
          var c := Primary.ListEvents(NoListOptions, token, upstream);
          (Answer(tool.value, c.outcome, None), c.effects)
        else if tool == Some(JStr("create-event")) then
          match Destructure(parameters, "summary", "parameters")
          case Err(message) => (ErrorMessage(message), [])
          case Ok(p) =>
            var c := Primary.CreateEvent(NewEvent(p), token, upstream);
            (Answer(tool.value, c.outcome, None), c.effects)
        else if tool == Some(JStr("delete-event")) then
          match Destructure(parameters, "eventId", "parameters")
          case Err(message) => (ErrorMessage(message), [])
          case Ok(p) => DeleteBranch(tool.value, p, token, upstream)
        else (ErrorMessage("Unknown tool"), [])
  }

  /** A request as the worker sees it: the URL's pathname, the method, and
      what `request.json()` makes of the body. */
  datatype Request = Request(pathname: string, verb: string, body: Result<Json>)

  /** What the SSE handler produced: its messages in order, and the effects
      of the calendar call it made. */
  datatype Stream = Stream(messages: seq<Message>, effects: seq<Effect>)

  /** sseHandler: the manifest first and only there, then, for a POST,
      exactly one tool response or error; only a POST can reach the
      calendar. */
  function SseHandler(request: Request, env: Env, upstream: HttpRequest -> Reply): (s: Stream)
    ensures |s.messages| == (if request.verb == "POST" then 2 else 1)
    ensures s.messages[0] == ManifestMessage
    ensures forall i :: 1 <= i < |s.messages| ==>
              s.messages[i].event == "tool_response" || s.messages[i].event == "error"
    ensures request.verb != "POST" ==> s.effects == []
  {
    if request.verb == "POST" then
      var (m, effects) := Dispatch(request.body, env, upstream);
      Stream([ManifestMessage, m], effects)
    else Stream([ManifestMessage], [])
  }

  /** A POST body that destructures (it parsed, and is not null) and names
      `tool`. */
  predicate Invokes(request: Request, tool: string)
  {
    && request.verb == "POST"
    && request.body.Ok? && request.body.value != JNull
    && Get(request.body.value, "tool") == Some(JStr(tool))
  }

  /** The `parameters` of an invocation. */
  function Parameters(request: Request): Option<Json>
  {
    if request.body.Ok? then Get(request.body.value, "parameters") else None
  }

  /** The SSE stream made one calendar call, as Performs describes, and its
      second message reports that call's outcome. */
  ghost predicate Reports(s: Stream, tool: string, token: Result<string>, upstream: HttpRequest -> Reply,
                    verb: string, target: Target, body: Option<Json>, result: Option<Json>)
  {
    && |s.messages| == 2
    && exists c: Call :: c.effects == s.effects && Performs(c, token, upstream, verb, target, body)
                         && s.messages[1] == Answer(JStr(tool), c.outcome, result)
  }

  /** list-events lists the primary calendar with the default query and
      reports the events. */
  lemma ListEventsTool(request: Request, env: Env, upstream: HttpRequest -> Reply)
    requires Invokes(request, "list-events")
    ensures Reports(SseHandler(request, env, upstream), "list-events", GetAccessToken(env), upstream,
                    "GET", Listing(Utf8(CalendarId), Utf8Pairs(ListQuery(NoListOptions))), None, None)
  {
    var c := Primary.ListEvents(NoListOptions, GetAccessToken(env), upstream);
    Primary.ListEventsPerforms(NoListOptions, GetAccessToken(env), upstream);
    assert SseHandler(request, env, upstream).effects == c.effects;
  }

  /** create-event posts exactly the event built from `parameters` and
      reports what the calendar returns. */
  lemma CreateEventTool(request: Request, env: Env, upstream: HttpRequest -> Reply)
    requires Invokes(request, "create-event")
    requires Parameters(request).Some? && Parameters(request).value != JNull
    ensures Reports(SseHandler(request, env, upstream), "create-event", GetAccessToken(env), upstream,
                    "POST", Collection(Utf8(CalendarId)), Some(NewEvent(Parameters(request).value)), None)
  {
    var c := Primary.CreateEvent(NewEvent(Parameters(request).value), GetAccessToken(env), upstream);
    Primary.CreateEventPerforms(NewEvent(Parameters(request).value), GetAccessToken(env), upstream);
    assert SseHandler(request, env, upstream).effects == c.effects;
  }

  /** delete-event deletes the event named by `String(parameters.eventId)`,
      and a successful deletion is reported as `{deleted: true}` whatever
      the calendar answered. An eventId that String() cannot convert throws
      while deleteEvent builds its path, before the token is fetched: the
      TypeError is reported and nothing reaches the calendar. */
  lemma DeleteEventTool(request: Request, env: Env, upstream: HttpRequest -> Reply)
    requires Invokes(request, "delete-event")
    requires Parameters(request).Some? && Parameters(request).value != JNull
    ensures var eventId := Get(Parameters(request).value, "eventId");
      && (eventId.Some? && Throws(eventId.value) ==>
            SseHandler(request, env, upstream) == Stream([ManifestMessage, ErrorMessage(NotPrimitive)], []))
      && (!(eventId.Some? && Throws(eventId.value)) ==>
            && JsString(eventId).Ok?
            && Reports(SseHandler(request, env, upstream), "delete-event", GetAccessToken(env), upstream,
                       "DELETE", Single(Utf8(CalendarId), Utf8(JsString(eventId).value)), None,
                       Some(JObj([("deleted", JBool(true))]))))
  {
    var eventId := Get(Parameters(request).value, "eventId");
    JsStringFacts(eventId);
    if JsString(eventId).Ok? {
      DeleteEventSent(request, env, upstream);
    } else {
      DeleteEventRejected(request, env, upstream);
    }
  }

  lemma DeleteEventSent(request: Request, env: Env, upstream: HttpRequest -> Reply)
    requires Invokes(request, "delete-event")
    requires Parameters(request).Some? && Parameters(request).value != JNull
    requires JsString(Get(Parameters(request).value, "eventId")).Ok?
    ensures var eventId := JsString(Get(Parameters(request).value, "eventId")).value;
      Reports(SseHandler(request, env, upstream), "delete-event", GetAccessToken(env), upstream,
              "DELETE", Single(Utf8(CalendarId), Utf8(eventId)), None, Some(JObj([("deleted", JBool(true))])))
  {
    var eventId := JsString(Get(Parameters(request).value, "eventId")).value;
    var token := GetAccessToken(env);
    DeleteDispatched(request, env, upstream);
    var c := Primary.DeleteEvent(eventId, token, upstream);
    Primary.DeleteEventPerforms(eventId, token, upstream);
  }

  /** A delete-event invocation with parameters reaches DeleteBranch. */
  lemma DeleteDispatched(request: Request, env: Env, upstream: HttpRequest -> Reply)
    requires Invokes(request, "delete-event")
    requires Parameters(request).Some? && Parameters(request).value != JNull
    ensures var d := DeleteBranch(JStr("delete-event"), Parameters(request).value, GetAccessToken(env), upstream);
      SseHandler(request, env, upstream) == Stream([ManifestMessage, d.0], d.1)
  {
    var b := request.body.value;
    var tool := Get(b, "tool");
    assert tool == Some(JStr("delete-event"));
    assert tool != Some(JStr("list-events"));
    assert tool != Some(JStr("create-event"));
    var p := Parameters(request).value;
    assert Destructure(Get(b, "parameters"), "eventId", "parameters") == Ok(p);
    assert Dispatch(request.body, env, upstream) == DeleteBranch(JStr("delete-event"), p, GetAccessToken(env), upstream);
  }

  lemma DeleteEventRejected(request: Request, env: Env, upstream: HttpRequest -> Reply)
    requires Invokes(request, "delete-event")
    requires Parameters(request).Some? && Parameters(request).value != JNull
    requires JsString(Get(Parameters(request).value, "eventId")).Err?
    ensures SseHandler(request, env, upstream)
              == Stream([ManifestMessage, ErrorMessage(JsString(Get(Parameters(request).value, "eventId")).message)], [])
  {
  }

  /** An unknown tool, or none at all, is answered with "Unknown tool" and
      no calendar call. */
  lemma UnknownTool(request: Request, env: Env, upstream: HttpRequest -> Reply)
    requires request.verb == "POST" && request.body.Ok? && request.body.value != JNull
    requires Get(request.body.value, "tool") !in
               {Some(JStr("list-events")), Some(JStr("create-event")), Some(JStr("delete-event"))}
    ensures SseHandler(request, env, upstream) == Stream([ManifestMessage, ErrorMessage("Unknown tool")], [])
  {
  }

  /** A body that does not parse, a null body, and create-event or
      delete-event without parameters are each reported as one error, before
      any calendar call. */
  lemma MalformedInvocation(request: Request, env: Env, upstream: HttpRequest -> Reply)
    requires request.verb == "POST"
    requires || request.body.Err?
             || request.body.value == JNull
             || ((Invokes(request, "create-event") || Invokes(request, "delete-event"))
                 && (Parameters(request).None? || Parameters(request).value == JNull))
    ensures var s := SseHandler(request, env, upstream);
      && s.effects == []
      && |s.messages| == 2 && s.messages[1].event == "error"
      && (request.body.Err? ==> s.messages[1] == ErrorMessage(request.body.message))
  {
  }

  /** Without a usable service-account entry, a known tool fails with the
      missing-credential message after the token fetch, and no request
      reaches the calendar. */
  lemma MissingCredential(request: Request, env: Env, upstream: HttpRequest -> Reply)
    requires !Truthy(env.serviceAccountJson)
    requires || Invokes(request, "list-events")
             || ((Invokes(request, "create-event") || Invokes(request, "delete-event"))
                 && Parameters(request).Some? && Parameters(request).value != JNull)
    ensures SseHandler(request, env, upstream)
              == if Invokes(request, "delete-event") && Parameters(request).Some?
                    && JsString(Get(Parameters(request).value, "eventId")).Err?
                 then Stream([ManifestMessage, ErrorMessage(NotPrimitive)], [])
                 else Stream([ManifestMessage, ErrorMessage(MissingServiceAccount)], [TokenFetch])
  {
    if Parameters(request).Some? {
      JsStringFacts(Get(Parameters(request).value, "eventId"));
    }
  }

  /** The handler fetches at most one token, always first, and sends at
      most one request to the calendar. */
  lemma TokenFetchedFirst(request: Request, env: Env, upstream: HttpRequest -> Reply)
    ensures var s := SseHandler(request, env, upstream);
      && |s.effects| <= 2
      && (s.effects != [] ==> s.effects[0] == TokenFetch && TokenFetch !in s.effects[1..])
  {
    var withParameters := Parameters(request).Some? && Parameters(request).value != JNull;
    if request.verb != "POST" {
    } else if request.body.Err? || request.body.value == JNull {
      MalformedInvocation(request, env, upstream);
    } else if Invokes(request, "list-events") {
      ListingTokenFirst(request, env, upstream);
    } else if Invokes(request, "create-event") && withParameters {
      CreationTokenFirst(request, env, upstream);
    } else if Invokes(request, "delete-event") && withParameters {
      DeletionTokenFirst(request, env, upstream);
    } else if Invokes(request, "create-event") || Invokes(request, "delete-event") {
      MalformedInvocation(request, env, upstream);
    } else {
      UnknownTool(request, env, upstream);
    }
  }

  /** At most one token fetch, made first, and at most one request after it. */
  predicate TokenFirst(effects: seq<Effect>)
  {
    && |effects| <= 2
    && (effects != [] ==> effects[0] == TokenFetch && TokenFetch !in effects[1..])
  }

  lemma ListingTokenFirst(request: Request, env: Env, upstream: HttpRequest -> Reply)
    requires Invokes(request, "list-events")
    ensures TokenFirst(SseHandler(request, env, upstream).effects)
  {
    var s := SseHandler(request, env, upstream);
    var target := Listing(Utf8(CalendarId), Utf8Pairs(ListQuery(NoListOptions)));
    ListEventsTool(request, env, upstream);
    var c: Call :| c.effects == s.effects && Performs(c, GetAccessToken(env), upstream, "GET", target, None);
    OneTokenFetch(c, GetAccessToken(env), upstream, "GET", target, None);
  }

  lemma CreationTokenFirst(request: Request, env: Env, upstream: HttpRequest -> Reply)
    requires Invokes(request, "create-event")
    requires Parameters(request).Some? && Parameters(request).value != JNull
    ensures TokenFirst(SseHandler(request, env, upstream).effects)
  {
    var s := SseHandler(request, env, upstream);
    var ev := Some(NewEvent(Parameters(request).value));
    CreateEventTool(request, env, upstream);
    var c: Call :| c.effects == s.effects && Performs(c, GetAccessToken(env), upstream, "POST", Collection(Utf8(CalendarId)), ev);
    OneTokenFetch(c, GetAccessToken(env), upstream, "POST", Collection(Utf8(CalendarId)), ev);
  }

  lemma DeletionTokenFirst(request: Request, env: Env, upstream: HttpRequest -> Reply)
    requires Invokes(request, "delete-event")
    requires Parameters(request).Some? && Parameters(request).value != JNull
    ensures TokenFirst(SseHandler(request, env, upstream).effects)
  {
    var s := SseHandler(request, env, upstream);
    var eventId := Get(Parameters(request).value, "eventId");
    DeleteEventTool(request, env, upstream);
    if !(eventId.Some? && Throws(eventId.value)) {
      var target := Single(Utf8(CalendarId), Utf8(JsString(eventId).value));
      var c: Call :| c.effects == s.effects && Performs(c, GetAccessToken(env), upstream, "DELETE", target, None);
      OneTokenFetch(c, GetAccessToken(env), upstream, "DELETE", target, None);
    }
  }

  /** A call as Performs describes fetches its token first and only once. */
  lemma OneTokenFetch(c: Call, token: Result<string>, upstream: HttpRequest -> Reply,
                      verb: string, target: Target, body: Option<Json>)
    requires Performs(c, token, upstream, verb, target, body)
    ensures |c.effects| <= 2 && c.effects[0] == TokenFetch && TokenFetch !in c.effects[1..]
  {
    if token.Ok? {
      assert c.effects[1..] == [c.effects[1]];
    }
  }

  /** A calendar server that answers 200 with the body it was sent. */
  function Echo(req: HttpRequest): Reply
  {
    Answered(UpstreamResponse(200, "OK", "", Ok(if req.body.Some? then req.body.value else JNull)))
  }

  /** Against a server that echoes what it is sent, a successful
      create-event answers with exactly the event built from `parameters`. */
  lemma CreateEventEchoed(request: Request, env: Env)
    requires Invokes(request, "create-event")
    requires Parameters(request).Some? && Parameters(request).value != JNull
    requires GetAccessToken(env).Ok?
    ensures SseHandler(request, env, Echo).messages[1]
              == ToolResponse(JStr("create-event"), NewEvent(Parameters(request).value))
  {
    var ev := NewEvent(Parameters(request).value);
    CreateEventTool(request, env, Echo);
    var c: Call :| c.effects == SseHandler(request, env, Echo).effects
                   && Performs(c, GetAccessToken(env), Echo, "POST", Collection(Utf8(CalendarId)), Some(ev))
                   && SseHandler(request, env, Echo).messages[1] == Answer(JStr("create-event"), c.outcome, None);
    assert c.outcome == Ok(ev);
  }

  const SyncParameters: Json :=
    JObj([("summary", JStr("Sync")), ("start", JStr("2024-01-01T10:00:00Z")), ("end", JStr("2024-01-01T11:00:00Z"))])

  /** The event built for a summary "Sync" from 10:00 to 11:00 on 1 January
      2024 nests the two times under `dateTime`. */
  lemma SyncEvent()
    ensures NewEvent(SyncParameters)
              == JObj([("summary", JStr("Sync")),
                       ("start", JObj([("dateTime", JStr("2024-01-01T10:00:00Z"))])),
                       ("end", JObj([("dateTime", JStr("2024-01-01T11:00:00Z"))]))])
  {
    var ms := SyncParameters.members;
    assert DistinctKeys(ms);
    LookupDistinct(ms, 0);
    LookupDistinct(ms, 1);
    LookupDistinct(ms, 2);
  }

  /** The routes of `fetch`. */
  datatype Route = SseRoute | ListRoute | CreateRoute | DeleteRoute(eventId: string) | NotFoundRoute

  /** The route table, tried in order; a deletion's id is the text after the
      last '/' of the path. */
  function RouteOf(pathname: string, verb: string): (r: Route)
    ensures r == SseRoute <==> pathname == "/sse"
    ensures r == ListRoute <==> pathname == "/events" && verb == "GET"
    ensures r == CreateRoute <==> pathname == "/events" && verb == "POST"
    ensures r.DeleteRoute? <==> pathname != "/sse" && StartsWith(pathname, "/events/") && verb == "DELETE"
    ensures r == NotFoundRoute <==>
              && pathname != "/sse"
              && !(pathname == "/events" && (verb == "GET" || verb == "POST"))
              && !(StartsWith(pathname, "/events/") && verb == "DELETE")
  {
    if pathname == "/sse" then SseRoute
    else if pathname == "/events" && verb == "GET" then ListRoute
    else if pathname == "/events" && verb == "POST" then CreateRoute
    else if StartsWith(pathname, "/events/") && verb == "DELETE" then DeleteRoute(LastSegment(pathname, '/'))
    else NotFoundRoute
  }

  /** The id of a deletion is the path's last segment: free of '/', preceded
      by a '/', and empty when the path ends with '/'. */
  lemma DeleteRouteId(pathname: string, verb: string)
    requires RouteOf(pathname, verb).DeleteRoute?
    ensures var id := RouteOf(pathname, verb).eventId;
      && '/' !in id
      && |id| < |pathname| - 7
      && pathname == pathname[..|pathname| - |id|] + id
      && pathname[|pathname| - |id| - 1] == '/'
      && (pathname[|pathname| - 1] == '/' ==> id == "")
  {
    var id := LastSegment(pathname, '/');
    LastSegmentIsSuffix(pathname, '/');
    var start := |pathname| - |id|;
    forall j | start <= j < |pathname|
      ensures pathname[j] != '/'
    {
      assert pathname[j] == id[j - start];
    }
    assert pathname[7] == '/';
    assert pathname == pathname[..|pathname| - |id|] + pathname[|pathname| - |id|..];
  }

  /** DELETE with a path under /events/ takes the delete route. */
  lemma DeleteRouted(pathname: string)
    requires StartsWith(pathname, "/events/")
    ensures RouteOf(pathname, "DELETE") == DeleteRoute(LastSegment(pathname, '/'))
  {
    assert pathname[1] == 'e';
  }

  /** What `fetch` answers: the SSE stream's messages, a JSON body, a plain
      text response, or a rejection of the returned promise (the message of
      the error that escaped). */
  datatype HttpResponse =
    | EventStream(messages: seq<Message>)
    | JsonResponse(body: Json)
    | TextResponse(status: int, text: string)
    | Rejected(message: string)

  /** A response and the effects it took to produce it. */
  datatype Handled = Handled(response: HttpResponse, effects: seq<Effect>)

  /** A call's value as a JSON response, its error as a rejection. */
  function Respond(c: Call, result: Option<Json>): Handled
  {
    match c.outcome
    case Err(message) => Handled(Rejected(message), c.effects)
    case Ok(v) => Handled(JsonResponse(if result.Some? then result.value else v), c.effects)
  }

  /** fetch(request, env): the route table. Unrouted requests are answered
      404 "Not found" without fetching a token or calling the calendar. */
  function Fetch(request: Request, env: Env, upstream: HttpRequest -> Reply): (r: Handled)
    ensures RouteOf(request.pathname, request.verb) == NotFoundRoute ==>
              r == Handled(TextResponse(404, "Not found"), [])
    ensures r.response.EventStream? <==> request.pathname == "/sse"
    ensures r.response.TextResponse? ==> r.effects == []
  {
    var token := GetAccessToken(env);
    match RouteOf(request.pathname, request.verb)
    case SseRoute =>
      var s := SseHandler(request, env, upstream);
      Handled(EventStream(s.messages), s.effects)
    case ListRoute => Respond(Primary.ListEvents(NoListOptions, token, upstream), None)
    case CreateRoute =>
      (match request.body
       case Err(message) => Handled(Rejected(message), [])
       case Ok(event) => Respond(Primary.CreateEvent(event, token, upstream), None))
    case DeleteRoute(eventId) =>
      Respond(Primary.DeleteEvent(eventId, token, upstream), Some(JObj([("deleted", JBool(true))])))
    case NotFoundRoute => Handled(TextResponse(404, "Not found"), [])
  }

  /** Each calendar route made the one call it names, and answers with that
      call's outcome. */
  ghost predicate Serves(r: Handled, token: Result<string>, upstream: HttpRequest -> Reply,
                   verb: string, target: Target, body: Option<Json>, result: Option<Json>)
  {
    exists c: Call :: c.effects == r.effects && Performs(c, token, upstream, verb, target, body)
                      && r == Respond(c, result)
  }

  /** /sse is the SSE handler, whatever the method. */
  lemma FetchSse(request: Request, env: Env, upstream: HttpRequest -> Reply)
    requires request.pathname == "/sse"
    ensures var s := SseHandler(request, env, upstream);
      Fetch(request, env, upstream) == Handled(EventStream(s.messages), s.effects)
  {
  }

  /** GET /events lists the primary calendar with the default query. */
  lemma FetchList(request: Request, env: Env, upstream: HttpRequest -> Reply)
    requires request.pathname == "/events" && request.verb == "GET"
    ensures Serves(Fetch(request, env, upstream), GetAccessToken(env), upstream,
                   "GET", Listing(Utf8(CalendarId), Utf8Pairs(ListQuery(NoListOptions))), None, None)
  {
    var c := Primary.ListEvents(NoListOptions, GetAccessToken(env), upstream);
    Primary.ListEventsPerforms(NoListOptions, GetAccessToken(env), upstream);
    assert Fetch(request, env, upstream) == Respond(c, None);
  }

  /** POST /events posts the request body, as parsed, to the collection; a
      body that does not parse rejects before any effect. */
  lemma FetchCreate(request: Request, env: Env, upstream: HttpRequest -> Reply)
    requires request.pathname == "/events" && request.verb == "POST"
    ensures request.body.Err? ==> Fetch(request, env, upstream) == Handled(Rejected(request.body.message), [])
    ensures request.body.Ok? ==>
              Serves(Fetch(request, env, upstream), GetAccessToken(env), upstream,
                     "POST", Collection(Utf8(CalendarId)), Some(request.body.value), None)
  {
    if request.body.Ok? {
      var c := Primary.CreateEvent(request.body.value, GetAccessToken(env), upstream);
      Primary.CreateEventPerforms(request.body.value, GetAccessToken(env), upstream);
      assert Fetch(request, env, upstream) == Respond(c, None);
    }
  }

  /** DELETE /events/... deletes the event named by the path's last segment
      and answers `{deleted: true}` on success. */
  lemma FetchDelete(request: Request, env: Env, upstream: HttpRequest -> Reply)
    requires StartsWith(request.pathname, "/events/") && request.verb == "DELETE"
    ensures Serves(Fetch(request, env, upstream), GetAccessToken(env), upstream,
                   "DELETE", Single(Utf8(CalendarId), Utf8(LastSegment(request.pathname, '/'))), None,
                   Some(JObj([("deleted", JBool(true))])))
  {
    DeleteRouted(request.pathname);
    var c := Primary.DeleteEvent(LastSegment(request.pathname, '/'), GetAccessToken(env), upstream);
    Primary.DeleteEventPerforms(LastSegment(request.pathname, '/'), GetAccessToken(env), upstream);
    assert Fetch(request, env, upstream) == Respond(c, Some(JObj([("deleted", JBool(true))])));
  }
}
