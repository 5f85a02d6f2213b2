# Google Calendar MCP worker, modelled in Dafny

This project models a Cloudflare Worker that lets an MCP client (an AI
assistant) use one Google Calendar, the service account's `primary`
calendar. It proves properties of that model. The worker has two parts:

- **The REST client** (`GoogleCalendarWorker`, module `CalendarWorker`). Each
  operation fetches a bearer token. It then builds one request against
  `https://www.googleapis.com/calendar/v3/calendars/{calendarId}/events...`,
  sends it, and classifies the reply: a non-2xx status is an error, 204 is
  `null`, and otherwise the result is the parsed body. The operations are
  `listEvents`, `getEvent`, `createEvent`, `updateEvent` and `deleteEvent`.
  They differ only in method, path and body.
- **The Worker entry point** (module `Worker`):
  - the token source `getAccessToken`, which reads the service-account
    entry from the KV store;
  - the SSE handler: it always yields the tool manifest first. For a POST,
    it then dispatches one MCP tool invocation (`list-events`,
    `create-event` or `delete-event`) and yields exactly one
    `tool_response` or `error` message;
  - the route table of `fetch`: `/sse`, `GET /events`, `POST /events`,
    `DELETE /events/{id}`, and 404 otherwise.

The model gives each piece the form it has in the source. The client and
the handlers are pure functions, because they compute values and record
their side effects. Those effects are a trace: the token fetch, then the
HTTP request sent.

Some things are inputs rather than part of the model:

- the network, modelled as an `upstream` function from request to reply;
- the KV entry and the OAuth token exchange, together the `Env` value;
- the parsed request body.

`listEvents` builds its query by successive `params.append` calls. That
builder is a method with a loop-free sequence of appends, and it is proved
equal to the function `ListQuery`.

The proved properties come in pairs: an operation and its partner.

- **URLs.** Every URL the client builds is read back by an independent URL
  parser (`ParseTarget`). The parser yields exactly the calendar id, the
  event id and the query pairs that were given, as UTF-8 bytes. This rests
  on two round trips:
  - `encodeURIComponent` against percent-decoding (section 2.1 of RFC 3986),
    together with UTF-8 being injective, so different ids give different
    URLs;
  - `URLSearchParams.toString` against a query parser (section 5.2 of the
    WHATWG URL Standard, application/x-www-form-urlencoded).
- **Requests.** Each operation fetches the token first and exactly once. It
  sends at most one request, with the right method and body, and with the
  bearer token (section 2.1 of RFC 6750) and JSON content type replacing
  any caller header of those names. No operation passes headers of its own,
  so every request carries exactly those two.
- **Handlers.**
  - The manifest lists the three tools the dispatcher knows, in order. The
    dispatcher reads nothing of an invocation's parameters beyond the names
    the manifest advertises for that tool.
  - Every malformed invocation is one error message, sent before any
    calendar call.
  - Each route performs the one call it names.

## Model

| member | source | states |
|---|---|---|
| CalendarWorker.ListQueryKeys | src/google-calendar-worker.ts:31-36 | the listEvents query holds timeMin and timeMax only when given and non-empty, then maxResults, singleEvents, orderBy, in that order, each once |
| CalendarWorker.ListQueryBounds | src/google-calendar-worker.ts:30-33 | the query's timeMin/timeMax are exactly the given bounds; an empty bound is omitted like an absent one |
| CalendarWorker.ListQueryFixedParams | src/google-calendar-worker.ts:30-36 | the query always has singleEvents=true, orderBy=startTime, and a maxResults that reads back as the given number or the default 10 |
| CalendarWorker.BuildListQuery | src/google-calendar-worker.ts:31-36 | the successive params.append calls build exactly the query ListQuery describes |
| CalendarWorker.MergeHeaders | src/google-calendar-worker.ts:15-19 | merged headers carry `Bearer <token>` and `application/json`, keep every other caller header and the caller's key order, and stay free of duplicate keys |
| CalendarWorker.ApiErrorMessageCarries | src/google-calendar-worker.ts:21-24 | the thrown message starts with "Google Calendar API error: ", its first word reads back as the status, the status text follows after one space, and it ends with the response body text |
| CalendarWorker.Classify | src/google-calendar-worker.ts:20-26 | a non-2xx reply is the API error, a network failure is its own error, 204 is null, any other 2xx reply is the parsed body; success only on 2xx |
| CalendarWorker.GoogleCalendarWorker.CollectionUrl | src/google-calendar-worker.ts:14 | the events-collection URL parses back to this calendar's id |
| CalendarWorker.GoogleCalendarWorker.ListingUrl | src/google-calendar-worker.ts:37 | the listing URL parses back to this calendar's id and exactly the query pairs serialized into it |
| CalendarWorker.GoogleCalendarWorker.EventUrl | src/google-calendar-worker.ts:42 | an event URL parses back to the UTF-8 bytes of this calendar's id and of the given event id |
| CalendarWorker.GoogleCalendarWorker.EventUrlIdentifies | src/google-calendar-worker.ts:42 | two event URLs address the same resource only for the same calendar and the same event id |
| CalendarWorker.GoogleCalendarWorker.ApiFetchSends | src/google-calendar-worker.ts:12-27 | token fetched first and once; a token failure is the call's error with nothing sent; otherwise one request to the calendar URL with the caller's method (GET by default), body and other headers plus the auth headers, whose classified reply is the outcome |
| CalendarWorker.GoogleCalendarWorker.ListEventsPerforms | src/google-calendar-worker.ts:30-38 | listEvents GETs this calendar's events with the ListQuery pairs, no body and only the two auth headers |
| CalendarWorker.GoogleCalendarWorker.GetEventPerforms | src/google-calendar-worker.ts:41-43 | getEvent GETs exactly the named event of this calendar, with only the two auth headers |
| CalendarWorker.GoogleCalendarWorker.CreateEventPerforms | src/google-calendar-worker.ts:46-51 | createEvent POSTs the given event to this calendar's events collection, with only the two auth headers |
| CalendarWorker.GoogleCalendarWorker.UpdateEventPerforms | src/google-calendar-worker.ts:54-59 | updateEvent PUTs the given event to exactly the named event, with only the two auth headers |
| CalendarWorker.GoogleCalendarWorker.DeleteEventPerforms | src/google-calendar-worker.ts:62-66 | deleteEvent DELETEs exactly the named event, without a body and with only the two auth headers |
| UrlEncoding.CharBytes | src/google-calendar-worker.ts:14 | UTF-8 encoding of one code point: 1 to 4 bytes, one byte exactly for ASCII (the code itself), only bytes >= 0x80 otherwise |
| UrlEncoding.CharBytesDecodes | src/google-calendar-worker.ts:14 | the first byte of a code point's UTF-8 encoding gives its length, and the bytes decode back to the code point |
| UrlEncoding.Utf8Injective | src/google-calendar-worker.ts:14 | two strings with the same UTF-8 encoding are equal |
| UrlEncoding.EncodeURIComponent | src/google-calendar-worker.ts:14 | encodeURIComponent never writes '/', '?', '#', '&', '=', '+' or a space, so an id stays within one path segment |
| UrlEncoding.EncodeURIComponentIsBytewise | src/google-calendar-worker.ts:14 | encoding code point by code point equals percent-encoding the UTF-8 bytes |
| UrlEncoding.DecodeEncodeURIComponent | src/google-calendar-worker.ts:42 | percent-decoding an encoded id yields exactly its UTF-8 bytes; with Utf8Injective, different ids have different encodings |
| UrlEncoding.EncodeUnreservedIsIdentity | src/google-calendar-worker.ts:14 | an id of unreserved ASCII characters (such as "primary") is written unchanged |
| UrlEncoding.SerializePairParses | src/google-calendar-worker.ts:37 | a serialized name=value pair holds no '&' and parses back to the pair's UTF-8 bytes |
| UrlEncoding.ParseSerializeQuery | src/google-calendar-worker.ts:31-37 | parsing URLSearchParams.toString() gives back every pair, in order |
| Strings.LastSegmentIsSuffix | src/index.ts:127 | `split('/').pop()` is the '/'-free suffix after the last '/' (the whole string when there is none) |
| Strings.ParseIntToString | src/google-calendar-worker.ts:34 | the decimal rendering of an integer, which is JavaScript's String(n) for magnitudes up to 2^53, reads back as n |
| JsValues.LookupLastWins | src/index.ts:60-61 | a property is found exactly when some member has the key, and its value is the last such member's |
| JsValues.Put | src/google-calendar-worker.ts:15-19 | assigning a property after a spread sets that key, leaves every other key's value, keeps the key order (a new key goes last) and no duplicates |
| JsValues.Member | src/google-calendar-worker.ts:49 | JSON.stringify writes property `key` exactly when its value is defined, and nothing else |
| JsValues.JsStringFacts | src/google-calendar-worker.ts:63 | String() is the identity on strings, gives "undefined" for a missing value and "[object Object]" for a convertible object; an integer is written in decimal and reads back (JavaScript agrees up to 2^53); it throws "Cannot convert object to primitive value" exactly on the values Throws names |
| JsValues.JsonStringThrows | src/google-calendar-worker.ts:63 | String() of a parsed value throws exactly when it is an object with an own toString member, or an array holding one at any depth of arrays, and always with the TypeError's message |
| Worker.GetAccessTokenCases | src/index.ts:9-15 | a missing or empty KV entry is "Service account JSON not found"; otherwise the token is whatever the exchange makes of the entry; success implies a usable entry |
| Worker.ManifestTools | src/index.ts:27-54 | the manifest lists exactly list-events, create-event, delete-event, in that order |
| Worker.ManifestParameters | src/index.ts:30-52 | list-events takes no parameters, create-event summary/start/end, delete-event eventId |
| Worker.AdvertisedParametersSuffice | src/index.ts:30-88 | two invocations of a manifest tool whose parameters agree on the names the manifest advertises for it are handled identically |
| Worker.Destructure | src/index.ts:61 | destructuring throws exactly on null or undefined and otherwise yields the value itself |
| Worker.NewEventFields | src/index.ts:71-77 | the posted event has the parameters' summary (omitted when undefined) and start/end nested under dateTime, and no other keys |
| Worker.SyncEvent | src/index.ts:71-77 | concretely: summary "Sync", 10:00–11:00 on 2024-01-01, with both times nested under dateTime |
| Worker.Dispatch | src/index.ts:59-100 | the one message after the manifest is always a tool_response or an error |
| Worker.SseHandler | src/index.ts:21-102 | the manifest comes first and only there; a POST yields exactly one further tool_response or error message; anything else yields only the manifest and touches nothing |
| Worker.ListEventsTool | src/index.ts:64-69 | list-events lists the primary calendar with the default query and reports the result under the tool's name |
| Worker.CreateEventTool | src/index.ts:70-81 | create-event POSTs exactly the event built from the parameters to the primary calendar and reports the result |
| Worker.DeleteEventTool | src/index.ts:82-88 | delete-event DELETEs the event named by String(eventId) and reports `{deleted: true}` on success, whatever the API returned; an eventId String() cannot convert is reported as the TypeError, with no token fetch and no request |
| Worker.UnknownTool | src/index.ts:89-94 | any other tool name, or none at all, yields "Unknown tool" with no token fetch and no request |
| Worker.MalformedInvocation | src/index.ts:95-99 | an unparsable or null body, or create/delete without parameters, yields one error before any effect; a parse error's message is passed through |
| Worker.MissingCredential | src/index.ts:11 | without a usable KV entry every known tool invocation ends in the missing-credential error after the token fetch alone, except a delete-event whose eventId String() cannot convert, which throws before the token fetch |
| Worker.OneTokenFetch | src/google-calendar-worker.ts:13 | every performed call starts with its single token fetch and makes at most two effects |
| Worker.TokenFetchedFirst | src/index.ts:58-101 | for every request, the handler fetches at most one token, always first, and sends at most one calendar request |
| Worker.CreateEventEchoed | src/index.ts:70-81 | against a server that echoes the body, create-event answers with exactly the built event |
| Worker.RouteOf | src/index.ts:109-131 | each route is taken exactly under its condition, in the source's order: /sse for any method, GET/POST /events, DELETE /events/…, else not found |
| Worker.DeleteRouteId | src/index.ts:127 | the deletion id is the '/'-free text after the path's last '/', empty when the path ends in '/' |
| Worker.DeleteRouted | src/index.ts:126-127 | every DELETE under /events/ takes the delete route with the path's last segment |
| Worker.Fetch | src/index.ts:105-133 | unrouted requests get 404 "Not found" with no effect; an event stream is answered exactly for /sse; plain-text answers have no effect |
| Worker.FetchSse | src/index.ts:109-111 | /sse is served by the SSE handler whatever the method |
| Worker.FetchList | src/index.ts:117-120 | GET /events lists the primary calendar with the default query and answers its result as JSON |
| Worker.FetchCreate | src/index.ts:121-125 | POST /events posts the parsed body as given; a body that does not parse rejects before any effect |
| Worker.FetchDelete | src/index.ts:126-130 | DELETE /events/… deletes the event named by the path's last segment and answers `{deleted: true}` on success |

## Left out

- Numbers are integers. JSON values are modelled without floating point, and `maxResults` is an integer.
- Strings.IntToString / JsValues.JsString: JSON integers are exact and unbounded in the model, while JavaScript numbers are doubles. Both the parse and the printing match JavaScript only for |n| <= 2^53. Beyond that, `JSON.parse` rounds the integer, and `String()` writes the shortest digits that read back as the double, padded with zeros (`String(2**60)` is `"1152921504606847000"`). From 1e21 up it writes exponent form (`1e+21`). An eventId of 1e21 is therefore sent as `1e%2B21` by the code but as its 22-digit numeral by the model.
- ParseIntToString: the round trip is about the model's decimal rendering. It equals JavaScript's `String(n)` only for |n| <= 2^53, as the line above says.
- JsStringFacts: its integer clause is about the model's decimal rendering. That differs from JavaScript's `String()` and from the parsed value beyond 2^53, as the line above says.
- `JSON.parse`, `request.json()` and `response.json()` are not modelled as parsers. Each is an input that is either a parsed `Json` value or the message of its parse error. `JSON.stringify` of request bodies is modelled only as far as an undefined property being dropped, in `Member`.
- The KV read and the OAuth exchange of `cloudflare-workers-and-google-oauth` are inputs, the `Env` value. Parsing the KV entry as JSON is folded into the exchange, whose failure is an error message.
- The network is the `upstream` function. A rejected `fetch` is a `NetworkError` with its message.
- The SSE framing of the `sse()` wrapper of `cloudflare-workers-sse` is not modelled. The handler's stream is the sequence of messages it yields: the manifest and at most one more. The `ctx` argument is unused by the code.
- Strings are sequences of Unicode code points. JavaScript strings are UTF-16, and a parsed body can hold a lone surrogate (`"\ud800"`). On such an id `encodeURIComponent` throws `URIError` ("URI malformed"), which the handler reports as an `error` message. The model cannot represent that input, so this error path is not modelled.
- `new URL(request.url)` is not modelled. The request arrives with its pathname already extracted, which is still percent-encoded. The DELETE route hands its last segment to `deleteEvent`, which encodes it again, exactly as the code does. An id that needed escaping is therefore escaped twice.
- Header names are compared case-sensitively. The spread of `options.headers` is modelled for a plain object of string values; the `Headers` class and arrays of pairs are not modelled.
- The TypeError text for destructuring null or undefined follows V8's wording, which is what Cloudflare Workers run. Other engines word it differently.
- JsValues.Get: only own members of JSON objects are found. No inherited property matches the keys the worker reads. `String()` does read the inherited `toString` and `valueOf`, and `JsonString` models that: an own `toString` member hides the inherited one.
- A failed REST call on an `/events` route is an uncaught exception: the `fetch` promise rejects, and the model answers `Rejected(message)`. The code has no handler that turns it into an HTTP error response.
- A 204 reply yields `null`, and `JSON.stringify(null)` answers `null`.
- The code does not check that parameters are present. A missing summary is dropped from the posted event; a missing start or end leaves an empty object under that key. A missing eventId becomes the id "undefined".
- An unknown tool, or a malformed invocation, fetches no token: the code builds the client but calls no operation.
- `getEvent` and `updateEvent` are modelled and proved, but no route or tool of the code calls them.
- Worker.Dispatch: its own contract only fixes the message kind. Its behaviour for each tool is stated by ListEventsTool, CreateEventTool, DeleteEventTool, UnknownTool, MalformedInvocation and MissingCredential, through SseHandler.
- `src/worker-configuration.d.ts` holds only type declarations and is not part of this model.
