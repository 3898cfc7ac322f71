# NCMB Kotlin SDK: query conditions and script requests

A Dafny model of two small pure pieces of the NIFCLOUD mobile backend Kotlin
SDK:

- **`NCMBQuery`**: the query condition builder. A query holds a class name
  and a mutable "where" object. `whereEqualTo` writes one key, and rewrites a
  `Date` first into the typed document `{"__type": "Date", "iso": <ISO-8601>}`.
  The `conditions` getter wraps a non-empty where-object as
  `{"where": ...}`. `findInBackground` sends the class `"user"` nowhere and
  every other class to the object service.
- **`NCMBScriptService`**: the script API adapter. `executeScriptParams`
  builds the request record: URL `<api base>script/<scriptName>`, a fixed
  JSON content type, and the caller's method, headers, body and query.
  `executeScript` turns the transport's `Success`/`Failure` into a returned
  byte payload or a thrown exception. The background handler turns the same
  response into one call of the application's callback.

Files:

- `common.dfy`, module `Common`: `Option` (Kotlin `null`), `Outcome`
  (a call returns or throws) and `CallbackRef` (the identity of an
  application callback).
- `json.dfy`, module `Json`: JSON values, including a raw `JDate` for a
  `java.util.Date` that has not been rewritten yet. It also holds `Put`,
  the behaviour of `JSONObject.put` on Android's org.json that the query
  builder depends on. `Put` refuses a NaN or infinite number first and a
  null name second. Otherwise it binds the name and changes nothing else.
- `query.dfy`, module `Query`: the query state, `whereEqualTo`, the
  conversion of dates, `conditions` and the routing of `findInBackground`.
  A run of several `whereEqualTo` calls is modelled as `WhereEqualToAll`.
- `script_service.dfy`, module `ScriptService`: request building,
  unwrapping for the blocking call, the background handler, and the request
  handed to the asynchronous sender.

Modelling decisions:

- The mutable `NCMBQuery` becomes an immutable `Query` value. Each
  `whereEqualTo` returns the next value or the exception it throws. When it
  throws, the query keeps its previous state, because org.json checks
  before it stores.
- `mWhereConditions` is declared nullable, but the constructor sets it and
  nothing clears it, so it is a plain map here. The `null` test in the
  getter never fires. Its `catch (JSONException)` is unreachable too,
  because `put("where", <object>)` has a non-null name and a non-number
  value. So `Conditions` returns an object, never `null`.
- The messages of org.json's exceptions are identified by their cause
  (`JsonFault`). "The same message" in `whereEqualTo` means the same cause.
- The date formatter (`getIso8601`) is a parameter `fmt: Date -> string`.
  The parser used for round trips is a parameter `parse`.
- The API base URL (`NCMB.getApiBaseUrl(isScript = true)`) is a parameter
  `scriptApiBase`. The source adds no slash between it and `"script"`, and
  the model does the same.
- `NCMBRequest.HEADER_CONTENT_TYPE_JSON` lives in a file that is not part of
  this model. It is taken to be `application/json`, the content type the
  SDK's wire protocol uses for script requests.
- The transport (`sendRequest`) is a parameter
  `send: RequestParams -> Response`.
- The background handler is identified by the callback it captures
  (`ScriptResultHandler`). The handler calls that captured callback, not
  the callback it is passed.
- `findInBackground` on the class `"user"` does nothing: no search starts
  and the callback is never called (NCMBQuery.kt:37-44).
  `FindInBackground` states exactly that.

## Model

| member | source | states |
|---|---|---|
| `Query.NewQuery` | src/main/java/com/nifcloud/mbaas/core/NCMBQuery.kt:101-103 | a new query keeps its class name and starts with an empty where-object |
| `Query.FreshQueryHasEmptyConditions` | src/main/java/com/nifcloud/mbaas/core/NCMBQuery.kt:59-70 | a freshly constructed query has the empty object as conditions, and a search it starts carries the empty object |
| `Query.Conditions` | src/main/java/com/nifcloud/mbaas/core/NCMBQuery.kt:59-70 | `"where"` is present iff the where-object has an entry; when present it is the only key and holds the where-object; otherwise the document is empty |
| `Query.ConditionsRoundTrip` | src/main/java/com/nifcloud/mbaas/core/NCMBQuery.kt:61-66 | the where-object is recovered from the conditions document, so equal conditions imply equal where-objects |
| `Query.ConvertConditionValue` | src/main/java/com/nifcloud/mbaas/core/NCMBQuery.kt:72-82 | a Date becomes an object with exactly the keys `__type` = "Date" and `iso` = fmt(date); every other value is returned unchanged; the result is never a raw Date and is a refused number exactly when the input is |
| `Query.ConvertIdempotent` | src/main/java/com/nifcloud/mbaas/core/NCMBQuery.kt:73-81 | converting an already converted value changes nothing |
| `Query.DateRoundTrip` | src/main/java/com/nifcloud/mbaas/core/NCMBQuery.kt:74-78 | the stored date document decodes back to the same instant whenever the parser undoes the formatter |
| `Query.NonDateRoundTrip` | src/main/java/com/nifcloud/mbaas/core/NCMBQuery.kt:79-80 | a non-Date value that is not shaped like a date document decodes back to itself |
| `Query.DateAndDateDocumentCollide` | src/main/java/com/nifcloud/mbaas/core/NCMBQuery.kt:73-81 | a Date and a plain object shaped like its date document are different inputs stored as the same value, so the conversion is not invertible in general |
| `Query.WhereEqualTo` | src/main/java/com/nifcloud/mbaas/core/NCMBQuery.kt:89-95 | succeeds iff the key is non-null and the value is not a NaN/infinite number; on success the key holds the converted value, the key set grows by that key only, other keys and the class name are unchanged; on failure the IllegalArgumentException carries the message of the JSONException the put raised |
| `Query.NonDateValueStoredAsIs` | src/main/java/com/nifcloud/mbaas/core/NCMBQuery.kt:89-91 | after writing a non-Date value v under k, the where-object is the old one with k bound to v |
| `Query.SameKeyTwiceKeepsLast` | src/main/java/com/nifcloud/mbaas/core/NCMBQuery.kt:91 | writing one key twice equals writing the last value once, and the second write does not grow the where-object |
| `Query.DistinctKeysCommute` | src/main/java/com/nifcloud/mbaas/core/NCMBQuery.kt:91 | two accepted writes to different keys give the same query in either order |
| `Query.LastWriteWins` | src/main/java/com/nifcloud/mbaas/core/NCMBQuery.kt:89-95 | after a run of accepted calls each key holds the converted value of the last call that wrote it, keys never written keep their old values, and a key is present iff it was present before or some call wrote it |
| `Query.RunKeys` | src/main/java/com/nifcloud/mbaas/core/NCMBQuery.kt:89-95 | a run of accepted calls adds exactly the set of keys the calls write |
| `Query.RunKeepsNoTopLevelRawDates` | src/main/java/com/nifcloud/mbaas/core/NCMBQuery.kt:72-95 | any run of calls keeps the where-object free of raw Date objects as top-level values (a Date nested inside an array or object value is stored unconverted) |
| `Query.ReachableQueriesHoldNoTopLevelRawDates` | src/main/java/com/nifcloud/mbaas/core/NCMBQuery.kt:72-103 | no query reachable from the constructor by whereEqualTo calls holds a raw Date as a top-level value of its where-object |
| `Query.FindInBackground` | src/main/java/com/nifcloud/mbaas/core/NCMBQuery.kt:36-53 | the class "user" starts no search; any other class starts exactly one object-service search for that class, with the given callback, carrying exactly the document the `conditions` getter returns (so `{}` for an empty where-object), from which the where-object is read back |
| `Json.Put` | src/main/java/com/nifcloud/mbaas/core/NCMBQuery.kt:91 | the `JSONObject.put` called here, as Android's org.json behaves (an assumption: org.json is not in the repository): a NaN or infinite number is refused first, then a null name; otherwise the name is bound to the value, the key set grows by that name only and every other entry is unchanged |
| `ScriptService.ExecuteScriptParams` | src/main/java/com/nifcloud/mbaas/core/NCMBScriptService.kt:120-132 | the URL is the API base followed by "script/" and then the script name; the content type is JSON; method, headers, body (as params), query, callback and handler pass through unchanged |
| `ScriptService.ScriptUrlRoundTrip` | src/main/java/com/nifcloud/mbaas/core/NCMBScriptService.kt:127 | the script name is read back from the request URL, so different script names give different URLs |
| `ScriptService.ContentTypeIsFixed` | src/main/java/com/nifcloud/mbaas/core/NCMBScriptService.kt:129 | the content type is the same whatever the method, headers, body, query, callback or handler |
| `ScriptService.UnwrapScriptResponse` | src/main/java/com/nifcloud/mbaas/core/NCMBScriptService.kt:62-69 | a Success returns its payload and a Failure throws its exception; exactly one of the two happens |
| `ScriptService.UnwrapIsBijective` | src/main/java/com/nifcloud/mbaas/core/NCMBScriptService.kt:62-70 | unwrapping loses nothing: the response can be rebuilt from the outcome and the outcome from the response |
| `ScriptService.ExecuteScript` | src/main/java/com/nifcloud/mbaas/core/NCMBScriptService.kt:44-71 | the request sent has no callback and no handler; the call returns the payload iff that request's response is a Success, and otherwise throws the response's exception |
| `ScriptService.HandleScriptResponse` | src/main/java/com/nifcloud/mbaas/core/NCMBScriptService.kt:92-101 | the captured callback is invoked exactly once, whatever callback the handler is passed: with no error and the payload on Success, with the carried exception and no payload on Failure |
| `ScriptService.ExecuteScriptInBackground` | src/main/java/com/nifcloud/mbaas/core/NCMBScriptService.kt:84-112 | the handler is built around the supplied callback; the request carries exactly that callback and handler, and apart from them equals the request of the blocking call |
| `ScriptService.BackgroundAgreesWithBlocking` | src/main/java/com/nifcloud/mbaas/core/NCMBScriptService.kt:62-101 | the callback gets no error and the payload exactly when the blocking path returns it, and gets the exception the blocking path throws |
| `ScriptService.SameResponseSameResult` | src/main/java/com/nifcloud/mbaas/core/NCMBScriptService.kt:51-110 | when both requests get the same response, the background callback (the supplied one) gets data exactly when executeScript returns, and then the returned bytes; it gets an error exactly when executeScript throws, and then the thrown exception |

## Left out

- Network transport (`sendRequest`, `sendRequestAsync`, `NCMBConnection`), request signing and status-code classification live in files that are not part of this model. The transport is the parameter `send`. Whether `sendRequestAsync` runs the handler once per response is not modelled.
- `AsyncTask`, worker threads and the scheduling of callbacks are concurrency. Only the response-to-callback mapping is modelled.
- `SimpleDateFormat` / `getIso8601` is a foreign library. It is the parameter `fmt`.
- `NCMB.getApiBaseUrl` is global configuration. It is the parameter `scriptApiBase`.
- The internals of org.json (serialisation, parsing, key order) are not modelled. Only the accept/refuse behaviour of `put` is.
- `NCMBObjectService.findObjectsInBackground` and the commented-out `find()` are not modelled. Only the routing decision of `findInBackground` is.
- The `response.data as ByteArray` casts are assumed to succeed: a script `Success` carries bytes. What the transport puts in `data` is not part of this model.
- Aliasing: Kotlin objects are shared by reference, and a value model cannot express this. The `conditions` getter puts the query's own where-object into the returned document, so a caller that mutates the result mutates the query. `whereEqualTo` (NCMBQuery.kt:91) stores the caller's `JSONObject` or `JSONArray` itself, so a caller that mutates that object after the call changes the stored condition. `LastWriteWins` and the other run lemmas describe the where-object only when no such mutation happens.
- Nested dates: `convertConditionValue` rewrites only a `Date` that is the value itself. A `Date` nested inside an array or object value is stored unconverted. `NoTopLevelRawDates` looks at top-level values only.
- Reading `conditions` twice: the model's `Conditions` is a function of the query value. So reading it changes nothing, and two reads are equal by construction. No separate lemma states this.
