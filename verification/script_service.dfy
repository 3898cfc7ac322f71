/** The script service `NCMBScriptService`: it builds the request for running
    a server-side script, and turns the tagged response into a returned
    payload or a thrown exception (blocking call) or into one callback
    invocation (background call). The transport that turns a request into a
    response is a parameter `send`. */
module ScriptService {
  import opened Common
  import opened Json

  /** A payload byte as an unsigned octet (0..255), not Kotlin's signed `Byte`. */
  newtype Byte = b: int | 0 <= b < 256

  /** `NCMBException` as carried by a failed response. */
  datatype NCMBException = NCMBException(code: string, message: string)

  /** `NCMBResponse`: the transport's tagged result; a script response carries bytes. */
  datatype Response = Success(data: seq<Byte>) | Failure(resException: NCMBException)

  /** The `executeHandler` built by the background call: it remembers the
      callback it was built around. */
  datatype Handler = ScriptResultHandler(callback: CallbackRef)

  /** `RequestParams`: everything the transport needs for one request. */
  datatype RequestParams = RequestParams(
    url: string,
    httpMethod: string,
    scriptHeader: map<string, string>,
    params: Object,
    contentType: string,
    query: Object,
    callback: Option<CallbackRef>,
    handler: Option<Handler>)

  /** The caller's arguments to `executeScript` and `executeScriptInBackground`. */
  datatype ScriptCall = ScriptCall(
    scriptName: string,
    httpMethod: string,
    header: map<string, string>,
    body: Object,
    query: Object)

  /** One invocation `callback.done(error, data)`. */
  datatype Invocation = Done(target: CallbackRef, error: Option<NCMBException>, data: Option<seq<Byte>>)

  /** What `executeScriptInBackground` hands to `sendRequestAsync`. */
  datatype AsyncSend = AsyncSend(request: RequestParams, callback: CallbackRef, handler: Handler)

  /** The service path of the script API. */
  const ServicePath := "script"

  /** The JSON content type, used for every script request. */
  const ContentTypeJson := "application/json"

  /** The URL prefix shared by every script of one API base. */
  function ScriptPrefix(scriptApiBase: string): string {
    scriptApiBase + ServicePath + "/"
  }

  /** `executeScriptParams`: the URL is the script API base, the service path,
      a slash and the script name; the content type is always JSON; method,
      headers, body (as `params`), query, callback and handler pass through. */
  function ExecuteScriptParams(
    scriptApiBase: string, call: ScriptCall, callback: Option<CallbackRef>, handler: Option<Handler>)
    : (r: RequestParams)
    ensures |r.url| == |scriptApiBase| + |ServicePath| + 1 + |call.scriptName|
    ensures r.url[..|ScriptPrefix(scriptApiBase)|] == ScriptPrefix(scriptApiBase)
    ensures r.url[|ScriptPrefix(scriptApiBase)|..] == call.scriptName
    ensures r.contentType == ContentTypeJson
    ensures r.httpMethod == call.httpMethod && r.scriptHeader == call.header
    ensures r.params == call.body && r.query == call.query
    ensures r.callback == callback && r.handler == handler
  {
    var url := scriptApiBase + ServicePath + "/" + call.scriptName;
    assert url == ScriptPrefix(scriptApiBase) + call.scriptName;
    RequestParams(url, call.httpMethod, call.header, call.body, ContentTypeJson, call.query, callback, handler)
  }

  /** Which script a URL under the given API base names, if any. */
  function ScriptNameOf(scriptApiBase: string, url: string): Option<string>
  {
    var prefix := ScriptPrefix(scriptApiBase);
    if |prefix| <= |url| && url[..|prefix|] == prefix then Some(url[|prefix|..]) else None
  }

  /** The `when` of `executeScript`: a success returns its bytes, a failure
      throws the exception it carries. */
  function UnwrapScriptResponse(resp: Response): (r: Outcome<seq<Byte>, NCMBException>)
    ensures r.Returned? <==> resp.Success?
    ensures r.Returned? ==> r.value == resp.data
    ensures r.Thrown? ==> r.exception == resp.resException
  {
    match resp
    case Success(data) => Returned(data)
    case Failure(e) => Thrown(e)
  }

  /** The response a given outcome of `executeScript` came from. */
  function ResponseOf(o: Outcome<seq<Byte>, NCMBException>): Response
  {
    match o
    case Returned(data) => Success(data)
    case Thrown(e) => Failure(e)
  }

  /** `executeScript`: the request is built with no callback and no handler,
      sent once, and its response unwrapped. */
  function ExecuteScript(send: RequestParams -> Response, scriptApiBase: string, call: ScriptCall)
    : (r: Outcome<seq<Byte>, NCMBException>)
    ensures
      var sent := ExecuteScriptParams(scriptApiBase, call, None, None);
      && (r.Returned? <==> send(sent).Success?)
      && (r.Returned? ==> r.value == send(sent).data)
      && (r.Thrown? ==> r.exception == send(sent).resException)
  {
    UnwrapScriptResponse(send(ExecuteScriptParams(scriptApiBase, call, None, None)))
  }

  /** The `executeHandler` lambda: whatever callback it is passed, it calls
      the callback it was built around exactly once, with `(null, data)` on
      success and with the carried exception and no data on failure. */
  function HandleScriptResponse(h: Handler, passed: Option<CallbackRef>, resp: Response)
    : (calls: seq<Invocation>)
    ensures |calls| == 1
    ensures calls[0].target == h.callback
    ensures resp.Success? ==> calls[0].error.None? && calls[0].data == Some(resp.data)
    ensures resp.Failure? ==> calls[0].error == Some(resp.resException) && calls[0].data.None?
  {
    match resp
    case Success(data) => [Done(h.callback, None, Some(data))]
    case Failure(e) => [Done(h.callback, Some(e), None)]
  }

  /** `executeScriptInBackground`: a handler is built around the supplied
      callback, and the request carries exactly that callback and handler;
      apart from them it is the request the blocking call sends. */
  function ExecuteScriptInBackground(scriptApiBase: string, call: ScriptCall, callback: CallbackRef)
    : (r: AsyncSend)
    ensures r.callback == callback
    ensures r.handler == ScriptResultHandler(callback)
    ensures r.request.callback == Some(callback) && r.request.handler == Some(r.handler)
    ensures r.request.(callback := None, handler := None) == ExecuteScriptParams(scriptApiBase, call, None, None)
  {
    var handler := ScriptResultHandler(callback);
    AsyncSend(ExecuteScriptParams(scriptApiBase, call, Some(callback), Some(handler)), callback, handler)
  }

  // ---------------------------------------------------------------------
  // Properties
  // ---------------------------------------------------------------------

  /** The script name can be read back from the request URL, so different
      scripts under one API base never share a URL. */
  lemma ScriptUrlRoundTrip(scriptApiBase: string, call: ScriptCall, call': ScriptCall,
                           callback: Option<CallbackRef>, handler: Option<Handler>)
    ensures ScriptNameOf(scriptApiBase, ExecuteScriptParams(scriptApiBase, call, callback, handler).url)
      == Some(call.scriptName)
    ensures call.scriptName != call'.scriptName ==>
      ExecuteScriptParams(scriptApiBase, call, callback, handler).url
      != ExecuteScriptParams(scriptApiBase, call', callback, handler).url
  {
    var r := ExecuteScriptParams(scriptApiBase, call, callback, handler);
    var r' := ExecuteScriptParams(scriptApiBase, call', callback, handler);
    if r.url == r'.url {
      assert call.scriptName == r.url[|ScriptPrefix(scriptApiBase)|..] == call'.scriptName;
    }
  }

  /** The request's content type does not depend on the method, headers,
      body, query, callback or handler. This restates the content-type
      clause of `ExecuteScriptParams` as a comparison of two calls. */
  lemma ContentTypeIsFixed(scriptApiBase: string, call: ScriptCall, call': ScriptCall,
                           callback: Option<CallbackRef>, handler: Option<Handler>)
    ensures ExecuteScriptParams(scriptApiBase, call, callback, handler).contentType
      == ExecuteScriptParams(scriptApiBase, call', None, None).contentType
  {
  }

  /** Unwrapping loses nothing: each response has exactly one outcome and
      each outcome comes from exactly one response. */
  lemma UnwrapIsBijective(resp: Response, o: Outcome<seq<Byte>, NCMBException>)
    ensures ResponseOf(UnwrapScriptResponse(resp)) == resp
    ensures UnwrapScriptResponse(ResponseOf(o)) == o
  {
  }

  /** The background handler reports the same result the blocking call
      gives: no error exactly when the blocking call returns, the returned
      bytes as data, and the thrown exception as the error. */
  lemma BackgroundAgreesWithBlocking(h: Handler, passed: Option<CallbackRef>, resp: Response)
    ensures
      var c := HandleScriptResponse(h, passed, resp)[0];
      var o := UnwrapScriptResponse(resp);
      && (c.error.None? <==> o.Returned?)
      && (c.data.Some? <==> o.Returned?)
      && (o.Returned? ==> c.data.value == o.value)
      && (o.Thrown? ==> c.error.value == o.exception)
  {
  }

  /** A blocking and a background call on the same arguments, answered with
      the same response, agree on the result. */
  lemma SameResponseSameResult(send: RequestParams -> Response, scriptApiBase: string,
                               call: ScriptCall, callback: CallbackRef)
    requires send(ExecuteScriptInBackground(scriptApiBase, call, callback).request)
          == send(ExecuteScriptParams(scriptApiBase, call, None, None))
    ensures
      var a := ExecuteScriptInBackground(scriptApiBase, call, callback);
      var c := HandleScriptResponse(a.handler, Some(a.callback), send(a.request))[0];
      && c.target == callback
      && (c.data.Some? <==> ExecuteScript(send, scriptApiBase, call).Returned?)
      && (c.data.Some? ==> c.data.value == ExecuteScript(send, scriptApiBase, call).value)
      && (c.error.Some? <==> ExecuteScript(send, scriptApiBase, call).Thrown?)
      && (ExecuteScript(send, scriptApiBase, call).Thrown? ==>
            c.error == Some(ExecuteScript(send, scriptApiBase, call).exception))
  {
  }
}
