/** The transport wrapper (lib/request_wrapper.js): the client configuration it
    keeps, the preparation of a request from the caller's options object, the
    classification of a response by its `content-type`, and the guard that lets
    only the first outcome of a request count. */
module Requests {

  import opened JsValues
  import opened Responses

  const DefaultApiUrl: string := "http://api.pdflayer.com/api/convert"
  const DefaultMethod: string := "POST"

  /** The only keys a client configuration keeps. */
  const ClientKeys: set<string> := {"apiUrl", "method", "apiKey"}

  const PdfType: string := "application/pdf"
  const JsonType: string := "application/json"

  /** The errors a request or a constructor can end with. */
  datatype Error =
    | ApiKeyMissing                                  // thrown by the constructors
    | InvalidInput                                   // rejected by `generate`
    | Transport(cause: string)                       // the HTTP client's own error
    | ApiError(info: string, kind: string, code: int) // the service's JSON error
    | Malformed                                      // JSON without a usable error
    | Thrown(message: string)                        // raised while reading the JSON body

  /** The message each error carries; an `ApiError` carries the service's `info`
      as its message, `type` as its name and `code` as its number. */
  function Message(e: Error): string
  {
    match e
    case ApiKeyMissing => "Api Key was not specified"
    case InvalidInput => "You should pass an URL to the document or valid HTML"
    case Transport(cause) => cause
    case ApiError(info, _, _) => info
    case Malformed => "Response malformed. Not a PDF?"
    case Thrown(message) => message
  }

  // ----------------------------------------------------------- configuration

  /** The client configuration: the endpoint and verb default to the public
      endpoint and POST when the options leave them undefined, the key is taken
      as given, and nothing else is kept. */
  function ClientConfig(options: Props): (c: Props)
    ensures c.Keys <= ClientKeys
    ensures "apiUrl" in c && "method" in c
    ensures Get(c, "apiUrl") ==
      if Get(options, "apiUrl") != Undefined then Get(options, "apiUrl") else Str(DefaultApiUrl)
    ensures Get(c, "method") ==
      if Get(options, "method") != Undefined then Get(options, "method") else Str(DefaultMethod)
    ensures ("apiKey" in c <==> "apiKey" in options) && Get(c, "apiKey") == Get(options, "apiKey")
  {
    var url := Get(options, "apiUrl");
    var verb := Get(options, "method");
    var base := map[
      "apiUrl" := if url != Undefined then url else Str(DefaultApiUrl),
      "method" := if verb != Undefined then verb else Str(DefaultMethod)];
    if "apiKey" in options then base["apiKey" := options["apiKey"]] else base
  }

  /** The configuration is what the source computes with lodash:
      `_.pick(_.defaults({}, options, {apiUrl, method}), 'apiUrl', 'method', 'apiKey')`. */
  lemma ClientConfigIsPickOfDefaults(options: Props)
    ensures ClientConfig(options) ==
      Pick(Defaults(Defaults(map[], options),
                    map["apiUrl" := Str(DefaultApiUrl), "method" := Str(DefaultMethod)]),
           ClientKeys)
  {
    DefaultsOfEmpty(options);
  }

  /** A configuration passed through `ClientConfig` again is unchanged (the
      client hands its own configuration to the wrapper). */
  lemma ClientConfigIdempotent(options: Props)
    ensures ClientConfig(ClientConfig(options)) == ClientConfig(options)
  {
  }

  /** The wrapper constructor's check: it throws "Api Key was not specified"
      whenever the configured key is falsy, the empty string included. */
  function CheckedConfig(options: Props): (r: Result<Props, Error>)
    ensures r.Failure? <==> !Truthy(Get(options, "apiKey"))
    ensures r.Failure? ==> r.error == ApiKeyMissing && Message(r.error) == "Api Key was not specified"
    ensures r.Success? ==> r.value == ClientConfig(options) && Truthy(Get(r.value, "apiKey"))
  {
    var config := ClientConfig(options);
    if !Truthy(Get(config, "apiKey")) then Failure(ApiKeyMissing) else Success(config)
  }

  // ----------------------------------------------------- request preparation

  /** What `request` sends: the endpoint, the verb and the body. */
  datatype Prepared = Prepared(uri: Value, httpMethod: Value, body: Props)

  /** `request`'s preparation of the options object: `_.defaults(options, config)`
      in place, then `apiUrl` and `method` read out of it and deleted. */
  function Prepare(options: Props, config: Props): (p: Prepared)
    ensures p.uri ==
      if Get(options, "apiUrl") != Undefined then Get(options, "apiUrl") else Get(config, "apiUrl")
    ensures p.httpMethod ==
      if Get(options, "method") != Undefined then Get(options, "method") else Get(config, "method")
    ensures p.body.Keys == options.Keys + config.Keys - {"apiUrl", "method"}
    ensures forall k :: k != "apiUrl" && k != "method" && Get(options, k) != Undefined ==>
      Get(p.body, k) == Get(options, k)
    ensures forall k :: k != "apiUrl" && k != "method" && Get(options, k) == Undefined ==>
      Get(p.body, k) == Get(config, k)
    ensures config.Keys <= ClientKeys ==> forall k :: k !in ClientKeys ==> Get(p.body, k) == Get(options, k)
  {
    var merged := Defaults(options, config);
    Prepared(Get(merged, "apiUrl"), Get(merged, "method"), merged - {"apiUrl", "method"})
  }

  /** Preparing an already prepared options object again sends the same body to
      the configured endpoint with the configured verb: this is what `refresh`
      does with the options object the first request left behind. */
  lemma PrepareAgain(options: Props, config: Props)
    ensures var first := Prepare(options, config);
      var again := Prepare(first.body, config);
      && again.body == first.body
      && again.uri == Get(config, "apiUrl")
      && again.httpMethod == Get(config, "method")
  {
  }

  // -------------------------------------------------- response classification

  /** What `JSON.parse(body)` gives: a parse failure, `null` (reading `.success`
      of which throws), or an object of which only the truthiness of `success`
      and the `error` member matter. */
  datatype ParsedBody =
    | Unparseable(reason: string)
    | NullBody
    | Parsed(success: bool, error: Option<ApiErrorInfo>)

  /** The service's error object: `info`, `type` and `code`. */
  datatype ApiErrorInfo = ApiErrorInfo(info: string, kind: string, code: int)

  /** A response as the HTTP client hands it over: its headers and what its body
      parses to. */
  datatype Response = Response(headers: Headers, body: ParsedBody)

  const NullReadMessage: string := "Cannot read properties of null (reading 'success')"

  function ContentType(headers: Headers): Option<string>
  {
    if "content-type" in headers then Some(headers["content-type"]) else None
  }

  /** `content-type === 'application/pdf'`: the exact string, parameters excluded. */
  predicate IsPdf(ct: Option<string>)
    ensures IsPdf(ct) ==> !IsJson(ct)
  {
    ct == Some(PdfType)
  }

  /** `_.startsWith(content-type, 'application/json')`; a missing header reads as ''. */
  predicate IsJson(ct: Option<string>)
    ensures IsJson(ct) ==> ct != Some(PdfType)
  {
    ct.Some? && JsonType <= ct.value
  }

  /** The request a response belongs to: the wrapper that issued it, the options
      object it sent and the body stream it opened. */
  datatype Exchange = Exchange(wrapper: RequestWrapper, options: JsObject, content: Stream)

  /** What the response callback asks for: nothing, a resolve or a reject. */
  datatype Action = NoAction | ResolveWith(response: PdfResponse<RequestWrapper>) | RejectWith(error: Error)

  /** The response callback's decision for `(error, response)`; `uuid` is the
      value the new `PdfResponse` draws. */
  function Classify(x: Exchange, error: Option<string>, response: Option<Response>, uuid: string): (a: Action)
    ensures error.Some? ==> a == RejectWith(Transport(error.value))
    ensures a.ResolveWith? <==>
      error.None? && response.Some? && IsPdf(ContentType(response.value.headers))
    ensures a.ResolveWith? ==>
      a.response == PdfResponse(x.options, response.value.headers, x.content, x.wrapper, uuid)
    ensures a.NoAction? <==>
      && error.None?
      && (response.None? || (!IsPdf(ContentType(response.value.headers)) && !IsJson(ContentType(response.value.headers))))
    ensures error.None? && response.Some? && IsJson(ContentType(response.value.headers)) ==>
      match response.value.body
      case Unparseable(reason) => a == RejectWith(Thrown(reason))
      case NullBody => a == RejectWith(Thrown(NullReadMessage))
      case Parsed(success, e) =>
        if !success && e.Some? then
          a == RejectWith(ApiError(e.value.info, e.value.kind, e.value.code)) && Message(a.error) == e.value.info
        else
          a == RejectWith(Malformed) && Message(a.error) == "Response malformed. Not a PDF?"
  {
    if error.Some? then RejectWith(Transport(error.value))
    else if response.None? then NoAction
    else
      var headers := response.value.headers;
      if IsPdf(ContentType(headers)) then
        ResolveWith(PdfResponse(x.options, headers, x.content, x.wrapper, uuid))
      else if IsJson(ContentType(headers)) then
        match response.value.body
        case Unparseable(reason) => RejectWith(Thrown(reason))
        case NullBody => RejectWith(Thrown(NullReadMessage))
        case Parsed(success, e) =>
          if !success && e.Some? then RejectWith(ApiError(e.value.info, e.value.kind, e.value.code))
          else RejectWith(Malformed)
      else NoAction
  }

  /** An unexpected content type such as `text/html`, or `application/pdf` with
      parameters, settles nothing. */
  lemma OtherTypesSettleNothing(x: Exchange, headers: Headers, body: ParsedBody, uuid: string)
    requires "content-type" in headers
    requires headers["content-type"] == "text/html" || headers["content-type"] == "application/pdf; charset=binary"
    ensures Classify(x, None, Some(Response(headers, body)), uuid) == NoAction
  {
    var ct := headers["content-type"];
    if ct == "text/html" {
      assert ct[0] != JsonType[0];
    } else {
      assert ct[12] != JsonType[12];
    }
  }

  // ------------------------------------------------------ the settle-once guard

  /** The promise and its callbacks: `resolve` and `reject` each wrapped in
      `_.once`, the promise itself settling once, and the `alreadyReturned` flag
      the emitter's `'error'` handler raises. */
  datatype Outcome = Pending | Resolved(response: PdfResponse<RequestWrapper>) | Rejected(error: Error)

  datatype Guard = Guard(alreadyReturned: bool, resolveCalled: bool, rejectCalled: bool, outcome: Outcome)

  const Initial: Guard := Guard(false, false, false, Pending)

  /** The guard's invariant: a once-wrapper is used only together with the
      promise settling, so while the outcome is pending neither has been used. */
  predicate Consistent(g: Guard)
  {
    g.outcome.Pending? ==> !g.resolveCalled && !g.rejectCalled
  }

  /** The outcome an action settles a pending promise on. */
  function OutcomeOf(a: Action): Outcome
  {
    match a
    case NoAction => Pending
    case ResolveWith(v) => Resolved(v)
    case RejectWith(e) => Rejected(e)
  }

  /** Calling the once-wrapped `resolve` or `reject`: the first call of each
      reaches the promise, which takes the first value it is given. */
  function Settle(g: Guard, a: Action): (h: Guard)
    ensures h.alreadyReturned == g.alreadyReturned
    ensures !g.outcome.Pending? ==> h.outcome == g.outcome
    ensures Consistent(g) && g.outcome.Pending? ==> h.outcome == OutcomeOf(a)
    ensures Consistent(g) ==> Consistent(h)
  {
    match a
    case NoAction => g
    case ResolveWith(v) =>
      if g.resolveCalled then g
      else g.(resolveCalled := true, outcome := if g.outcome.Pending? then Resolved(v) else g.outcome)
    case RejectWith(e) =>
      if g.rejectCalled then g
      else g.(rejectCalled := true, outcome := if g.outcome.Pending? then Rejected(e) else g.outcome)
  }

  /** What the HTTP client can deliver: the response callback's arguments
      (with the uuid a new `PdfResponse` would draw), or the emitter's `'error'`
      event. */
  datatype Event =
    | Callback(error: Option<string>, response: Option<Response>, uuid: string)
    | EmitterError(err: string)

  /** One event delivered to the guard: a callback after the flag is raised
      changes nothing, the `'error'` handler raises the flag, and otherwise a
      pending, consistent guard settles on what the event asks for. */
  function Step(x: Exchange, g: Guard, e: Event): (h: Guard)
    ensures Consistent(g) ==> Consistent(h)
    ensures !g.outcome.Pending? ==> h.outcome == g.outcome
    ensures e.Callback? && g.alreadyReturned ==> h == g
    ensures e.EmitterError? ==> h.alreadyReturned
    ensures Consistent(g) && g.outcome.Pending? && (e.EmitterError? || !g.alreadyReturned) ==>
      h.outcome == OutcomeOf(ActionOf(x, e))
  {
    match e
    case Callback(error, response, uuid) =>
      if g.alreadyReturned then g else Settle(g, Classify(x, error, response, uuid))
    case EmitterError(err) =>
      Settle(g.(alreadyReturned := true), RejectWith(Transport(err)))
  }

  /** The guard after a sequence of events. */
  function Run(x: Exchange, g: Guard, events: seq<Event>): (h: Guard)
    ensures Consistent(g) ==> Consistent(h)
    ensures g.alreadyReturned ==> h.alreadyReturned
    decreases |events|
  {
    if events == [] then g else Run(x, Step(x, g, events[0]), events[1..])
  }

  /** What an event would settle on a fresh request. */
  function ActionOf(x: Exchange, e: Event): Action
  {
    match e
    case Callback(error, response, uuid) => Classify(x, error, response, uuid)
    case EmitterError(err) => RejectWith(Transport(err))
  }

  /** Reference outcome: the first event that settles anything decides. */
  function FirstSettled(x: Exchange, events: seq<Event>): Outcome
    decreases |events|
  {
    if events == [] then Pending
    else match ActionOf(x, events[0])
      case NoAction => FirstSettled(x, events[1..])
      case ResolveWith(v) => Resolved(v)
      case RejectWith(e) => Rejected(e)
  }

  /** Once settled, no later event changes the outcome. */
  lemma {:induction false} SettledIsFinal(x: Exchange, g: Guard, events: seq<Event>)
    requires !g.outcome.Pending?
    ensures Run(x, g, events).outcome == g.outcome
    decreases |events|
  {
    if events != [] {
      SettledIsFinal(x, Step(x, g, events[0]), events[1..]);
    }
  }

  /** A request's outcome is decided by the first event that settles anything. */
  lemma {:induction false} RunSettlesOnFirst(x: Exchange, events: seq<Event>)
    ensures Run(x, Initial, events).outcome == FirstSettled(x, events)
    decreases |events|
  {
    if events != [] {
      var g := Step(x, Initial, events[0]);
      if ActionOf(x, events[0]).NoAction? {
        assert g == Initial;
        RunSettlesOnFirst(x, events[1..]);
      } else {
        SettledIsFinal(x, g, events[1..]);
      }
    }
  }

  /** After the emitter's `'error'` event, the response callback returns at once
      and changes nothing, whatever it is given. */
  lemma {:induction false} CallbacksIgnoredAfterError(x: Exchange, g: Guard, err: string, later: seq<Event>)
    requires forall i :: 0 <= i < |later| ==> later[i].Callback?
    ensures var h := Step(x, g, EmitterError(err));
      h.alreadyReturned && Run(x, h, later) == h
    decreases |later|
  {
    var h := Step(x, g, EmitterError(err));
    if later != [] {
      assert Step(x, h, later[0]) == h;
      CallbacksIgnoredAfterError(x, g, err, later[1..]);
    }
  }

  // ---------------------------------------------------------------- the objects

  /** A `RequestWrapper`: the configuration is fixed at construction. */
  class RequestWrapper {
    const config: Props

    predicate Valid()
    {
      config.Keys <= ClientKeys && Truthy(Get(config, "apiKey"))
    }

    /** The constructor, for options whose key passes the check; `Create` is the
        constructor as callers see it, throwing on a falsy key. */
    constructor (options: Props)
      requires Truthy(Get(options, "apiKey"))
      ensures config == ClientConfig(options) && Valid()
    {
      config := ClientConfig(options);
    }

    static method Create(options: Props) returns (r: Result<RequestWrapper, Error>)
      ensures r.Failure? <==> !Truthy(Get(options, "apiKey"))
      ensures r.Failure? ==> r.error == ApiKeyMissing && Message(r.error) == "Api Key was not specified"
      ensures r.Success? ==> fresh(r.value) && r.value.config == ClientConfig(options) && r.value.Valid()
    {
      var checked := CheckedConfig(options);
      if checked.Failure? {
        return Failure(checked.error);
      }
      var w := new RequestWrapper(options);
      return Success(w);
    }

    /** `request(options)`: completes the caller's options object from the
        configuration, takes `apiUrl` and `method` out of it, and issues the
        request with what is left as the body. `content` is the body stream the
        HTTP client opens; the returned pending request receives its events. */
    method Request(options: JsObject, content: Stream) returns (p: PendingRequest)
      modifies options
      ensures var prepared := Prepare(old(options.props), config);
        && options.props == prepared.body
        && p.uri == prepared.uri && p.httpMethod == prepared.httpMethod
      ensures fresh(p) && p.wrapper == this && p.options == options && p.content == content
      ensures p.State() == Initial
    {
      options.props := Defaults(options.props, config);
      var uri := Get(options.props, "apiUrl");
      var httpMethod := Get(options.props, "method");
      options.props := options.props - {"apiUrl"};
      options.props := options.props - {"method"};
      p := new PendingRequest(this, options, uri, httpMethod, content);
    }
  }

  /** One request in flight: what was sent, and the settle-once state its
      callbacks update. */
  class PendingRequest {
    const wrapper: RequestWrapper
    const options: JsObject
    const uri: Value
    const httpMethod: Value
    const content: Stream
    var alreadyReturned: bool
    var resolveCalled: bool
    var rejectCalled: bool
    var outcome: Outcome

    function Context(): Exchange
    {
      Exchange(wrapper, options, content)
    }

    function State(): Guard
      reads this
    {
      Guard(alreadyReturned, resolveCalled, rejectCalled, outcome)
    }

    constructor (wrapper: RequestWrapper, options: JsObject, uri: Value, httpMethod: Value, content: Stream)
      ensures this.wrapper == wrapper && this.options == options && this.content == content
      ensures this.uri == uri && this.httpMethod == httpMethod
      ensures State() == Initial
    {
      this.wrapper := wrapper;
      this.options := options;
      this.uri := uri;
      this.httpMethod := httpMethod;
      this.content := content;
      alreadyReturned, resolveCalled, rejectCalled := false, false, false;
      outcome := Pending;
    }

    /** The once-wrapped `resolve`. */
    method Resolve(v: PdfResponse<RequestWrapper>)
      modifies this
      ensures State() == Settle(old(State()), ResolveWith(v))
    {
      if !resolveCalled {
        resolveCalled := true;
        if outcome.Pending? {
          outcome := Resolved(v);
        }
      }
    }

    /** The once-wrapped `reject`. */
    method Reject(e: Error)
      modifies this
      ensures State() == Settle(old(State()), RejectWith(e))
    {
      if !rejectCalled {
        rejectCalled := true;
        if outcome.Pending? {
          outcome := Rejected(e);
        }
      }
    }

    /** The response callback `(error, response, body)`. */
    method OnCallback(error: Option<string>, response: Option<Response>, uuid: string)
      modifies this
      ensures State() == Step(Context(), old(State()), Callback(error, response, uuid))
    {
      if alreadyReturned {
        return;
      }
      if error.Some? {
        Reject(Transport(error.value));
        return;
      }
      if response.Some? {
        var headers := response.value.headers;
        if ContentType(headers) == Some(PdfType) {
          Resolve(PdfResponse(options, headers, content, wrapper, uuid));
        } else if IsJson(ContentType(headers)) {
          match response.value.body
          case Unparseable(reason) =>
            Reject(Thrown(reason));
          case NullBody =>
            Reject(Thrown(NullReadMessage));
          case Parsed(success, e) =>
            if !success && e.Some? {
              Reject(ApiError(e.value.info, e.value.kind, e.value.code));
            } else {
              Reject(Malformed);
            }
        }
      }
      // A missing response returns a separate rejected promise and settles nothing.
    }

    /** The emitter's `'error'` handler. */
    method OnEmitterError(err: string)
      modifies this
      ensures State() == Step(Context(), old(State()), EmitterError(err))
    {
      alreadyReturned := true;
      Reject(Transport(err));
    }
  }

  /** `PdfResponse.refresh()` (in lib/pdf_response.js): the same wrapper's
      `request` with the same stored options object; the handle itself is a
      value and does not change. */
  method Refresh(r: PdfResponse<RequestWrapper>, content: Stream) returns (p: PendingRequest)
    modifies r.options
    ensures var prepared := Prepare(old(r.options.props), r.wrapper.config);
      && r.options.props == prepared.body
      && p.uri == prepared.uri && p.httpMethod == prepared.httpMethod
    ensures fresh(p) && p.wrapper == r.wrapper && p.options == r.options && p.content == content
    ensures p.State() == Initial
  {
    p := r.wrapper.Request(r.options, content);
  }
}
