# pdflayer client: a Dafny model

The `pdflayer` package is a small JavaScript client for the pdflayer HTML/URL-to-PDF
conversion service. This project models its three core files and proves properties
of the model:

- `lib/pdflayer.js` is the `Pdflayer` client. It holds the parameter whitelist
  (`DEFAULT_REQUEST_KEYS`), the built-in defaults (`DEFAULT_REQUEST_CONFIG`) and
  `getConfigKeys`, which keeps whitelisted, non-nil values and sends booleans as 1/0.
  The constructor builds the client configuration and the instance defaults.
  `generate` trims the document source, routes it to `document_url` or
  `document_html`, and merges it with the per-call options and the instance defaults.
- `lib/request_wrapper.js` is the `RequestWrapper` transport. Its constructor
  defaults the endpoint and verb and refuses a falsy API key. `request` completes the
  caller's options object in place and takes `apiUrl`/`method` out of it. It then
  classifies the response by `content-type`, and a settle-once guard (`_.once` on
  `resolve` and `reject`, plus the `alreadyReturned` flag) decides the outcome.
- `lib/pdf_response.js` is the `PdfResponse` handle. It has the `fileName`, `size`,
  `stream` and `headers` getters and `refresh`.

Files:

- `js_values.dfy` (module `JsValues`): JavaScript scalar values and the lodash
  primitives `_.defaults`, `_.pick`, `_.mapValues` and `_.omitBy(_.isNil)`, plus a
  mutable `JsObject` for the options dictionary that `request` changes in place.
- `strings.dfy` (module `Strings`): `_.trim`, `split(...).pop()`, a `lastIndexOf`
  reference and decimal digit strings.
- `responses.dfy` (module `Responses`): the `PdfResponse` value and its getters.
- `requests.dfy` (module `Requests`):
  - the client configuration and request preparation;
  - response classification;
  - the settle-once guard as a state machine (`Step`, `Run`), with `FirstSettled` as
    its reference;
  - the classes `RequestWrapper` and `PendingRequest`, whose methods are specified by
    that state machine;
  - `refresh`.
- `client.dfy` (module `Client`): the whitelist, the defaults, `getConfigKeys`, the
  merge done by `generate`, and the `Pdflayer` class.

## Model

| member | source | states |
|---|---|---|
| JsValues.Truthy | lib/request_wrapper.js:31 | JavaScript truthiness: a truthy value is neither null nor undefined, and a string is truthy exactly when it is not empty |
| JsValues.Pick | lib/pdflayer.js:87 | `_.pick`: the result has exactly the picked keys that the object has, each with the object's value |
| JsValues.MapValues | lib/pdflayer.js:88-89 | `_.mapValues`: the same keys, each value replaced by the function applied to it |
| JsValues.OmitNil | lib/pdflayer.js:88-90 | `_.omitBy(_.isNil)`: a key is kept exactly when its value is neither null nor undefined, and kept values are unchanged |
| JsValues.Defaults | lib/request_wrapper.js:49 | `_.defaults`: the keys are the union of both maps; a slot that is not undefined in the target is kept; an undefined or missing slot takes the source's value |
| Strings.Trim | lib/pdflayer.js:133 | the trimmed source is a contiguous part of the input that neither starts nor ends with a `\s` character, and everything removed on either side is whitespace |
| Strings.TrimEmptyIffBlank | lib/pdflayer.js:133-143 | trimming gives the empty string exactly when the input is all whitespace (the case `generate` rejects) |
| Strings.IndexOf | lib/pdf_response.js:57 | the search `split` performs finds the first occurrence at or after the start, and when it finds nothing there is no occurrence |
| Strings.Split | lib/pdf_response.js:57 | `split(sep)` always yields at least one piece, so `pop()` has something to take |
| Strings.SplitPiecesOmitSeparator | lib/pdf_response.js:57 | no piece of `split(sep)` contains the separator |
| Strings.LastPieceIsSuffix | lib/pdf_response.js:57 | the last piece of `split(sep)` is a suffix of the input |
| Strings.LastPiece | lib/pdf_response.js:57 | `split(sep).pop()` does not contain the separator |
| Strings.SplitJoin | lib/pdf_response.js:57 | joining the pieces of `split(sep)` with `sep` gives back the input |
| Strings.LastIndexOf | lib/pdf_response.js:57 | the last occurrence of the separator: it occurs there and nowhere after; when absent, the separator does not occur |
| Strings.LastPieceIsAfterLast | lib/pdf_response.js:57 | for a separator that cannot overlap itself, `split(sep).pop()` is the text after its last occurrence, or the whole input when it does not occur |
| Strings.ParseDecimal | lib/pdf_response.js:68 | the number a string of `k` decimal digits denotes is below `10^k` |
| Strings.FormatDecimal | lib/pdf_response.js:68 | the decimal notation of a number is a non-empty string of digits |
| Strings.ParseFormat | lib/pdf_response.js:68 | coercing the decimal notation of `n` to a number gives `n` |
| Responses.DefaultFilename | lib/pdf_response.js:34-35 | the default file name is the handle's uuid followed by `.pdf` |
| Responses.Disposition | lib/pdf_response.js:57 | the string `fileName` splits is never empty: it is the `content-disposition` header when that is present and non-empty, and the default file name otherwise |
| Responses.FileName | lib/pdf_response.js:56-58 | `fileName` is never empty, and it is either the default file name or a string without `filename=` in it; the four `FileName*` lemmas below pin down each case |
| Responses.FileNameWithoutHeader | lib/pdf_response.js:57 | with no (or an empty) `content-disposition` header, `fileName` is the uuid followed by `.pdf` |
| Responses.FileNameAfterLastMarker | lib/pdf_response.js:57 | with `filename=` in the header and text after its last occurrence, `fileName` is that text, quotes included |
| Responses.FileNameEmptyAfterMarker | lib/pdf_response.js:57 | when `filename=` ends the header, `fileName` falls back to the uuid followed by `.pdf` |
| Responses.FileNameWholeHeader | lib/pdf_response.js:57 | a non-empty header without `filename=` is the file name as a whole |
| Responses.Size | lib/pdf_response.js:67-69 | `size` is 0 without a `content-length` header (or with an empty one) and the exact number a digit-string header denotes otherwise; it is unknown (None) exactly for a header that is not digits. JavaScript rounds digit strings above 2^53 to the nearest double; the model keeps the exact value (see Left out) |
| Responses.SizeOfLength | lib/pdf_response.js:68 | a `content-length` written as the decimal notation of `n` gives size `n` |
| Requests.ClientConfig | lib/request_wrapper.js:26-29 | the configuration keeps only `apiUrl`, `method` and `apiKey`; the endpoint defaults to `http://api.pdflayer.com/api/convert` and the verb to `POST` when the options leave them undefined; the key is passed through as given |
| Requests.ClientConfigIsPickOfDefaults | lib/request_wrapper.js:26-29 | the explicit configuration equals the lodash chain `_.pick(_.defaults({}, options, {apiUrl, method}), 'apiUrl', 'method', 'apiKey')` |
| Requests.ClientConfigIdempotent | lib/pdflayer.js:115-120 | the wrapper, given the client's configuration, rebuilds the same configuration |
| Requests.CheckedConfig | lib/request_wrapper.js:31-33 | construction fails with "Api Key was not specified" exactly when the key is falsy (the empty string included), and otherwise yields the configuration with a truthy key |
| Requests.RequestWrapper.constructor | lib/request_wrapper.js:25-34 | a wrapper built from options with a truthy key holds their configuration |
| Requests.RequestWrapper.Create | lib/request_wrapper.js:25-34 | `new RequestWrapper(options)` throws `ApiKeyMissing` exactly when the key is falsy, and otherwise returns a fresh wrapper holding the configuration |
| Requests.Prepare | lib/request_wrapper.js:49-53 | uri and verb come from the options when defined, else from the configuration; the body has neither `apiUrl` nor `method`; entries defined in the options are unchanged; undefined ones (such as a missing `apiKey`) are filled from the configuration; every non-client key is left as the options had it |
| Requests.PrepareAgain | lib/pdf_response.js:89-91 | preparing the options object a request left behind sends the same body again, to the configured endpoint with the configured verb |
| Requests.RequestWrapper.Request | lib/request_wrapper.js:45-61 | the caller's options object becomes the prepared body in place; the request goes to the prepared uri and verb; the new pending request starts unsettled |
| Requests.IsPdf | lib/request_wrapper.js:71 | a `content-type` that is exactly `application/pdf` is never also taken as JSON |
| Requests.IsJson | lib/request_wrapper.js:79 | a `content-type` that starts with `application/json` is never exactly `application/pdf` |
| Requests.Classify | lib/request_wrapper.js:66-95 | a transport error rejects with it; the response resolves exactly when `content-type` is exactly `application/pdf`, and then carries the request's options object, the response headers, the body stream and the wrapper; a JSON content type rejects with the service's `info`/`type`/`code` when `success` is falsy and `error` is present, with "Response malformed. Not a PDF?" otherwise, and with the thrown error when the body is unparseable or null; exactly a missing response or any other content type settles nothing |
| Requests.OtherTypesSettleNothing | lib/request_wrapper.js:71-89 | `text/html` and `application/pdf; charset=binary` settle nothing |
| Requests.Settle | lib/request_wrapper.js:47-48 | the once-wrapped `resolve`/`reject`: the first call fixes the outcome and any later call leaves it; `alreadyReturned` is untouched; a fixed outcome always has a callback used |
| Requests.Step | lib/request_wrapper.js:62-99 | one event: a callback after `alreadyReturned` changes nothing; the emitter's `'error'` raises the flag; while no outcome is fixed, the event's action fixes it; a fixed outcome stays |
| Requests.Run | lib/request_wrapper.js:46-99 | a sequence of events keeps the guard consistent and never lowers `alreadyReturned` |
| Requests.SettledIsFinal | lib/request_wrapper.js:47-48 | once the outcome is fixed, no later event changes it |
| Requests.RunSettlesOnFirst | lib/request_wrapper.js:46-99 | the outcome of a request, over any sequence of events, is that of the first event that settles anything |
| Requests.CallbacksIgnoredAfterError | lib/request_wrapper.js:63-65 | after the emitter's `'error'` event, no response callback changes anything |
| Requests.PendingRequest.constructor | lib/request_wrapper.js:54 | a pending request starts with the flag down, neither callback used and no outcome |
| Requests.PendingRequest.Resolve | lib/request_wrapper.js:48 | the once-wrapped `resolve` updates the state as the guard's `Settle` says |
| Requests.PendingRequest.Reject | lib/request_wrapper.js:47 | the once-wrapped `reject` updates the state as the guard's `Settle` says |
| Requests.PendingRequest.OnCallback | lib/request_wrapper.js:62-95 | the response callback updates the state as one `Step` of the guard on that callback |
| Requests.PendingRequest.OnEmitterError | lib/request_wrapper.js:96-99 | the `'error'` handler raises `alreadyReturned` and rejects, as one `Step` of the guard |
| Requests.Refresh | lib/pdf_response.js:89-91 | `refresh` sends the stored options object again through the same wrapper, preparing it in place as `request` does |
| Client.RequestKey | lib/pdflayer.js:22-84 | entry `i` of `DEFAULT_REQUEST_KEYS`, in source order; no entry is empty |
| Client.IsRequestKey | lib/pdflayer.js:22-84 | membership in `DEFAULT_REQUEST_KEYS`; a whitelisted key is never empty (which keys are in and out: `SourceKeysWhitelisted`, `ClientKeysNotWhitelisted`) |
| Client.Normalize | lib/pdflayer.js:88-89 | the value `getConfigKeys` sends: booleans become 1/0, every other value is unchanged, the result is never a boolean, and it is nil exactly when the input is |
| Client.DefaultRequestConfig | lib/pdflayer.js:11-16 | the built-in defaults are `{accept_lang: 'en-US', text_encoding: 'utf-8', test: 0}`: the later `test: 0` wins over `test: false` |
| Client.DefaultRequestConfigSendable | lib/pdflayer.js:11-16 | the built-in defaults are whitelisted, non-nil and not booleans |
| Client.GetConfigKeys | lib/pdflayer.js:86-91 | a key is in the output exactly when it is whitelisted and its value is neither null nor undefined; booleans become 1/0 and every other value passes through |
| Client.GetConfigKeysIdempotent | lib/pdflayer.js:86-91 | applying `getConfigKeys` to its own output changes nothing |
| Client.SourceKeysWhitelisted | lib/pdflayer.js:22-24 | `document_url` and `document_html` are whitelisted |
| Client.ClientKeysNotWhitelisted | lib/pdflayer.js:22-84 | `apiUrl`, `method` and `apiKey` are not API parameters |
| Client.InstanceDefaults | lib/pdflayer.js:119 | the instance defaults are whitelisted, non-nil and not booleans; a whitelisted option given to the constructor replaces the built-in default, and a `null` removes it |
| Client.InstanceDefaultsFallBack | lib/pdflayer.js:119 | an option the constructor is not given takes the built-in default |
| Client.InstanceDefaultsOfNothing | lib/pdflayer.js:119 | with no options the instance defaults are the built-in ones |
| Client.MergedPrefers | lib/pdflayer.js:135-141 | in the merge, the source holds its key, and every other slot holds the per-call option unless it is undefined, else the instance default |
| Client.MergeWithSource | lib/pdflayer.js:135-141 | the source stays under its key; any other key takes the per-call option unless it is undefined, then the instance default, and is kept when that is whitelisted and not nil |
| Client.ResolveOptions | lib/pdflayer.js:133-144 | `generate` rejects with `InvalidInput` exactly when the source is all whitespace; otherwise the trimmed source goes under `document_url` when it passes the URL check and under `document_html` otherwise, with precedence source > per-call options > instance defaults |
| Client.PerCallNullIsOmitted | lib/pdflayer.js:135-141 | a per-call `null` is not replaced by the instance default: the key is not sent |
| Client.OtherSourceKeyKept | lib/pdflayer.js:135-137 | a URL source does not remove a `document_html` given in the per-call options |
| Client.ResolvedRequest | lib/pdflayer.js:145 | resolved options go to the configured endpoint with the configured verb, and the body is them plus the API key |
| Client.Pdflayer.constructor | lib/pdflayer.js:113-121 | the client holds the client configuration, the instance defaults and a fresh wrapper with the same configuration |
| Client.Pdflayer.Create | lib/pdflayer.js:113-121 | `new Pdflayer(options)` throws `ApiKeyMissing` exactly when the key is falsy, and otherwise holds the configuration and the instance defaults |
| Client.Pdflayer.Generate | lib/pdflayer.js:131-147 | `generate` rejects as `ResolveOptions` does; otherwise it sends the resolved options, prepared against the configuration, through the client's wrapper, and the new request starts unsettled |

## Left out

- The HTTP exchange (the `request` library, redirects, `resolveWithFullResponse`, the `url` passed to `PdfResponse`, which it never stores) is foreign I/O. A response is a record of headers and a parsed body, and the events it produces are inputs to the guard.
- `JSON.parse` is a foreign call. Its result is the `ParsedBody` datatype: unparseable (with the error's message), `null`, or an object of which only the truthiness of `success` and the `error` member matter.
- `validUrl.isUri` is an uninterpreted `string -> bool` parameter.
- `uuidv1()` depends on time and randomness. The uuid is an input of the handle. `fileName` is stable because the handle is a value.
- The body stream is an opaque `Stream` handle; its bytes are not modelled.
- The Promise machinery and real asynchronous ordering are not modelled. The guard is a sequential state machine over a sequence of events.
- The `Promise.reject(new Error('Response empty'))` for a missing response (lib/request_wrapper.js:94) goes to a promise nobody holds. The model records that it settles nothing.
- Three lines of the source name identifiers that are not in scope. The model follows the evident intent of each:
  - lib/pdflayer.js:120: `config` is taken as `this.config`;
  - lib/pdflayer.js:145: `.then(response)` is taken as `generate` settling as the wrapper's request does;
  - lib/request_wrapper.js:98: `reject(error)` is taken as rejecting with the event's `err`.
- Responses.Size: does not model the numeric coercion of a `content-length` that is not a digit string (NaN, signs, exponents, surrounding whitespace), because that is floating-point semantics. Such a header gives `None`. It also does not model the rounding of `* 1` above 2^53: JavaScript turns a digit string such as `9007199254740993` into the nearest double (9007199254740992), while the model gives the exact integer the digits denote.
- Numbers are integers, so floating-point option values are not modelled. Option values are scalars (undefined, null, booleans, numbers, strings); objects and arrays are not modelled.
- lodash's treatment of inherited and prototype properties is not modelled. An options object is a finite map.
- Default arguments (`options = {}`, `htmlOrUrl = ''`) are the empty map and the empty string. Non-string document sources are not modelled.
- A response with any other or missing content type settles nothing, because that is what the code does (lib/request_wrapper.js:70-89). A stricter design would report such a response as malformed.
- The code sends the whole merged options map as the request body. No parameters are split between query string and form body.
