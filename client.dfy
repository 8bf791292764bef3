/** The library's entry point (lib/pdflayer.js): the whitelist of API
    parameters, the built-in request defaults, the client object and how
    `generate` turns a document source and per-call options into the options
    object it hands to the wrapper. */
module Client {

  import opened JsValues
  import opened Strings
  import opened Responses
  import opened Requests

  /** The number of entries of `DEFAULT_REQUEST_KEYS`. */
  const RequestKeyCount: nat := 61

  /** Entry `i` of `DEFAULT_REQUEST_KEYS`: the parameters the conversion API
      accepts, in the order the source lists them. */
  function RequestKey(i: nat): (key: string)
    requires i < RequestKeyCount
    ensures key != ""
  {
    if i == 0 then "document_url"
    else if i == 1 then "document_html"
    else if i == 2 then "document_name"
    else if i == 3 then "custom_unit"
    else if i == 4 then "user_agent"
    else if i == 5 then "accept_lang"
    else if i == 6 then "text_encoding"
    else if i == 7 then "ttl"
    else if i == 8 then "force"
    else if i == 9 then "inline"
    else if i == 10 then "auth_user"
    else if i == 11 then "auth_pass"
    else if i == 12 then "encryption"
    else if i == 13 then "owner_password"
    else if i == 14 then "user_password"
    else if i == 15 then "no_images"
    else if i == 16 then "no_hyperlinks"
    else if i == 17 then "no_backgrounds"
    else if i == 18 then "no_javascript"
    else if i == 19 then "use_print_media"
    else if i == 20 then "grayscale"
    else if i == 21 then "low_quality"
    else if i == 22 then "forms"
    else if i == 23 then "page_width"
    else if i == 24 then "page_height"
    else if i == 25 then "page_size"
    else if i == 26 then "no_print"
    else if i == 27 then "no_modify"
    else if i == 28 then "no_copy"
    else if i == 29 then "orientation"
    else if i == 30 then "margin_top"
    else if i == 31 then "margin_bottom"
    else if i == 32 then "margin_left"
    else if i == 33 then "margin_right"
    else if i == 34 then "header_text"
    else if i == 35 then "header_align"
    else if i == 36 then "header_url"
    else if i == 37 then "header_html"
    else if i == 38 then "header_spacing"
    else if i == 39 then "footer_text"
    else if i == 40 then "footer_align"
    else if i == 41 then "footer_url"
    else if i == 42 then "footer_html"
    else if i == 43 then "footer_spacing"
    else if i == 44 then "viewport"
    else if i == 45 then "css_url"
    else if i == 46 then "delay"
    else if i == 47 then "dpi"
    else if i == 48 then "zoom"
    else if i == 49 then "page_numbering_offset"
    else if i == 50 then "watermark_url"
    else if i == 51 then "watermark_opacity"
    else if i == 52 then "watermark_offset_x"
    else if i == 53 then "watermark_offset_y"
    else if i == 54 then "watermark_in_background"
    else if i == 55 then "title"
    else if i == 56 then "subject"
    else if i == 57 then "creator"
    else if i == 58 then "author"
    else if i == 59 then "test"
    else "secret_key"
  }

  /** A key is whitelisted when `DEFAULT_REQUEST_KEYS` lists it. */
  predicate IsRequestKey(k: string)
    ensures IsRequestKey(k) ==> k != ""
  {
    exists i: nat :: i < RequestKeyCount && RequestKey(i) == k
  }

  /** The value of an object literal: a key given twice keeps its last value. */
  function ObjectLiteral(entries: seq<(string, Value)>): Props
    decreases |entries|
  {
    if entries == [] then map[]
    else
      var last := entries[|entries| - 1];
      ObjectLiteral(entries[..|entries| - 1])[last.0 := last.1]
  }

  /** `DEFAULT_REQUEST_CONFIG` as written, with `test` given twice. */
  const DefaultRequestConfigEntries: seq<(string, Value)> := [
    ("accept_lang", Str("en-US")),
    ("test", Bool(false)),
    ("text_encoding", Str("utf-8")),
    ("test", Num(0))
  ]

  /** The built-in defaults: the second `test` wins, so `test` is 0. */
  function DefaultRequestConfig(): (m: Props)
    ensures m == map["accept_lang" := Str("en-US"), "text_encoding" := Str("utf-8"), "test" := Num(0)]
  {
    var e := DefaultRequestConfigEntries;
    assert e[..1][..0] == [] && e[..2][..1] == e[..1] && e[..3][..2] == e[..2] && e[..3] == e[..|e| - 1];
    assert ObjectLiteral(e[..1]) == map["accept_lang" := Str("en-US")];
    assert ObjectLiteral(e[..2]) == map["accept_lang" := Str("en-US"), "test" := Bool(false)];
    assert ObjectLiteral(e[..3]) == map["accept_lang" := Str("en-US"), "test" := Bool(false), "text_encoding" := Str("utf-8")];
    ObjectLiteral(e)
  }

  /** The value sent for an option: booleans become 1 or 0, the rest is kept. */
  function Normalize(v: Value): (r: Value)
    ensures !r.Bool?
    ensures v.Bool? ==> r == Num(if v.b then 1 else 0)
    ensures !v.Bool? ==> r == v
    ensures IsNil(r) <==> IsNil(v)
  {
    match v
    case Bool(b) => Num(if b then 1 else 0)
    case _ => v
  }

  /** `getConfigKeys(options)`: the whitelisted options that are neither null nor
      undefined, booleans sent as 1 or 0. */
  function GetConfigKeys(options: Props): (r: Props)
    ensures forall k :: k in r ==> IsRequestKey(k)
    ensures forall k :: k in r <==> IsRequestKey(k) && k in options && !IsNil(options[k])
    ensures forall k :: k in r ==> r[k] == Normalize(options[k])
    ensures forall k :: k in r ==> !IsNil(r[k]) && !r[k].Bool?
  {
    OmitNil(MapValues(Pick(options, set k | k in options && IsRequestKey(k)), Normalize))
  }

  /** Applying `getConfigKeys` to its own output changes nothing. */
  lemma GetConfigKeysIdempotent(options: Props)
    ensures GetConfigKeys(GetConfigKeys(options)) == GetConfigKeys(options)
  {
  }

  /** The client's own settings are never sent as API parameters. */
  lemma ClientKeysNotWhitelisted()
    ensures forall k :: k in ClientKeys ==> !IsRequestKey(k)
  {
  }

  /** The two keys a document source goes under are whitelisted. */
  lemma SourceKeysWhitelisted()
    ensures IsRequestKey("document_url") && IsRequestKey("document_html")
  {
    assert RequestKey(0) == "document_url" && RequestKey(1) == "document_html";
  }

  /** The instance defaults: `getConfigKeys(_.defaults({}, options,
      DEFAULT_REQUEST_CONFIG))`. A whitelisted option the constructor is given
      replaces the built-in default (and `null` removes it), the built-in
      defaults fill the rest, and nothing outside the whitelist is kept. */
  function InstanceDefaults(options: Props): (d: Props)
    ensures forall k :: k in d ==> IsRequestKey(k)
    ensures forall k :: k in d ==> !IsNil(d[k]) && !d[k].Bool?
    ensures forall k :: IsRequestKey(k) && Get(options, k) != Undefined ==>
      (k in d <==> options[k] != Null) && (k in d ==> d[k] == Normalize(options[k]))
  {
    DefaultsOfEmpty(options);
    GetConfigKeys(Defaults(Defaults(map[], options), DefaultRequestConfig()))
  }

  /** The built-in defaults are whitelisted, non-nil and not booleans, so they
      pass through `getConfigKeys` unchanged. */
  lemma DefaultRequestConfigSendable()
    ensures forall k :: k in DefaultRequestConfig() ==> IsRequestKey(k)
    ensures forall k :: k in DefaultRequestConfig() ==>
      !IsNil(DefaultRequestConfig()[k]) && !DefaultRequestConfig()[k].Bool?
  {
    assert RequestKey(5) == "accept_lang" && RequestKey(6) == "text_encoding" && RequestKey(59) == "test";
  }

  /** An option the constructor is not given (or is given as undefined) takes the
      built-in default, or stays unset when there is none. */
  lemma InstanceDefaultsFallBack(options: Props, k: string)
    requires Get(options, k) == Undefined
    ensures Get(InstanceDefaults(options), k) == Get(DefaultRequestConfig(), k)
  {
    var drc := DefaultRequestConfig();
    DefaultRequestConfigSendable();
    DefaultsOfEmpty(options);
    var merged := Defaults(options, drc);
    assert Get(merged, k) == Get(drc, k);
  }

  /** With no options the instance defaults are the built-in ones:
      `{accept_lang: 'en-US', text_encoding: 'utf-8', test: 0}`. */
  lemma InstanceDefaultsOfNothing()
    ensures InstanceDefaults(map[]) == DefaultRequestConfig()
  {
    var d := InstanceDefaults(map[]);
    var c := DefaultRequestConfig();
    forall k | k in d
      ensures k in c && d[k] == c[k]
    {
      InstanceDefaultsFallBack(map[], k);
    }
    forall k | k in c
      ensures k in d
    {
      InstanceDefaultsFallBack(map[], k);
    }
  }

  /** The value the merge of `generate` settles on for a key: the per-call option
      unless it is undefined, else the instance default. */
  function Prefer(option: Value, default: Value): Value
  {
    if option != Undefined then option else default
  }

  /** The key `generate` puts the trimmed document source under. */
  function SourceKey(source: string, isUri: string -> bool): string
  {
    if isUri(source) then "document_url" else "document_html"
  }

  /** `getConfigKeys(_.defaults({[key]: source}, options, defaults))`: the source
      under `key` first, then each per-call option that is not undefined, then the
      instance defaults for the slots still undefined. */
  function MergeWithSource(key: string, source: string, options: Props, defaults: Props): (r: Props)
    requires IsRequestKey(key)
    ensures forall k :: k in r ==> IsRequestKey(k)
    ensures key in r && r[key] == Str(source)
    ensures forall k :: k != key ==>
      && (k in r <==> IsRequestKey(k) && !IsNil(Prefer(Get(options, k), Get(defaults, k))))
      && (k in r ==> r[k] == Normalize(Prefer(Get(options, k), Get(defaults, k))))
  {
    var merged := Defaults(Defaults(map[key := Str(source)], options), defaults);
    MergedPrefers(key, source, options, defaults);
    GetConfigKeys(merged)
  }

  /** In the merge, the source wins at its key and every other slot holds the
      per-call option unless it is undefined, else the instance default. */
  lemma MergedPrefers(key: string, source: string, options: Props, defaults: Props)
    ensures var merged := Defaults(Defaults(map[key := Str(source)], options), defaults);
      && key in merged && merged[key] == Str(source)
      && forall k :: k != key ==> Get(merged, k) == Prefer(Get(options, k), Get(defaults, k))
  {
  }

  /** The pure part of `generate(htmlOrUrl, options)`: trim the source, reject it
      when nothing is left, otherwise merge `{<source key>: source}`, the per-call
      options and the instance defaults, in that order of precedence, and pass the
      result through `getConfigKeys`. `isUri` is the URL validator. */
  function ResolveOptions(htmlOrUrl: string, options: Props, defaults: Props, isUri: string -> bool)
    : (r: Result<Props, Error>)
    ensures r.Failure? <==> AllWhitespace(htmlOrUrl)
    ensures r.Failure? ==>
      r.error == InvalidInput && Message(r.error) == "You should pass an URL to the document or valid HTML"
    ensures r.Success? ==>
      var source := Trim(htmlOrUrl);
      var key := SourceKey(source, isUri);
      && source != ""
      && (forall k :: k in r.value ==> IsRequestKey(k))
      && key in r.value && r.value[key] == Str(source)
      && forall k :: k != key ==>
        && (k in r.value <==> IsRequestKey(k) && !IsNil(Prefer(Get(options, k), Get(defaults, k))))
        && (k in r.value ==> r.value[k] == Normalize(Prefer(Get(options, k), Get(defaults, k))))
  {
    TrimEmptyIffBlank(htmlOrUrl);
    SourceKeysWhitelisted();
    var source := Trim(htmlOrUrl);
    if source != "" && isUri(source) then
      Success(MergeWithSource("document_url", source, options, defaults))
    else if source != "" then
      Success(MergeWithSource("document_html", source, options, defaults))
    else
      Failure(InvalidInput)
  }

  /** A per-call `null` is not replaced by the instance default: the key is left
      out of the request. */
  lemma PerCallNullIsOmitted(htmlOrUrl: string, options: Props, defaults: Props, isUri: string -> bool, k: string)
    requires !AllWhitespace(htmlOrUrl)
    requires k != SourceKey(Trim(htmlOrUrl), isUri) && Get(options, k) == Null
    ensures k !in ResolveOptions(htmlOrUrl, options, defaults, isUri).value
  {
  }

  /** A URL source does not remove a `document_html` given in the per-call
      options: both are sent. */
  lemma OtherSourceKeyKept(htmlOrUrl: string, options: Props, defaults: Props, isUri: string -> bool, html: string)
    requires !AllWhitespace(htmlOrUrl) && isUri(Trim(htmlOrUrl))
    requires Get(options, "document_html") == Str(html)
    ensures var r := ResolveOptions(htmlOrUrl, options, defaults, isUri).value;
      && r["document_url"] == Str(Trim(htmlOrUrl))
      && "document_html" in r && r["document_html"] == Str(html)
  {
    SourceKeysWhitelisted();
    assert SourceKey(Trim(htmlOrUrl), isUri) == "document_url";
    assert Prefer(Get(options, "document_html"), Get(defaults, "document_html")) == Str(html);
  }

  /** The request built from resolved options goes to the configured endpoint
      with the configured verb, and its body is the resolved options plus the
      client's API key. */
  lemma ResolvedRequest(resolved: Props, config: Props)
    requires (forall k :: k in resolved ==> IsRequestKey(k)) && config.Keys <= ClientKeys
    ensures var p := Prepare(resolved, config);
      && p.uri == Get(config, "apiUrl") && p.httpMethod == Get(config, "method")
      && p.body == (if "apiKey" in config then resolved["apiKey" := config["apiKey"]] else resolved)
  {
    ClientKeysNotWhitelisted();
    var p := Prepare(resolved, config);
    var expected := if "apiKey" in config then resolved["apiKey" := config["apiKey"]] else resolved;
    assert "apiUrl" !in resolved && "method" !in resolved && "apiKey" !in resolved;
    forall k | k in p.body
      ensures k in expected && p.body[k] == expected[k]
    {
      assert Get(p.body, k) == Get(expected, k);
    }
    assert p.body.Keys == expected.Keys;
  }

  /** The client object: its configuration, its instance defaults and the wrapper
      it sends requests through are fixed at construction. */
  class Pdflayer {
    const config: Props
    const defaultRequestConfig: Props
    const wrapper: RequestWrapper

    predicate Valid()
    {
      wrapper.config == config && wrapper.Valid()
    }

    /** The constructor, for options whose key passes the wrapper's check;
        `Create` is the constructor as callers see it. The wrapper is built from
        the client configuration. */
    constructor (options: Props)
      requires Truthy(Get(options, "apiKey"))
      ensures config == ClientConfig(options) && defaultRequestConfig == InstanceDefaults(options)
      ensures fresh(wrapper) && Valid()
    {
      var c := ClientConfig(options);
      ClientConfigIdempotent(options);
      config := c;
      defaultRequestConfig := InstanceDefaults(options);
      wrapper := new RequestWrapper(c);
    }

    /** `new Pdflayer(options)`: throws "Api Key was not specified" (from the
        wrapper's constructor) when the key is falsy. */
    static method Create(options: Props) returns (r: Result<Pdflayer, Error>)
      ensures r.Failure? <==> !Truthy(Get(options, "apiKey"))
      ensures r.Failure? ==> r.error == ApiKeyMissing && Message(r.error) == "Api Key was not specified"
      ensures r.Success? ==> fresh(r.value) && r.value.Valid()
      ensures r.Success? ==> r.value.config == ClientConfig(options)
      ensures r.Success? ==> r.value.defaultRequestConfig == InstanceDefaults(options)
    {
      if !Truthy(Get(options, "apiKey")) {
        return Failure(ApiKeyMissing);
      }
      var client := new Pdflayer(options);
      return Success(client);
    }

    /** `generate(htmlOrUrl, options)`: rejects an empty source at once, otherwise
        sends the resolved options through the wrapper in a new options object
        and settles as that request does. */
    method Generate(htmlOrUrl: string, options: Props, isUri: string -> bool, content: Stream)
      returns (r: Result<PendingRequest, Error>)
      requires Valid()
      ensures var resolved := ResolveOptions(htmlOrUrl, options, defaultRequestConfig, isUri);
        && (resolved.Failure? ==> r == Failure(resolved.error))
        && (resolved.Success? ==>
              && r.Success? && fresh(r.value) && fresh(r.value.options)
              && r.value.wrapper == wrapper && r.value.content == content
              && r.value.uri == Get(config, "apiUrl") && r.value.httpMethod == Get(config, "method")
              && r.value.options.props == Prepare(resolved.value, config).body
              && r.value.State() == Initial)
    {
      var resolved := ResolveOptions(htmlOrUrl, options, defaultRequestConfig, isUri);
      if resolved.Failure? {
        return Failure(resolved.error);
      }
      ResolvedRequest(resolved.value, config);
      var body := new JsObject(resolved.value);
      var p := wrapper.Request(body, content);
      return Success(p);
    }
  }
}
