/**
  The `POST /api/chat` handler: refuse with status 500 when the Gemini API key is missing,
  read the JSON body (a body that does not parse counts as `{}`), fill in a default model
  and prompt, make one text-generation call and answer `{ text }`.

  The request's JSON, once parsed, is a value of `Json`; the generation SDK is the
  function `generate`, supplied by the caller, which either produces a response (whose
  `text` may be undefined) or throws.
*/
module ChatRoute {
  import opened Wrappers

  /** A parsed JSON value (numbers restricted to integers). */
  datatype Json =
    | JNull
    | JBool(b: bool)
    | JNumber(n: int)
    | JString(s: string)
    | JArray(items: seq<Json>)
    | JObject(members: seq<(string, Json)>)

  const DEFAULT_MODEL := "gemini-3-flash-preview"
  const DEFAULT_INPUT := "Explain how AI works in a few words."
  const MISSING_KEY := "Missing GEMINI_API_KEY in environment."

  /** The `{}` a body that fails to parse is replaced with. */
  const EMPTY_BODY: Json := JObject([])

  /** One `ai.models.generateContent` call: the client's key, and the model and contents passed. */
  datatype GenRequest = GenRequest(apiKey: string, model: Json, contents: Json)

  /** How the SDK call ends: a response whose `text` getter may yield `undefined`, or a throw. */
  datatype GenOutcome = Generated(text: Option<string>) | Threw(message: string)

  /** What the framework sends back: a JSON response, or an exception escaping the handler. */
  datatype Reply = JsonReply(status: int, body: Json) | Unhandled(message: string)

  /** A handled request: the reply, and the generation calls made while handling it. */
  datatype Exchange = Exchange(reply: Reply, calls: seq<GenRequest>)

  /** A property read: `undefined`, or a JSON value (possibly `null`). */
  datatype Prop = Undefined | Defined(value: Json)

  /** The value JSON.parse keeps for `key`: the last member with that name. */
  function Lookup(members: seq<(string, Json)>, key: string): (r: Option<Json>)
    ensures r.None? <==> forall i :: 0 <= i < |members| ==> members[i].0 != key
    ensures r.Some? ==> exists i :: 0 <= i < |members| && members[i] == (key, r.value)
                                    && forall j :: i < j < |members| ==> members[j].0 != key
  {
    if members == [] then None
    else
      var last := members[|members| - 1];
      if last.0 == key then Some(last.1)
      else
        var init := members[..|members| - 1];
        var r := Lookup(init, key);
        if r.Some? then
          ghost var i :| 0 <= i < |init| && init[i] == (key, r.value)
                         && forall j :: i < j < |init| ==> init[j].0 != key;
          assert members[i] == (key, r.value);
          r
        else r
  }

  /**
    `body.model` or `body.input`, the two properties the handler reads: the member's value on
    an object, `undefined` on any other non-null value (arrays, strings, numbers and booleans
    have no property of either name, own or inherited), and a `TypeError` (`None`) on `null`.
  */
  function Access(body: Json, key: string): (r: Option<Prop>)
    requires key == "model" || key == "input"
    ensures r.None? <==> body.JNull?
    ensures !body.JNull? && !body.JObject? ==> r == Some(Undefined)
    ensures body.JObject? ==>
              (r == Some(Undefined) <==> forall i :: 0 <= i < |body.members| ==> body.members[i].0 != key)
  {
    match body
    case JNull => None
    case JObject(members) =>
      (match Lookup(members, key)
       case None => Some(Undefined)
       case Some(v) => Some(Defined(v)))
    case _ => Some(Undefined)
  }

  /** `p ?? fallback`: only `undefined` and `null` are replaced; `""` is kept. */
  function Coalesce(p: Prop, fallback: Json): (r: Json)
    ensures p.Defined? && !p.value.JNull? ==> r == p.value
    ensures p == Undefined || p == Defined(JNull) ==> r == fallback
  {
    match p
    case Defined(v) => if v.JNull? then fallback else v
    case Undefined => fallback
  }

  /** `!apiKey` is false: the variable is set and not empty. */
  predicate HasKey(apiKey: Option<string>) {
    apiKey.Some? && apiKey.value != ""
  }

  const MISSING_KEY_REPLY: Reply := JsonReply(500, JObject([("error", JString(MISSING_KEY))]))

  /** `Response.json({ text: response.text })`: an undefined `text` is dropped when serialised. */
  function TextReply(text: Option<string>): (r: Reply)
    ensures r.JsonReply? && r.status == 200
    ensures text.Some? ==> r.body == JObject([("text", JString(text.value))])
    ensures text.None? ==> r.body == EMPTY_BODY
  {
    match text
    case Some(t) => JsonReply(200, JObject([("text", JString(t))]))
    case None => JsonReply(200, EMPTY_BODY)
  }

  /** The generation step once a body object is in hand: defaults, one call, and the reply. */
  function Generate(key: string, body: Json, generate: GenRequest -> GenOutcome): Exchange {
    match Access(body, "model")
    case None => Exchange(Unhandled("TypeError: Cannot read properties of null (reading 'model')"), [])
    case Some(model) =>
      var input := Access(body, "input").GetOr(Undefined);
      var request := GenRequest(key, Coalesce(model, JString(DEFAULT_MODEL)), Coalesce(input, JString(DEFAULT_INPUT)));
      match generate(request)
      case Threw(message) => Exchange(Unhandled(message), [request])
      case Generated(text) => Exchange(TextReply(text), [request])
  }

  /**
    The handler as written. `parsed` is what `req.json()` yields, `None` when it throws.
    Without a key it answers 500 and calls nothing; otherwise it calls the generator at
    most once, exactly once unless the body is `null`, and relays its text unchanged.
  */
  function Post(apiKey: Option<string>, parsed: Option<Json>, generate: GenRequest -> GenOutcome)
    : (x: Exchange)
    ensures !HasKey(apiKey) ==> x == Exchange(MISSING_KEY_REPLY, [])
    ensures |x.calls| <= 1
    ensures HasKey(apiKey) && parsed != Some(JNull) ==> |x.calls| == 1
    ensures forall i :: 0 <= i < |x.calls| ==> Some(x.calls[i].apiKey) == apiKey
    ensures x.reply.JsonReply? && x.reply.status == 200 ==>
              |x.calls| == 1 && generate(x.calls[0]).Generated?
              && TextReply(generate(x.calls[0]).text) == x.reply
  {
    if !HasKey(apiKey) then Exchange(MISSING_KEY_REPLY, [])
    else Generate(apiKey.value, parsed.GetOr(EMPTY_BODY), generate)
  }

  /**
    `body.key ?? fallback` for `model` and `input` on any body but `null`: the member's value
    on an object unless absent or `null`, and the fallback on every other kind of value.
  */
  function Field(body: Json, key: string, fallback: Json): (r: Json)
    requires !body.JNull?
    ensures !body.JObject? ==> r == fallback
    ensures body.JObject? && Lookup(body.members, key).Some? && !Lookup(body.members, key).value.JNull?
            ==> r == Lookup(body.members, key).value
    ensures body.JObject? && (Lookup(body.members, key) == None || Lookup(body.members, key) == Some(JNull))
            ==> r == fallback
  {
    match body
    case JObject(members) =>
      (match Lookup(members, key)
       case Some(v) => if v.JNull? then fallback else v
       case None => fallback)
    case _ => fallback
  }

  /**
    Any body but `null` (arrays, strings, numbers and booleans included) leads to exactly one
    call with the body's fields or the defaults; the generated text is relayed and a throw
    escapes the handler.
  */
  lemma AnyBodyOneCall(key: string, parsed: Option<Json>, generate: GenRequest -> GenOutcome)
    requires key != "" && parsed != Some(JNull)
    ensures var body := parsed.GetOr(EMPTY_BODY);
            var x := Post(Some(key), parsed, generate);
            && x.calls == [GenRequest(key, Field(body, "model", JString(DEFAULT_MODEL)),
                                           Field(body, "input", JString(DEFAULT_INPUT)))]
            && (generate(x.calls[0]).Threw? ==> x.reply == Unhandled(generate(x.calls[0]).message))
            && (generate(x.calls[0]).Generated? ==> x.reply == TextReply(generate(x.calls[0]).text))
  {
  }

  /** A body that does not parse is handled exactly as `{}`. */
  lemma MalformedIsEmptyObject(apiKey: Option<string>, generate: GenRequest -> GenOutcome)
    ensures Post(apiKey, None, generate) == Post(apiKey, Some(EMPTY_BODY), generate)
  {
  }

  /**
    For an object body, with the key set, exactly one call is made: the model is the body's
    `model` unless absent or null, then the default; likewise `input` for the contents.
  */
  lemma ObjectBodyOneCall(key: string, members: seq<(string, Json)>, generate: GenRequest -> GenOutcome)
    requires key != ""
    ensures var x := Post(Some(key), Some(JObject(members)), generate);
            && |x.calls| == 1
            && x.calls[0].model == (match Lookup(members, "model")
                                    case Some(v) => if v.JNull? then JString(DEFAULT_MODEL) else v
                                    case None => JString(DEFAULT_MODEL))
            && x.calls[0].contents == (match Lookup(members, "input")
                                       case Some(v) => if v.JNull? then JString(DEFAULT_INPUT) else v
                                       case None => JString(DEFAULT_INPUT))
  {
  }

  /** An empty or missing body asks the default model the default question. */
  lemma DefaultsApplied(key: string, parsed: Option<Json>, generate: GenRequest -> GenOutcome)
    requires key != "" && (parsed == None || parsed == Some(EMPTY_BODY))
    ensures Post(Some(key), parsed, generate).calls
            == [GenRequest(key, JString(DEFAULT_MODEL), JString(DEFAULT_INPUT))]
  {
  }

  /** `??` keeps an empty model name: `{"model": ""}` asks for the model named "". */
  lemma EmptyModelPassesThrough(key: string, generate: GenRequest -> GenOutcome)
    requires key != ""
    ensures Post(Some(key), Some(JObject([("model", JString(""))])), generate).calls[0].model
            == JString("")
  {
  }

  /**
    Whatever the generator returns is relayed: its text verbatim under `text`, and a throw
    escapes the handler rather than becoming a JSON error body.
  */
  lemma ReplyRelaysGenerator(key: string, members: seq<(string, Json)>, generate: GenRequest -> GenOutcome)
    requires key != ""
    ensures var x := Post(Some(key), Some(JObject(members)), generate);
            && (generate(x.calls[0]).Threw? ==> x.reply == Unhandled(generate(x.calls[0]).message))
            && (forall t :: generate(x.calls[0]) == Generated(Some(t)) ==>
                  x.reply == JsonReply(200, JObject([("text", JString(t))])))
  {
  }

  /** As written, the JSON body `null` parses, and reading `body.model` then throws before any call. */
  lemma NullBodyCrashes(key: string, generate: GenRequest -> GenOutcome)
    requires key != ""
    ensures Post(Some(key), Some(JNull), generate).calls == []
    ensures Post(Some(key), Some(JNull), generate).reply.Unhandled?
  {
  }

  /**
    The handler with a `null` body treated like one that does not parse: every request that
    finds the key set then makes exactly one generation call.
  */
  function PostCorrected(apiKey: Option<string>, parsed: Option<Json>, generate: GenRequest -> GenOutcome)
    : (x: Exchange)
    ensures !HasKey(apiKey) ==> x == Exchange(MISSING_KEY_REPLY, [])
    ensures HasKey(apiKey) ==> |x.calls| == 1
    ensures parsed != Some(JNull) ==> x == Post(apiKey, parsed, generate)
  {
    if parsed == Some(JNull) then Post(apiKey, None, generate) else Post(apiKey, parsed, generate)
  }
}
