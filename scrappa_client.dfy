/**
 * The shared Scrappa API client: how a call becomes an HTTP request (URL, query string,
 * headers, body) and how an HTTP response becomes either the parsed payload or one error
 * message of the form `Scrappa API error (<status>): <detail>`.
 *
 * The network round trip itself is a parameter, `fetch`, from the request record to what
 * came back: a response, or a transport failure with its message.
 */
module ScrappaClient {
  import opened Wrappers
  import opened Text
  import opened Entries
  import opened JsValue

  const DefaultBaseUrl: string := "https://scrappa.co/api"

  /** The constructor's configuration; `None` stands for a field that is left out. */
  datatype Config = Config(apiKey: string, baseUrl: Option<string>, debug: Option<bool>)

  /** A parameter value as the caller's object holds it: `undefined` or a JSON value. */
  datatype Param = Undefined | Defined(value: Json)

  /** The caller's parameter object, in property order. */
  type Params = seq<Entry<Param>>

  /** The query of the request URL: `URLSearchParams` name/value pairs in order. */
  type Query = seq<Entry<string>>

  datatype Method = GET | POST

  /** What is handed to `fetch`: `body` is the value that is sent JSON-serialised. */
  datatype HttpRequest = HttpRequest(
    verb: Method,
    url: string,
    query: Query,
    headers: map<string, string>,
    body: Option<Json>)

  /** An HTTP response: its status, the body parsed as JSON (or the parser's error) and the body as text. */
  datatype Response = Response(status: int, parsed: Result<Json, string>, text: string)

  /** The outcome of one round trip. */
  datatype Exchange = Responded(response: Response) | TransportFailed(message: string)

  // ----- Query encoding -----

  /** The values a GET parameter is dropped for: `undefined`, `null`, `''` and `false`. */
  predicate IsOmitted(v: Param)
  {
    v == Undefined || v == Defined(JNull) || v == Defined(JStr("")) || v == Defined(JBool(false))
  }

  /** The query value of one parameter: `true` is sent as `1`, anything else kept as `String(value)`. */
  function EncodeValue(v: Param): (r: Option<string>)
    ensures r.None? <==> IsOmitted(v)
    ensures v == Defined(JBool(true)) ==> r == Some("1")
    ensures r.Some? && v.value.JStr? ==> r.value == v.value.s
    ensures r.Some? && v.value.JNum? ==> IsDecimalOf(r.value, v.value.n)
  {
    if IsOmitted(v) then None
    else if v.value.JBool? then Some("1")
    else Some(ToJsString(v.value))
  }

  /** How many pairs of `q` have name `key`. */
  function CountKey(q: Query, key: string): (n: nat)
    ensures n == 0 <==> key !in Keys(q)
  {
    if q == [] then 0
    else
      KeysCons(q[0], q[1..]);
      assert q == [q[0]] + q[1..];
      (if q[0].0 == key then 1 else 0) + CountKey(q[1..], key)
  }

  /** The pairs of `q` whose name is not `key`, in order. */
  function Without(q: Query, key: string): (r: Query)
    ensures Keys(r) == Keys(q) - {key}
    ensures DistinctKeys(q) ==> DistinctKeys(r)
    ensures key !in Keys(q) ==> r == q
  {
    if q == [] then []
    else
      KeysCons(q[0], q[1..]);
      assert q == [q[0]] + q[1..];
      var rest := Without(q[1..], key);
      if q[0].0 == key then rest
      else
        KeysCons(q[0], rest);
        DistinctCons(q[0], rest);
        [q[0]] + rest
  }

  lemma {:induction false} WithoutTwice(q: Query, key: string)
    ensures Without(Without(q, key), key) == Without(q, key)
  {
  }

  /**
   * `URLSearchParams.set(key, value)`: the first pair named `key` takes the value and the
   * others named `key` are removed; if there is none, the pair is appended.
   */
  function SetParam(q: Query, key: string, value: string): (r: Query)
    ensures Lookup(r, key) == Some(value)
    ensures Keys(r) == Keys(q) + {key}
    ensures DistinctKeys(q) ==> DistinctKeys(r)
  {
    if q == [] then
      KeysCons((key, value), []);
      [(key, value)]
    else
      KeysCons(q[0], q[1..]);
      assert q == [q[0]] + q[1..];
      if q[0].0 == key then
        var rest := Without(q[1..], key);
        KeysCons((key, value), rest);
        DistinctCons((key, value), rest);
        [(key, value)] + rest
      else
        var rest := SetParam(q[1..], key, value);
        KeysCons(q[0], rest);
        DistinctCons(q[0], rest);
        [q[0]] + rest
  }

  /** After `set`, exactly one pair carries the name. */
  lemma {:induction false} SetParamOnce(q: Query, key: string, value: string)
    ensures CountKey(SetParam(q, key, value), key) == 1
  {
    if q != [] && q[0].0 != key {
      SetParamOnce(q[1..], key, value);
    }
  }

  /** `set` leaves the pairs with other names as they were, in order. */
  lemma {:induction false} SetParamKeepsOthers(q: Query, key: string, value: string)
    ensures Without(SetParam(q, key, value), key) == Without(q, key)
  {
    if q != [] {
      if q[0].0 == key {
        WithoutTwice(q[1..], key);
      } else {
        SetParamKeepsOthers(q[1..], key, value);
      }
    }
  }

  /** A name not yet in the query is appended at the end. */
  lemma {:induction false} SetParamAppends(q: Query, key: string, value: string)
    requires key !in Keys(q)
    ensures SetParam(q, key, value) == q + [(key, value)]
  {
    if q != [] {
      KeysCons(q[0], q[1..]);
      assert q == [q[0]] + q[1..];
      SetParamAppends(q[1..], key, value);
    }
  }

  /**
   * The query that the `forEach` over the parameters builds, one `set` per kept parameter,
   * in property order. It never names a key twice and names no key beyond the parameters'.
   */
  function EncodeQuery(ps: Params): (r: Query)
    ensures DistinctKeys(r)
    ensures Keys(r) <= Keys(ps)
  {
    if ps == [] then []
    else
      var init := ps[..|ps| - 1];
      var q := EncodeQuery(init);
      assert Keys(init) <= Keys(ps) by {
        forall k | k in Keys(init) ensures k in Keys(ps) {
          var i :| 0 <= i < |init| && init[i].0 == k;
          assert ps[i].0 == k;
        }
      }
      assert ps[|ps| - 1].0 in Keys(ps);
      match EncodeValue(ps[|ps| - 1].1)
      case None => q
      case Some(s) => SetParam(q, ps[|ps| - 1].0, s)
  }

  /** Reference definition: the kept parameters with their encoded values, in property order. */
  function FilterEncoded(ps: Params): Query
  {
    if ps == [] then []
    else
      var last := ps[|ps| - 1];
      FilterEncoded(ps[..|ps| - 1]) +
        match EncodeValue(last.1)
        case None => []
        case Some(s) => [(last.0, s)]
  }

  lemma {:induction false} FilterEncodedMember(ps: Params, k: string, s: string)
    ensures (k, s) in FilterEncoded(ps) <==>
            exists j | 0 <= j < |ps| :: ps[j].0 == k && EncodeValue(ps[j].1) == Some(s)
  {
    if ps != [] {
      var init := ps[..|ps| - 1];
      FilterEncodedMember(init, k, s);
      if exists j | 0 <= j < |init| :: init[j].0 == k && EncodeValue(init[j].1) == Some(s) {
        var j :| 0 <= j < |init| && init[j].0 == k && EncodeValue(init[j].1) == Some(s);
        assert ps[j] == init[j];
      }
      if exists j | 0 <= j < |ps| :: ps[j].0 == k && EncodeValue(ps[j].1) == Some(s) {
        var j :| 0 <= j < |ps| && ps[j].0 == k && EncodeValue(ps[j].1) == Some(s);
        if j < |init| { assert init[j] == ps[j]; }
      }
    }
  }

  /** For a parameter object (distinct keys) the query is exactly the kept parameters, in order. */
  lemma {:induction false} EncodeQueryIsFilter(ps: Params)
    requires DistinctKeys(ps)
    ensures EncodeQuery(ps) == FilterEncoded(ps)
  {
    if ps != [] {
      var init := ps[..|ps| - 1];
      var last := ps[|ps| - 1];
      EncodeQueryIsFilter(init);
      forall i | 0 <= i < |init| ensures init[i].0 != last.0 {
        assert init[i] == ps[i];
      }
      SetParamAppends(EncodeQuery(init), last.0, if EncodeValue(last.1).Some? then EncodeValue(last.1).value else "");
    }
  }

  /**
   * Each key of the parameter object reads, in the query, exactly its encoded value: absent
   * when the value is dropped, otherwise present with that value.
   */
  lemma QueryLookup(ps: Params, k: string)
    requires DistinctKeys(ps)
    ensures Lookup(EncodeQuery(ps), k) == match Lookup(ps, k) case None => None case Some(v) => EncodeValue(v)
  {
    var q := EncodeQuery(ps);
    EncodeQueryIsFilter(ps);
    match Lookup(ps, k)
    case None =>
      assert k !in Keys(q);
    case Some(v) =>
      var j :| 0 <= j < |ps| && ps[j] == (k, v);
      assert forall j' | 0 <= j' < |ps| && ps[j'].0 == k :: j' == j;
      match EncodeValue(v)
      case None =>
        forall i | 0 <= i < |q| ensures q[i].0 != k {
          FilterEncodedMember(ps, q[i].0, q[i].1);
          assert q[i] in q;
        }
      case Some(s) =>
        FilterEncodedMember(ps, k, s);
        LookupFindsEntry(q, k, s);
  }

  /** `false`, `undefined`, `null` and `''` never reach the query: in particular no `use_cache=0`. */
  lemma OmittedParamNotSent(ps: Params, j: nat)
    requires DistinctKeys(ps) && j < |ps| && IsOmitted(ps[j].1)
    ensures ps[j].0 !in Keys(EncodeQuery(ps))
  {
    LookupFindsEntry(ps, ps[j].0, ps[j].1);
    QueryLookup(ps, ps[j].0);
  }

  /** A `true` parameter is sent once, as `key=1`. */
  lemma TrueParamSentAsOne(ps: Params, j: nat)
    requires DistinctKeys(ps) && j < |ps| && ps[j].1 == Defined(JBool(true))
    ensures Lookup(EncodeQuery(ps), ps[j].0) == Some("1")
    ensures (ps[j].0, "1") in EncodeQuery(ps)
  {
    LookupFindsEntry(ps, ps[j].0, ps[j].1);
    QueryLookup(ps, ps[j].0);
  }

  /** Any other parameter is sent once, with `String(value)`. */
  lemma OtherParamSentStringified(ps: Params, j: nat)
    requires DistinctKeys(ps) && j < |ps| && ps[j].1.Defined? && !IsOmitted(ps[j].1)
    requires !ps[j].1.value.JBool?
    ensures Lookup(EncodeQuery(ps), ps[j].0) == Some(ToJsString(ps[j].1.value))
    ensures (ps[j].0, ToJsString(ps[j].1.value)) in EncodeQuery(ps)
  {
    LookupFindsEntry(ps, ps[j].0, ps[j].1);
    QueryLookup(ps, ps[j].0);
  }

  // ----- Error normalisation -----

  /** The fallback detail when the body says nothing: `HTTP <status>`. */
  function HttpStatusText(status: int): string
  {
    "HTTP " + IntToString(status)
  }

  /**
   * The rendering of `errors`: each entry as `field: m1, m2`, joined with `; `. `None` when
   * some entry's messages are not an array: `.join` is then not a function and the call throws.
   */
  function FieldErrorsDetail(entries: seq<Entry<Json>>): Option<string>
  {
    if forall i | 0 <= i < |entries| :: entries[i].1.JArr? then
      Some(Join(seq(|entries|, i requires 0 <= i < |entries| =>
                  entries[i].0 + ": " + JoinItems(entries[i].1.items, ", ")), "; "))
    else None
  }

  /** `errorData.message ?? `HTTP ${status}``: an absent or `null` message gives the status text. */
  function MessageOrStatus(status: int, message: Option<Json>): (r: string)
    ensures message.None? || message == Some(JNull) ==> r == HttpStatusText(status)
    ensures message.Some? && message.value.JStr? ==> r == message.value.s
  {
    match message
    case Some(m) => if m.JNull? then HttpStatusText(status) else ToJsString(m)
    case None => HttpStatusText(status)
  }

  /**
   * The detail of a failed response. The JSON path reads `message` (default `HTTP <status>`)
   * and appends ` - ` and the field errors when `errors` is truthy. Anything that throws on
   * that path (no JSON, a `null` body, messages that are not an array) falls back to the raw
   * text, or to `HTTP <status>` when the text is empty.
   */
  function ErrorDetail(status: int, parsed: Result<Json, string>, text: string): (r: string)
    // A body that cannot be read as an error object surfaces its text, never an empty detail.
    ensures parsed.Err? || parsed == Ok(JNull) ==> r == (if text == "" then HttpStatusText(status) else text)
    // Without truthy `errors` the detail is the message, or the status when it has none.
    ensures parsed.Ok? && !parsed.value.JNull? && (Field(parsed.value, "errors").None? || !Truthy(Field(parsed.value, "errors").value))
      ==> r == MessageOrStatus(status, Field(parsed.value, "message"))
    // With them it is the message followed by ` - ` when every entry's messages can be
    // joined, and the text fallback when some entry's cannot.
    ensures parsed.Ok? && !parsed.value.JNull? && Field(parsed.value, "errors").Some? && Truthy(Field(parsed.value, "errors").value)
      ==> var es := EntriesOf(Field(parsed.value, "errors").value);
          if forall i | 0 <= i < |es| :: es[i].1.JArr?
          then StartsWith(r, MessageOrStatus(status, Field(parsed.value, "message")) + " - ")
          else r == (if text == "" then HttpStatusText(status) else text)
  {
    var fromText := if text == "" then HttpStatusText(status) else text;
    match parsed
    case Err(_) => fromText
    case Ok(data) =>
      if data.JNull? then fromText
      else
        var message := MessageOrStatus(status, Field(data, "message"));
        match Field(data, "errors")
        case None => message
        case Some(errors) =>
          if !Truthy(errors) then message
          else
            match FieldErrorsDetail(EntriesOf(errors))
            case Some(details) =>
              assert (message + " - " + details)[..|message + " - "|] == message + " - ";
              message + " - " + details
            case None => fromText
  }

  /** The prefix every normalised error message starts with. */
  function ApiErrorPrefix(status: int): string
  {
    "Scrappa API error (" + IntToString(status) + "): "
  }

  /** True of the statuses `fetch` reports as `ok`. */
  predicate IsOk(status: int) { 200 <= status <= 299 }

  /** What the client returns for a response. */
  function HandleResponse(response: Response): (r: Result<Json, string>)
    ensures IsOk(response.status) ==> r == response.parsed
    ensures !IsOk(response.status) ==> r.Err? && StartsWith(r.error, ApiErrorPrefix(response.status))
    ensures !IsOk(response.status) ==>
      r.error[|ApiErrorPrefix(response.status)|..] == ErrorDetail(response.status, response.parsed, response.text)
  {
    if IsOk(response.status) then response.parsed
    else
      var prefix := ApiErrorPrefix(response.status);
      var message := prefix + ErrorDetail(response.status, response.parsed, response.text);
      assert message[..|prefix|] == prefix;
      Err(message)
  }

  /** What the client returns for a round trip: a transport failure propagates unchanged. */
  function HandleExchange(exchange: Exchange): (r: Result<Json, string>)
    ensures exchange.TransportFailed? ==> r == Err(exchange.message)
    ensures r.Ok? <==> exchange.Responded? && IsOk(exchange.response.status) && exchange.response.parsed.Ok?
    ensures r.Ok? ==> r == exchange.response.parsed
    ensures exchange.Responded? && !IsOk(exchange.response.status) ==>
      r.Err? && StartsWith(r.error, ApiErrorPrefix(exchange.response.status))
  {
    match exchange
    case TransportFailed(message) => Err(message)
    case Responded(response) => HandleResponse(response)
  }

  /** With a JSON body holding a string `message` and no `errors`, the detail is that message. */
  lemma DetailIsMessage(status: int, fields: seq<Entry<Json>>, message: string, text: string)
    requires Lookup(fields, "message") == Some(JStr(message)) && "errors" !in Keys(fields)
    ensures ErrorDetail(status, Ok(JObj(fields)), text) == message
  {
  }

  /**
   * With a JSON object body whose `message` is absent or `null` and without `errors`, the
   * detail is `HTTP <status>`.
   */
  lemma DetailDefaultsToStatus(status: int, fields: seq<Entry<Json>>, text: string)
    requires "message" !in Keys(fields) || Lookup(fields, "message") == Some(JNull)
    requires "errors" !in Keys(fields)
    ensures ErrorDetail(status, Ok(JObj(fields)), text) == "HTTP " + IntToString(status)
  {
  }

  /** The validation errors of a body, as lists of plain strings per field name. */
  function StringErrors(names: seq<string>, messages: seq<seq<string>>): Json
    requires |names| == |messages|
  {
    JObj(seq(|names|, i requires 0 <= i < |names| =>
      (names[i], JArr(seq(|messages[i]|, k requires 0 <= k < |messages[i]| => JStr(messages[i][k]))))))
  }

  /** Field errors given as strings render as `field: m1, m2` per field, joined with `; `. */
  lemma FieldErrorsOfStrings(names: seq<string>, messages: seq<seq<string>>)
    requires |names| == |messages|
    ensures FieldErrorsDetail(EntriesOf(StringErrors(names, messages))) ==
      Some(Join(seq(|names|, i requires 0 <= i < |names| => names[i] + ": " + Join(messages[i], ", ")), "; "))
  {
    var entries := EntriesOf(StringErrors(names, messages));
    forall i | 0 <= i < |names|
      ensures entries[i].0 + ": " + JoinItems(entries[i].1.items, ", ") == names[i] + ": " + Join(messages[i], ", ")
    {
      JoinStringItems(messages[i], ", ");
    }
    assert seq(|entries|, i requires 0 <= i < |entries| => entries[i].0 + ": " + JoinItems(entries[i].1.items, ", "))
        == seq(|names|, i requires 0 <= i < |names| => names[i] + ": " + Join(messages[i], ", "));
  }

  /**
   * With a JSON body holding validation errors given as lists of strings, the detail is the
   * message (or `HTTP <status>` when it is absent or `null`), ` - `, then `field: m1, m2` per
   * field joined with `; `.
   */
  lemma DetailWithFieldErrors(
    status: int, fields: seq<Entry<Json>>, names: seq<string>, messages: seq<seq<string>>, text: string)
    requires |names| == |messages|
    requires Lookup(fields, "errors") == Some(StringErrors(names, messages))
    ensures ErrorDetail(status, Ok(JObj(fields)), text) ==
      MessageOrStatus(status, Lookup(fields, "message")) + " - "
        + Join(seq(|names|, i requires 0 <= i < |names| => names[i] + ": " + Join(messages[i], ", ")), "; ")
  {
    FieldErrorsOfStrings(names, messages);
  }

  /** Field errors without a message: `HTTP <status> - field: m1, m2`. */
  lemma FieldErrorsWithoutMessage(status: int, name: string, message: string, text: string)
    ensures ErrorDetail(status, Ok(JObj([("errors", StringErrors([name], [[message]]))])), text) ==
      "HTTP " + IntToString(status) + " - " + name + ": " + message
  {
    var fields := [("errors", StringErrors([name], [[message]]))];
    DetailWithFieldErrors(status, fields, [name], [[message]], text);
    assert Lookup(fields, "message") == None;
  }

  /** A body that is not JSON yields its raw text, or `HTTP <status>` when it is empty. */
  lemma DetailFromText(status: int, parseError: string, text: string)
    ensures ErrorDetail(status, Err(parseError), text) == if text == "" then "HTTP " + IntToString(status) else text
  {
  }

  /** The 524 case: an HTML error page from an intermediary surfaces as its text. */
  lemma HtmlErrorPageSurfaces(parseError: string, page: string)
    requires page == "<html><body>upstream timeout</body></html>"
    ensures HandleResponse(Response(524, Err(parseError), page)) == Err("Scrappa API error (524): " + page)
  {
    ThreeDigits(524);
    assert IntToString(524) == "524";
    assert ApiErrorPrefix(524) == "Scrappa API error (524): ";
  }

  // ----- The client -----

  class Client {
    const apiKey: string
    const baseUrl: string
    const debug: bool

    /** `baseUrl` defaults to the public API and `debug` to off. */
    constructor(config: Config)
      ensures apiKey == config.apiKey
      ensures baseUrl == if config.baseUrl.Some? then config.baseUrl.value else DefaultBaseUrl
      ensures debug == (config.debug == Some(true))
    {
      apiKey := config.apiKey;
      baseUrl := match config.baseUrl case Some(url) => url case None => DefaultBaseUrl;
      debug := match config.debug case Some(flag) => flag case None => false;
    }

    /**
     * The request for a call: the URL is the base URL followed by the endpoint; a GET carries
     * the encoded parameters and a POST none; every request carries the API key and asks for
     * JSON; only a POST with a body declares and sends a JSON body.
     */
    predicate IsRequestFor(
      req: HttpRequest, verb: Method, endpoint: string, params: Params, body: Option<seq<Entry<Json>>>)
    {
      && req.verb == verb
      && req.url == baseUrl + endpoint
      && req.query == (if verb == GET then EncodeQuery(params) else [])
      && req.headers["X-API-Key" := apiKey]["Accept" := "application/json"] == req.headers
      && req.headers.Keys == {"X-API-Key", "Accept"} + (if verb == POST && body.Some? then {"Content-Type"} else {})
      && (verb == POST && body.Some? ==> req.headers["Content-Type"] == "application/json")
      && req.body == (if verb == POST && body.Some? then Some(JObj(body.value)) else None)
    }

    /** The private `request` routine up to the `fetch`: builds the request for a call. */
    method Request(verb: Method, endpoint: string, params: Params, body: Option<seq<Entry<Json>>>)
      returns (req: HttpRequest)
      ensures IsRequestFor(req, verb, endpoint, params, body)
    {
      var query: Query := [];
      if verb == GET {
        var i := 0;
        while i < |params|
          invariant 0 <= i <= |params|
          invariant query == EncodeQuery(params[..i])
        {
          var (key, value) := params[i];
          if value != Undefined && value != Defined(JNull) && value != Defined(JStr("")) {
            if value.value.JBool? {
              if value.value.b {
                query := SetParam(query, key, "1");
              }
            } else {
              query := SetParam(query, key, ToJsString(value.value));
            }
          }
          assert params[..i + 1][..i] == params[..i];
          i := i + 1;
        }
        assert params[..i] == params;
      }
      var headers := map["X-API-Key" := apiKey, "Accept" := "application/json"];
      var sentBody: Option<Json> := None;
      if verb == POST && body.Some? {
        headers := headers["Content-Type" := "application/json"];
        sentBody := Some(JObj(body.value));
      }
      req := HttpRequest(verb, baseUrl + endpoint, query, headers, sentBody);
    }

    /** `get`: one GET round trip; returns the request it sent and the outcome. */
    method Get(endpoint: string, params: Params, fetch: HttpRequest -> Exchange)
      returns (sent: HttpRequest, r: Result<Json, string>)
      ensures IsRequestFor(sent, GET, endpoint, params, None)
      ensures r == HandleExchange(fetch(sent))
    {
      sent := Request(GET, endpoint, params, None);
      r := HandleExchange(fetch(sent));
    }

    /** `post`: one POST round trip with a JSON body and no query. */
    method Post(endpoint: string, body: seq<Entry<Json>>, fetch: HttpRequest -> Exchange)
      returns (sent: HttpRequest, r: Result<Json, string>)
      ensures IsRequestFor(sent, POST, endpoint, [], Some(body))
      ensures sent.query == [] && sent.body == Some(JObj(body))
      ensures r == HandleExchange(fetch(sent))
    {
      sent := Request(POST, endpoint, [], Some(body));
      r := HandleExchange(fetch(sent));
    }
  }

  /** The test scenario: `use_cache: false` is dropped, the other parameters are sent in order. */
  lemma UseCacheFalseIsDropped()
    ensures EncodeQuery([("query", Defined(JStr("pizza"))), ("use_cache", Defined(JBool(false))), ("hl", Defined(JStr("en")))])
         == [("query", "pizza"), ("hl", "en")]
  {
    var ps: Params := [("query", Defined(JStr("pizza"))), ("use_cache", Defined(JBool(false))), ("hl", Defined(JStr("en")))];
    EncodeQueryIsFilter(ps);
    assert ps[..2][..1] == ps[..1] && ps[..1][..0] == [];
    assert FilterEncoded(ps[..1]) == [("query", "pizza")];
    assert FilterEncoded(ps[..2]) == [("query", "pizza")];
  }
}
