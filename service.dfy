/**
 * The request layer of the admin client: the default-config merge of the request function,
 * the interceptor that adds the bearer token to every request, and the interceptor that
 * turns a failed response into a user message and a rejection.
 */
module Service {
  import opened JsValues
  import opened Platform

  // ---------------------------------------------------------------------------------------
  // Request configuration

  /** A request config object: its own properties, by name. A missing key is an omitted field. */
  type Config = map<string, Value>

  const DefaultTimeout := 5000

  /**
   * Object.assign(target, source): every own property of source is copied onto target, so
   * a key present in source (even with the value undefined) takes source's value.
   */
  function Assign(target: Config, source: Config): (r: Config)
    ensures r.Keys == target.Keys + source.Keys
    ensures forall k :: k in source ==> r[k] == source[k]
    ensures forall k :: k in target && k !in source ==> r[k] == target[k]
  {
    target + source
  }

  /** The defaults the request function starts from for every call. */
  function ConfigDefault(baseURL: string): Config {
    map["timeout" := Num(DefaultTimeout), "baseURL" := Str(baseURL), "data" := Obj(map[])]
  }

  /** The config the request function hands to the service: the caller's config over the defaults. */
  function MergeConfig(baseURL: string, config: Config): Config {
    Assign(ConfigDefault(baseURL), config)
  }

  /**
   * Every field the caller supplies is kept as supplied; every default field the caller
   * omits takes its default; no other field appears.
   */
  lemma MergeConfigFields(baseURL: string, config: Config)
    ensures MergeConfig(baseURL, config).Keys == config.Keys + {"timeout", "baseURL", "data"}
    ensures forall k :: k in config ==> MergeConfig(baseURL, config)[k] == config[k]
    ensures "timeout" !in config ==> MergeConfig(baseURL, config)["timeout"] == Num(DefaultTimeout)
    ensures "baseURL" !in config ==> MergeConfig(baseURL, config)["baseURL"] == Str(baseURL)
    ensures "data" !in config ==> MergeConfig(baseURL, config)["data"] == Obj(map[])
  {
    assert ConfigDefault(baseURL).Keys == {"timeout", "baseURL", "data"};
  }

  /** A timeout of 10000 from the caller gives 10000; no timeout from the caller gives 5000. */
  lemma MergeTimeout(baseURL: string, config: Config)
    ensures MergeConfig(baseURL, config["timeout" := Num(10000)])["timeout"] == Num(10000)
    ensures MergeConfig(baseURL, config - {"timeout"})["timeout"] == Num(5000)
  {
  }

  /** A field the caller sets to undefined overrides the default too: Object.assign copies it. */
  lemma MergeExplicitUndefined(baseURL: string, config: Config, k: string)
    requires k in config && config[k] == Undefined
    ensures MergeConfig(baseURL, config)[k] == Undefined
  {
  }

  /** Merging an already merged config again changes nothing. */
  lemma MergeConfigIdempotent(baseURL: string, config: Config)
    ensures MergeConfig(baseURL, MergeConfig(baseURL, config)) == MergeConfig(baseURL, config)
  {
    var once := MergeConfig(baseURL, config);
    var twice := MergeConfig(baseURL, once);
    MergeConfigFields(baseURL, config);
    MergeConfigFields(baseURL, once);
    assert twice.Keys == once.Keys;
    assert forall k :: k in twice ==> twice[k] == once[k];
  }

  // ---------------------------------------------------------------------------------------
  // The bearer header

  /** `"" + getToken()`: the stored token, or "null" when local storage holds none. */
  function TokenText(token: Option<string>): string {
    match token
    case None => "null"
    case Some(t) => t
  }

  const BearerPrefix := "Bearer "

  /** The Authorization header the request interceptor sets. */
  function AuthorizationHeader(token: Option<string>): (h: string)
    ensures |h| == |BearerPrefix| + |TokenText(token)|
    ensures h[..|BearerPrefix|] == BearerPrefix
  {
    BearerPrefix + TokenText(token)
  }

  /** What a receiver reads back out of the header: the partner of AuthorizationHeader. */
  function BearerCredential(h: string): (t: Option<string>)
    ensures t.Some? <==> |h| >= |BearerPrefix| && h[..|BearerPrefix|] == BearerPrefix
  {
    if |h| >= |BearerPrefix| && h[..|BearerPrefix|] == BearerPrefix then Some(h[|BearerPrefix|..]) else None
  }

  /** The header carries exactly the token text: reading it back gives that text. */
  lemma AuthorizationHeaderRoundTrip(token: Option<string>)
    ensures BearerCredential(AuthorizationHeader(token)) == Some(TokenText(token))
  {
    var h := AuthorizationHeader(token);
    assert h[|BearerPrefix|..] == TokenText(token);
  }

  /** Two stored tokens give the same header exactly when they are the same token. */
  lemma AuthorizationHeaderInjective(a: string, b: string)
    ensures AuthorizationHeader(Some(a)) == AuthorizationHeader(Some(b)) <==> a == b
  {
    if AuthorizationHeader(Some(a)) == AuthorizationHeader(Some(b)) {
      AuthorizationHeaderRoundTrip(Some(a));
      AuthorizationHeaderRoundTrip(Some(b));
    }
  }

  /** With no stored token the header is "Bearer null", the same as for a stored token "null". */
  lemma MissingTokenHeader()
    ensures AuthorizationHeader(None) == "Bearer null"
    ensures AuthorizationHeader(None) == AuthorizationHeader(Some("null"))
  {
  }

  // ---------------------------------------------------------------------------------------
  // Classifying a failed response

  /** What the interceptor's returned promise is rejected with. */
  datatype Rejection =
    | OriginalError  // the error object it was given, with its message as set by the switch
    | TypeError      // reading `message` of undefined or null threw inside the interceptor

  /** The message the error ends with, the effects caused, in order, and the rejection. */
  datatype ErrorOutcome = ErrorOutcome(message: string, effects: seq<Effect>, rejection: Rejection)

  const BadRequestPrefix := "请求错误 "

  /** The statuses whose message is fixed, and that message. */
  function FixedMessage(status: int): Option<string> {
    match status
    case 403 => Some("拒绝访问")
    case 404 => Some("请求地址出错")
    case 408 => Some("请求超时")
    case 500 => Some("服务器内部错误")
    case 501 => Some("服务未实现")
    case 502 => Some("网关错误")
    case 503 => Some("服务不可用")
    case 504 => Some("网关超时")
    case 505 => Some("HTTP 版本不受支持")
    case _ => None
  }

  /** A status value the switch has a case for (it compares with ===, so only numbers match). */
  predicate Handled(status: Value) {
    status.Num? && (status.n == 400 || status.n == 401 || FixedMessage(status.n).Some?)
  }

  /**
   * The response-error interceptor on a failure whose response status and body are
   * `status` and `data` (undefined without a response) and whose message is `message`.
   * Every outcome rejects. Unless reading the body's message throws, exactly one error
   * pop-up is shown, last, with the final message; only a 401 logs out and reloads.
   */
  function HandleResponseError(status: Value, data: Value, message: string): (o: ErrorOutcome)
    ensures o.rejection == TypeError <==> status == Num(400) && (data == Undefined || data == Null)
    ensures o.rejection == TypeError ==> o.effects == [] && o.message == message
    ensures o.rejection == OriginalError ==>
      o.effects != [] && o.effects[|o.effects| - 1] == ErrorShown(o.message) && ShownCount(o.effects) == 1
    ensures LoggedOut in o.effects <==> status == Num(401)
    ensures Reloaded in o.effects <==> status == Num(401)
    ensures !Handled(status) ==> o.message == message
  {
    if status == Num(400) then
      match ReadMessage(data)
      case None => ErrorOutcome(message, [], TypeError)
      case Some(m) =>
        var text := BadRequestPrefix + ToJsString(m);
        ErrorOutcome(text, [ErrorShown(text)], OriginalError)
    else if status == Num(401) then
      ErrorOutcome(message, [LoggedOut, Reloaded, ErrorShown(message)], OriginalError)
    else
      var text := if status.Num? && FixedMessage(status.n).Some? then FixedMessage(status.n).value else message;
      ErrorOutcome(text, [ErrorShown(text)], OriginalError)
  }

  /**
   * A 400 prefixes the server's `message` field, as text; an object without one, and a
   * string, number or boolean body, give "undefined".
   */
  lemma BadRequestMessage(data: Value, message: string)
    ensures data.Obj? && "message" in data.props ==>
      HandleResponseError(Num(400), data, message).message == BadRequestPrefix + ToJsString(data.props["message"])
    ensures data.Obj? && "message" !in data.props ==>
      HandleResponseError(Num(400), data, message).message == BadRequestPrefix + "undefined"
    ensures data.Str? || data.Num? || data.Bool? ==>
      HandleResponseError(Num(400), data, message).message == "请求错误 undefined"
  {
  }

  /** Each fixed client-error status has its own message, whatever the body and the previous message. */
  lemma ClientErrorMessages(data: Value, message: string)
    ensures HandleResponseError(Num(403), data, message).message == "拒绝访问"
    ensures HandleResponseError(Num(404), data, message).message == "请求地址出错"
    ensures HandleResponseError(Num(408), data, message).message == "请求超时"
  {
  }

  /** Each fixed server-error status has its own message, whatever the body and the previous message. */
  lemma ServerErrorMessages(data: Value, message: string)
    ensures HandleResponseError(Num(500), data, message).message == "服务器内部错误"
    ensures HandleResponseError(Num(501), data, message).message == "服务未实现"
    ensures HandleResponseError(Num(502), data, message).message == "网关错误"
    ensures HandleResponseError(Num(503), data, message).message == "服务不可用"
    ensures HandleResponseError(Num(504), data, message).message == "网关超时"
    ensures HandleResponseError(Num(505), data, message).message == "HTTP 版本不受支持"
  {
  }

  /** No two fixed statuses share a message, so the pop-up tells them apart. */
  lemma FixedMessagesDistinct(a: int, b: int)
    requires FixedMessage(a).Some? && FixedMessage(b).Some? && a != b
    ensures FixedMessage(a) != FixedMessage(b)
  {
  }

  /** For a fixed status the outcome depends on the status alone, not on the body or the old message. */
  lemma FixedStatusIgnoresInput(status: int, data1: Value, data2: Value, m1: string, m2: string)
    requires FixedMessage(status).Some?
    ensures HandleResponseError(Num(status), data1, m1) == HandleResponseError(Num(status), data2, m2)
  {
  }

  /** A 401 logs out, then reloads, then shows the message it was given, unchanged. */
  lemma UnauthorizedSequence(data: Value, message: string)
    ensures HandleResponseError(Num(401), data, message) ==
      ErrorOutcome(message, [LoggedOut, Reloaded, ErrorShown(message)], OriginalError)
  {
  }

  /** A failure without a response, or with a status the switch has no case for, only shows its own message. */
  lemma UnhandledStatus(status: Value, data: Value, message: string)
    requires !Handled(status)
    ensures HandleResponseError(status, data, message) == ErrorOutcome(message, [ErrorShown(message)], OriginalError)
  {
  }

  /** The message changes only for a status the switch has a case for. */
  lemma MessageChangesOnlyWhenHandled(status: Value, data: Value, message: string)
    requires HandleResponseError(status, data, message).message != message
    ensures Handled(status) && status != Num(401)
  {
  }

  // ---------------------------------------------------------------------------------------
  // The service and its interceptors

  /** The response of a request that reached the server. */
  datatype HttpResponse = HttpResponse(status: Value, data: Value)

  /** get(error, "response.status"): undefined when the error carries no response. */
  function ResponseStatus(response: Option<HttpResponse>): Value {
    match response
    case None => Undefined
    case Some(r) => r.status
  }

  /** get(error, "response.data"): undefined when the error carries no response. */
  function ResponseData(response: Option<HttpResponse>): Value {
    match response
    case None => Undefined
    case Some(r) => r.data
  }

  /** A request on its way to the transport: its config and its headers. */
  class OutgoingRequest {
    var config: Config
    var headers: map<string, string>

    constructor (config: Config)
      ensures this.config == config && headers == map[]
    {
      this.config := config;
      headers := map[];
    }
  }

  /** The error object a failed request rejects with; the interceptor rewrites its message. */
  class RequestError {
    var message: string
    const response: Option<HttpResponse>

    constructor (message: string, response: Option<HttpResponse>)
      ensures this.message == message && this.response == response
    {
      this.message := message;
      this.response := response;
    }
  }

  /** The axios instance createService builds, with the two interceptors installed. */
  class HttpService {
    const host: Host
    const baseURL: string
    /** service.defaults as createService sets them. */
    const defaults: Config

    constructor (host: Host, baseURL: string)
      ensures this.host == host && this.baseURL == baseURL
      ensures defaults == map["timeout" := Num(DefaultTimeout), "baseURL" := Str(baseURL), "withCredentials" := Bool(true)]
    {
      this.host := host;
      this.baseURL := baseURL;
      defaults := map["timeout" := Num(DefaultTimeout), "baseURL" := Str(baseURL), "withCredentials" := Bool(true)];
    }

    /** The request interceptor: reads the token now and sets the Authorization header. */
    method OnRequest(request: OutgoingRequest) returns (r: OutgoingRequest)
      modifies request
      ensures r == request && request.config == old(request.config)
      ensures request.headers == old(request.headers)["Authorization" := AuthorizationHeader(host.token)]
    {
      var token := host.GetToken();
      request.headers := request.headers["Authorization" := AuthorizationHeader(token)];
      r := request;
    }

    /** A request that fails before it is sent is rejected with its own error. */
    method OnRequestError(error: RequestError) returns (rejected: RequestError)
      ensures rejected == error
    {
      rejected := error;
    }

    /** A successful response passes through unchanged. */
    method OnResponse(response: HttpResponse) returns (r: HttpResponse)
      ensures r == response
    {
      r := response;
    }

    /** The response-error interceptor, rewriting error.message in place. */
    method OnResponseError(error: RequestError) returns (rejection: Rejection)
      modifies error, host
      ensures var o := HandleResponseError(ResponseStatus(error.response), ResponseData(error.response), old(error.message));
        error.message == o.message && host.effects == old(host.effects) + o.effects && rejection == o.rejection
      ensures ResponseStatus(error.response) != Num(401) ==> host.token == old(host.token)
    {
      var status := ResponseStatus(error.response);
      var errMsg := ResponseData(error.response);
      if status == Num(400) {
        var m := ReadMessage(errMsg);
        if m.None? {
          return TypeError;
        }
        error.message := BadRequestPrefix + ToJsString(m.value);
      } else if status == Num(401) {
        host.Logout();
        host.Reload();
      } else if status.Num? && FixedMessage(status.n).Some? {
        error.message := FixedMessage(status.n).value;
      }
      host.ShowError(error.message);
      rejection := OriginalError;
    }

    /**
     * request(config): the caller's config merged over the defaults, then passed through the
     * request interceptor on its way to the transport. The interceptor runs here, within the
     * call, not in the microtask where axios runs it.
     */
    method Request(config: Config) returns (sent: OutgoingRequest)
      ensures fresh(sent) && sent.config == MergeConfig(baseURL, config)
      ensures sent.headers == map["Authorization" := AuthorizationHeader(host.token)]
    {
      var merged := Assign(ConfigDefault(baseURL), config);
      var request := new OutgoingRequest(merged);
      sent := OnRequest(request);
    }
  }

  /**
   * The token is read when the request interceptor runs: after the stored token changes
   * between the interceptor runs of two requests, each carries the token stored at its run.
   */
  method TokenRotation(service: HttpService, first: Config, second: Config, rotated: Option<string>)
      returns (a: OutgoingRequest, b: OutgoingRequest)
    modifies service.host
    ensures a.headers == map["Authorization" := AuthorizationHeader(old(service.host.token))]
    ensures b.headers == map["Authorization" := AuthorizationHeader(rotated)]
    ensures service.host.token == rotated && service.host.effects == old(service.host.effects)
  {
    a := service.Request(first);
    service.host.SetToken(rotated);
    b := service.Request(second);
  }
}
