/** The client side of the OAuth 2.0 Device Authorization Grant (RFC 8628) as
    device-flow.js runs it: discovery, device authorization, polling the token
    endpoint until the first successful answer, then the userinfo call.

    The transport's answers, the clock and the waits are injected or recorded:
    a `Reply` per call, `now` for the one clock reading, and a `Wait` step for
    every requested delay. */
module DeviceFlow {
  import opened Http

  /** Client configuration, read from the environment by the program. */
  datatype Config = Config(discoveryUrl: string, clientId: string,
                           clientSecret: Option<string>, scope: string)

  /** The endpoints of the authorization server's discovery document. */
  datatype Metadata = Metadata(deviceAuthorizationEndpoint: string, tokenEndpoint: string,
                               userinfoEndpoint: string)

  /** The device authorization response (section 3.2 of RFC 8628). */
  datatype DeviceAuthorization = DeviceAuthorization(deviceCode: string, userCode: string,
                                                     verificationUriComplete: string,
                                                     expiresIn: int, interval: Option<int>)

  /** A token response; `expiry` is the absolute expiry time in milliseconds,
      which the client stamps on the body it received. */
  datatype TokenResponse = TokenResponse(accessToken: string, tokenType: string, expiresIn: int,
                                         refreshToken: Option<string>, scope: Option<string>,
                                         expiry: Option<int>)

  datatype UserInfo = UserInfo(name: string, nickname: string)

  /** How a run of the flow ends. A failed discovery, device authorization or
      userinfo call aborts the flow; `StillPolling` means the injected token
      replies ran out before a success, where the program would keep polling. */
  datatype FlowOutcome =
    | Welcomed(token: TokenResponse, profile: UserInfo)
    | DiscoveryFailed(discoveryError: Option<string>)
    | AuthorizationFailed(authorizationError: Option<string>)
    | StillPolling
    | UserInfoFailed(userInfoError: Option<string>)

  const DeviceCodeGrantType := "urn:ietf:params:oauth:grant-type:device_code"

  /** The wait, in seconds, when the server gives no usable interval. */
  const DefaultPollInterval := 5

  const FormHeaders := map["content-type" := "application/x-www-form-urlencoded"]
  const JsonHeaders := map["accept" := "application/json"]

  /** The fields every token request carries; a confidential client adds `client_secret`. */
  const TokenRequestFields := {"grant_type", "client_id", "device_code"}

  /** JavaScript truthiness of the configured secret: set and non-empty. */
  predicate SecretIsTruthy(secret: Option<string>)
  {
    secret.Some? && secret.value != ""
  }

  /** JavaScript truthiness of the server's interval: present and non-zero. */
  predicate IntervalIsTruthy(interval: Option<int>)
  {
    interval.Some? && interval.value != 0
  }

  // ---------------------------------------------------------------------------
  // Requests of the flow

  function DiscoveryRequest(config: Config): (r: Request)
    ensures r.verb == Get && r.url == config.discoveryUrl
    ensures r.headers.Keys == {"accept"} && r.headers["accept"] == "application/json"
    ensures r.data == map[]
  {
    Request(Get, config.discoveryUrl, JsonHeaders, map[])
  }

  /** The device authorization request: a form POST carrying the client id and
      the scope, and nothing else -- in particular never the client secret. */
  function DeviceAuthorizationRequest(config: Config, md: Metadata): (r: Request)
    ensures r.verb == Post && r.url == md.deviceAuthorizationEndpoint && r.headers == FormHeaders
    ensures r.data.Keys == {"client_id", "scope"}
    ensures r.data["client_id"] == config.clientId && r.data["scope"] == config.scope
    ensures "client_secret" !in r.data
  {
    Request(Post, md.deviceAuthorizationEndpoint, FormHeaders,
            map["client_id" := config.clientId, "scope" := config.scope])
  }

  /** The userinfo request: a GET whose Bearer credentials give back exactly the access token. */
  function UserInfoRequest(md: Metadata, accessToken: string): (r: Request)
    ensures r.verb == Get && r.url == md.userinfoEndpoint && r.data == map[]
    ensures r.headers.Keys == {"authorization", "accept"} && r.headers["accept"] == "application/json"
    ensures ParseBearer(r.headers["authorization"]) == Some(accessToken)
  {
    BearerRoundTrip(accessToken);
    Request(Get, md.userinfoEndpoint,
            map["authorization" := BearerCredentials(accessToken), "accept" := "application/json"],
            map[])
  }

  /** What every token request must be (section 3.4 of RFC 8628): a form POST
      to the token endpoint with the device-code grant type, the configured
      client id and the given device code, plus the secret exactly when the
      client is confidential. */
  ghost predicate IsTokenRequest(r: Request, config: Config, md: Metadata, deviceCode: string)
  {
    && r.verb == Post
    && r.url == md.tokenEndpoint
    && r.headers == FormHeaders
    && r.data.Keys == TokenRequestFields + (if SecretIsTruthy(config.clientSecret) then {"client_secret"} else {})
    && r.data["grant_type"] == DeviceCodeGrantType
    && r.data["client_id"] == config.clientId
    && r.data["device_code"] == deviceCode
    && (SecretIsTruthy(config.clientSecret) ==> r.data["client_secret"] == config.clientSecret.value)
  }

  /** The token request is determined by the configuration, the metadata and the device code. */
  lemma TokenRequestIsUnique(a: Request, b: Request, config: Config, md: Metadata, deviceCode: string)
    requires IsTokenRequest(a, config, md, deviceCode) && IsTokenRequest(b, config, md, deviceCode)
    ensures a == b
  {
  }

  /** Builds the token request: the literal with the three fields, to which a
      confidential client's secret is then added. */
  method PrepareTokenRequest(config: Config, md: Metadata, deviceCode: string) returns (options: Request)
    ensures IsTokenRequest(options, config, md, deviceCode)
  {
    options := Request(Post, md.tokenEndpoint, FormHeaders,
                       map["grant_type" := DeviceCodeGrantType,
                           "client_id" := config.clientId,
                           "device_code" := deviceCode]);
    if SecretIsTruthy(config.clientSecret) {
      options := options.(data := options.data["client_secret" := config.clientSecret.value]);
    }
  }

  // ---------------------------------------------------------------------------
  // Polling the token endpoint

  /** The wait before each poll: the server's interval when it is truthy, else
      the default of section 3.2 of RFC 8628. A wait is never zero seconds. */
  function WaitSeconds(interval: Option<int>): (seconds: int)
    ensures seconds != 0
    ensures IntervalIsTruthy(interval) <==> interval == Some(seconds)
    ensures !IntervalIsTruthy(interval) ==> seconds == DefaultPollInterval
  {
    if IntervalIsTruthy(interval) then interval.value else DefaultPollInterval
  }

  /** The index of the first successful reply, if any. */
  function FirstSuccess<T>(replies: seq<Reply<T>>): (n: Option<nat>)
    ensures n.Some? ==> n.value < |replies| && replies[n.value].Ok?
    ensures n.Some? ==> forall k | 0 <= k < n.value :: replies[k].Failed?
    ensures n.None? ==> forall k | 0 <= k < |replies| :: replies[k].Failed?
  {
    if |replies| == 0 then None
    else if replies[0].Ok? then Some(0)
    else match FirstSuccess(replies[1..])
      case None => None
      case Some(m) => Some(m + 1)
  }

  /** The token response the poller returns: the success body with its absolute
      expiry stamped, in milliseconds from `now`, and every other field as received. */
  function Stamped(body: TokenResponse, now: int): (token: TokenResponse)
    ensures token.expiry == Some(now + body.expiresIn * 1000)
    ensures token.(expiry := body.expiry) == body
  {
    body.(expiry := Some(now + body.expiresIn * 1000))
  }

  /** The number of polling rounds the loop makes on these replies: up to and
      including the first success, or all of them when none succeeds. */
  function AttemptsMade<T>(replies: seq<Reply<T>>): nat
  {
    match FirstSuccess(replies)
    case Some(n) => n + 1
    case None => |replies|
  }

  /** A log of `attempts` polling rounds: each round waits `WaitSeconds(interval)`
      and then sends the same token request. */
  ghost predicate IsPollLog(log: seq<Step>, config: Config, md: Metadata, deviceCode: string,
                            interval: Option<int>, attempts: nat)
  {
    && |log| == 2 * attempts
    && (attempts > 0 ==> log[1].Send? && IsTokenRequest(log[1].request, config, md, deviceCode))
    && forall k | 0 <= k < |log| :: log[k] == if k % 2 == 0 then Wait(WaitSeconds(interval)) else log[1]
  }

  /** The polling loop. Every failure, whatever its error code, is ignored and
      the loop repeats with the same wait; it exits on the first success. With
      the first success at index n it has made n + 1 rounds; with none, it has
      used every reply and has not returned. */
  method PollForToken(config: Config, md: Metadata, deviceCode: string, interval: Option<int>,
                      replies: seq<Reply<TokenResponse>>, now: int)
    returns (token: Option<TokenResponse>, log: seq<Step>)
    ensures token.Some? <==> FirstSuccess(replies).Some?
    ensures token.Some? ==> token.value == Stamped(replies[FirstSuccess(replies).value].body, now)
    ensures IsPollLog(log, config, md, deviceCode, interval, AttemptsMade(replies))
  {
    var options := PrepareTokenRequest(config, md, deviceCode);
    var response: Option<TokenResponse> := None;
    log := [];
    var i := 0;
    while response.None? && i < |replies|
      invariant 0 <= i <= |replies|
      invariant |log| == 2 * i
      invariant forall k | 0 <= k < |log| ::
        log[k] == if k % 2 == 0 then Wait(WaitSeconds(interval)) else Send(options)
      invariant response.None? ==> forall k | 0 <= k < i :: replies[k].Failed?
      invariant response.Some? ==>
        && 0 < i && replies[i - 1] == Ok(response.value)
        && forall k | 0 <= k < i - 1 :: replies[k].Failed?
    {
      log := log + [Wait(WaitSeconds(interval)), Send(options)];
      if replies[i].Ok? {
        response := Some(replies[i].body);
      }
      i := i + 1;
    }
    match response {
      case None =>
        token := None;
      case Some(body) =>
        var tokenResponse := body;
        tokenResponse := tokenResponse.(expiry := Some(now + tokenResponse.expiresIn * 1000));
        token := Some(tokenResponse);
    }
  }

  // ---------------------------------------------------------------------------
  // The whole flow

  /** The fixed order discovery -> device authorization -> polling -> userinfo.
      Polling uses the device code and interval of the device authorization
      response, and the userinfo call carries the polled access token. */
  method RunFlow(config: Config, discovery: Reply<Metadata>, authorization: Reply<DeviceAuthorization>,
                 polls: seq<Reply<TokenResponse>>, profile: Reply<UserInfo>, now: int)
    returns (outcome: FlowOutcome, log: seq<Step>)
    ensures 1 <= |log| && log[0] == Send(DiscoveryRequest(config))
    ensures discovery.Failed? ==> outcome == DiscoveryFailed(discovery.error) && |log| == 1
    ensures discovery.Ok? ==>
      2 <= |log| && log[1] == Send(DeviceAuthorizationRequest(config, discovery.body))
    ensures discovery.Ok? && authorization.Failed? ==>
      outcome == AuthorizationFailed(authorization.error) && |log| == 2
    ensures discovery.Ok? && authorization.Ok? ==>
      var md, auth := discovery.body, authorization.body;
      match FirstSuccess(polls)
      case None =>
        && outcome == StillPolling
        && IsPollLog(log[2..], config, md, auth.deviceCode, auth.interval, |polls|)
      case Some(n) =>
        var token := Stamped(polls[n].body, now);
        && |log| == 2 * n + 5
        && IsPollLog(log[2..|log| - 1], config, md, auth.deviceCode, auth.interval, n + 1)
        && log[|log| - 1] == Send(UserInfoRequest(md, token.accessToken))
        && outcome == match profile
           case Ok(info) => Welcomed(token, info)
           case Failed(e) => UserInfoFailed(e)
  {
    var options := DiscoveryRequest(config);
    log := [Send(options)];
    if discovery.Failed? {
      outcome := DiscoveryFailed(discovery.error);
      return;
    }
    var md := discovery.body;

    options := DeviceAuthorizationRequest(config, md);
    log := log + [Send(options)];
    if authorization.Failed? {
      outcome := AuthorizationFailed(authorization.error);
      return;
    }
    var auth := authorization.body;

    var token, pollLog := PollForToken(config, md, auth.deviceCode, auth.interval, polls, now);
    log := log + pollLog;
    assert log[2..] == pollLog;
    if token.None? {
      outcome := StillPolling;
      return;
    }

    options := UserInfoRequest(md, token.value.accessToken);
    log := log + [Send(options)];
    assert log[2..|log| - 1] == pollLog;
    if profile.Failed? {
      outcome := UserInfoFailed(profile.error);
      return;
    }
    outcome := Welcomed(token.value, profile.body);
  }

  // ---------------------------------------------------------------------------
  // Properties of polling

  /** Only the positions and bodies of the successes decide where polling stops:
      two reply sequences that differ only in their error codes stop at the same
      index, so `access_denied`, `expired_token` and `slow_down` are as good as
      `authorization_pending`. */
  lemma ErrorCodesAreIgnored<T>(a: seq<Reply<T>>, b: seq<Reply<T>>)
    requires |a| == |b|
    requires forall k | 0 <= k < |a| :: a[k].Ok? <==> b[k].Ok?
    ensures FirstSuccess(a) == FirstSuccess(b)
  {
  }

  /** N failures of any kind followed by a success: the success is found at index N. */
  lemma {:induction false} FailuresThenSuccess<T>(failures: seq<Reply<T>>, body: T, rest: seq<Reply<T>>)
    requires forall k | 0 <= k < |failures| :: failures[k].Failed?
    ensures FirstSuccess(failures + [Ok(body)] + rest) == Some(|failures|)
  {
    var replies := failures + [Ok(body)] + rest;
    assert replies[|failures|] == Ok(body);
    assert forall k | 0 <= k < |failures| :: replies[k] == failures[k];
  }

  /** Round k of a poll log waits the same, unchanged interval and then sends
      the token request. */
  lemma PollLogRounds(log: seq<Step>, config: Config, md: Metadata, deviceCode: string,
                      interval: Option<int>, attempts: nat, k: nat)
    requires IsPollLog(log, config, md, deviceCode, interval, attempts)
    requires k < attempts
    ensures log[2 * k] == Wait(WaitSeconds(interval))
    ensures log[2 * k + 1].Send? && IsTokenRequest(log[2 * k + 1].request, config, md, deviceCode)
  {
  }
}
