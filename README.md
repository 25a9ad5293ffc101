# OAuth 2.0 device authorization flow client — a Dafny model

This project models `device-flow.js`. That program is the client side of the OAuth 2.0 Device Authorization Grant (RFC 8628) and runs four steps:

1. It fetches the authorization server's discovery document.
2. It asks the device authorization endpoint for a device code.
3. It polls the token endpoint until the first successful answer, then stamps an absolute expiry on the token.
4. It calls the userinfo endpoint with the access token as Bearer credentials (section 2.1 of RFC 6750).

The model has three modules:

- `Http` (`http.dfy`) holds the values exchanged with the transport:
  - `Request` is what is sent: a verb, a URL, headers, and form fields.
  - `Reply` is a success body, or a failure with the optional `error` code of the error body.
  - `Step` records one wait or one call.
  - It also builds the Bearer header, and `ParseBearer` reads it the way a resource server does.
- `DeviceFlow` (`device_flow.dfy`) covers the flow itself:
  - the configuration and response records;
  - the request builders;
  - `PrepareTokenRequest`, which builds the token request and then adds the secret in place for a confidential client;
  - the polling loop `PollForToken`;
  - the whole sequence `RunFlow`.
- `Scenarios` (`scenarios.dfy`) holds concrete runs that are derived only from `RunFlow`'s contract.

The transport's answers are passed in as values:

- one `Reply` for discovery;
- one for device authorization;
- a sequence of `Reply` values, one per poll;
- one for userinfo.

The clock reading used for the expiry is a parameter, `now`. Each requested delay is recorded as a `Wait(seconds)` step in the log, in order with the calls.

The model follows what the code does, not everything RFC 8628 asks for:

- Every failed poll is ignored, whatever its error code, including `slow_down`, `access_denied` and `expired_token`.
- The wait never changes between polls.
- The loop stops only at a success.
- Each round waits before it sends, so the first poll also comes after one full interval.

JavaScript truthiness is written out:

- The secret is sent only when it is set and non-empty (`SecretIsTruthy`).
- The interval is used only when it is present and non-zero (`IntervalIsTruthy`). Otherwise the wait is 5 seconds.

The real loop never ends if no poll succeeds. In the model, the sequence of poll replies is finite. `PollForToken` returns `None` when that sequence runs out without a success. At that point the program would still be polling. `RunFlow` reports this case as `StillPolling`.

The program keeps the discovery document in a global `config.metadata`. The model passes it as a `Metadata` value instead.

## Model

| member | source | states |
|---|---|---|
| `DeviceFlow.DiscoveryRequest` | device-flow.js:21-28 | The discovery call is a GET to the configured discovery URL. Its only header is `accept: application/json`. It has no body. |
| `DeviceFlow.DeviceAuthorizationRequest` | device-flow.js:38-47 | The device authorization call is a form POST to the metadata's `device_authorization_endpoint`. Its fields are exactly `client_id` and `scope` from the configuration, so it never carries the client secret. |
| `DeviceFlow.PrepareTokenRequest` | device-flow.js:101-116 | The token request is a form POST to `token_endpoint`. It has `grant_type` = the device-code grant URN, the configured `client_id`, and exactly the given `device_code`. It has `client_secret` if and only if the secret is truthy, and then it holds that secret. It has no other field. |
| `DeviceFlow.TokenRequestIsUnique` | device-flow.js:102-116 | Any two requests that satisfy the token-request description for the same configuration, metadata and device code are equal. So the request is fully determined by those three. |
| `DeviceFlow.WaitSeconds` | device-flow.js:128 | The wait is the server's interval when that is truthy, and 5 seconds (section 3.2 of RFC 8628) otherwise. It is never 0. |
| `DeviceFlow.FirstSuccess` | device-flow.js:122-137 | The loop's exit point is the index of the first successful reply, and every earlier reply is a failure. `None` means every reply is a failure. |
| `DeviceFlow.Stamped` | device-flow.js:144-147 | The returned token has `expiry = now + expires_in * 1000`. Every other field is as received. |
| `DeviceFlow.PollForToken` | device-flow.js:99-151 | With the first success at index n, there are exactly n + 1 rounds. Each round waits `WaitSeconds(interval)` and then sends the same token request. The result is that success's body, stamped. With no success, every reply is used, there is one round per reply, and nothing is returned. |
| `DeviceFlow.RunFlow` | device-flow.js:19-87 | The calls go in order: discovery, device authorization, polling rounds with the authorization's `device_code` and `interval`, then the userinfo GET carrying the polled access token. A failed discovery, authorization or userinfo call ends the flow at that call. Userinfo is requested only after polling has returned a token. |
| `DeviceFlow.UserInfoRequest` | device-flow.js:66-74 | The userinfo call is a GET to `userinfo_endpoint`. Its `authorization` header parses back as Bearer credentials to exactly the access token, and it also sends `accept: application/json`. |
| `Http.BearerRoundTrip` | device-flow.js:71 | Parsing the header built as `'Bearer ' + access_token` gives back exactly the access token. |
| `DeviceFlow.ErrorCodesAreIgnored` | device-flow.js:130-133 | Two reply sequences that differ only in their error codes stop polling at the same index. So `access_denied`, `expired_token` and `slow_down` act the same as `authorization_pending`. |
| `DeviceFlow.FailuresThenSuccess` | device-flow.js:125-137 | N failures of any kind followed by a success make the success be found at index N, so there are N + 1 attempts. |
| `DeviceFlow.PollLogRounds` | device-flow.js:125-137 | In a polling log, round k waits the unchanged interval and then sends a valid token request. There is no slow-down increase. |
| `Scenarios.PendingThenSuccess` | device-flow.js:19-87 | One `authorization_pending` reply and then token `T1` give two 5-second rounds, the stamped token, and a userinfo call with `Bearer T1`. |
| `Scenarios.ErrorsAreRetried` | device-flow.js:125-137 | `slow_down`, `access_denied` and `expired_token` are each followed by another round at the unchanged 5-second default. The fourth reply's token is returned. |

## Left out

- The HTTP calls themselves (axios). Each call's answer is an injected `Reply`. Form encoding and the order of fields in the body are not modelled.
- Reading `.env` into `process.env`. The configuration is passed in as a `Config` value, and its URL, client id and scope are assumed to be strings. An unset variable would become `undefined` in the request, and that case is not modelled.
- Console output and `JSON.stringify`. These are display only. This includes the user code and verification URL printed for the user and the final welcome lines.
- The real timer behind `delay`. Only the requested number of seconds is recorded.
- `new Date().getTime()`. It is the `now` parameter.
- Async scheduling. Only the sequential order of calls and waits is kept.
- Parsing JSON bodies. A reply body is already a typed record. A discovery document without an endpoint, a token body without a numeric `expires_in` (which gives `NaN` in JavaScript), and JSON fields beyond those in the records are not modelled.
- JavaScript numbers are doubles. `expires_in * 1000` and the interval are modelled as unbounded integers, so fractional intervals and rounding are not modelled.
- `PollForToken`: a run where no poll ever succeeds never returns in the program. The model stops when its finite sequence of replies runs out and reports that polling is still going on.
