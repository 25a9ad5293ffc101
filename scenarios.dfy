/** Concrete runs of the flow, derived from the contract of `RunFlow` alone. */
module Scenarios {
  import opened Http
  import opened DeviceFlow

  const Client := Config("https://as.example/.well-known/openid-configuration", "C1", None, "openid profile")
  const Endpoints := Metadata("https://as.example/device", "https://as.example/token", "https://as.example/userinfo")
  const Token := TokenResponse("T1", "Bearer", 3600, None, None, None)

  /** One `authorization_pending`, then a token: two polling rounds of five
      seconds each, then the userinfo call with `Bearer T1`. */
  method PendingThenSuccess() returns (outcome: FlowOutcome, log: seq<Step>)
    ensures outcome == Welcomed(Token.(expiry := Some(1000 + 3600 * 1000)), UserInfo("Alice", "al"))
    ensures |log| == 7
    ensures log[2] == log[4] == Wait(5)
    ensures log[6] == Send(UserInfoRequest(Endpoints, "T1"))
    ensures log[6].request.headers["authorization"] == "Bearer T1"
  {
    var auth := DeviceAuthorization("D1", "U1", "https://x/verify?u=U1", 1800, Some(5));
    var polls := [Failed(Some("authorization_pending")), Ok(Token)];
    assert FirstSuccess(polls) == Some(1);
    outcome, log := RunFlow(Client, Ok(Endpoints), Ok(auth), polls, Ok(UserInfo("Alice", "al")), 1000);
    PollLogRounds(log[2..6], Client, Endpoints, "D1", Some(5), 2, 0);
    PollLogRounds(log[2..6], Client, Endpoints, "D1", Some(5), 2, 1);
  }

  /** `slow_down`, `access_denied` and `expired_token` are all retried with the
      unchanged default wait (the server sent no interval), and the fourth
      attempt's token is returned. */
  method ErrorsAreRetried() returns (outcome: FlowOutcome, log: seq<Step>)
    ensures outcome.Welcomed? && outcome.token.accessToken == "T1"
    ensures |log| == 11
    ensures log[2] == log[4] == log[6] == log[8] == Wait(DefaultPollInterval)
  {
    var auth := DeviceAuthorization("D1", "U1", "https://x/verify?u=U1", 1800, None);
    var failures := [Failed(Some("slow_down")), Failed(Some("access_denied")), Failed(Some("expired_token"))];
    var polls := failures + [Ok(Token)];
    FailuresThenSuccess(failures, Token, []);
    assert failures + [Ok(Token)] + [] == polls;
    outcome, log := RunFlow(Client, Ok(Endpoints), Ok(auth), polls, Ok(UserInfo("Alice", "al")), 0);
    var rounds := log[2..10];
    PollLogRounds(rounds, Client, Endpoints, "D1", None, 4, 0);
    PollLogRounds(rounds, Client, Endpoints, "D1", None, 4, 1);
    PollLogRounds(rounds, Client, Endpoints, "D1", None, 4, 2);
    PollLogRounds(rounds, Client, Endpoints, "D1", None, 4, 3);
  }
}
