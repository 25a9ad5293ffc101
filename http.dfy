/** Values exchanged with the HTTP transport: the calls the client hands to it,
    what it hands back, and the Bearer credentials of section 2.1 of RFC 6750.
    The transport itself is not modelled: its answers are injected as values. */
module Http {

  datatype Option<+T> = None | Some(value: T)

  datatype HttpMethod = Get | Post

  /** One call: verb, URL, headers, and the form fields of the body
      (empty for a GET, which carries no body). */
  datatype Request = Request(verb: HttpMethod, url: string,
                             headers: map<string, string>, data: map<string, string>)

  /** The transport's answer to one call: the parsed JSON body of a 2xx response,
      or a failure carrying the `error` member of the error body, when there is one. */
  datatype Reply<+T> = Ok(body: T) | Failed(error: Option<string>)

  /** One observable step of the client: a timed wait (in seconds) or a call. */
  datatype Step = Wait(seconds: int) | Send(request: Request)

  const BearerScheme := "Bearer "

  /** The `authorization` header value for an access token. */
  function BearerCredentials(token: string): string
  {
    BearerScheme + token
  }

  /** The resource server's reading of an `authorization` header: the token
      after the `Bearer ` scheme, or None when the header has another scheme. */
  function ParseBearer(header: string): (token: Option<string>)
    ensures token.Some? <==> |BearerScheme| <= |header| && header[..|BearerScheme|] == BearerScheme
    ensures token.Some? ==> |token.value| == |header| - |BearerScheme|
    ensures token.Some? ==> forall i | 0 <= i < |token.value| :: token.value[i] == header[i + |BearerScheme|]
  {
    if |BearerScheme| <= |header| && header[..|BearerScheme|] == BearerScheme
    then Some(header[|BearerScheme|..])
    else None
  }

  /** The header the client builds gives the resource server back exactly the token. */
  lemma BearerRoundTrip(token: string)
    ensures ParseBearer(BearerCredentials(token)) == Some(token)
  {
  }
}
