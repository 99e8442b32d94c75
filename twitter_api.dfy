/**
 * The authenticated HTTP layer of the bot (main.py): the four credentials,
 * the OAuth2 refresh, and the call wrapper that refreshes once on a 401 and
 * retries once. HTTP itself is an input: `Server` gives the response to the
 * n-th request the process sends, so a run is determined by the requests
 * already in the log. These are the specification functions; the Bot class
 * implements them over its mutable fields.
 */
module TwitterApi {
  import opened Wrappers

  datatype Credentials = Credentials(accessToken: string, refreshToken: string, clientId: string, clientSecret: string)

  /** A timeline entry as the API returns it; ids are numeric, times are instants as integers. */
  datatype Tweet = Tweet(id: nat, authorId: string, createdAt: Option<int>, text: string)

  /** An entry of `includes.users`; `name` is absent when the API leaves it out. */
  datatype User = User(id: string, name: Option<string>)

  datatype Verb = Get | Post

  datatype Endpoint = TokenEndpoint | HomeTimeline(userId: string) | Tweets

  /** The query of a timeline request; `sinceId` is sent only when present. */
  datatype TimelineParams = TimelineParams(maxResults: nat, sinceId: Option<nat>)

  /** The JSON body of POST /2/tweets: the text and, for a reply, `reply.in_reply_to_tweet_id`. */
  datatype PostBody = PostBody(text: string, inReplyTo: Option<nat>)

  /** One HTTP request as it leaves the process. */
  datatype Request =
    | ApiRequest(verb: Verb, endpoint: Endpoint, bearer: string, params: Option<TimelineParams>, json: Option<PostBody>)
    | TokenRequest(refreshToken: string, clientId: string, clientSecret: string)

  /**
   * The decoded body of a response, reduced to the keys the bot reads.
   * A token response may lack `access_token` and `refresh_token`; a
   * timeline response may lack `data`, and missing `includes.users`
   * reads as the empty list. Any other body is `OtherJson`.
   */
  datatype Json =
    | TokenJson(accessToken: Option<string>, refreshToken: Option<string>)
    | TimelineJson(data: Option<seq<Tweet>>, users: seq<User>)
    | OtherJson

  datatype Response = Response(status: int, json: Json)

  /** The exceptions the layer raises. */
  datatype Failure =
    | UnsupportedMethod(verb: string)
    | HttpError(status: int)
    | RefreshRejected(status: int)
    | NoAccessToken
    | NoUserId

  /** The response the server gives to the n-th request (counting from 0). */
  type Server = nat -> Response

  /** Credentials in memory, every save to the token file in order, and every request sent in order. */
  datatype Net = Net(creds: Credentials, saved: seq<Credentials>, sent: seq<Request>)

  /**
   * str.upper() of one character, restricted to the characters whose upper
   * case is a single ASCII letter: the lower-case ASCII letters, dotless i
   * and long s. Those are the only upper cases a comparison with "GET" or
   * "POST" can see; every other character is kept as it is.
   */
  function UpperChar(c: char): (u: char)
    ensures 'a' <= c <= 'z' ==> u == c - 'a' + 'A'
    ensures c == '\U{131}' ==> u == 'I'
    ensures c == '\U{17f}' ==> u == 'S'
    ensures !('a' <= c <= 'z') && c != '\U{131}' && c != '\U{17f}' ==> u == c
  {
    if 'a' <= c <= 'z' then c - 'a' + 'A'
    else if c == '\U{131}' then 'I'      // dotless i
    else if c == '\U{17f}' then 'S'      // long s
    else c
  }

  function Upper(s: string): (r: string)
    ensures |r| == |s|
  {
    seq(|s|, i requires 0 <= i < |s| => UpperChar(s[i]))
  }

  /** `method.upper()` compared with "GET" and "POST"; anything else is unsupported. */
  function ParseVerb(m: string): (v: Option<Verb>)
    ensures v == Some(Get) <==> Upper(m) == "GET"
    ensures v == Some(Post) <==> Upper(m) == "POST"
    ensures v.Some? ==> |m| == (if v.value == Get then 3 else 4)
  {
    if Upper(m) == "GET" then Some(Get)
    else if Upper(m) == "POST" then Some(Post)
    else None
  }

  /** Two strings that differ only in the case of ASCII letters. */
  predicate SameUpToAsciiCase(a: string, b: string)
  {
    |a| == |b| &&
    forall i :: 0 <= i < |a| ==>
      a[i] == b[i] || ('a' <= a[i] <= 'z' && b[i] == a[i] - 'a' + 'A') || ('a' <= b[i] <= 'z' && a[i] == b[i] - 'a' + 'A')
  }

  /** The method name is matched case-insensitively: changing the case of its ASCII letters never changes the verdict. */
  lemma VerbIsCaseInsensitive(a: string, b: string)
    requires SameUpToAsciiCase(a, b)
    ensures ParseVerb(a) == ParseVerb(b)
  {
    assert Upper(a) == Upper(b) by {
      forall i | 0 <= i < |a| ensures Upper(a)[i] == Upper(b)[i] { }
    }
  }

  /** "get" in lower case is GET, "PoSt" in mixed case is POST, "poſt" with a long s is POST, and "put" is not supported. */
  lemma VerbSpellings()
    ensures ParseVerb("get") == Some(Get)
    ensures ParseVerb("PoSt") == Some(Post)
    ensures ParseVerb("po\U{17f}t") == Some(Post)
    ensures ParseVerb("put") == None
  {
    assert Upper("get") == "GET";
    assert Upper("PoSt") == "POST";
    assert Upper("po\U{17f}t") == "POST";
    assert Upper("put")[0] == 'P';
  }

  /** The spellings the bot itself uses. */
  lemma CanonicalVerbs()
    ensures ParseVerb("GET") == Some(Get) && ParseVerb("POST") == Some(Post)
  {
    assert Upper("GET") == "GET";
    assert Upper("POST") == "POST";
  }

  /** requests' raise_for_status(): client errors (4xx) and server errors (5xx) raise; every other status passes. */
  predicate RaisesForStatus(status: int)
    ensures RaisesForStatus(status) <==> status / 100 == 4 || status / 100 == 5
  {
    400 <= status < 600
  }

  /** The token requests in a slice of the request log. */
  function TokenRequests(rs: seq<Request>): (n: nat)
    ensures n <= |rs|
  {
    if rs == [] then 0 else (if rs[0].TokenRequest? then 1 else 0) + TokenRequests(rs[1..])
  }

  /**
   * refresh_user_access_token: POST the refresh grant; on a status other
   * than 200, or a body without access_token, raise and change nothing
   * else; otherwise take the new access token, take the new refresh token
   * only if one came back, and save exactly the resulting four values.
   */
  function Refresh(server: Server, n: Net): (r: (Net, Outcome<Failure>))
    ensures r.0.sent == n.sent + [TokenRequest(n.creds.refreshToken, n.creds.clientId, n.creds.clientSecret)]
    ensures server(|n.sent|).status != 200 ==> r.1 == Fail(RefreshRejected(server(|n.sent|).status))
    ensures r.1.Fail? ==> r.0.creds == n.creds && r.0.saved == n.saved
    ensures r.1.Pass? <==> server(|n.sent|).status == 200 && server(|n.sent|).json.TokenJson? && server(|n.sent|).json.accessToken.Some?
    ensures r.1.Pass? ==>
      var j := server(|n.sent|).json;
      r.0.creds == Credentials(j.accessToken.value,
                               if j.refreshToken.Some? then j.refreshToken.value else n.creds.refreshToken,
                               n.creds.clientId, n.creds.clientSecret) &&
      r.0.saved == n.saved + [r.0.creds]
  {
    var sent := n.sent + [TokenRequest(n.creds.refreshToken, n.creds.clientId, n.creds.clientSecret)];
    var resp := server(|n.sent|);
    if resp.status != 200 then
      (n.(sent := sent), Fail(RefreshRejected(resp.status)))
    else
      match resp.json
      case TokenJson(Some(access), refresh) =>
        var creds := n.creds.(accessToken := access,
                              refreshToken := if refresh.Some? then refresh.value else n.creds.refreshToken);
        (Net(creds, n.saved + [creds], sent), Pass)
      case _ =>
        (n.(sent := sent), Fail(NoAccessToken))
  }

  /** The request call_twitter_api sends for a supported verb: GET carries no JSON body. */
  function ApiRequestFor(v: Verb, endpoint: Endpoint, bearer: string, params: Option<TimelineParams>, json: Option<PostBody>): Request
  {
    ApiRequest(v, endpoint, bearer, params, if v == Post then json else None)
  }

  /**
   * call_twitter_api(method, endpoint, params, json_body, retry): an
   * unsupported method raises before anything is sent; otherwise one
   * request goes out with the current access token; a 401 while `retry`
   * holds refreshes and recurses once with `retry` false; any other
   * 4xx/5xx raises; otherwise the body is returned.
   */
  function Call(server: Server, n: Net, verb: string, endpoint: Endpoint,
                params: Option<TimelineParams>, json: Option<PostBody>, retry: bool): (r: (Net, Result<Json, Failure>))
    decreases retry
    ensures ParseVerb(verb).None? ==> r == (n, Failure(UnsupportedMethod(verb)))
    ensures ParseVerb(verb).Some? ==>
      n.sent < r.0.sent && r.0.sent[|n.sent|] == ApiRequestFor(ParseVerb(verb).value, endpoint, n.creds.accessToken, params, json)
    ensures |r.0.sent| <= |n.sent| + (if retry then 3 else 1)
    ensures n.sent <= r.0.sent && TokenRequests(r.0.sent[|n.sent|..]) <= (if retry then 1 else 0)
    ensures n.saved <= r.0.saved && |r.0.saved| <= |n.saved| + (if retry then 1 else 0)
    ensures r.0.creds.clientId == n.creds.clientId && r.0.creds.clientSecret == n.creds.clientSecret
    ensures !retry ==> r.0.creds == n.creds && r.0.saved == n.saved
    // One attempt: the first response decides, unless it is a 401 that may still be retried.
    ensures ParseVerb(verb).Some? && (!retry || server(|n.sent|).status != 401) ==>
      var s := server(|n.sent|).status;
      |r.0.sent| == |n.sent| + 1 && r.0.creds == n.creds && r.0.saved == n.saved &&
      r.1 == (if RaisesForStatus(s) then Failure(HttpError(s)) else Success(server(|n.sent|).json))
    // Recovery: a 401, a refresh that succeeds, and a retry with the new token whose response decides.
    ensures ParseVerb(verb).Some? && retry && server(|n.sent|).status == 401 &&
            Refresh(server, n.(sent := n.sent + [ApiRequestFor(ParseVerb(verb).value, endpoint, n.creds.accessToken, params, json)])).1.Pass? ==>
      var s := server(|n.sent| + 2).status;
      var newToken := server(|n.sent| + 1).json.accessToken.value;
      |r.0.sent| == |n.sent| + 3 &&
      r.0.sent[|n.sent| + 1] == TokenRequest(n.creds.refreshToken, n.creds.clientId, n.creds.clientSecret) &&
      r.0.sent[|n.sent| + 2] == ApiRequestFor(ParseVerb(verb).value, endpoint, newToken, params, json) &&
      r.0.creds.accessToken == newToken && |r.0.saved| == |n.saved| + 1 && r.0.saved[|n.saved|] == r.0.creds &&
      r.1 == (if RaisesForStatus(s) then Failure(HttpError(s)) else Success(server(|n.sent| + 2).json))
    ensures r.1.Success? ==>
      |r.0.sent| > |n.sent| && !RaisesForStatus(server(|r.0.sent| - 1).status) &&
      r.1.value == server(|r.0.sent| - 1).json
    // After a 401 with `retry`: a failed refresh is the call's failure; a successful one leaves the refreshed credentials.
    ensures ParseVerb(verb).Some? && retry && server(|n.sent|).status == 401 ==>
      var rf := Refresh(server, n.(sent := n.sent + [ApiRequestFor(ParseVerb(verb).value, endpoint, n.creds.accessToken, params, json)]));
      (rf.1.Fail? ==> r == (rf.0, Failure(rf.1.error))) && (rf.1.Pass? ==> r.0.creds == rf.0.creds)
  {
    match ParseVerb(verb)
    case None => (n, Failure(UnsupportedMethod(verb)))
    case Some(v) =>
      var n1 := n.(sent := n.sent + [ApiRequestFor(v, endpoint, n.creds.accessToken, params, json)]);
      var resp := server(|n.sent|);
      if resp.status == 401 && retry then
        var (n2, refreshed) := Refresh(server, n1);
        if refreshed.Fail? then (n2, Failure(refreshed.error))
        else
          var r := Call(server, n2, verb, endpoint, params, json, false);
          assert r.0.sent[|n.sent|..] == n2.sent[|n.sent|..] + r.0.sent[|n2.sent|..];
          assert n2.sent[|n.sent|..] == [n1.sent[|n.sent|], n2.sent[|n1.sent|]];
          r
      else if RaisesForStatus(resp.status) then (n1, Failure(HttpError(resp.status)))
      else (n1, Success(resp.json))
  }

  /**
   * A 401 on the second attempt is not retried: after one refresh and one
   * retry it raises, with exactly three requests sent (the call, the
   * refresh, the retry carrying the new token) and one save.
   */
  lemma SecondUnauthorizedRaises(server: Server, n: Net, verb: string, endpoint: Endpoint,
                                 params: Option<TimelineParams>, json: Option<PostBody>)
    requires ParseVerb(verb).Some?
    requires server(|n.sent|).status == 401
    requires Refresh(server, n.(sent := n.sent + [ApiRequestFor(ParseVerb(verb).value, endpoint, n.creds.accessToken, params, json)])).1.Pass?
    requires server(|n.sent| + 2).status == 401
    ensures var r := Call(server, n, verb, endpoint, params, json, true);
      r.1 == Failure(HttpError(401)) &&
      |r.0.sent| == |n.sent| + 3 &&
      r.0.sent[|n.sent| + 1] == TokenRequest(n.creds.refreshToken, n.creds.clientId, n.creds.clientSecret) &&
      r.0.sent[|n.sent| + 2] == ApiRequestFor(ParseVerb(verb).value, endpoint, r.0.creds.accessToken, params, json) &&
      |r.0.saved| == |n.saved| + 1 && r.0.saved[|n.saved|] == r.0.creds
  {
  }

  /** Without `retry`, a 401 raises at once: one request, no refresh, no save. */
  lemma UnauthorizedWithoutRetryRaises(server: Server, n: Net, verb: string, endpoint: Endpoint,
                                       params: Option<TimelineParams>, json: Option<PostBody>)
    requires ParseVerb(verb).Some?
    requires server(|n.sent|).status == 401
    ensures var r := Call(server, n, verb, endpoint, params, json, false);
      r.1 == Failure(HttpError(401)) && |r.0.sent| == |n.sent| + 1 && r.0.creds == n.creds && r.0.saved == n.saved
  {
  }

  /** A failed refresh during a call is the call's failure, and the credentials stay as they were. */
  lemma FailedRefreshFailsCall(server: Server, n: Net, verb: string, endpoint: Endpoint,
                               params: Option<TimelineParams>, json: Option<PostBody>)
    requires ParseVerb(verb).Some?
    requires server(|n.sent|).status == 401
    requires Refresh(server, n.(sent := n.sent + [ApiRequestFor(ParseVerb(verb).value, endpoint, n.creds.accessToken, params, json)])).1.Fail?
    ensures var r := Call(server, n, verb, endpoint, params, json, true);
      r.1 == Failure(Refresh(server, n.(sent := n.sent + [ApiRequestFor(ParseVerb(verb).value, endpoint, n.creds.accessToken, params, json)])).1.error) &&
      |r.0.sent| == |n.sent| + 2 && r.0.creds == n.creds && r.0.saved == n.saved
  {
  }
}
