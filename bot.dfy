/**
 * The bot process of main.py as an object: its module-level globals
 * (the four credentials, the processed ids, last_seen_id) are fields, the
 * token-file saves, the HTTP requests, the executed agent payloads and the
 * posted bodies are append-only logs, and each function of the source is a
 * method that updates them step by step. Every method is proved to leave
 * exactly the state the specification functions of TwitterApi and Poller
 * describe, so the lemmas proved there hold of the object.
 */
module BotProcess {
  import opened Wrappers
  import opened TwitterApi
  import opened Poller
  import Agent

  /** fetch_home_timeline's loop over `includes.users`: later entries overwrite earlier ones. */
  method BuildUsersMap(users: seq<User>) returns (m: map<string, User>)
    ensures m == UsersMap(users)
  {
    m := map[];
    var i := 0;
    while i < |users|
      invariant 0 <= i <= |users|
      invariant m == UsersMap(users[..i])
    {
      assert users[..i + 1][..i] == users[..i];
      m := m[users[i].id := users[i]];
      i := i + 1;
    }
    assert users[..|users|] == users;
  }

  class Bot {
    var accessToken: string
    var refreshToken: string
    var clientId: string
    var clientSecret: string
    /** Every rewrite of the token file, in order. */
    var saved: seq<Credentials>
    /** Every HTTP request sent, in order; the n-th receives server(n). */
    var sent: seq<Request>
    var processed: set<nat>
    var lastSeenId: Option<nat>
    /** Every payload given to the hosted agent, in order; the n-th is answered by agent(n, payload). */
    var executed: seq<Agent.Payload>
    /** Every body post_tweet tried to post, in order. */
    var posts: seq<PostBody>

    const userId: string
    const startTime: int
    const server: Server
    const agent: Oracle

    function Environment(): Env
    {
      Env(userId, startTime, server, agent)
    }

    function NetState(): Net
      reads this
    {
      Net(Credentials(accessToken, refreshToken, clientId, clientSecret), saved, sent)
    }

    function State(): Machine
      reads this
    {
      Machine(NetState(), processed, lastSeenId, executed, posts)
    }

    /** The process after loading its tokens and its user id, before the first poll. */
    constructor (creds: Credentials, userId: string, startTime: int, server: Server, agent: Oracle)
      ensures State() == Machine(Net(creds, [], []), {}, None, [], [])
      ensures this.userId == userId && this.startTime == startTime
      ensures this.server == server && this.agent == agent
    {
      accessToken, refreshToken := creds.accessToken, creds.refreshToken;
      clientId, clientSecret := creds.clientId, creds.clientSecret;
      saved, sent := [], [];
      processed, lastSeenId := {}, None;
      executed, posts := [], [];
      this.userId, this.startTime := userId, startTime;
      this.server, this.agent := server, agent;
    }

    /** refresh_user_access_token. */
    method RefreshUserAccessToken() returns (o: Outcome<Failure>)
      modifies this
      ensures NetState() == Refresh(server, old(NetState())).0 && o == Refresh(server, old(NetState())).1
      ensures State() == old(State()).(net := NetState())
    {
      var n := |sent|;
      sent := sent + [TokenRequest(refreshToken, clientId, clientSecret)];
      var resp := server(n);
      if resp.status != 200 {
        return Fail(RefreshRejected(resp.status));
      }
      match resp.json {
        case TokenJson(Some(access), refresh) =>
          accessToken := access;
          if refresh.Some? {
            refreshToken := refresh.value;
          }
          saved := saved + [Credentials(accessToken, refreshToken, clientId, clientSecret)];
          return Pass;
        case _ =>
          return Fail(NoAccessToken);
      }
    }

    /** call_twitter_api: the retry is the recursive call with `retry` false, made after the refresh updated the token. */
    method CallTwitterApi(verb: string, endpoint: Endpoint, params: Option<TimelineParams>, json: Option<PostBody>, retry: bool)
      returns (r: Result<Json, Failure>)
      modifies this
      decreases retry
      ensures NetState() == Call(server, old(NetState()), verb, endpoint, params, json, retry).0
      ensures r == Call(server, old(NetState()), verb, endpoint, params, json, retry).1
      ensures State() == old(State()).(net := NetState())
    {
      var v: Verb;
      match ParseVerb(verb) {
        case None => return Failure(UnsupportedMethod(verb));
        case Some(w) => v := w;
      }
      var n := |sent|;
      sent := sent + [ApiRequestFor(v, endpoint, accessToken, params, json)];
      var resp := server(n);
      if resp.status == 401 && retry {
        var refreshed := RefreshUserAccessToken();
        if refreshed.Fail? {
          return Failure(refreshed.error);
        }
        r := CallTwitterApi(verb, endpoint, params, json, false);
        return;
      }
      if RaisesForStatus(resp.status) {
        return Failure(HttpError(resp.status));
      }
      return Success(resp.json);
    }

    /** fetch_home_timeline. */
    method FetchHomeTimeline(sinceId: Option<nat>, maxResults: nat) returns (r: Result<(seq<Tweet>, map<string, User>), Failure>)
      modifies this
      ensures (State(), r) == Fetch(Environment(), old(State()), sinceId, maxResults)
    {
      if userId == "" {
        return Failure(NoUserId);
      }
      var data := CallTwitterApi("GET", HomeTimeline(userId), Some(TimelineParams(maxResults, sinceId)), None, true);
      if data.Failure? {
        return Failure(data.error);
      }
      match data.value {
        case TimelineJson(Some(tweets), users) =>
          var usersMap := BuildUsersMap(users);
          return Success((tweets, usersMap));
        case _ =>
          return Success(([], map[]));
      }
    }

    /** execute_payload: the hosted agent's answer to the payload. */
    method ExecutePayload(p: Agent.Payload) returns (answer: string)
      modifies this
      ensures (State(), answer) == Execute(Environment(), old(State()), p)
    {
      answer := agent(|executed|, p);
      executed := executed + [p];
    }

    /** post_tweet: a failed post is swallowed. */
    method PostTweet(content: string, inReplyTo: Option<nat>)
      modifies this
      ensures State() == Poller.PostTweet(Environment(), old(State()), content, inReplyTo)
    {
      var body := PostBody(content, inReplyTo);
      var _ := CallTwitterApi("POST", Tweets, None, Some(body), true);
      posts := posts + [body];
    }

    /** handle_new_tweet. */
    method HandleNewTweet(t: Tweet, author: string)
      modifies this
      ensures State() == Handle(Environment(), old(State()), t, author)
    {
      if t.id in processed {
        return;
      }
      processed := processed + {t.id};
      var decision := ExecutePayload(ShouldReplyPayload(t.text, author));
      if decision == WillRespond {
        var reply := ExecutePayload(ReplyPayload(t.text, author));
        PostTweet(reply, Some(t.id));
      }
    }

    /** poll_for_new_tweets_once; the batch is turned oldest-first before the loop. */
    method PollForNewTweetsOnce() returns (o: Outcome<Failure>)
      modifies this
      ensures (State(), o) == Poll(Environment(), old(State()))
    {
      var fetched := FetchHomeTimeline(lastSeenId, PageSize);
      if fetched.Failure? {
        return Fail(fetched.error);
      }
      var tweets, users := fetched.value.0, fetched.value.1;
      if tweets == [] {
        return Pass;
      }
      ProcessBatch(Reversed(tweets), users);
      return Pass;
    }

    /** The loop of poll_for_new_tweets_once: skip stale and own tweets, handle the rest and move the cursor up. */
    method ProcessBatch(batch: seq<Tweet>, users: map<string, User>)
      modifies this
      ensures State() == Cycle(Environment(), old(State()), users, batch)
    {
      ghost var m0 := State();
      for i := 0 to |batch|
        invariant State() == Cycle(Environment(), m0, users, batch[..i])
      {
        var t := batch[i];
        assert batch[..i + 1][..i] == batch[..i];
        assert Cycle(Environment(), m0, users, batch[..i + 1]) == Visit(Environment(), State(), users, t);
        if t.createdAt.Some? && t.createdAt.value < startTime {
          continue;
        }
        if t.authorId == userId {
          continue;
        }
        HandleNewTweet(t, DisplayName(users, t.authorId));
        if lastSeenId.None? || t.id > lastSeenId.value {
          lastSeenId := Some(t.id);
        }
      }
      assert batch[..|batch|] == batch;
    }
  }
}
