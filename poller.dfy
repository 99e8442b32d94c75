/**
 * One polling cycle of the bot (main.py): fetch the home timeline since the
 * cursor, turn the newest-first batch around, skip stale tweets and the
 * bot's own, hand every other tweet to the handler (which dedupes by id,
 * asks the agent whether to respond and posts a reply on the exact answer
 * WILL_RESPOND), and move the cursor up to the handled tweet's id.
 * The hosted agent is an input: `Oracle` gives the answer to the n-th
 * payload the process executes.
 */
module Poller {
  import opened Wrappers
  import opened TwitterApi
  import Agent

  /** The decision token that makes the bot reply. */
  const WillRespond: string := "WILL_RESPOND"

  /** `max_results` of every poll. */
  const PageSize: nat := 10

  /** The hosted agent: the answer to the n-th payload the process executes. */
  type Oracle = (nat, Agent.Payload) -> string

  /** What the process fixes at startup: its own user id, its start time, and its two remote collaborators. */
  datatype Env = Env(userId: string, startTime: int, server: Server, agent: Oracle)

  /**
   * The bot's mutable state: the HTTP layer, the processed ids, the cursor
   * (`last_seen_id`, absent until the first handled tweet), every payload
   * executed and every tweet body posted, in order.
   */
  datatype Machine = Machine(net: Net, processed: set<nat>, cursor: Option<nat>,
                             executed: seq<Agent.Payload>, posts: seq<PostBody>)

  /** The users of `includes.users` that no later entry overrides. */
  predicate LastWithId(users: seq<User>, i: nat)
    requires i < |users|
  {
    forall j :: i < j < |users| ==> users[j].id != users[i].id
  }

  /**
   * The users map of fetch_home_timeline, built by assigning in list order:
   * its keys are exactly the listed ids and every value is a listed user
   * under its own id.
   */
  function UsersMap(users: seq<User>): (m: map<string, User>)
    ensures m.Keys == set u | u in users :: u.id
    ensures forall id :: id in m ==> m[id] in users && m[id].id == id
  {
    if users == [] then map[]
    else
      var init, last := users[..|users| - 1], users[|users| - 1];
      assert users == init + [last];
      assert (set u | u in users :: u.id) == (set u | u in init :: u.id) + {last.id};
      UsersMap(init)[last.id := last]
  }

  /** Last write wins: an id listed more than once maps to its last entry. */
  lemma {:induction false} UsersMapLastWins(users: seq<User>, i: nat)
    requires i < |users| && LastWithId(users, i)
    ensures users[i].id in UsersMap(users) && UsersMap(users)[users[i].id] == users[i]
  {
    var init, last := users[..|users| - 1], users[|users| - 1];
    if i < |init| {
      assert LastWithId(init, i) by {
        forall j | i < j < |init| ensures init[j].id != init[i].id {
          assert init[j] == users[j];
        }
      }
      UsersMapLastWins(init, i);
      assert users[i] == init[i];
    }
  }

  /** The tweets and users map a successful timeline response yields; a response without `data` yields nothing. */
  function Shape(json: Json): (r: (seq<Tweet>, map<string, User>))
    ensures !(json.TimelineJson? && json.data.Some?) ==> r == ([], map[])
    ensures json.TimelineJson? && json.data.Some? ==> r == (json.data.value, UsersMap(json.users))
  {
    match json
    case TimelineJson(Some(tweets), users) => (tweets, UsersMap(users))
    case _ => ([], map[])
  }

  /**
   * fetch_home_timeline(since_id, max_results): raises when the user id is
   * not set; otherwise one authenticated GET whose query carries `since_id`
   * exactly when a cursor is given, and the response shaped.
   */
  function Fetch(env: Env, m: Machine, sinceId: Option<nat>, maxResults: nat): (r: (Machine, Result<(seq<Tweet>, map<string, User>), Failure>))
    ensures env.userId == "" ==> r == (m, Failure(NoUserId))
    ensures r.0 == m.(net := r.0.net)
    ensures env.userId != "" ==>
      m.net.sent < r.0.net.sent &&
      r.0.net.sent[|m.net.sent|] == ApiRequest(Get, HomeTimeline(env.userId), m.net.creds.accessToken,
                                               Some(TimelineParams(maxResults, sinceId)), None)
    ensures r.1.Success? ==> |r.0.net.sent| > |m.net.sent| && r.1.value == Shape(env.server(|r.0.net.sent| - 1).json)
    ensures env.userId != "" ==>
      var call := Call(env.server, m.net, "GET", HomeTimeline(env.userId), Some(TimelineParams(maxResults, sinceId)), None, true);
      r.0.net == call.0 && (r.1.Success? <==> call.1.Success?) && (call.1.Failure? ==> r.1 == Failure(call.1.error))
  {
    if env.userId == "" then (m, Failure(NoUserId))
    else
      CanonicalVerbs();
      var call := Call(env.server, m.net, "GET", HomeTimeline(env.userId),
                       Some(TimelineParams(maxResults, sinceId)), None, true);
      if call.1.Failure? then (m.(net := call.0), Failure(call.1.error))
      else
        assert |call.0.sent| > |m.net.sent|;
        assert call.1.value == env.server(|call.0.sent| - 1).json;
        (m.(net := call.0), Success(Shape(call.1.value)))
  }

  function ShouldReplyPayload(text: string, author: string): Agent.Payload
  {
    map["type" := "shouldReply", "ogTweet" := text, "ogAuthor" := author]
  }

  function ReplyPayload(text: string, author: string): Agent.Payload
  {
    map["type" := "reply", "ogTweet" := text, "ogAuthor" := author]
  }

  /** execute_payload: log the payload and take the agent's answer to it. */
  function Execute(env: Env, m: Machine, p: Agent.Payload): (r: (Machine, string))
    ensures r.0 == m.(executed := m.executed + [p])
    ensures r.1 == env.agent(|m.executed|, p)
  {
    (m.(executed := m.executed + [p]), env.agent(|m.executed|, p))
  }

  /**
   * post_tweet(content, in_reply_to_id): build the body (with the reply
   * field only for a reply) and POST it; a failure is swallowed, so only
   * the HTTP layer and the log of posted bodies change.
   */
  function PostTweet(env: Env, m: Machine, content: string, inReplyTo: Option<nat>): (r: Machine)
    ensures r == m.(net := r.net, posts := m.posts + [PostBody(content, inReplyTo)])
    ensures m.net.sent < r.net.sent &&
      r.net.sent[|m.net.sent|] == ApiRequest(Post, Tweets, m.net.creds.accessToken, None, Some(PostBody(content, inReplyTo)))
  {
    CanonicalVerbs();
    var body := PostBody(content, inReplyTo);
    var (net, _) := Call(env.server, m.net, "POST", Tweets, None, Some(body), true);
    m.(net := net, posts := m.posts + [body])
  }

  /**
   * handle_new_tweet(tweet, display_name): a processed id is ignored;
   * otherwise the id is marked processed, the agent is asked whether to
   * reply, and only on the exact answer WILL_RESPOND is a reply generated
   * and posted in reply to the tweet's id. The cursor is not touched.
   */
  function Handle(env: Env, m: Machine, t: Tweet, author: string): (r: Machine)
    ensures r.cursor == m.cursor
    ensures t.id in m.processed ==> r == m
    ensures t.id !in m.processed ==>
      r.processed == m.processed + {t.id} &&
      m.executed + [ShouldReplyPayload(t.text, author)] <= r.executed
    ensures m.executed <= r.executed && |r.executed| <= |m.executed| + 2
    ensures m.posts <= r.posts && |r.posts| <= |m.posts| + 1
    ensures |r.posts| == |m.posts| + 1 <==>
      t.id !in m.processed && env.agent(|m.executed|, ShouldReplyPayload(t.text, author)) == WillRespond
    ensures |r.posts| == |m.posts| + 1 ==>
      r.posts[|m.posts|] == PostBody(env.agent(|m.executed| + 1, ReplyPayload(t.text, author)), Some(t.id))
    ensures |r.posts| == |m.posts| ==> r.net == m.net
    ensures t.id !in m.processed && |r.posts| == |m.posts| ==>
      r.executed == m.executed + [ShouldReplyPayload(t.text, author)]
    ensures |r.posts| == |m.posts| + 1 ==>
      r.executed == m.executed + [ShouldReplyPayload(t.text, author), ReplyPayload(t.text, author)]
    ensures m.net.sent <= r.net.sent
  {
    if t.id in m.processed then m
    else
      var m1 := m.(processed := m.processed + {t.id});
      var (m2, decision) := Execute(env, m1, ShouldReplyPayload(t.text, author));
      if decision == WillRespond then
        var (m3, reply) := Execute(env, m2, ReplyPayload(t.text, author));
        PostTweet(env, m3, reply, Some(t.id))
      else m2
  }

  /** The display name: the user's `name`, or the author id when the user or its name is missing. */
  function DisplayName(users: map<string, User>, authorId: string): (name: string)
    ensures authorId !in users ==> name == authorId
    ensures authorId in users && users[authorId].name.Some? ==> name == users[authorId].name.value
    ensures name == authorId || (authorId in users && users[authorId].name == Some(name))
  {
    if authorId in users && users[authorId].name.Some? then users[authorId].name.value else authorId
  }

  /** Tweets the cycle passes over: created before the start time, or written by the bot itself. A tweet without a creation time is never stale. */
  predicate Skipped(env: Env, t: Tweet)
    ensures t.authorId == env.userId ==> Skipped(env, t)
    ensures t.createdAt.None? ==> (Skipped(env, t) <==> t.authorId == env.userId)
  {
    (t.createdAt.Some? && t.createdAt.value < env.startTime) || t.authorId == env.userId
  }

  /** The cursor after seeing id: it moves only upward. */
  function Advance(cursor: Option<nat>, id: nat): (c: Option<nat>)
    ensures c.Some?
    ensures cursor.Some? ==> c.value >= cursor.value
    ensures c.value >= id && (c == cursor || c == Some(id))
  {
    if cursor.None? || id > cursor.value then Some(id) else cursor
  }

  /** One tweet that survived the filters: handle it, then advance the cursor. */
  function Dispatch(env: Env, m: Machine, users: map<string, User>, t: Tweet): (r: Machine)
    ensures r.processed == m.processed + {t.id}
    ensures r.cursor.Some? && r.cursor.value >= t.id && (m.cursor.Some? ==> r.cursor.value >= m.cursor.value)
    ensures m.executed <= r.executed && m.posts <= r.posts && m.net.sent <= r.net.sent
  {
    var h := Handle(env, m, t, DisplayName(users, t.authorId));
    h.(cursor := Advance(h.cursor, t.id))
  }

  /** One iteration of the loop of poll_for_new_tweets_once. */
  function Visit(env: Env, m: Machine, users: map<string, User>, t: Tweet): (r: Machine)
    ensures Skipped(env, t) ==> r == m
    ensures !Skipped(env, t) ==> r.processed == m.processed + {t.id} && r.cursor.Some? && r.cursor.value >= t.id
  {
    if Skipped(env, t) then m else Dispatch(env, m, users, t)
  }

  /** The loop of poll_for_new_tweets_once over ts, in order. */
  function Cycle(env: Env, m: Machine, users: map<string, User>, ts: seq<Tweet>): (r: Machine)
    ensures r.processed == m.processed + set t | t in ts && !Skipped(env, t) :: t.id
    ensures m.executed <= r.executed && m.posts <= r.posts && m.net.sent <= r.net.sent
  {
    if ts == [] then m
    else
      var init, last := ts[..|ts| - 1], ts[|ts| - 1];
      assert ts == init + [last];
      assert (set t | t in ts && !Skipped(env, t) :: t.id) ==
        (set t | t in init && !Skipped(env, t) :: t.id) + (if Skipped(env, last) then {} else {last.id});
      Visit(env, Cycle(env, m, users, init), users, last)
  }

  /** The tweets of ts that survive the filters, in order. */
  function Eligible(env: Env, ts: seq<Tweet>): (es: seq<Tweet>)
    ensures |es| <= |ts|
    ensures forall t :: t in es <==> t in ts && !Skipped(env, t)
  {
    if ts == [] then []
    else
      var last := ts[|ts| - 1];
      Eligible(env, ts[..|ts| - 1]) + (if Skipped(env, last) then [] else [last])
  }

  /** Dispatch every tweet of es, in order. */
  function DispatchAll(env: Env, m: Machine, users: map<string, User>, es: seq<Tweet>): Machine
  {
    if es == [] then m
    else Dispatch(env, DispatchAll(env, m, users, es[..|es| - 1]), users, es[|es| - 1])
  }

  function Reversed<T>(s: seq<T>): (r: seq<T>)
    ensures |r| == |s| && forall k :: 0 <= k < |s| ==> r[k] == s[|s| - 1 - k]
  {
    if s == [] then [] else Reversed(s[1..]) + [s[0]]
  }

  /**
   * poll_for_new_tweets_once: fetch since the cursor; a failed fetch
   * raises; an empty batch ends the cycle; otherwise the batch, turned
   * oldest-first, runs through the loop.
   */
  function Poll(env: Env, m: Machine): (r: (Machine, Outcome<Failure>))
    ensures env.userId == "" ==> r == (m, Fail(NoUserId))
    ensures r.1.Fail? <==> Fetch(env, m, m.cursor, PageSize).1.Failure?
    ensures r.1.Fail? ==> r.0 == m.(net := r.0.net)
    ensures m.net.sent <= r.0.net.sent
  {
    var (m1, fetched) := Fetch(env, m, m.cursor, PageSize);
    if fetched.Failure? then (m1, Fail(fetched.error))
    else if fetched.value.0 == [] then (m1, Pass)
    else (Cycle(env, m1, fetched.value.1, Reversed(fetched.value.0)), Pass)
  }

  /**
   * The filters decide everything: a cycle over a batch is the dispatch of
   * its eligible tweets, in order, so a skipped tweet reaches neither the
   * handler nor the cursor.
   */
  lemma {:induction false} CycleDispatchesEligible(env: Env, m: Machine, users: map<string, User>, ts: seq<Tweet>)
    ensures Cycle(env, m, users, ts) == DispatchAll(env, m, users, Eligible(env, ts))
  {
    if ts != [] {
      var init, last := ts[..|ts| - 1], ts[|ts| - 1];
      CycleDispatchesEligible(env, m, users, init);
      var es := Eligible(env, init);
      var p := Cycle(env, m, users, init);
      assert Cycle(env, m, users, ts) == Visit(env, p, users, last);
      if Skipped(env, last) {
        assert Eligible(env, ts) == es;
      } else {
        assert Eligible(env, ts) == es + [last];
        assert (es + [last])[..|es|] == es;
        assert DispatchAll(env, m, users, es + [last]) == Dispatch(env, DispatchAll(env, m, users, es), users, last);
      }
    }
  }

  /**
   * After dispatching es the cursor is the maximum of its old value and
   * the ids of es: it never decreases, it covers every dispatched id, and
   * it is one of them or unchanged. Ids of already-processed tweets count.
   */
  lemma {:induction false} DispatchAllCursorIsMax(env: Env, m: Machine, users: map<string, User>, es: seq<Tweet>)
    ensures var c := DispatchAll(env, m, users, es).cursor;
      (m.cursor.Some? ==> c.Some? && c.value >= m.cursor.value) &&
      (forall k :: 0 <= k < |es| ==> c.Some? && c.value >= es[k].id) &&
      (c == m.cursor || exists k :: 0 <= k < |es| && c == Some(es[k].id))
  {
    if es != [] {
      var init, last := es[..|es| - 1], es[|es| - 1];
      DispatchAllCursorIsMax(env, m, users, init);
      var p := DispatchAll(env, m, users, init);
      var c := DispatchAll(env, m, users, es).cursor;
      assert c == Advance(p.cursor, last.id);
      forall k | 0 <= k < |es| ensures c.Some? && c.value >= es[k].id {
        if k < |init| { assert es[k] == init[k]; }
      }
      if c != m.cursor && c != Some(last.id) {
        var k :| 0 <= k < |init| && p.cursor == Some(init[k].id);
        assert es[k] == init[k];
      }
    }
  }

  /** Dispatching es marks exactly the ids of es as processed. */
  lemma {:induction false} DispatchAllProcessed(env: Env, m: Machine, users: map<string, User>, es: seq<Tweet>)
    ensures DispatchAll(env, m, users, es).processed == m.processed + set t | t in es :: t.id
  {
    if es != [] {
      var init, last := es[..|es| - 1], es[|es| - 1];
      DispatchAllProcessed(env, m, users, init);
      assert es == init + [last];
      assert (set t | t in es :: t.id) == (set t | t in init :: t.id) + {last.id};
    }
  }

  /**
   * Replies are never duplicated: every body posted while dispatching es
   * answers a tweet id that was not processed before and is processed
   * now, and no two of them answer the same id, even when es repeats one.
   */
  lemma {:induction false} DispatchAllRepliesOncePerId(env: Env, m: Machine, users: map<string, User>, es: seq<Tweet>)
    ensures var r := DispatchAll(env, m, users, es);
      m.processed <= r.processed && m.posts <= r.posts &&
      (forall i :: |m.posts| <= i < |r.posts| ==>
         r.posts[i].inReplyTo.Some? && r.posts[i].inReplyTo.value in r.processed - m.processed) &&
      (forall i, j :: |m.posts| <= i < j < |r.posts| ==> r.posts[i].inReplyTo != r.posts[j].inReplyTo)
  {
    if es != [] {
      var init, last := es[..|es| - 1], es[|es| - 1];
      DispatchAllRepliesOncePerId(env, m, users, init);
      var p := DispatchAll(env, m, users, init);
      var r := DispatchAll(env, m, users, es);
      assert r.posts == Handle(env, p, last, DisplayName(users, last.authorId)).posts;
      assert r.processed == Handle(env, p, last, DisplayName(users, last.authorId)).processed;
    }
  }

  /** Handling a tweet whose id was just handled changes nothing: a second copy of a tweet is never answered. */
  lemma HandleIsIdempotent(env: Env, m: Machine, t: Tweet, u: Tweet, a: string, b: string)
    requires u.id == t.id
    ensures Handle(env, Handle(env, m, t, a), u, b) == Handle(env, m, t, a)
  {
  }

  /**
   * The cursor after a cycle over ts is the maximum of its old value and
   * the ids of the tweets of ts that survived the filters, already
   * processed or not.
   */
  lemma CycleCursorIsMax(env: Env, m: Machine, users: map<string, User>, ts: seq<Tweet>)
    ensures var c := Cycle(env, m, users, ts).cursor;
      (m.cursor.Some? ==> c.Some? && c.value >= m.cursor.value) &&
      (forall t :: t in ts && !Skipped(env, t) ==> c.Some? && c.value >= t.id) &&
      (c == m.cursor || exists t :: t in ts && !Skipped(env, t) && c == Some(t.id))
  {
    CycleDispatchesEligible(env, m, users, ts);
    var es := Eligible(env, ts);
    DispatchAllCursorIsMax(env, m, users, es);
    var c := DispatchAll(env, m, users, es).cursor;
    forall t | t in ts && !Skipped(env, t) ensures c.Some? && c.value >= t.id {
      assert t in es;
      var k :| 0 <= k < |es| && es[k] == t;
    }
    if c != m.cursor {
      var k :| 0 <= k < |es| && c == Some(es[k].id);
      assert es[k] in es;
    }
  }

  /** A batch whose every tweet is skipped leaves the whole state as it was. */
  lemma CycleOverSkippedIsNoop(env: Env, m: Machine, users: map<string, User>, ts: seq<Tweet>)
    requires forall t :: t in ts ==> Skipped(env, t)
    ensures Cycle(env, m, users, ts) == m
  {
    CycleDispatchesEligible(env, m, users, ts);
    NothingEligible(env, ts);
  }

  lemma {:induction false} NothingEligible(env: Env, ts: seq<Tweet>)
    requires forall t :: t in ts ==> Skipped(env, t)
    ensures Eligible(env, ts) == []
  {
    if ts != [] {
      assert ts[|ts| - 1] in ts;
      NothingEligible(env, ts[..|ts| - 1]);
    }
  }

  /**
   * Over a whole cycle the cursor never decreases, and it ends at least at
   * every id of a tweet that survived the filters.
   */
  lemma PollCursorNeverDecreases(env: Env, m: Machine)
    ensures var r := Poll(env, m).0;
      m.cursor.Some? ==> r.cursor.Some? && r.cursor.value >= m.cursor.value
  {
    var (m1, fetched) := Fetch(env, m, m.cursor, PageSize);
    if fetched.Success? && fetched.value.0 != [] {
      var ts := Reversed(fetched.value.0);
      CycleDispatchesEligible(env, m1, fetched.value.1, ts);
      DispatchAllCursorIsMax(env, m1, fetched.value.1, Eligible(env, ts));
    }
  }

  /**
   * The cursor after a poll is the maximum of its old value and the ids of
   * the fetched tweets that survive the filters.
   */
  lemma PollCursorIsMax(env: Env, m: Machine)
    ensures var (m1, fetched) := Fetch(env, m, m.cursor, PageSize);
      var c := Poll(env, m).0.cursor;
      fetched.Success? ==>
        (m.cursor.Some? ==> c.Some? && c.value >= m.cursor.value) &&
        (forall t :: t in fetched.value.0 && !Skipped(env, t) ==> c.Some? && c.value >= t.id) &&
        (c == m.cursor || exists t :: t in fetched.value.0 && !Skipped(env, t) && c == Some(t.id))
  {
    var (m1, fetched) := Fetch(env, m, m.cursor, PageSize);
    if fetched.Success? && fetched.value.0 != [] {
      var ts := Reversed(fetched.value.0);
      ReversedSameElements(fetched.value.0);
      CycleCursorIsMax(env, m1, fetched.value.1, ts);
    }
  }

  lemma ReversedSameElements<T>(s: seq<T>)
    ensures forall x :: x in Reversed(s) <==> x in s
  {
    var r := Reversed(s);
    forall x | x in s ensures x in r {
      var k :| 0 <= k < |s| && s[k] == x;
      assert r[|s| - 1 - k] == x;
    }
  }

  /**
   * A cycle asks for the timeline since the current cursor, with the
   * current access token; an empty or failed fetch changes nothing but the
   * HTTP layer.
   */
  lemma PollRequestsSinceCursor(env: Env, m: Machine)
    requires env.userId != ""
    ensures var r := Poll(env, m).0;
      m.net.sent < r.net.sent &&
      r.net.sent[|m.net.sent|] == ApiRequest(Get, HomeTimeline(env.userId), m.net.creds.accessToken,
                                             Some(TimelineParams(PageSize, m.cursor)), None)
    ensures var (m1, fetched) := Fetch(env, m, m.cursor, PageSize);
      fetched.Failure? || fetched.value.0 == [] ==> Poll(env, m).0 == m.(net := m1.net)
  {
    var (m1, fetched) := Fetch(env, m, m.cursor, PageSize);
    if fetched.Success? && fetched.value.0 != [] {
      var ts := Reversed(fetched.value.0);
      CycleDispatchesEligible(env, m1, fetched.value.1, ts);
      DispatchAllSendsAfter(env, m1, fetched.value.1, Eligible(env, ts));
    }
  }

  /** Dispatching only appends to the request log. */
  lemma {:induction false} DispatchAllSendsAfter(env: Env, m: Machine, users: map<string, User>, es: seq<Tweet>)
    ensures m.net.sent <= DispatchAll(env, m, users, es).net.sent
  {
    if es != [] {
      DispatchAllSendsAfter(env, m, users, es[..|es| - 1]);
      var p := DispatchAll(env, m, users, es[..|es| - 1]);
      var last := es[|es| - 1];
      var name := DisplayName(users, last.authorId);
      if last.id !in p.processed {
        var m1 := p.(processed := p.processed + {last.id});
        var (m2, decision) := Execute(env, m1, ShouldReplyPayload(last.text, name));
        if decision == WillRespond {
          var (m3, reply) := Execute(env, m2, ReplyPayload(last.text, name));
          assert p.net.sent <= PostTweet(env, m3, reply, Some(last.id)).net.sent;
        }
      }
    }
  }

  /** The payloads the handler builds read back as the request type, tweet and author they were built from. */
  lemma HandlerPayloadFields(text: string, author: string)
    ensures Agent.TypeOf(ShouldReplyPayload(text, author)) == "shouldReply"
    ensures Agent.TypeOf(ReplyPayload(text, author)) == "reply"
    ensures Agent.OgTweetOf(ShouldReplyPayload(text, author)) == text == Agent.OgTweetOf(ReplyPayload(text, author))
    ensures Agent.OgAuthorOf(ShouldReplyPayload(text, author)) == author == Agent.OgAuthorOf(ReplyPayload(text, author))
  {
    assert "type" != "ogTweet" && "type" != "ogAuthor" && "ogTweet" != "ogAuthor";
  }

  /** The payloads the handler sends are accepted by the agent, which answers each with one model call on the tweet and its author. */
  lemma HandlerPayloadsAccepted(text: string, author: string, model: Agent.Model)
    ensures Agent.Main(ShouldReplyPayload(text, author), model).modelCalls ==
      [[Agent.SystemMessage(Agent.ShouldReplySystemPrompt), Agent.HumanMessage(Agent.Describe(text, author))]]
    ensures Agent.Main(ReplyPayload(text, author), model).modelCalls ==
      [[Agent.SystemMessage(Agent.ReplySystemPrompt), Agent.HumanMessage(Agent.Describe(text, author))]]
  {
    HandlerPayloadFields(text, author);
  }
}
