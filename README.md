# CircuitMuse Twitter bot — a Dafny model of its polling core

The bot (main.py) polls the authenticated user's home timeline every cycle,
hands each new tweet to a hosted language-model agent (agent.py) that decides
whether to reply, and posts the reply. Its Twitter calls carry an OAuth2
bearer token; on a 401 the bot refreshes the token once, saves the new
credentials, and retries once.

This project models that core, in the code's own shape:

- `TwitterApi` (twitter_api.dfy): the credentials, the token refresh and the
  authenticated call wrapper, as specification functions over an explicit
  state `Net` (credentials in memory, the token-file saves, the log of HTTP
  requests sent). HTTP is an input: `server(n)` is the response to the n-th
  request the process sends.
- `Poller` (poller.dfy): timeline shaping, the tweet handler, one polling
  cycle and the lemmas about them, over the state `Machine` (the HTTP state,
  the processed ids, the cursor `last_seen_id`, the payloads given to the
  agent, the tweet bodies posted). The hosted agent is an input:
  `agent(n, payload)` is its answer to the n-th payload.
- `BotProcess` (bot.dfy): the class `Bot`, whose fields are main.py's
  module-level globals. Its methods do what main.py's functions do step by
  step: reassign the tokens, add to the processed set, loop over the batch and
  move the cursor, fill the users map in a loop. Each method's `ensures`
  states its new state as the corresponding `TwitterApi`/`Poller` function
  of the old state. So every lemma about those functions holds of the object.
- `Agent` (agent.dfy): the agent's request handler, as a function from a
  payload and a language model to the response and the list of model calls.

Behaviour of the code worth knowing, all of it modelled:

- `raise_for_status` raises only for statuses 400–599. A final 1xx or 3xx
  response is returned, not raised.
- The refresh accepts status 200 only, not any 2xx.
- The already-processed check happens inside the handler, after the stale and
  self filters. A tweet that passes both filters moves the cursor even when
  it was already processed. Stale tweets and the bot's own tweets never move
  it.
- agent.py handles exactly three request types: `tweet`, `reply` and
  `shouldReply`.

## Model

| member | source | states |
|---|---|---|
| `Agent.Get` | agent.py:21-23 | a present key yields its value, a missing key yields the default |
| `Agent.MissingFieldsDefault` | agent.py:21 | a payload without `type` is answered as a tweet request |
| `Agent.MissingContextDefaults` | agent.py:22-23 | in a reply or shouldReply request, a missing `ogAuthor` is described as "Someone" and a missing `ogTweet` as the empty tweet |
| `Agent.Describe` | agent.py:53-55 | the reply/shouldReply human message is "The original tweet is: ", the tweet, ". The author's name is ", the author, ".", each part at its fixed position |
| `Agent.Messages` | agent.py:28-70 | exactly the three types are accepted; each sends two messages, system first; `tweet` sends the fixed instruction, `reply` and `shouldReply` send the description of the tweet and author |
| `Agent.Main` | agent.py:16-75 | an unknown type returns the error dict with no model call; a known type calls the model exactly once, on that type's messages, and returns the stripped output as `content` |
| `Agent.TweetIgnoresContext` | agent.py:28-40 | a `tweet` request's answer does not depend on `ogTweet` or `ogAuthor` |
| `Agent.ReplyAndShouldReplyShareHumanMessage` | agent.py:51-68 | `reply` and `shouldReply` send the identical human message |
| `Agent.InvalidTypeIgnoresModel` | agent.py:69-70 | for an unknown type the response is the error whatever the model would answer |
| `Agent.TrimStart` | agent.py:75 | removes exactly the leading whitespace (as Python's `str.isspace` defines it) |
| `Agent.TrimEnd` | agent.py:75 | removes exactly the trailing whitespace |
| `Agent.Strip` | agent.py:75 | the stripped answer is no longer than the model's output and neither starts nor ends with whitespace |
| `Agent.StripIsMaximalSlice` | agent.py:75 | `strip()` returns a contiguous slice with only whitespace cut on both sides and no whitespace at either end |
| `Agent.StripIdempotent` | agent.py:75 | stripping twice equals stripping once |
| `TwitterApi.UpperChar` | main.py:113-115 | `str.upper()` for the characters whose upper case is one ASCII letter: a–z to A–Z, dotless i to I, long s to S; these are the only upper cases a comparison with "GET" or "POST" can see, so every other character is left as it is |
| `TwitterApi.Upper` | main.py:113-115 | upper-casing keeps the length |
| `TwitterApi.ParseVerb` | main.py:113-118 | the method is GET exactly when its upper case is "GET", POST exactly when it is "POST", and unsupported otherwise; an accepted method has three or four characters |
| `TwitterApi.RaisesForStatus` | main.py:125 | `raise_for_status` raises exactly for a client error (4xx) or a server error (5xx) |
| `TwitterApi.VerbIsCaseInsensitive` | main.py:113-118 | changing the case of ASCII letters in the method name never changes whether it is GET, POST or unsupported |
| `TwitterApi.VerbSpellings` | main.py:113-118 | "get", "PoSt" and "poſt" are accepted, "put" is not |
| `TwitterApi.Refresh` | main.py:66-99 | one token request with the stored refresh token and client credentials; a non-200 status or a body without `access_token` raises with credentials and saves untouched; success replaces the access token, replaces the refresh token only if one came back, keeps the client id and secret, and saves exactly the resulting four values |
| `TwitterApi.Call` | main.py:101-126 | an unsupported method raises before any request; otherwise the first request carries the current token (and no JSON body on GET); at most three requests, at most one token request and one save; client credentials never change; without `retry` the credentials are untouched. When the first response is not a 401 that may be retried, exactly one request is sent, nothing else changes, and the call raises `HttpError` iff that status is 4xx/5xx and otherwise returns its body. After a 401 with `retry` and a refresh that succeeds, exactly three requests are sent (call, token request, retry with the new access token), the new credentials are saved once, and the retry's status decides the result the same way. After a 401 with `retry`, a failed refresh (a non-200 status or a body without `access_token`) is the call's failure with the refresh's state, and a successful one leaves exactly the refreshed credentials, including the refresh token |
| `TwitterApi.SecondUnauthorizedRaises` | main.py:120-125 | 401, successful refresh, 401 again: raises with exactly call, refresh, retry sent, the retry carrying the new token, and one save |
| `TwitterApi.UnauthorizedWithoutRetryRaises` | main.py:120-125 | with `retry` false a 401 raises after one request, with no refresh |
| `TwitterApi.FailedRefreshFailsCall` | main.py:120-123 | a refresh that fails after a 401, for a non-200 status or a missing `access_token`, is the call's failure with the refresh's error; two requests sent, credentials and saves unchanged |
| `Poller.UsersMap` | main.py:173-176 | the users map's keys are exactly the listed ids, and each value is a listed user under its own id |
| `Poller.UsersMapLastWins` | main.py:174-176 | an id listed more than once maps to its last entry |
| `Poller.Shape` | main.py:166-178 | a response without `data` yields no tweets and an empty map; otherwise the tweets and the users map |
| `Poller.Fetch` | main.py:145-178 | raises when the user id is unset; otherwise sends one GET whose `since_id` is present exactly when a cursor is given, and returns the shaped last response; only the HTTP state changes; it succeeds exactly when the authenticated call succeeds, and otherwise fails with the call's error |
| `Poller.Execute` | main.py:14-21 | logs the payload; the answer is the agent's answer to the payload at its position |
| `Poller.PostTweet` | main.py:252-265 | posts the body with `in_reply_to_tweet_id` exactly when a reply id is given; failures are swallowed; only the HTTP state and the posted-body log change |
| `Poller.Handle` | main.py:180-210 | a processed id changes nothing; otherwise the id is added and a shouldReply payload is sent; a reply is posted, to the tweet's id with the agent's reply text, iff the decision is exactly WILL_RESPOND. With no reply, exactly the shouldReply payload is executed and no HTTP request is sent; with a reply, exactly the shouldReply then the reply payload are executed. The cursor is untouched |
| `Poller.DisplayName` | main.py:240-241 | the display name is the author's listed `name` when there is one, and the author id when the user or its name is missing |
| `Poller.Skipped` | main.py:226-238 | the bot's own tweets are always skipped; a tweet without a creation time is skipped only when it is the bot's own |
| `Poller.Dispatch` | main.py:240-247 | handling a surviving tweet marks its id processed and moves the cursor to at least its id and its old value, only appending to the logs |
| `Poller.Visit` | main.py:225-247 | a skipped tweet changes nothing; any other is processed and the cursor covers its id |
| `Poller.Cycle` | main.py:225-247 | after the loop the processed set is the old one plus exactly the ids of the tweets that survive the filters; the logs are only appended to |
| `Poller.Poll` | main.py:212-247 | without a user id the poll raises and changes nothing; it fails exactly when the fetch fails, and then only the HTTP state changes; requests are only appended |
| `Poller.PollCursorIsMax` | main.py:218-247 | after a successful fetch the cursor is the maximum of its old value and the ids of the fetched tweets that survive the filters |
| `Poller.Advance` | main.py:245-247 | the cursor never decreases, covers the id, and is either unchanged or the id |
| `Poller.Eligible` | main.py:225-238 | the tweets kept are exactly those neither stale nor written by the bot |
| `Poller.Reversed` | main.py:222-223 | the batch is processed oldest first: element k is the API's element n-1-k |
| `Poller.CycleDispatchesEligible` | main.py:225-247 | a cycle equals dispatching its eligible tweets in order, so a skipped tweet reaches neither the handler nor the cursor |
| `Poller.DispatchAllCursorIsMax` | main.py:243-247 | the cursor ends at the maximum of its old value and every dispatched id, processed before or not |
| `Poller.CycleCursorIsMax` | main.py:225-247 | over a batch, the cursor is the maximum of its old value and the ids of the tweets that survive the filters |
| `Poller.CycleOverSkippedIsNoop` | main.py:225-238 | a batch of only stale or own tweets changes nothing |
| `Poller.DispatchAllProcessed` | main.py:185-189 | dispatching marks exactly the dispatched ids as processed |
| `Poller.DispatchAllRepliesOncePerId` | main.py:185-210 | every reply posted in a cycle answers an id that was new and is now processed, and no two replies answer the same id |
| `Poller.HandleIsIdempotent` | main.py:185-189 | handling a tweet id a second time changes nothing |
| `Poller.PollCursorNeverDecreases` | main.py:212-247 | a polling cycle never lowers the cursor |
| `Poller.PollRequestsSinceCursor` | main.py:216-220 | a cycle asks for the timeline since the current cursor with the current token; an empty or failed fetch changes nothing but the HTTP state |
| `Poller.HandlerPayloadFields` | main.py:193-206 | the handler's payloads carry type shouldReply/reply, the tweet text and the display name |
| `Poller.HandlerPayloadsAccepted` | main.py:193-207 | the agent accepts both payloads and calls the model once on the tweet and author |
| `BotProcess.BuildUsersMap` | main.py:173-176 | the loop builds exactly the last-write-wins users map |
| `BotProcess.Bot.constructor` | main.py:141-143 | no processed ids, no cursor, empty logs, and the loaded credentials |
| `BotProcess.Bot.RefreshUserAccessToken` | main.py:66-99 | the new credentials, saves and request log are those of `Refresh`; nothing else changes |
| `BotProcess.Bot.CallTwitterApi` | main.py:101-126 | the result and new HTTP state are those of `Call`; nothing else changes |
| `BotProcess.Bot.FetchHomeTimeline` | main.py:145-178 | the result and new state are those of `Fetch` |
| `BotProcess.Bot.ExecutePayload` | main.py:14-21 | the answer and new state are those of `Execute` |
| `BotProcess.Bot.PostTweet` | main.py:252-265 | the new state is that of `Poller.PostTweet` |
| `BotProcess.Bot.HandleNewTweet` | main.py:180-210 | the new state is that of `Handle` |
| `BotProcess.Bot.PollForNewTweetsOnce` | main.py:212-223 | the outcome and new state are those of `Poll` |
| `BotProcess.Bot.ProcessBatch` | main.py:225-247 | the for-loop over the turned batch, with its two `continue` filters, leaves exactly the state `Cycle` describes |

## Left out

- HTTP transport, URLs and headers, and JSON decoding are not modelled. A response is a status plus the keys the bot reads. A body that fails to decode is not modelled.
- The swarmnode agent call (`execute_payload`) and the language model (`ChatOpenAI.invoke`) are inputs. A remote failure, and the `KeyError` when the agent answers with its error dict, are not modelled. So a tweet marked processed whose decision call then fails, and which is never answered, is not captured.
- Reading the token file (`load_tokens`) is not modelled: the constructor takes the loaded credentials. A save is an entry in the `saved` log, not a file write.
- `get_my_user_id` and the startup `exit(1)` paths are not modelled: the user id is a constructor argument. An empty user id makes every fetch raise, as `if not USER_ID` does.
- `main_loop` and `post_random_tweet` are not modelled. They are an endless loop with `time.sleep`, a fresh `random.randint` every cycle, and a handler that swallows every exception.
- `print` logging is not modelled.
- Creation times are integers. `datetime.fromisoformat` and the time zone handling are not modelled, and neither is a `created_at` that fails to parse. An empty `created_at` is treated like a missing one, as Python's truth test does.
- Tweet ids are natural numbers, and the processed set is keyed by that number. Python keys it by the id string, so two spellings of one number (such as "07" and "7") are one id here.
- Payload values are strings. A payload value of another JSON type is not modelled.
- `tweets.reverse()` runs in place on a list that only the cycle holds. It is modelled as the value `Reversed(tweets)`.
- `TwitterApi.UpperChar`: omits the upper cases that expand to several letters, such as ß to SS and the ligatures U+FB00–U+FB06. So "poﬆ" is rejected here, while Python's `"poﬆ".upper() == "POST"` accepts it.
- A missing `author_id` in a tweet (a `KeyError` in Python) is not modelled. Every modelled tweet has an author id.
