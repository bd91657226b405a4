# Slack approval workflow of Tweet-Automation, in Dafny

This project models the approval loop of Tweet-Automation, which drafts posts into a JSON queue and publishes them only after a person approves them on Slack.

Three parts of the Python code are modelled:

- **the dispatch tick** (`tweet.py`). It reads `generated_tweets.json`, takes the text at the head of the queue, and sends it to Slack as an approval message with three buttons. The tick registers the message timestamp in the bot's session tracker. It does not remove the head from the file.
- **the session tracker** (`slack_bot.py`). `SlackTweetBot.pending_tweets` maps a Slack message timestamp to the pending text, its index and its status. `update_message_status` replaces the message with its final status and a single disabled button, then forgets the session.
- **the interactions endpoint** (`slack_webhook.py`). It verifies the request's Slack signature and timestamp, decodes the interaction payload, and classifies a button click by the prefix of its action id. It then posts to Twitter, removes the text from the queue file, and finalises the session, in that order. The edit button opens a modal; the modal's callback id carries the message timestamp back to the submission handler.

Modules:

- `Wrappers` holds `Option`.
- `Text` models the Python string operations the code relies on: `str.split`, `str.startswith`, `int()` in base 10 (white-space stripping, sign, underscores), `str(int)` and `str.title()` on ASCII.
- `Json` is the value model for parsed JSON.
- `SlackBot`, `SlackWebhook` and `TweetDispatch` follow the three source files.
- `Workflow` states the end-to-end scenarios that cross those files.

The state the source changes in place is modelled as classes:

- `SlackBot.SlackTweetBot` has the field `pendingTweets`.
- `SlackWebhook.QueueFile` has the field `state`, which is the queue file.

Each method is proved against a function of its inputs and the old state (`StatusUpdate`, `AfterRemoval`, `Interaction`, `Tick`). The properties are proved about those functions.

The outside world is represented by parameters:

- an `Oracle` says whether the Twitter post, `views_open` and `chat_update` succeed;
- an optional timestamp stands for the answer of `chat_postMessage`;
- `Env` carries the signing secret, the clock as a `real`, and HMAC-SHA256 as an uninterpreted function from key and message to a hex string.

### Where the code and the intended workflow differ (the model follows the code)

- **The tick does not pop.** The intended workflow has the dispatch loop pop the head of the queue. `tweet.py:42-55` only reads the file, so the same head is sent again on every tick until a click removes it (`TweetDispatch.SendTweetForApproval` ensures `unchanged(queue)`).
- **Edit removes the wrong text.** The intended workflow removes the *original* text after an edit is submitted. `slack_webhook.py:216` removes the *edited* text, so the original stays queued whenever the text was changed (`SlackWebhook.SubmissionRemovesEditedText`, `Workflow.EditScenario`).
- **Approve does not check the session.** The intended workflow treats an event on a finalised session as a no-op that never re-publishes. The approve and reject branches never consult `pending_tweets`, so a second approve click on the same message posts the text again. Only the Slack update is skipped the second time (`Workflow.DoubleApprovePostsTwice`). "Already processed" is only the answer to the `disabled_button` id.
- **The webhook has no bot reference.** In the webhook's own process `slack_bot` is `None`: only `tweet.py:33` sets it, and `start_bot.py` runs the two scripts as separate processes. So the tracker is an optional reference in `SlackWebhook.HandleSlackInteractions`, and without it no session is ever finalised (`SlackWebhook.WithoutBotNoSessionUpdate`).
- **The submission does not look up the session.** The intended workflow requires the session to exist before an edit is submitted. The submission branch posts without looking it up.
- **tweet.py cannot be imported as written.** `tweet.py:6` imports `generate_tweets_from_email` from `llm.py`, which does not define it. The model treats that call as a no-op inside the missing-file branch (see Left out).

## Model

| member | source | states |
|---|---|---|
| Text.SplitPiecesFree | slack_webhook.py:159 | no piece of Python's `split` on one separator contains the separator |
| Text.JoinSplit | slack_webhook.py:159 | joining the pieces of a split with the separator gives back the original string |
| Text.SplitJoin | slack_webhook.py:208 | splitting the join of separator-free pieces gives back the pieces |
| Text.LastSegmentIsSuffix | slack_webhook.py:208 | `s.split("_")[-1]` holds no underscore, is a suffix of `s`, and is preceded by an underscore unless it is all of `s` |
| Text.LastSegmentAfterUnderscore | slack_webhook.py:208 | `(x + "_" + b).split("_")[-1] == b` whenever `b` has no underscore |
| Text.IndexOf | slack_webhook.py:159 | the result is the first occurrence of the character |
| Text.NatToString | slack_bot.py:43 | `str(n)` for a natural: decimal digits with no leading zero |
| Text.IntToString | slack_bot.py:43-56 | `str(i)` never contains an underscore, so it survives `split("_")` intact |
| Text.ParseInt | slack_webhook.py:49 | `int(s)` succeeds exactly when `s`, stripped of the white space `int()` ignores, is an optional sign and a group of digits (single underscores only between digits); a negative result has a `-` sign |
| Text.IntRefusesSeparator | slack_webhook.py:49 | the ASCII separators U+001C to U+001F, which `str.isspace` accepts, are not stripped by `int()`, which refuses a number led by one |
| Text.ParseIntToString | slack_webhook.py:49 | `int(str(i)) == i` for every integer, negative ones included |
| Text.TitleCase | slack_bot.py:138 | `str.title()` on ASCII, length kept: each character is lower-cased when a letter precedes it and upper-cased otherwise |
| Json.First | tweet.py:47 | `tweets[0]` succeeds exactly on a non-empty list or a non-empty string, and raises on anything else; it gives the first element of a list, and the first character, as a one-character string, of a string |
| SlackBot.ApprovalRequest | slack_bot.py:20-68 | three buttons (approve, edit, reject), in that order; each carries the text as its value and has an id ending in the index |
| SlackBot.StatusBanner | slack_bot.py:128-139 | the fixed banners for approved, rejected and edited; for any other status, `*Title-cased*` with the 📝 emoji |
| SlackBot.DisplayedText | slack_bot.py:125 | the new text is shown when it is truthy, the stored text otherwise |
| SlackBot.FinalMessage | slack_bot.py:141-183 | the update keeps the message timestamp, shows the final banner and leaves one button, with id `disabled_button` and value `disabled` |
| SlackBot.StatusUpdate | slack_bot.py:119-190 | an unknown timestamp makes no Slack call and changes nothing; a known one is updated, and is forgotten only when `chat_update` succeeds; no other session changes |
| SlackBot.FinalizeTwiceIsNoOp | slack_bot.py:123 | once a session is forgotten, a further update of it is a no-op with no Slack call |
| SlackBot.SlackTweetBot.constructor | slack_bot.py:14-17 | the tracker starts empty |
| SlackBot.SlackTweetBot.SendTweetForApproval | slack_bot.py:20-83 | returns Slack's timestamp or None; on success registers, or overwrites, one pending session with that text and index and keeps every other session; on failure changes nothing |
| SlackBot.SlackTweetBot.UpdateMessageStatus | slack_bot.py:119-190 | the new tracker and the Slack call are those of `StatusUpdate` on the old tracker |
| SlackBot.SlackTweetBot.GetPendingTweet | slack_bot.py:192-194 | Some exactly when the timestamp is tracked, and then that session |
| SlackWebhook.VerifySlackRequest | slack_webhook.py:37-73 | with no signing secret every request passes; otherwise a request passes only when its timestamp parses, lies within 300 s of now, and its signature is present and equal to `"v0=" + HMAC(secret, "v0:" + ts + ":" + body)` |
| SlackWebhook.CompareDigest | slack_webhook.py:65 | `hmac.compare_digest` on two str: defined only for two ASCII strings, and then true exactly when they are equal |
| SlackWebhook.SkippedVerificationAcceptsAll | slack_webhook.py:41-46 | an unset or empty signing secret accepts every request |
| SlackWebhook.OutOfWindowRejected | slack_webhook.py:49-51 | a timestamp more than 300 s before or after now is rejected whatever the signature |
| SlackWebhook.BadTimestampRejected | slack_webhook.py:49-73 | a missing timestamp, or one `int()` refuses, is rejected rather than raising |
| SlackWebhook.InWindowTrustedIffSignatureMatches | slack_webhook.py:37-73 | inside the window, edges included, a request is accepted exactly when its signature is `"v0=" + HMAC(secret, "v0:" + ts + ":" + body)` |
| SlackWebhook.SignatureAcceptedIff | slack_webhook.py:65-69 | against an ASCII digest, a missing signature is refused and a present one is accepted exactly when equal |
| SlackWebhook.SignedRequestAccepted | slack_webhook.py:37-69 | a request Slack signed at second `t`, checked within 300 s, is accepted |
| SlackWebhook.SignedRequestStaleAt301 | slack_webhook.py:49-51 | the same signed request is refused 301 s later |
| SlackWebhook.Matches | slack_webhook.py:84 | an entry matches exactly when it is a dict whose `tweet` field is the text, or a dict without a `tweet` field when the text is empty |
| SlackWebhook.FilterableEntries | slack_webhook.py:81-84 | on a list, the comprehension runs exactly when every element is a dict, and then over all of them; on any other document, exactly on an empty dict or an empty string, over nothing |
| SlackWebhook.AfterRemoval | slack_webhook.py:76-96 | a document the comprehension cannot run on is left as it was; otherwise the file becomes the list of the old entries that do not match the text, in their order and with their repetitions (`Survivors`) |
| SlackWebhook.Survivors | slack_webhook.py:84 | filtering never adds entries |
| SlackWebhook.SurvivorsMembers | slack_webhook.py:84 | an entry survives exactly when it was queued and does not carry the text |
| SlackWebhook.SurvivorsConcat | slack_webhook.py:84 | the filter distributes over concatenation, so the survivors keep their order |
| SlackWebhook.SurvivorsCount | slack_webhook.py:82-90 | the new count is the old count minus the number of matching entries |
| SlackWebhook.SurvivorsWithoutMatch | slack_webhook.py:84-93 | without a matching entry the queue is unchanged |
| SlackWebhook.SurvivorsCutOne | slack_webhook.py:84 | a single matching entry is cut out, and the queue is otherwise unchanged and in order |
| SlackWebhook.RemovalWithoutMatchKeepsQueue | slack_webhook.py:80-93 | with no match, the file is rewritten with the same contents |
| SlackWebhook.RemovalWithNonObjectKeepsQueue | slack_webhook.py:84-96 | one element that is not a dict makes `.get` raise, and the file is left as it was |
| SlackWebhook.QueueFile.RemoveTweetFromJson | slack_webhook.py:76-96 | the new file is `AfterRemoval` of the old one: a missing or unparsable file, or one the comprehension fails on, is untouched; otherwise it holds the survivors |
| SlackWebhook.DecodePayload | slack_webhook.py:126-205 | a missing payload, a non-object or one without `type` is malformed; a click has type `block_actions`, a submission type `view_submission`, and a payload of either type is decoded by `DecodeButtonClick` or `DecodeSubmission` respectively; any other type decodes to `OtherEvent`, which the handler answers with `status: ok`, as it does an unrecognised action id |
| SlackWebhook.DecodeButtonClick | slack_webhook.py:131-134 | a click decodes exactly when `actions` has a first entry and its `action_id`, its `value` and `message.ts` are strings, and then carries those strings and the raw `trigger_id` |
| SlackWebhook.DecodeSubmission | slack_webhook.py:203-205 | a submission decodes exactly when `view.callback_id` and `view.state.values.tweet_input.tweet_text.value` are both strings, and then carries those two strings |
| SlackWebhook.ClassifyAction | slack_webhook.py:140-195 | approve exactly on the `approve_tweet_` prefix; edit exactly on the `edit_tweet_` prefix without the approve one; reject exactly on the `reject_tweet_` prefix without the other two; disabled exactly on the id `disabled_button`; an unrecognised id has none of the three prefixes and is not `disabled_button` |
| SlackWebhook.ApproveIdClassifies | slack_webhook.py:140-159 | the approve button's id is classified as approve, and the text after its last underscore is the index |
| SlackWebhook.EditIdClassifies | slack_webhook.py:140-159 | the edit button's id fails the approve test, passes the edit test, and its last segment is the index |
| SlackWebhook.RejectIdClassifies | slack_webhook.py:140-187 | the reject button's id fails the approve and edit tests and passes the reject test |
| SlackWebhook.EditCallbackIdLayout | slack_webhook.py:163 | the modal's callback id is `edit_modal_` and the index, then an underscore, then the whole message timestamp |
| SlackWebhook.CallbackIdRoundTrip | slack_webhook.py:163-208 | the submission handler's `callback_id.split("_")[-1]` recovers the timestamp from `edit_modal_{index}_{ts}` when the timestamp has no underscore |
| SlackWebhook.CallbackIdLosesUnderscoredTs | slack_webhook.py:163-208 | for every index, a timestamp with an underscore does not survive that round trip |
| SlackWebhook.CallbackIdLosesUnderscoredTsExample | slack_webhook.py:163-208 | the timestamp `1_2` comes back as `2` |
| SlackWebhook.Finalize | slack_webhook.py:146-218 | with no bot nothing happens; with one, a tracked message gets exactly one final-status update and an untracked one is left alone; no tweet is posted |
| SlackWebhook.Click | slack_webhook.py:130-198 | only the approve and reject answers change the queue or the sessions, and a missing bot stays missing |
| SlackWebhook.Submission | slack_webhook.py:200-230 | only the `clear` answer changes the queue or the sessions, and a missing bot stays missing |
| SlackWebhook.Interaction | slack_webhook.py:111-236 | 403 exactly for the requests that fail verification; only the approved, rejected and cleared answers change the queue or the sessions; a missing bot stays missing |
| SlackWebhook.UnverifiedRequestIsInert | slack_webhook.py:122-124 | a request that fails verification gets 403 and causes no call, no removal and no session change |
| SlackWebhook.ApprovePostsOnceThenRemoves | slack_webhook.py:140-153 | approve posts the text exactly once. After a successful post the calls are the post then the final-status update (`approved`, with the stored text, when the message is tracked), the text is removed and the session finalised; after a failed post the post is the only call and queue and sessions are unchanged |
| SlackWebhook.RejectNeverPosts | slack_webhook.py:187-193 | reject never posts; its only call is the final-status update (`rejected`, when the message is tracked), and it removes the text and finalises the session |
| SlackWebhook.DisabledOrUnknownClickIsInert | slack_webhook.py:195-232 | the disabled button and unknown ids make no call and change nothing; "already processed" is the answer exactly to the disabled button |
| SlackWebhook.EditClickOnlyOpensModal | slack_webhook.py:155-185 | the edit button changes neither queue nor sessions and posts nothing. Without a trigger id it makes no call and answers with the error; with one its only call opens the 500-character modal pre-filled with the text, the answer is success exactly when `views_open` succeeds, and the callback id carries back any timestamp without an underscore |
| SlackWebhook.SubmissionRemovesEditedText | slack_webhook.py:200-230 | a submission posts the edited text once. On success the calls are the post then the final-status update (`edited`, showing the edited text unless it is empty) of the session named in the callback id, and the edited text is removed; on failure the post is the only call, the answer is the form error and nothing changes |
| SlackWebhook.WithoutBotNoSessionUpdate | slack_webhook.py:146-218 | with no bot reference no ChatUpdate call is ever made |
| SlackWebhook.HandleSlackInteractions | slack_webhook.py:111-236 | the response, the external calls, the new queue file and the new tracker are those of `Interaction` on the old state |
| SlackWebhook.HandleButtonClick | slack_webhook.py:130-198 | the in-place click branch does what `Click` says on the old state |
| SlackWebhook.HandleModalSubmission | slack_webhook.py:200-230 | the in-place submission branch does what `Submission` says on the old state |
| TweetDispatch.SelectHead | tweet.py:45-52 | exactly a falsy document queues nothing. A dict head yields its `tweet` field (default `""`), a string head yields itself, a number, bool or null head fails; the head of a non-empty string document is its first character |
| TweetDispatch.Tick | tweet.py:38-75 | each outcome exactly on its case: a missing file, a falsy document, an unparsable file or a failed selection, a failed or a successful Slack send; only a successful send registers the head's text with index 0 under Slack's timestamp |
| TweetDispatch.TickRegistersHead | tweet.py:42-64 | only a successful send changes the tracker, by exactly one pending session with the head's text and index 0 |
| TweetDispatch.EmptyQueueSendsNothing | tweet.py:45-68 | an empty queue sends nothing and leaves the tracker alone |
| TweetDispatch.HeadEntryIsSent | tweet.py:47-55 | for a queue of entries, the head's text is what gets registered |
| TweetDispatch.SendTweetForApproval | tweet.py:38-75 | the queue file is unchanged; the outcome and the new tracker are those of `Tick` |
| Workflow.DecodeClickPayload | slack_webhook.py:129-134 | a `block_actions` payload with one action decodes to the click carrying its action id, value, message timestamp and trigger id |
| Workflow.DecodeSubmissionPayload | slack_webhook.py:200-205 | a `view_submission` payload decodes to the submission carrying its callback id and edited value |
| Workflow.RemoveA | slack_webhook.py:80-88 | removing "A" from `[{"tweet":"A"},{"tweet":"B"}]` leaves `[{"tweet":"B"}]` |
| Workflow.RemoveRevised | slack_webhook.py:84 | removing "A-revised" from that queue leaves it as it was |
| Workflow.ApproveScenario | slack_webhook.py:140-148 | tick then approve: "A" is posted, the queue becomes `[{"tweet":"B"}]` and the session is gone |
| Workflow.RejectScenario | slack_webhook.py:187-193 | tick then reject: nothing is posted and the queue becomes `[{"tweet":"B"}]` |
| Workflow.DoubleApprovePostsTwice | slack_webhook.py:140-148 | two approvals of one message post "A" twice, and the second still answers "approved" |
| Workflow.EditScenario | slack_webhook.py:155-220 | edit with "A-revised": one modal opens, "A-revised" is posted, the session is gone and "A" stays queued |

## Left out

- Text generation, `llm.py` and the missing-file branch of the tick. `tweet.py:70-73` calls `generate_tweets_from_email()` and then recurses; the model ends that branch with the outcome `FileMissing` and does not model the retry.
- Logging (`logger_config.py`, the `log_performance` wrapper, the `[:50]` log truncations). The wrapper logs a failure and then re-raises it, so it does not change behaviour.
- `start_bot.py`, `set_slack_bot`, `health_check`, `post_generated_tweet`, `send_edit_modal` (never called; its modal uses `max_length` 280 and a callback id without the timestamp), `send_simple_message` and the Flask server setup.
- The HMAC-SHA256 algorithm itself, and UTF-8 encoding. The digest is an uninterpreted function, and the properties assume that it is ASCII.
- Floating-point time. `time.time()` is a real number with no rounding.
- JSON floats. Numbers are integers; a float is only read as "not text".
- `int()` on non-ASCII Unicode digits, and `str.title()` on non-ASCII letters.
- Form decoding and the `json.loads` step. The payload arrives already parsed, as `Option<Json>`; None stands for a missing or unparsable payload.
- SlackWebhook.DecodeButtonClick: a button `value` that is a list, or a message `ts` that is not a string, counts as a malformed payload. The source carries on with such a value, since slicing it at `slack_webhook.py:137` works; a number or dict value raises there, as the model says.
- SlackWebhook.DecodeSubmission: an edited text that is a list counts as a malformed payload. The source slices it at `slack_webhook.py:210` and tries to post it at `slack_webhook.py:213`.
- TweetDispatch.Tick: an empty timestamp from Slack counts as a successful send. The source's `if message_ts:` logs it as a failure; only the log line differs, since the session is registered either way.
- TweetDispatch.SelectHead: a list head, or a list-valued `tweet` field, counts as a failed selection. The source passes the list on at `tweet.py:55`, where the f-strings, the `value` fields and the `[:50]` slice of `slack_bot.py:66` all accept it, so `chat_postMessage` would send it to Slack.
- Exceptions other than `SlackApiError` raised inside `chat_postMessage` and `chat_update`. The oracle only answers success or `SlackApiError`.
- Concurrency between the tick and the webhook, between two webhook deliveries, and on the queue file. Each operation is one atomic step.
- Text.ParseInt: does not model CPython's limit on integer string conversion (`sys.int_info.default_max_str_digits`, 4300 digits, leading zeros included), past which `int()` raises `ValueError`; the model converts digit strings of any length.
- Text.ParseIntToString: does not model that limit either; in CPython `str(i)` and `int()` raise once `i` has more than 4300 digits, while the model proves the round trip for every integer.
- SlackWebhook.BadTimestampRejected: a timestamp header of more than 4300 digits, which CPython's `int()` refuses at `slack_webhook.py:49` (so the request gets 403), is parsed by the model like any other; the signing-secret holder alone could produce such a signed header.
- Text.SplitLastAfterSep: states only that the last piece is kept, not that the whole list of pieces of `b` forms a suffix; only `split("_")[-1]` is used by the source.
