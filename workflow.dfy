/**
 * End-to-end runs of the approval workflow: one dispatch tick of tweet.py
 * followed by interactions on the webhook, with the session tracker shared
 * between the two as if both ran in one process.
 */
module Workflow {
  import opened Wrappers
  import opened Text
  import opened Json
  import opened SlackBot
  import opened SlackWebhook
  import opened TweetDispatch

  /** The payload Slack sends for a button click. */
  function ClickPayload(actionId: string, value: string, messageTs: string, triggerId: Option<Json>): Json {
    var base := map[
      "type" := JStr("block_actions"),
      "actions" := JArr([JObj(map["action_id" := JStr(actionId), "value" := JStr(value)])]),
      "message" := JObj(map["ts" := JStr(messageTs)])];
    JObj(if triggerId.Some? then base["trigger_id" := triggerId.value] else base)
  }

  /** The payload Slack sends when the edit modal is submitted. */
  function SubmissionPayload(callbackId: string, edited: string): Json {
    var value := JObj(map["value" := JStr(edited)]);
    var state := JObj(map["values" := JObj(map["tweet_input" := JObj(map["tweet_text" := value])])]);
    JObj(map[
      "type" := JStr("view_submission"),
      "view" := JObj(map["callback_id" := JStr(callbackId), "state" := state])])
  }

  /** Reading one key of a dict that holds it. */
  lemma PathThrough(fields: map<string, Json>, key: string, rest: seq<string>)
    requires key in fields
    ensures Path(JObj(fields), [key] + rest) == Path(fields[key], rest)
  {
    assert ([key] + rest)[0] == key;
    assert ([key] + rest)[1..] == rest;
  }

  /** A well-formed `block_actions` payload decodes to the click it describes. */
  lemma DecodeClickPayload(actionId: string, value: string, messageTs: string, triggerId: Option<Json>)
    ensures DecodePayload(Some(ClickPayload(actionId, value, messageTs, triggerId))) ==
            ButtonClick(actionId, value, messageTs, triggerId)
  {
    var p := ClickPayload(actionId, value, messageTs, triggerId);
    var action := JObj(map["action_id" := JStr(actionId), "value" := JStr(value)]);
    var message := JObj(map["ts" := JStr(messageTs)]);
    assert "type" != "actions" && "type" != "message" && "type" != "trigger_id";
    assert "actions" != "message" && "actions" != "trigger_id" && "message" != "trigger_id";
    assert "action_id" != "value";
    assert Field(p, "type") == Some(JStr("block_actions"));
    assert Field(p, "actions") == Some(JArr([action]));
    assert First(JArr([action])) == Some(action);
    PathThrough(action.fields, "action_id", []);
    PathThrough(action.fields, "value", []);
    assert StringAt(action, ["action_id"]) == Some(actionId);
    assert StringAt(action, ["value"]) == Some(value);
    PathThrough(p.fields, "message", ["ts"]);
    PathThrough(message.fields, "ts", []);
    assert ["message"] + ["ts"] == ["message", "ts"];
    assert StringAt(p, ["message", "ts"]) == Some(messageTs);
  }

  /** A well-formed `view_submission` payload decodes to the submission it describes. */
  lemma DecodeSubmissionPayload(callbackId: string, edited: string)
    ensures DecodePayload(Some(SubmissionPayload(callbackId, edited))) == ModalSubmission(callbackId, edited)
  {
    var p := SubmissionPayload(callbackId, edited);
    var value := JObj(map["value" := JStr(edited)]);
    var tweetText := JObj(map["tweet_text" := value]);
    var tweetInput := JObj(map["tweet_input" := tweetText]);
    var values := JObj(map["values" := tweetInput]);
    var view := JObj(map["callback_id" := JStr(callbackId), "state" := values]);
    assert "type" != "view" && "callback_id" != "state";
    assert p.fields["view"] == view;
    assert Field(p, "type") == Some(JStr("view_submission"));
    assert JStr("view_submission") != JStr("block_actions");
    PathThrough(value.fields, "value", []);
    PathThrough(tweetText.fields, "tweet_text", ["value"]);
    PathThrough(tweetInput.fields, "tweet_input", ["tweet_text", "value"]);
    PathThrough(values.fields, "values", ["tweet_input", "tweet_text", "value"]);
    PathThrough(view.fields, "state", ["values", "tweet_input", "tweet_text", "value"]);
    PathThrough(p.fields, "view", ["state", "values", "tweet_input", "tweet_text", "value"]);
    assert ["view"] + ["state", "values", "tweet_input", "tweet_text", "value"] ==
           ["view", "state", "values", "tweet_input", "tweet_text", "value"];
    assert StringAt(p, ["view", "state", "values", "tweet_input", "tweet_text", "value"]) == Some(edited);
    PathThrough(view.fields, "callback_id", []);
    PathThrough(p.fields, "view", ["callback_id"]);
    assert ["view"] + ["callback_id"] == ["view", "callback_id"];
    assert StringAt(p, ["view", "callback_id"]) == Some(callbackId);
  }

  /** The queue `[{"tweet": "A"}, {"tweet": "B"}]`. */
  function QueueAB(): FileState { Document(JArr([TweetEntry("A"), TweetEntry("B")])) }

  lemma RemoveA()
    ensures AfterRemoval(QueueAB(), "A") == Document(JArr([TweetEntry("B")]))
  {
    var items := [TweetEntry("A"), TweetEntry("B")];
    assert Matches(items[0], "A");
    assert !Matches(items[1], "A") by { assert JStr("B") != JStr("A"); }
    SurvivorsCutOne([], items[0], [items[1]], "A");
    assert [] + [items[0]] + [items[1]] == items;
    assert FilterableEntries(JArr(items)) == Some(items);
    assert Survivors(items, "A") == [TweetEntry("B")];
    assert QueueAB() == Document(JArr(items));
  }

  lemma RemoveRevised()
    ensures AfterRemoval(QueueAB(), "A-revised") == QueueAB()
  {
    var items := [TweetEntry("A"), TweetEntry("B")];
    assert !Matches(items[0], "A-revised") by { assert JStr("A") != JStr("A-revised"); }
    assert !Matches(items[1], "A-revised") by { assert JStr("B") != JStr("A-revised"); }
    RemovalWithoutMatchKeepsQueue(items, "A-revised");
  }

  /** The tick on `[{"tweet": "A"}, {"tweet": "B"}]` registers "A" under the returned timestamp. */
  lemma TickOnQueueAB(ts: string)
    ensures Tick(QueueAB(), map[], Some(ts)) ==
            TickResult(SentForApproval(ts), map[ts := PendingTweet("A", 0, "pending")])
  {
    HeadEntryIsSent([TweetEntry("A"), TweetEntry("B")], "A", [TweetEntry("B")], map[], ts);
  }

  /** Finalising the only session leaves the tracker empty. */
  lemma FinalizeOnly(ts: string, status: string, newText: Option<string>)
    ensures Finalize(Some(map[ts := PendingTweet("A", 0, "pending")]), ts, status, newText, true).0 == Some(map[])
  {
    var u := StatusUpdate(map[ts := PendingTweet("A", 0, "pending")], ts, status, newText, true);
    assert u.pending.Keys == {};
    assert u.pending == map[];
  }

  /**
   * The tick registers "A" under the message timestamp and leaves the queue
   * as it is; approving that message posts "A", leaves `[{"tweet": "B"}]` and
   * forgets the session.
   */
  lemma ApproveScenario(env: Env, timestamp: Option<string>, signature: Option<string>, body: string, ts: string)
    requires VerifySlackRequest(env, body, timestamp, signature)
    ensures var tick := Tick(QueueAB(), map[], Some(ts));
            var req := Request(timestamp, signature, body, Some(ClickPayload(ApproveActionId(0), "A", ts, None)));
            var r := Interaction(env, req, Oracle(true, true, true), QueueAB(), Some(tick.pending));
            && tick.outcome == SentForApproval(ts)
            && tick.pending == map[ts := PendingTweet("A", 0, "pending")]
            && Posts(r.calls) == ["A"]
            && r.queue == Document(JArr([TweetEntry("B")]))
            && r.sessions == Some(map[])
  {
    TickOnQueueAB(ts);
    var req := Request(timestamp, signature, body, Some(ClickPayload(ApproveActionId(0), "A", ts, None)));
    DecodeClickPayload(ApproveActionId(0), "A", ts, None);
    ApproveIdClassifies(0);
    RemoveA();
    FinalizeOnly(ts, "approved", None);
    ApprovePostsOnceThenRemoves(env, req, Oracle(true, true, true), QueueAB(),
                                Some(map[ts := PendingTweet("A", 0, "pending")]));
  }

  /** Rejecting the message instead never posts and also leaves `[{"tweet": "B"}]`. */
  lemma RejectScenario(env: Env, timestamp: Option<string>, signature: Option<string>, body: string, ts: string,
                       oracle: Oracle)
    requires VerifySlackRequest(env, body, timestamp, signature)
    ensures var tick := Tick(QueueAB(), map[], Some(ts));
            var req := Request(timestamp, signature, body, Some(ClickPayload(RejectActionId(0), "A", ts, None)));
            var r := Interaction(env, req, oracle, QueueAB(), Some(tick.pending));
            && Posts(r.calls) == []
            && r.queue == Document(JArr([TweetEntry("B")]))
  {
    TickOnQueueAB(ts);
    var req := Request(timestamp, signature, body, Some(ClickPayload(RejectActionId(0), "A", ts, None)));
    DecodeClickPayload(RejectActionId(0), "A", ts, None);
    RejectIdClassifies(0);
    RemoveA();
    RejectNeverPosts(env, req, oracle, QueueAB(), Some(map[ts := PendingTweet("A", 0, "pending")]));
  }

  /**
   * Two approve events for the same message: the handler does not consult
   * the tracker before posting, so the second one posts "A" again even
   * though its session is already gone.
   */
  lemma DoubleApprovePostsTwice(env: Env, timestamp: Option<string>, signature: Option<string>, body: string,
                                ts: string)
    requires VerifySlackRequest(env, body, timestamp, signature)
    ensures var req := Request(timestamp, signature, body, Some(ClickPayload(ApproveActionId(0), "A", ts, None)));
            var first := Interaction(env, req, Oracle(true, true, true), QueueAB(),
                                     Some(map[ts := PendingTweet("A", 0, "pending")]));
            var second := Interaction(env, req, Oracle(true, true, true), first.queue, first.sessions);
            && Posts(first.calls) == ["A"]
            && Posts(second.calls) == ["A"]
            && second.response == TweetApproved
            && second.sessions == Some(map[])
  {
    var req := Request(timestamp, signature, body, Some(ClickPayload(ApproveActionId(0), "A", ts, None)));
    DecodeClickPayload(ApproveActionId(0), "A", ts, None);
    ApproveIdClassifies(0);
    RemoveA();
    var oracle := Oracle(true, true, true);
    var first := Interaction(env, req, oracle, QueueAB(), Some(map[ts := PendingTweet("A", 0, "pending")]));
    ApprovePostsOnceThenRemoves(env, req, oracle, QueueAB(), Some(map[ts := PendingTweet("A", 0, "pending")]));
    FinalizeOnly(ts, "approved", None);
    assert first.queue == Document(JArr([TweetEntry("B")]));
    assert first.sessions == Some(map[]);
    ApprovePostsOnceThenRemoves(env, req, oracle, first.queue, first.sessions);
    FinalizeUnknown(ts, "approved", None);
  }

  lemma FinalizeUnknown(ts: string, status: string, newText: Option<string>)
    ensures Finalize(Some(map[]), ts, status, newText, true).0 == Some(map[])
  {
    var u := StatusUpdate(map[], ts, status, newText, true);
    assert u.pending.Keys == {};
  }

  /**
   * The edit flow: the edit click opens a modal carrying the timestamp; its
   * submission with "A-revised" posts "A-revised" and forgets the session,
   * but removes "A-revised" from the queue, so the original "A" stays queued.
   */
  lemma EditScenario(env: Env, timestamp: Option<string>, signature: Option<string>, body: string, ts: string,
                     triggerId: Json)
    requires VerifySlackRequest(env, body, timestamp, signature)
    requires '_' !in ts
    ensures var sessions := Some(map[ts := PendingTweet("A", 0, "pending")]);
            var click := Request(timestamp, signature, body, Some(ClickPayload(EditActionId(0), "A", ts, Some(triggerId))));
            var editing := Interaction(env, click, Oracle(true, true, true), QueueAB(), sessions);
            var callbackId := EditCallbackId("0", ts);
            var submit := Request(timestamp, signature, body, Some(SubmissionPayload(callbackId, "A-revised")));
            var done := Interaction(env, submit, Oracle(true, true, true), editing.queue, editing.sessions);
            && editing.calls == [ViewsOpen(triggerId, EditModal(callbackId, "A", 500))]
            && editing.queue == QueueAB() && editing.sessions == sessions
            && Posts(done.calls) == ["A-revised"]
            && done.queue == QueueAB()
            && done.sessions == Some(map[])
  {
    var sessions := Some(map[ts := PendingTweet("A", 0, "pending")]);
    DecodeClickPayload(EditActionId(0), "A", ts, Some(triggerId));
    EditIdClassifies(0);
    assert IntToString(0) == "0";
    var callbackId := EditCallbackId("0", ts);
    var submit := Request(timestamp, signature, body, Some(SubmissionPayload(callbackId, "A-revised")));
    DecodeSubmissionPayload(callbackId, "A-revised");
    CallbackIdRoundTrip("0", ts);
    RemoveRevised();
    SubmissionRemovesEditedText(env, submit, Oracle(true, true, true), QueueAB(), sessions);
  }
}
