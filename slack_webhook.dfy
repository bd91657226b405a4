/**
 * The Slack interactions endpoint (slack_webhook.py): request verification,
 * the queue file `generated_tweets.json` and the removal of a tweet from it,
 * the decoding and classification of an interaction payload, and the
 * dispatcher that posts, removes and finalises in that order.
 *
 * The webhook runs in its own process, so its `slack_bot` reference may be
 * None; the session tracker is therefore an optional reference here.
 * The Twitter post, Slack's `views_open` and `chat_update`, the clock and
 * the HMAC-SHA256 hex digest are parameters.
 */
module SlackWebhook {
  import opened Wrappers
  import opened Text
  import opened Json
  import opened SlackBot

  // ===========================================================================
  // Request verification

  /**
   * What verification reads from outside: the `SLACK_SIGNING_SECRET`
   * environment variable (None when unset), `time.time()`, and
   * `hmac.new(key, msg, sha256).hexdigest()` as an uninterpreted function.
   */
  datatype Env = Env(signingSecret: Option<string>, now: real, hmacSha256Hex: (string, string) -> string)

  /** The replay window, `60 * 5` seconds. */
  const ReplayWindow: int := 60 * 5

  /** A secret that is unset or empty switches verification off. */
  predicate VerificationSkipped(env: Env) {
    env.signingSecret.None? || env.signingSecret.value == ""
  }

  /** `abs(now - t) > 300` is false. */
  predicate WithinWindow(now: real, t: int) {
    -(ReplayWindow as real) <= now - t as real <= ReplayWindow as real
  }

  /** The basestring Slack signs: version, the raw timestamp header, the raw body. */
  function SignatureBase(timestamp: string, body: string): string {
    "v0:" + timestamp + ":" + body
  }

  function ExpectedSignature(env: Env, secret: string, timestamp: string, body: string): string {
    "v0=" + env.hmacSha256Hex(secret, SignatureBase(timestamp, body))
  }

  /** `hmac.compare_digest` on two str: TypeError (None) unless both are ASCII. */
  function CompareDigest(a: string, b: string): (r: Option<bool>)
    ensures r.Some? <==> IsAscii(a) && IsAscii(b)
    ensures r.Some? ==> (r.value <==> a == b)
  {
    if IsAscii(a) && IsAscii(b) then Some(a == b) else None
  }

  /**
   * `verify_slack_request(body, timestamp, signature)`. A missing header is
   * None; every exception the source catches (int() of a bad or missing
   * timestamp, compare_digest of a missing or non-ASCII signature) gives false.
   */
  function VerifySlackRequest(env: Env, body: string, timestamp: Option<string>, signature: Option<string>): (ok: bool)
    ensures VerificationSkipped(env) ==> ok
    ensures ok && !VerificationSkipped(env) ==>
      && timestamp.Some? && ParseInt(timestamp.value).Some?
      && WithinWindow(env.now, ParseInt(timestamp.value).value)
      && signature == Some(ExpectedSignature(env, env.signingSecret.value, timestamp.value, body))
  {
    if VerificationSkipped(env) then true
    else if timestamp.None? then false
    else
      match ParseInt(timestamp.value)
      case None => false
      case Some(t) =>
        WithinWindow(env.now, t) &&
        SignatureAccepted(ExpectedSignature(env, env.signingSecret.value, timestamp.value, body), signature)
  }

  /** `hmac.compare_digest(computed, signature)` is true; a missing signature raises. */
  predicate SignatureAccepted(computed: string, signature: Option<string>) {
    signature.Some? && CompareDigest(computed, signature.value) == Some(true)
  }

  /** For an ASCII digest, the comparison accepts exactly that digest. */
  lemma SignatureAcceptedIff(computed: string, signature: Option<string>)
    requires IsAscii(computed)
    ensures SignatureAccepted(computed, signature) <==> signature == Some(computed)
  {
  }

  lemma AsciiConcat(a: string, b: string)
    requires IsAscii(a) && IsAscii(b)
    ensures IsAscii(a + b)
  {
    assert forall i :: 0 <= i < |a + b| ==> (a + b)[i] == if i < |a| then a[i] else b[i - |a|];
  }

  /** With no secret configured every request passes. */
  lemma SkippedVerificationAcceptsAll(env: Env, body: string, timestamp: Option<string>, signature: Option<string>)
    requires VerificationSkipped(env)
    ensures VerifySlackRequest(env, body, timestamp, signature)
  {
  }

  /** A timestamp more than 300 s away from now, past or future, is rejected whatever the signature. */
  lemma OutOfWindowRejected(env: Env, body: string, timestamp: string, t: int, signature: Option<string>)
    requires !VerificationSkipped(env)
    requires ParseInt(timestamp) == Some(t)
    requires env.now - t as real > 300.0 || t as real - env.now > 300.0
    ensures !VerifySlackRequest(env, body, Some(timestamp), signature)
  {
  }

  /** A missing or non-integer timestamp is rejected (false, not an exception). */
  lemma BadTimestampRejected(env: Env, body: string, timestamp: Option<string>, signature: Option<string>)
    requires !VerificationSkipped(env)
    requires timestamp.None? || ParseInt(timestamp.value).None?
    ensures !VerifySlackRequest(env, body, timestamp, signature)
  {
  }

  /**
   * Inside the window (its edges included) the request is trusted exactly
   * when the signature is `"v0=" + H(secret, "v0:" + ts + ":" + body)`,
   * given that the digest is ASCII, as a hex digest is.
   */
  lemma InWindowTrustedIffSignatureMatches(env: Env, body: string, timestamp: string, t: int, signature: Option<string>)
    requires !VerificationSkipped(env)
    requires ParseInt(timestamp) == Some(t)
    requires -300.0 <= env.now - t as real <= 300.0
    requires IsAscii(env.hmacSha256Hex(env.signingSecret.value, SignatureBase(timestamp, body)))
    ensures VerifySlackRequest(env, body, Some(timestamp), signature) <==>
            signature == Some("v0=" + env.hmacSha256Hex(env.signingSecret.value, "v0:" + timestamp + ":" + body))
  {
    var expected := ExpectedSignature(env, env.signingSecret.value, timestamp, body);
    VerifyInWindow(env, body, timestamp, t, signature);
    ExpectedSignatureIsAscii(env, env.signingSecret.value, timestamp, body);
    SignatureAcceptedIff(expected, signature);
    assert expected == "v0=" + env.hmacSha256Hex(env.signingSecret.value, "v0:" + timestamp + ":" + body);
  }

  /** Inside the window verification comes down to the signature comparison. */
  lemma VerifyInWindow(env: Env, body: string, timestamp: string, t: int, signature: Option<string>)
    requires !VerificationSkipped(env)
    requires ParseInt(timestamp) == Some(t)
    requires WithinWindow(env.now, t)
    ensures VerifySlackRequest(env, body, Some(timestamp), signature) ==
            SignatureAccepted(ExpectedSignature(env, env.signingSecret.value, timestamp, body), signature)
  {
  }

  lemma ExpectedSignatureIsAscii(env: Env, secret: string, timestamp: string, body: string)
    requires IsAscii(env.hmacSha256Hex(secret, SignatureBase(timestamp, body)))
    ensures IsAscii(ExpectedSignature(env, secret, timestamp, body))
  {
    assert IsAscii("v0=");
    AsciiConcat("v0=", env.hmacSha256Hex(secret, SignatureBase(timestamp, body)));
  }

  /** A request Slack signed at second `t`, checked at most 300 s later or earlier, is trusted. */
  lemma SignedRequestAccepted(env: Env, body: string, t: int)
    requires !VerificationSkipped(env)
    requires -300.0 <= env.now - t as real <= 300.0
    requires IsAscii(env.hmacSha256Hex(env.signingSecret.value, SignatureBase(IntToString(t), body)))
    ensures VerifySlackRequest(env, body, Some(IntToString(t)),
                               Some(ExpectedSignature(env, env.signingSecret.value, IntToString(t), body)))
  {
    ParseIntToString(t);
    InWindowTrustedIffSignatureMatches(env, body, IntToString(t), t,
      Some(ExpectedSignature(env, env.signingSecret.value, IntToString(t), body)));
  }

  /** The same correctly signed request is rejected once it is 301 s old. */
  lemma SignedRequestStaleAt301(env: Env, body: string, t: int)
    requires !VerificationSkipped(env)
    requires env.now == t as real + 301.0
    ensures !VerifySlackRequest(env, body, Some(IntToString(t)),
                                Some(ExpectedSignature(env, env.signingSecret.value, IntToString(t), body)))
  {
    ParseIntToString(t);
  }

  // ===========================================================================
  // The queue file and remove_tweet_from_json

  /** The queue file: absent, not parseable as JSON, or a JSON document. */
  datatype FileState = Missing | Unparsable | Document(content: Json)

  /**
   * `tweet.get("tweet", "") == tweet_text` for a dict entry: the entry's
   * `tweet` is that text, or it has none and the text is empty.
   */
  function Matches(entry: Json, text: string): (m: bool)
    ensures m <==> (entry.JObj? &&
                    if "tweet" in entry.fields then entry.fields["tweet"] == JStr(text) else text == "")
  {
    entry.JObj? && GetOr(entry.fields, "tweet", JStr("")) == JStr(text)
  }

  /** The entries the comprehension keeps, in their order. */
  function Survivors(entries: seq<Json>, text: string): (r: seq<Json>)
    ensures |r| <= |entries|
  {
    if entries == [] then []
    else (if Matches(entries[0], text) then [] else [entries[0]]) + Survivors(entries[1..], text)
  }

  /** Number of entries that match `text`. */
  function MatchCount(entries: seq<Json>, text: string): nat {
    if entries == [] then 0
    else (if Matches(entries[0], text) then 1 else 0) + MatchCount(entries[1..], text)
  }

  /**
   * The entries `for tweet in tweets` visits when every `.get` succeeds,
   * that is when every element is a dict; None when the comprehension raises.
   * A non-empty top-level dict or string yields strings, which have no `.get`;
   * an empty one yields nothing at all.
   */
  function FilterableEntries(j: Json): (r: Option<seq<Json>>)
    ensures r.Some? ==> forall i :: 0 <= i < |r.value| ==> r.value[i].JObj?
    ensures j.JArr? ==> (r.Some? <==> forall i :: 0 <= i < |j.items| ==> j.items[i].JObj?)
    ensures j.JArr? && r.Some? ==> r.value == j.items
    ensures !j.JArr? ==> (r.Some? <==> j == JObj(map[]) || j == JStr("")) && (r.Some? ==> r.value == [])
  {
    match j
    case JArr(items) => if forall i :: 0 <= i < |items| ==> items[i].JObj? then Some(items) else None
    case JObj(fields) => if fields == map[] then Some([]) else None
    case JStr(s) => if s == "" then Some([]) else None
    case _ => None
  }

  /**
   * The queue file after `remove_tweet_from_json(text)`: an absent or
   * unreadable file, and a document the comprehension fails on, are left as
   * they were (the exception is logged); otherwise the file is rewritten as
   * the list of surviving entries.
   */
  function AfterRemoval(state: FileState, text: string): (r: FileState)
    ensures !(state.Document? && FilterableEntries(state.content).Some?) ==> r == state
    ensures state.Document? && FilterableEntries(state.content).Some? ==>
      && r.Document? && r.content.JArr?
      && forall x :: x in r.content.items <==> x in FilterableEntries(state.content).value && !Matches(x, text)
    ensures state.Document? && FilterableEntries(state.content).Some? ==>
      r == Document(JArr(Survivors(FilterableEntries(state.content).value, text)))
  {
    if state.Document? && FilterableEntries(state.content).Some? then
      var entries := FilterableEntries(state.content).value;
      forall x ensures x in Survivors(entries, text) <==> x in entries && !Matches(x, text) {
        SurvivorsMembers(entries, text, x);
      }
      Document(JArr(Survivors(entries, text)))
    else state
  }

  /** An entry survives exactly when it was queued and does not match. */
  lemma {:induction false} SurvivorsMembers(entries: seq<Json>, text: string, x: Json)
    ensures x in Survivors(entries, text) <==> x in entries && !Matches(x, text)
  {
    if entries != [] {
      SurvivorsMembers(entries[1..], text, x);
      assert entries == [entries[0]] + entries[1..];
    }
  }

  /** Filtering distributes over concatenation: survivors keep their relative order. */
  lemma {:induction false} SurvivorsConcat(a: seq<Json>, b: seq<Json>, text: string)
    ensures Survivors(a + b, text) == Survivors(a, text) + Survivors(b, text)
  {
    if a == [] {
      assert a + b == b;
    } else {
      var head := if Matches(a[0], text) then [] else [a[0]];
      assert (a + b)[0] == a[0];
      assert (a + b)[1..] == a[1..] + b;
      SurvivorsConcat(a[1..], b, text);
      calc {
        Survivors(a + b, text);
        head + Survivors(a[1..] + b, text);
        head + (Survivors(a[1..], text) + Survivors(b, text));
        (head + Survivors(a[1..], text)) + Survivors(b, text);
        Survivors(a, text) + Survivors(b, text);
      }
    }
  }

  /** Exactly the matching entries go: the survivors number the entries minus the matches. */
  lemma {:induction false} SurvivorsCount(entries: seq<Json>, text: string)
    ensures |Survivors(entries, text)| == |entries| - MatchCount(entries, text)
  {
    if entries != [] {
      SurvivorsCount(entries[1..], text);
    }
  }

  /** No entry of the queue is a dict whose "tweet" is the text. */
  predicate NoneMatch(entries: seq<Json>, text: string) {
    forall i :: 0 <= i < |entries| ==> !Matches(entries[i], text)
  }

  /** Without a match nothing is removed. */
  lemma {:induction false} SurvivorsWithoutMatch(entries: seq<Json>, text: string)
    requires NoneMatch(entries, text)
    ensures Survivors(entries, text) == entries
  {
    if entries != [] {
      assert NoneMatch(entries[1..], text) by {
        forall i | 0 <= i < |entries[1..]| ensures !Matches(entries[1..][i], text) {
          assert entries[1..][i] == entries[i + 1];
        }
      }
      SurvivorsWithoutMatch(entries[1..], text);
    }
  }

  /** A single matching entry in the middle of the queue is cut out and nothing else. */
  lemma SurvivorsCutOne(before: seq<Json>, entry: Json, after: seq<Json>, text: string)
    requires NoneMatch(before, text)
    requires NoneMatch(after, text)
    requires Matches(entry, text)
    ensures Survivors(before + [entry] + after, text) == before + after
  {
    var front := before + [entry];
    SurvivorsWithoutMatch(before, text);
    SurvivorsWithoutMatch(after, text);
    SurvivorsOfMatch(entry, text);
    SurvivorsConcat(before, [entry], text);
    assert before + [] == before;
    assert Survivors(front, text) == before;
    SurvivorsConcat(front, after, text);
    assert Survivors(front + after, text) == before + after;
  }

  lemma SurvivorsOfMatch(entry: Json, text: string)
    requires Matches(entry, text)
    ensures Survivors([entry], text) == []
  {
    assert [entry][1..] == [];
  }

  /** A queue with no entry for the text is rewritten with the same contents. */
  lemma RemovalWithoutMatchKeepsQueue(items: seq<Json>, text: string)
    requires forall i :: 0 <= i < |items| ==> items[i].JObj? && !Matches(items[i], text)
    ensures AfterRemoval(Document(JArr(items)), text) == Document(JArr(items))
  {
    assert NoneMatch(items, text);
    SurvivorsWithoutMatch(items, text);
  }

  /** One entry that is not a dict makes `.get` raise, and the file stays as it was. */
  lemma RemovalWithNonObjectKeepsQueue(items: seq<Json>, k: nat, text: string)
    requires k < |items| && !items[k].JObj?
    ensures AfterRemoval(Document(JArr(items)), text) == Document(JArr(items))
  {
  }

  /** The Python file object `generated_tweets.json`, rewritten in place. */
  class QueueFile {
    var state: FileState

    constructor (initial: FileState)
      ensures state == initial
    {
      state := initial;
    }

    /** `remove_tweet_from_json(tweet_text)`: read, filter by exact text, seek, dump, truncate. */
    method RemoveTweetFromJson(tweetText: string)
      modifies this
      ensures state == AfterRemoval(old(state), tweetText)
    {
      if state.Document? {
        var entries := FilterableEntries(state.content);
        if entries.Some? {
          var kept := Survivors(entries.value, tweetText);
          state := Document(JArr(kept));
        }
      }
    }
  }

  // ===========================================================================
  // Payload decoding and classification

  /**
   * An interaction payload after the reads the handler does before any side
   * effect. `Malformed` stands for every failure there (no payload, JSON that
   * is not a dict, a missing key, a field of the wrong type): the handler's
   * catch-all answers it with the generic error.
   */
  datatype Event =
    | Malformed
    | ButtonClick(actionId: string, value: string, messageTs: string, triggerId: Option<Json>)
    | ModalSubmission(callbackId: string, editedText: string)
    | OtherEvent

  /** `j[k1][k2]...` for a path of keys. */
  function Path(j: Json, keys: seq<string>): Option<Json>
    decreases |keys|
  {
    if keys == [] then Some(j)
    else match Field(j, keys[0])
      case None => None
      case Some(v) => Path(v, keys[1..])
  }

  /** A value that is there and is a JSON string. */
  predicate IsText(v: Option<Json>) { v.Some? && v.value.JStr? }

  /** The string at a path of keys; None when a key is missing or the value is not a string. */
  function StringAt(j: Json, keys: seq<string>): (r: Option<string>)
    ensures r.Some? <==> IsText(Path(j, keys))
    ensures r.Some? ==> Path(j, keys) == Some(JStr(r.value))
  {
    match Path(j, keys)
    case None => None
    case Some(v) => AsString(v)
  }

  /** The first action of a click payload, `payload["actions"][0]`. */
  function FirstAction(payload: Json): Option<Json> {
    var actions := Field(payload, "actions");
    if actions.Some? then First(actions.value) else None
  }

  /**
   * slack_webhook.py reads `payload["actions"][0]` and then the action's
   * fields: a click decodes exactly when the first action's `action_id` and
   * `value` and the message's `ts` are strings, and it carries those strings.
   */
  function DecodeButtonClick(payload: Json): (e: Event)
    ensures e.Malformed? || e.ButtonClick?
    ensures e.ButtonClick? <==>
      FirstAction(payload).Some? && IsText(Path(FirstAction(payload).value, ["action_id"])) &&
      IsText(Path(FirstAction(payload).value, ["value"])) && IsText(Path(payload, ["message", "ts"]))
    ensures e.ButtonClick? ==>
      && Path(FirstAction(payload).value, ["action_id"]) == Some(JStr(e.actionId))
      && Path(FirstAction(payload).value, ["value"]) == Some(JStr(e.value))
      && Path(payload, ["message", "ts"]) == Some(JStr(e.messageTs))
      && e.triggerId == Field(payload, "trigger_id")
  {
    var action := FirstAction(payload);
    if action.None? then Malformed
    else
      var actionId := StringAt(action.value, ["action_id"]);
      var value := StringAt(action.value, ["value"]);
      var ts := StringAt(payload, ["message", "ts"]);
      if actionId.None? || value.None? || ts.None? then Malformed
      else ButtonClick(actionId.value, value.value, ts.value, Field(payload, "trigger_id"))
  }

  /**
   * A submission decodes exactly when the view's `callback_id` and the edited
   * value are strings, and it carries those strings.
   */
  function DecodeSubmission(payload: Json): (e: Event)
    ensures e.Malformed? || e.ModalSubmission?
    ensures e.ModalSubmission? <==>
      IsText(Path(payload, ["view", "callback_id"])) &&
      IsText(Path(payload, ["view", "state", "values", "tweet_input", "tweet_text", "value"]))
    ensures e.ModalSubmission? ==>
      && Path(payload, ["view", "callback_id"]) == Some(JStr(e.callbackId))
      && Path(payload, ["view", "state", "values", "tweet_input", "tweet_text", "value"]) == Some(JStr(e.editedText))
  {
    var callbackId := StringAt(payload, ["view", "callback_id"]);
    var edited := StringAt(payload, ["view", "state", "values", "tweet_input", "tweet_text", "value"]);
    if callbackId.None? || edited.None? then Malformed
    else ModalSubmission(callbackId.value, edited.value)
  }

  /** `json.loads(request.form.get("payload"))` and the reads that follow it. */
  function DecodePayload(payload: Option<Json>): (e: Event)
    ensures payload.None? || !payload.value.JObj? || "type" !in payload.value.fields ==> e.Malformed?
    ensures e.ButtonClick? ==> payload.value.fields["type"] == JStr("block_actions")
    ensures e.ModalSubmission? ==> payload.value.fields["type"] == JStr("view_submission")
    ensures payload.Some? && Field(payload.value, "type") == Some(JStr("block_actions")) ==>
      e == DecodeButtonClick(payload.value)
    ensures payload.Some? && Field(payload.value, "type") == Some(JStr("view_submission")) ==>
      e == DecodeSubmission(payload.value)
    ensures e.OtherEvent? <==>
      payload.Some? && payload.value.JObj? && "type" in payload.value.fields &&
      payload.value.fields["type"] != JStr("block_actions") && payload.value.fields["type"] != JStr("view_submission")
  {
    if payload.None? || !payload.value.JObj? then Malformed
    else match Field(payload.value, "type")
      case None => Malformed
      case Some(kind) =>
        if kind == JStr("block_actions") then DecodeButtonClick(payload.value)
        else if kind == JStr("view_submission") then DecodeSubmission(payload.value)
        else OtherEvent
  }

  datatype ActionKind = ApproveAction | EditAction | RejectAction | DisabledAction | UnrecognisedAction

  /**
   * The handler's chain of prefix tests on `action_id`, in source order: the
   * approve prefix wins, and `disabled_button`, which has none of the three
   * prefixes, is the only id classified as disabled.
   */
  function ClassifyAction(actionId: string): (k: ActionKind)
    ensures k == ApproveAction <==> StartsWith(actionId, "approve_tweet_")
    ensures k == EditAction <==> !StartsWith(actionId, "approve_tweet_") && StartsWith(actionId, "edit_tweet_")
    ensures k == RejectAction <==>
      && !StartsWith(actionId, "approve_tweet_") && !StartsWith(actionId, "edit_tweet_")
      && StartsWith(actionId, "reject_tweet_")
    ensures k == DisabledAction <==> actionId == DisabledActionId
    ensures k == UnrecognisedAction ==>
      && !StartsWith(actionId, "approve_tweet_") && !StartsWith(actionId, "edit_tweet_")
      && !StartsWith(actionId, "reject_tweet_") && actionId != DisabledActionId
  {
    DisabledIdHasNoButtonPrefix();
    if StartsWith(actionId, "approve_tweet_") then ApproveAction
    else if StartsWith(actionId, "edit_tweet_") then EditAction
    else if StartsWith(actionId, "reject_tweet_") then RejectAction
    else if actionId == "disabled_button" then DisabledAction
    else UnrecognisedAction
  }

  /** The approve button is classified as approve, and `split("_")[-1]` gives back its index. */
  lemma ApproveIdClassifies(index: int)
    ensures ClassifyAction(ApproveActionId(index)) == ApproveAction
    ensures LastSegment(ApproveActionId(index)) == IntToString(index)
  {
    var n := IntToString(index);
    assert ApproveActionId(index) == "approve_tweet" + "_" + n;
    LastSegmentAfterUnderscore("approve_tweet", n);
    assert ApproveActionId(index)[..|"approve_tweet_"|] == "approve_tweet_";
  }

  /** The edit button is classified as edit, and `split("_")[-1]` gives back its index. */
  lemma EditIdClassifies(index: int)
    ensures ClassifyAction(EditActionId(index)) == EditAction
    ensures LastSegment(EditActionId(index)) == IntToString(index)
  {
    var n := IntToString(index);
    var id := EditActionId(index);
    assert id == "edit_tweet" + "_" + n;
    LastSegmentAfterUnderscore("edit_tweet", n);
    assert id[0] == 'e';
    assert !StartsWith(id, "approve_tweet_") by { assert "approve_tweet_"[0] == 'a'; }
    assert id[..|"edit_tweet_"|] == "edit_tweet_";
  }

  /** The reject button is classified as reject, and `split("_")[-1]` gives back its index. */
  lemma RejectIdClassifies(index: int)
    ensures ClassifyAction(RejectActionId(index)) == RejectAction
    ensures LastSegment(RejectActionId(index)) == IntToString(index)
  {
    var n := IntToString(index);
    var id := RejectActionId(index);
    assert id == "reject_tweet" + "_" + n;
    LastSegmentAfterUnderscore("reject_tweet", n);
    assert id[0] == 'r';
    assert !StartsWith(id, "approve_tweet_") by { assert "approve_tweet_"[0] == 'a'; }
    assert !StartsWith(id, "edit_tweet_") by { assert "edit_tweet_"[0] == 'e'; }
    assert id[..|"reject_tweet_"|] == "reject_tweet_";
  }

  /** `disabled_button` starts with none of the three button prefixes. */
  lemma DisabledIdHasNoButtonPrefix()
    ensures !StartsWith(DisabledActionId, "approve_tweet_")
    ensures !StartsWith(DisabledActionId, "edit_tweet_")
    ensures !StartsWith(DisabledActionId, "reject_tweet_")
  {
    assert DisabledActionId[0] == 'd';
    assert "approve_tweet_"[0] == 'a';
    assert "edit_tweet_"[0] == 'e';
    assert "reject_tweet_"[0] == 'r';
  }

  // ===========================================================================
  // The edit modal and its callback id

  /** The modal `views_open` is asked to show. */
  datatype EditModal = EditModal(callbackId: string, initialValue: string, maxLength: nat)

  /** `f"edit_modal_{tweet_index}_{message_ts}"`. */
  function EditCallbackId(tweetIndex: string, messageTs: string): string {
    "edit_modal_" + tweetIndex + "_" + messageTs
  }

  /** The callback id is the modal prefix and the index, an underscore, then the whole timestamp. */
  lemma EditCallbackIdLayout(tweetIndex: string, messageTs: string)
    ensures var r := EditCallbackId(tweetIndex, messageTs);
            && StartsWith(r, "edit_modal_" + tweetIndex)
            && |r| == |"edit_modal_" + tweetIndex| + 1 + |messageTs|
            && r[|r| - |messageTs|..] == messageTs && r[|r| - |messageTs| - 1] == '_'
  {
    var r := EditCallbackId(tweetIndex, messageTs);
    assert r[..|"edit_modal_" + tweetIndex|] == "edit_modal_" + tweetIndex;
  }

  /** The submission handler's `callback_id.split("_")[-1]` recovers the message timestamp. */
  lemma CallbackIdRoundTrip(tweetIndex: string, messageTs: string)
    requires '_' !in messageTs
    ensures LastSegment(EditCallbackId(tweetIndex, messageTs)) == messageTs
  {
    assert EditCallbackId(tweetIndex, messageTs) == ("edit_modal_" + tweetIndex) + "_" + messageTs;
    LastSegmentAfterUnderscore("edit_modal_" + tweetIndex, messageTs);
  }

  /** A timestamp holding an underscore never survives the round trip, whatever the index. */
  lemma CallbackIdLosesUnderscoredTs(tweetIndex: string, messageTs: string)
    requires '_' in messageTs
    ensures LastSegment(EditCallbackId(tweetIndex, messageTs)) != messageTs
  {
    LastSegmentIsSuffix(EditCallbackId(tweetIndex, messageTs));
  }

  /** For instance the timestamp `1_2` comes back as `2`. */
  lemma CallbackIdLosesUnderscoredTsExample()
    ensures LastSegment(EditCallbackId("0", "1_2")) == "2"
  {
    assert EditCallbackId("0", "1_2") == "edit_modal_0_1" + "_" + "2";
    LastSegmentAfterUnderscore("edit_modal_0_1", "2");
  }

  // ===========================================================================
  // The dispatcher

  /** The handler's JSON answers. */
  datatype Response =
    | Forbidden          // 403 {"error": "Request verification failed"}
    | TweetApproved      // "✅ Tweet approved and posted!"
    | PostFailed         // "❌ Failed to post tweet. Please try again."
    | OpeningEditModal   // "Opening edit modal..."
    | TweetRejected      // "❌ Tweet rejected and removed from queue."
    | AlreadyProcessed   // "This tweet has already been processed."
    | ModalCleared       // {"response_action": "clear"}
    | ModalErrors        // {"response_action": "errors", ...}
    | StatusOk           // {"status": "ok"}
    | InternalError      // "❌ An error occurred processing your request."

  /** The calls the handler makes to Twitter and Slack, in order. */
  datatype Call =
    | TwitterPost(text: string)
    | ViewsOpen(triggerId: Json, view: EditModal)
    | ChatUpdate(update: MessageUpdate)

  /** The outcomes of the external calls one interaction may make. */
  datatype Oracle = Oracle(twitterPostOk: bool, viewsOpenOk: bool, chatUpdateOk: bool)

  /** The parts of the HTTP request the handler reads. */
  datatype Request = Request(timestamp: Option<string>, signature: Option<string>, body: string, payload: Option<Json>)

  /** The handler's answer, its external calls, and the new queue and tracker. */
  datatype Reaction = Reaction(response: Response, calls: seq<Call>, queue: FileState, sessions: Option<Sessions>)

  /** The texts posted to Twitter. */
  function Posts(calls: seq<Call>): seq<string> {
    if calls == [] then []
    else (if calls[0].TwitterPost? then [calls[0].text] else []) + Posts(calls[1..])
  }

  function UpdateCalls(call: Option<MessageUpdate>): seq<Call> {
    if call.Some? then [ChatUpdate(call.value)] else []
  }

  /**
   * `if slack_bot: slack_bot.update_message_status(...)`: without a bot
   * nothing happens; with one, a tracked message gets its final-status update
   * and an untracked one is left alone. No tweet is posted.
   */
  function Finalize(sessions: Option<Sessions>, ts: string, status: string, newText: Option<string>,
                    updateOk: bool): (r: (Option<Sessions>, seq<Call>))
    ensures sessions.None? ==> r == (None, [])
    ensures sessions.Some? ==> r.0 == Some(StatusUpdate(sessions.value, ts, status, newText, updateOk).pending)
    ensures sessions.Some? && ts in sessions.value ==>
      r.1 == [ChatUpdate(FinalMessage(ts, status, DisplayedText(newText, sessions.value[ts].text)))]
    ensures sessions.Some? && ts !in sessions.value ==> r == (sessions, [])
    ensures Posts(r.1) == []
  {
    match sessions
    case None => (None, [])
    case Some(m) =>
      var u := StatusUpdate(m, ts, status, newText, updateOk);
      (Some(u.pending), UpdateCalls(u.call))
  }

  /** A button click, by the kind of its action id. Only approve and reject change queue or sessions. */
  function Click(click: Event, oracle: Oracle, queue: FileState, sessions: Option<Sessions>): (r: Reaction)
    requires click.ButtonClick?
    ensures r.response == TweetApproved || r.response == TweetRejected || (r.queue == queue && r.sessions == sessions)
    ensures r.sessions.None? <==> sessions.None?
  {
    var text := click.value;
    var ts := click.messageTs;
    match ClassifyAction(click.actionId)
    case ApproveAction =>
      if oracle.twitterPostOk then
        var (sessions', updates) := Finalize(sessions, ts, "approved", None, oracle.chatUpdateOk);
        Reaction(TweetApproved, [TwitterPost(text)] + updates, AfterRemoval(queue, text), sessions')
      else Reaction(PostFailed, [TwitterPost(text)], queue, sessions)
    case EditAction =>
      if click.triggerId.None? then Reaction(InternalError, [], queue, sessions)
      else
        var view := EditModal(EditCallbackId(LastSegment(click.actionId), ts), text, 500);
        Reaction(if oracle.viewsOpenOk then OpeningEditModal else InternalError,
                 [ViewsOpen(click.triggerId.value, view)], queue, sessions)
    case RejectAction =>
      var (sessions', updates) := Finalize(sessions, ts, "rejected", None, oracle.chatUpdateOk);
      Reaction(TweetRejected, updates, AfterRemoval(queue, text), sessions')
    case DisabledAction => Reaction(AlreadyProcessed, [], queue, sessions)
    case UnrecognisedAction => Reaction(StatusOk, [], queue, sessions)
  }

  /** A submitted edit modal: post the edited text, then remove it and finalise. */
  function Submission(submission: Event, oracle: Oracle, queue: FileState, sessions: Option<Sessions>): (r: Reaction)
    requires submission.ModalSubmission?
    ensures r.response == ModalCleared || (r.queue == queue && r.sessions == sessions)
    ensures r.sessions.None? <==> sessions.None?
  {
    var edited := submission.editedText;
    var ts := LastSegment(submission.callbackId);
    if oracle.twitterPostOk then
      var (sessions', updates) := Finalize(sessions, ts, "edited", Some(edited), oracle.chatUpdateOk);
      Reaction(ModalCleared, [TwitterPost(edited)] + updates, AfterRemoval(queue, edited), sessions')
    else Reaction(ModalErrors, [TwitterPost(edited)], queue, sessions)
  }

  /**
   * `handle_slack_interactions` on one request. Exactly the unverified
   * requests are refused with 403, only the three success answers change the
   * queue or the sessions, and a missing bot stays missing.
   */
  function Interaction(env: Env, req: Request, oracle: Oracle, queue: FileState, sessions: Option<Sessions>): (r: Reaction)
    ensures r.response == Forbidden <==> !VerifySlackRequest(env, req.body, req.timestamp, req.signature)
    ensures r.response in {TweetApproved, TweetRejected, ModalCleared} || (r.queue == queue && r.sessions == sessions)
    ensures r.sessions.None? <==> sessions.None?
  {
    if !VerifySlackRequest(env, req.body, req.timestamp, req.signature) then
      Reaction(Forbidden, [], queue, sessions)
    else
      var event := DecodePayload(req.payload);
      match event
      case Malformed => Reaction(InternalError, [], queue, sessions)
      case OtherEvent => Reaction(StatusOk, [], queue, sessions)
      case ButtonClick(_, _, _, _) => Click(event, oracle, queue, sessions)
      case ModalSubmission(_, _) => Submission(event, oracle, queue, sessions)
  }

  /** Posting one call in front of calls that post nothing posts exactly that call's text. */
  lemma PostsInFront(c: Call, rest: seq<Call>)
    requires Posts(rest) == []
    ensures Posts([c] + rest) == if c.TwitterPost? then [c.text] else []
  {
    assert ([c] + rest)[0] == c;
    assert ([c] + rest)[1..] == rest;
  }

  /** A request that fails verification gets 403 and changes nothing: no post, no removal, no update. */
  lemma UnverifiedRequestIsInert(env: Env, req: Request, oracle: Oracle, queue: FileState, sessions: Option<Sessions>)
    requires !VerifySlackRequest(env, req.body, req.timestamp, req.signature)
    ensures Interaction(env, req, oracle, queue, sessions) == Reaction(Forbidden, [], queue, sessions)
  {
  }

  /**
   * Approve posts the button's text once. Only a successful post removes the
   * text from the queue and finalises the session as approved, with exactly
   * the final-status update after the post; a failed one makes no other call
   * and leaves queue and sessions as they were.
   */
  lemma ApprovePostsOnceThenRemoves(env: Env, req: Request, oracle: Oracle, queue: FileState, sessions: Option<Sessions>)
    requires VerifySlackRequest(env, req.body, req.timestamp, req.signature)
    requires var e := DecodePayload(req.payload); e.ButtonClick? && ClassifyAction(e.actionId) == ApproveAction
    ensures var e := DecodePayload(req.payload);
            var r := Interaction(env, req, oracle, queue, sessions);
            && Posts(r.calls) == [e.value]
            && (oracle.twitterPostOk ==>
                  && r.response == TweetApproved
                  && r.calls == [TwitterPost(e.value)]
                              + Finalize(sessions, e.messageTs, "approved", None, oracle.chatUpdateOk).1
                  && r.queue == AfterRemoval(queue, e.value)
                  && r.sessions == Finalize(sessions, e.messageTs, "approved", None, oracle.chatUpdateOk).0)
            && (oracle.twitterPostOk && sessions.Some? && e.messageTs in sessions.value ==>
                  r.calls == [TwitterPost(e.value),
                              ChatUpdate(FinalMessage(e.messageTs, "approved", sessions.value[e.messageTs].text))])
            && (!oracle.twitterPostOk ==>
                  r.response == PostFailed && r.calls == [TwitterPost(e.value)]
                  && r.queue == queue && r.sessions == sessions)
  {
    var e := DecodePayload(req.payload);
    var updates := Finalize(sessions, e.messageTs, "approved", None, oracle.chatUpdateOk).1;
    PostsInFront(TwitterPost(e.value), updates);
  }

  /**
   * Reject never posts; it removes the text and finalises the session as
   * rejected, and its only call is that final-status update.
   */
  lemma RejectNeverPosts(env: Env, req: Request, oracle: Oracle, queue: FileState, sessions: Option<Sessions>)
    requires VerifySlackRequest(env, req.body, req.timestamp, req.signature)
    requires var e := DecodePayload(req.payload); e.ButtonClick? && ClassifyAction(e.actionId) == RejectAction
    ensures var e := DecodePayload(req.payload);
            var r := Interaction(env, req, oracle, queue, sessions);
            && Posts(r.calls) == []
            && r.response == TweetRejected
            && r.calls == Finalize(sessions, e.messageTs, "rejected", None, oracle.chatUpdateOk).1
            && (sessions.Some? && e.messageTs in sessions.value ==>
                  r.calls == [ChatUpdate(FinalMessage(e.messageTs, "rejected", sessions.value[e.messageTs].text))])
            && r.queue == AfterRemoval(queue, e.value)
            && r.sessions == Finalize(sessions, e.messageTs, "rejected", None, oracle.chatUpdateOk).0
  {
  }

  /** A click on the disabled button, or on a button the handler does not know, changes nothing. */
  lemma DisabledOrUnknownClickIsInert(env: Env, req: Request, oracle: Oracle, queue: FileState, sessions: Option<Sessions>)
    requires VerifySlackRequest(env, req.body, req.timestamp, req.signature)
    requires var e := DecodePayload(req.payload);
             e.ButtonClick? && ClassifyAction(e.actionId) in {DisabledAction, UnrecognisedAction}
    ensures var r := Interaction(env, req, oracle, queue, sessions);
            r.calls == [] && r.queue == queue && r.sessions == sessions &&
            r.response in {AlreadyProcessed, StatusOk}
    ensures var e := DecodePayload(req.payload);
            var r := Interaction(env, req, oracle, queue, sessions);
            ClassifyAction(e.actionId) == DisabledAction <==> r.response == AlreadyProcessed
  {
  }

  /**
   * The edit button changes neither queue nor sessions; it only asks Slack to
   * open a modal prefilled with the tweet, whose callback id carries the
   * message timestamp back whenever that timestamp holds no underscore.
   */
  lemma EditClickOnlyOpensModal(env: Env, req: Request, oracle: Oracle, queue: FileState, sessions: Option<Sessions>)
    requires VerifySlackRequest(env, req.body, req.timestamp, req.signature)
    requires var e := DecodePayload(req.payload); e.ButtonClick? && ClassifyAction(e.actionId) == EditAction
    ensures var e := DecodePayload(req.payload);
            var r := Interaction(env, req, oracle, queue, sessions);
            && r.queue == queue && r.sessions == sessions && Posts(r.calls) == []
            && (e.triggerId.None? ==> r.response == InternalError && r.calls == [])
            && (e.triggerId.Some? ==>
                  && r.calls == [ViewsOpen(e.triggerId.value,
                                           EditModal(EditCallbackId(LastSegment(e.actionId), e.messageTs), e.value, 500))]
                  && (r.response == OpeningEditModal <==> oracle.viewsOpenOk))
            && (e.triggerId.Some? && '_' !in e.messageTs ==>
                  LastSegment(r.calls[0].view.callbackId) == e.messageTs)
  {
    var e := DecodePayload(req.payload);
    if '_' in e.messageTs {
    } else {
      CallbackIdRoundTrip(LastSegment(e.actionId), e.messageTs);
    }
  }

  /**
   * A submitted edit posts the edited text; if that succeeds it is the edited
   * text, not the original, that is removed from the queue, and the session
   * named by the callback id is finalised as edited with the edited text
   * shown. A failed post makes no other call and changes nothing.
   */
  lemma SubmissionRemovesEditedText(env: Env, req: Request, oracle: Oracle, queue: FileState, sessions: Option<Sessions>)
    requires VerifySlackRequest(env, req.body, req.timestamp, req.signature)
    requires DecodePayload(req.payload).ModalSubmission?
    ensures var e := DecodePayload(req.payload);
            var ts := LastSegment(e.callbackId);
            var r := Interaction(env, req, oracle, queue, sessions);
            && Posts(r.calls) == [e.editedText]
            && (oracle.twitterPostOk ==>
                  && r.response == ModalCleared
                  && r.calls == [TwitterPost(e.editedText)]
                              + Finalize(sessions, ts, "edited", Some(e.editedText), oracle.chatUpdateOk).1
                  && r.queue == AfterRemoval(queue, e.editedText)
                  && r.sessions == Finalize(sessions, ts, "edited", Some(e.editedText), oracle.chatUpdateOk).0)
            && (oracle.twitterPostOk && sessions.Some? && ts in sessions.value ==>
                  r.calls == [TwitterPost(e.editedText),
                              ChatUpdate(FinalMessage(ts, "edited",
                                                      DisplayedText(Some(e.editedText), sessions.value[ts].text)))])
            && (!oracle.twitterPostOk ==>
                  r.response == ModalErrors && r.calls == [TwitterPost(e.editedText)]
                  && r.queue == queue && r.sessions == sessions)
  {
    var e := DecodePayload(req.payload);
    assert Interaction(env, req, oracle, queue, sessions) == Submission(e, oracle, queue, sessions);
    SubmissionOutcome(e, oracle, queue, sessions);
  }

  lemma SubmissionOutcome(e: Event, oracle: Oracle, queue: FileState, sessions: Option<Sessions>)
    requires e.ModalSubmission?
    ensures var ts := LastSegment(e.callbackId);
            var r := Submission(e, oracle, queue, sessions);
            && Posts(r.calls) == [e.editedText]
            && (oracle.twitterPostOk ==>
                  && r.response == ModalCleared
                  && r.calls == [TwitterPost(e.editedText)]
                              + Finalize(sessions, ts, "edited", Some(e.editedText), oracle.chatUpdateOk).1
                  && r.queue == AfterRemoval(queue, e.editedText)
                  && r.sessions == Finalize(sessions, ts, "edited", Some(e.editedText), oracle.chatUpdateOk).0)
            && (oracle.twitterPostOk && sessions.Some? && ts in sessions.value ==>
                  r.calls == [TwitterPost(e.editedText),
                              ChatUpdate(FinalMessage(ts, "edited",
                                                      DisplayedText(Some(e.editedText), sessions.value[ts].text)))])
            && (!oracle.twitterPostOk ==>
                  r.response == ModalErrors && r.calls == [TwitterPost(e.editedText)]
                  && r.queue == queue && r.sessions == sessions)
  {
    var ts := LastSegment(e.callbackId);
    var f := Finalize(sessions, ts, "edited", Some(e.editedText), oracle.chatUpdateOk);
    var r := Submission(e, oracle, queue, sessions);
    PostsInFront(TwitterPost(e.editedText), f.1);
    if oracle.twitterPostOk {
      assert r == Reaction(ModalCleared, [TwitterPost(e.editedText)] + f.1, AfterRemoval(queue, e.editedText), f.0);
    } else {
      assert r == Reaction(ModalErrors, [TwitterPost(e.editedText)], queue, sessions);
    }
  }

  /** Without a bot reference (the webhook's own process) no session is ever touched or updated. */
  lemma WithoutBotNoSessionUpdate(env: Env, req: Request, oracle: Oracle, queue: FileState)
    ensures var r := Interaction(env, req, oracle, queue, None);
            r.sessions.None? && forall k :: 0 <= k < |r.calls| ==> !r.calls[k].ChatUpdate?
  {
    if VerifySlackRequest(env, req.body, req.timestamp, req.signature) {
      var e := DecodePayload(req.payload);
      if e.ButtonClick? {
        ClickWithoutBot(e, oracle, queue);
      } else if e.ModalSubmission? {
        SubmissionWithoutBot(e, oracle, queue);
      }
    }
  }

  lemma ClickWithoutBot(click: Event, oracle: Oracle, queue: FileState)
    requires click.ButtonClick?
    ensures var r := Click(click, oracle, queue, None);
            r.sessions.None? && forall k :: 0 <= k < |r.calls| ==> !r.calls[k].ChatUpdate?
  {
    assert Finalize(None, click.messageTs, "approved", None, oracle.chatUpdateOk) == (None, []);
    assert Finalize(None, click.messageTs, "rejected", None, oracle.chatUpdateOk) == (None, []);
  }

  lemma SubmissionWithoutBot(submission: Event, oracle: Oracle, queue: FileState)
    requires submission.ModalSubmission?
    ensures var r := Submission(submission, oracle, queue, None);
            r.sessions.None? && forall k :: 0 <= k < |r.calls| ==> !r.calls[k].ChatUpdate?
  {
    var ts := LastSegment(submission.callbackId);
    var f := Finalize(None, ts, "edited", Some(submission.editedText), oracle.chatUpdateOk);
    var r := Submission(submission, oracle, queue, None);
    if oracle.twitterPostOk {
      assert r.calls == [TwitterPost(submission.editedText)] + f.1 == [TwitterPost(submission.editedText)];
    } else {
      assert r.calls == [TwitterPost(submission.editedText)];
    }
  }

  /**
   * The Flask handler. The queue file and the optional bot are updated in
   * place; the answer and the external calls are returned.
   */
  method HandleSlackInteractions(queue: QueueFile, bot: SlackTweetBot?, env: Env, req: Request, oracle: Oracle)
    returns (response: Response, calls: seq<Call>)
    modifies queue, bot
    ensures var r := Interaction(env, req, oracle, old(queue.state),
                                 if bot == null then None else Some(old(bot.pendingTweets)));
            && response == r.response && calls == r.calls && queue.state == r.queue
            && (bot != null ==> r.sessions == Some(bot.pendingTweets))
  {
    calls := [];
    if !VerifySlackRequest(env, req.body, req.timestamp, req.signature) {
      response := Forbidden;
      return;
    }
    var event := DecodePayload(req.payload);
    match event {
      case Malformed =>
        response := InternalError;
      case OtherEvent =>
        response := StatusOk;
      case ButtonClick(_, _, _, _) =>
        response, calls := HandleButtonClick(queue, bot, event, oracle);
      case ModalSubmission(_, _) =>
        response, calls := HandleModalSubmission(queue, bot, event, oracle);
    }
  }

  /** The `block_actions` branch of the handler, in place. */
  method HandleButtonClick(queue: QueueFile, bot: SlackTweetBot?, click: Event, oracle: Oracle)
    returns (response: Response, calls: seq<Call>)
    requires click.ButtonClick?
    modifies queue, bot
    ensures var r := Click(click, oracle, old(queue.state),
                           if bot == null then None else Some(old(bot.pendingTweets)));
            && response == r.response && calls == r.calls && queue.state == r.queue
            && (bot != null ==> r.sessions == Some(bot.pendingTweets))
  {
    var text := click.value;
    var ts := click.messageTs;
    calls := [];
    var kind := ClassifyAction(click.actionId);
    if kind == ApproveAction {
      calls := [TwitterPost(text)];
      if oracle.twitterPostOk {
        queue.RemoveTweetFromJson(text);
        if bot != null {
          var update := bot.UpdateMessageStatus(ts, "approved", None, oracle.chatUpdateOk);
          calls := calls + UpdateCalls(update);
        }
        response := TweetApproved;
      } else {
        response := PostFailed;
      }
    } else if kind == EditAction {
      if click.triggerId.None? {
        response := InternalError;
      } else {
        var tweetIndex := LastSegment(click.actionId);
        var view := EditModal(EditCallbackId(tweetIndex, ts), text, 500);
        calls := [ViewsOpen(click.triggerId.value, view)];
        response := if oracle.viewsOpenOk then OpeningEditModal else InternalError;
      }
    } else if kind == RejectAction {
      queue.RemoveTweetFromJson(text);
      if bot != null {
        var update := bot.UpdateMessageStatus(ts, "rejected", None, oracle.chatUpdateOk);
        calls := UpdateCalls(update);
      }
      response := TweetRejected;
    } else if kind == DisabledAction {
      response := AlreadyProcessed;
    } else {
      response := StatusOk;
    }
  }

  /** The `view_submission` branch of the handler, in place. */
  method HandleModalSubmission(queue: QueueFile, bot: SlackTweetBot?, submission: Event, oracle: Oracle)
    returns (response: Response, calls: seq<Call>)
    requires submission.ModalSubmission?
    modifies queue, bot
    ensures var r := Submission(submission, oracle, old(queue.state),
                                if bot == null then None else Some(old(bot.pendingTweets)));
            && response == r.response && calls == r.calls && queue.state == r.queue
            && (bot != null ==> r.sessions == Some(bot.pendingTweets))
  {
    var edited := submission.editedText;
    var ts := LastSegment(submission.callbackId);
    calls := [TwitterPost(edited)];
    if oracle.twitterPostOk {
      queue.RemoveTweetFromJson(edited);
      if bot != null {
        var update := bot.UpdateMessageStatus(ts, "edited", Some(edited), oracle.chatUpdateOk);
        calls := calls + UpdateCalls(update);
      }
      response := ModalCleared;
    } else {
      response := ModalErrors;
    }
  }
}
