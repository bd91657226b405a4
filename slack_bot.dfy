/**
 * The Slack side of the approval workflow (slack_bot.py): the approval
 * message with its three buttons, the session tracker `pending_tweets`
 * keyed by the Slack message timestamp, and the status update that disables
 * the buttons and forgets the session.
 *
 * Slack's `chat_postMessage` and `chat_update` are not modelled; their
 * outcome is a parameter (the timestamp Slack returns, or None where the
 * client raises SlackApiError; a flag for `chat_update`).
 */
module SlackBot {
  import opened Wrappers
  import opened Text

  /** The value stored in `pending_tweets`. */
  datatype PendingTweet = PendingTweet(text: string, index: int, status: string)

  type Sessions = map<string, PendingTweet>

  /** One button of a Slack actions block. */
  datatype Button = Button(caption: string, actionId: string, value: string, style: Option<string>)

  /** The message `send_tweet_for_approval` posts. */
  datatype ApprovalMessage = ApprovalMessage(fallbackText: string, shownText: string, buttons: seq<Button>)

  /** The arguments `update_message_status` hands to `chat_update`. */
  datatype MessageUpdate = MessageUpdate(
    ts: string, fallbackText: string, shownText: string, banner: string, button: Button)

  /** A session-tracker state together with the Slack update call made, if any. */
  datatype UpdateResult = UpdateResult(pending: Sessions, call: Option<MessageUpdate>)

  const PendingStatus := "pending"
  const DisabledActionId := "disabled_button"

  function ApproveActionId(index: int): string { "approve_tweet_" + IntToString(index) }
  function EditActionId(index: int): string { "edit_tweet_" + IntToString(index) }
  function RejectActionId(index: int): string { "reject_tweet_" + IntToString(index) }

  /** Python's `s[:50]`. */
  function Prefix50(s: string): (r: string)
    ensures |r| == if |s| < 50 then |s| else 50
    ensures r == s[..|r|]
  {
    if |s| <= 50 then s else s[..50]
  }

  /**
   * The approval request for `text`: three buttons, approve, edit and reject,
   * each carrying the text as its value and an id ending in the index.
   */
  function ApprovalRequest(text: string, index: int): (m: ApprovalMessage)
    ensures |m.buttons| == 3
    ensures forall k :: 0 <= k < 3 ==> m.buttons[k].value == text
    ensures m.buttons[0].actionId == ApproveActionId(index)
    ensures m.buttons[1].actionId == EditActionId(index)
    ensures m.buttons[2].actionId == RejectActionId(index)
    ensures m.shownText == text
  {
    ApprovalMessage(
      "Tweet approval needed: " + Prefix50(text) + "...",
      text,
      [ Button("\U{2705} Approve & Tweet", ApproveActionId(index), text, Some("primary")),
        Button("\U{270F}\U{FE0F} Edit Tweet", EditActionId(index), text, None),
        Button("\U{274C} Reject", RejectActionId(index), text, Some("danger")) ])
  }

  /** The banner line and the emoji of the disabled button for a final status. */
  datatype Banner = Banner(text: string, emoji: string)

  function StatusBanner(status: string): (b: Banner)
    ensures status == "approved" ==> b == Banner("*\U{2705} Tweet Approved & Posted*", "\U{2705}")
    ensures status == "rejected" ==> b == Banner("*\U{274C} Tweet Rejected*", "\U{274C}")
    ensures status == "edited" ==> b == Banner("*\U{270F}\U{FE0F} Tweet Updated & Posted*", "\U{270F}\U{FE0F}")
    ensures status !in ["approved", "rejected", "edited"] ==>
      |b.text| == |status| + 2 && b.text[0] == '*' && b.text[|b.text| - 1] == '*' &&
      b.text[1..|b.text| - 1] == TitleCase(status) && b.emoji == "\U{1F4DD}"
  {
    if status == "approved" then Banner("*\U{2705} Tweet Approved & Posted*", "\U{2705}")
    else if status == "rejected" then Banner("*\U{274C} Tweet Rejected*", "\U{274C}")
    else if status == "edited" then Banner("*\U{270F}\U{FE0F} Tweet Updated & Posted*", "\U{270F}\U{FE0F}")
    else Banner("*" + TitleCase(status) + "*", "\U{1F4DD}")
  }

  /** `new_text if new_text else tweet_info["text"]`: None and "" are both falsy. */
  function DisplayedText(newText: Option<string>, stored: string): (r: string)
    ensures newText.Some? && newText.value != "" ==> r == newText.value
    ensures newText.None? || newText.value == "" ==> r == stored
  {
    if newText.Some? && newText.value != "" then newText.value else stored
  }

  /** The message update that shows the final status and one disabled button. */
  function FinalMessage(ts: string, status: string, shown: string): (u: MessageUpdate)
    ensures u.ts == ts && u.shownText == shown
    ensures u.button.actionId == DisabledActionId && u.button.value == "disabled"
    ensures u.banner == StatusBanner(status).text
  {
    var banner := StatusBanner(status);
    MessageUpdate(
      ts, "Tweet " + status, shown, banner.text,
      Button(banner.emoji + " " + TitleCase(status), DisabledActionId, "disabled",
             if status == "approved" then Some("primary")
             else if status == "rejected" then Some("danger")
             else None))
  }

  /**
   * What `update_message_status(ts, status, new_text)` does to the tracker,
   * given whether `chat_update` succeeds: an unknown timestamp is left alone
   * and Slack is not called; a known one is shown with its final status and
   * forgotten only once the update went through.
   */
  function StatusUpdate(pending: Sessions, ts: string, status: string, newText: Option<string>,
                        updateOk: bool): (u: UpdateResult)
    ensures ts !in pending ==> u.call.None? && u.pending == pending
    ensures ts in pending ==>
      u.call == Some(FinalMessage(ts, status, DisplayedText(newText, pending[ts].text)))
    ensures u.pending.Keys == if ts in pending && updateOk then pending.Keys - {ts} else pending.Keys
    ensures forall k :: k in u.pending ==> u.pending[k] == pending[k]
  {
    if ts !in pending then UpdateResult(pending, None)
    else
      var call := FinalMessage(ts, status, DisplayedText(newText, pending[ts].text));
      if updateOk then UpdateResult(pending - {ts}, Some(call)) else UpdateResult(pending, Some(call))
  }

  /** A second update of a timestamp that was forgotten is a no-op without a Slack call. */
  lemma FinalizeTwiceIsNoOp(pending: Sessions, ts: string, status: string, newText: Option<string>,
                            status2: string, newText2: Option<string>, updateOk2: bool)
    requires ts in pending
    ensures var first := StatusUpdate(pending, ts, status, newText, true);
            StatusUpdate(first.pending, ts, status2, newText2, updateOk2) == UpdateResult(first.pending, None)
  {
  }

  /** The session tracker of the approval bot. */
  class SlackTweetBot {
    var pendingTweets: Sessions

    constructor ()
      ensures pendingTweets == map[]
    {
      pendingTweets := map[];
    }

    /**
     * Posts the approval request for `tweetText`. `slackTs` is the timestamp
     * Slack returns, or None where `chat_postMessage` raises SlackApiError.
     * On success the session for that timestamp is (re)registered as pending
     * and every other session is kept.
     */
    method SendTweetForApproval(tweetText: string, tweetIndex: int, slackTs: Option<string>)
      returns (messageTs: Option<string>, message: ApprovalMessage)
      modifies this
      ensures message == ApprovalRequest(tweetText, tweetIndex)
      ensures messageTs == slackTs
      ensures slackTs.None? ==> pendingTweets == old(pendingTweets)
      ensures slackTs.Some? ==>
        && pendingTweets.Keys == old(pendingTweets).Keys + {slackTs.value}
        && pendingTweets[slackTs.value] == PendingTweet(tweetText, tweetIndex, PendingStatus)
        && forall k :: k in old(pendingTweets) && k != slackTs.value ==> pendingTweets[k] == old(pendingTweets)[k]
    {
      message := ApprovalRequest(tweetText, tweetIndex);
      match slackTs {
        case None =>
          messageTs := None;
        case Some(ts) =>
          pendingTweets := pendingTweets[ts := PendingTweet(tweetText, tweetIndex, PendingStatus)];
          messageTs := Some(ts);
      }
    }

    /**
     * Shows the final `status` on the message `messageTs` and forgets its
     * session; `updateOk` says whether `chat_update` succeeds. Returns the
     * update sent to Slack, None when no call was made.
     */
    method UpdateMessageStatus(messageTs: string, status: string, newText: Option<string>, updateOk: bool)
      returns (call: Option<MessageUpdate>)
      modifies this
      ensures var u := StatusUpdate(old(pendingTweets), messageTs, status, newText, updateOk);
              pendingTweets == u.pending && call == u.call
    {
      call := None;
      if messageTs in pendingTweets {
        var info := pendingTweets[messageTs];
        var shown := DisplayedText(newText, info.text);
        call := Some(FinalMessage(messageTs, status, shown));
        if updateOk {
          pendingTweets := pendingTweets - {messageTs};
        }
      }
    }

    /** `pending_tweets.get(ts)`: the session, or None; the tracker is only read. */
    method GetPendingTweet(messageTs: string) returns (r: Option<PendingTweet>)
      ensures r.Some? <==> messageTs in pendingTweets
      ensures r.Some? ==> r.value == pendingTweets[messageTs]
    {
      if messageTs in pendingTweets {
        r := Some(pendingTweets[messageTs]);
      } else {
        r := None;
      }
    }
  }
}
