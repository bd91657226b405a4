/**
 * The dispatch tick of tweet.py: read the queue file, take the text of its
 * head and send it to Slack for approval with index 0. The file is only
 * read; the head is not popped.
 */
module TweetDispatch {
  import opened Wrappers
  import opened Json
  import opened SlackBot
  import opened SlackWebhook

  /** What the tick picks from the decoded queue. */
  datatype Selection =
    | NothingQueued          // `if tweets:` is false
    | Selected(text: string) // the text to send
    | SelectionFails         // `tweets[0]` or the text raises

  /**
   * `tweet_data = tweets[0]` and `tweet_data.get("tweet", "")` for a dict,
   * `tweet_data` itself otherwise. A text that is not a string makes the
   * send raise before Slack is reached, which counts as a failed selection.
   */
  function SelectHead(tweets: Json): (sel: Selection)
    ensures !Truthy(tweets) <==> sel == NothingQueued
    ensures tweets.JArr? && |tweets.items| > 0 && tweets.items[0].JObj? ==>
      sel == (match GetOr(tweets.items[0].fields, "tweet", JStr(""))
              case JStr(t) => Selected(t)
              case _ => SelectionFails)
    ensures tweets.JArr? && |tweets.items| > 0 && tweets.items[0].JStr? ==> sel == Selected(tweets.items[0].s)
    ensures tweets.JArr? && |tweets.items| > 0 && !tweets.items[0].JObj? && !tweets.items[0].JStr? ==>
      sel == SelectionFails
    ensures tweets.JStr? && tweets.s != "" ==> sel == Selected([tweets.s[0]])
    ensures sel.Selected? ==> tweets.JArr? || tweets.JStr?
  {
    if !Truthy(tweets) then NothingQueued
    else
      match First(tweets)
      case None => SelectionFails
      case Some(head) =>
        var text := if head.JObj? then GetOr(head.fields, "tweet", JStr("")) else head;
        match AsString(text)
        case Some(t) => Selected(t)
        case None => SelectionFails
  }

  /** What the tick logs. */
  datatype TickOutcome =
    | SentForApproval(ts: string)
    | SlackSendFailed
    | QueueEmpty
    | FileMissing
    | ErrorLogged

  datatype TickResult = TickResult(outcome: TickOutcome, pending: Sessions)

  /**
   * The tick on a queue file and a tracker, given the timestamp Slack returns
   * for the approval message (None where posting fails).
   */
  function Tick(file: FileState, pending: Sessions, slackTs: Option<string>): (r: TickResult)
    ensures r.outcome == FileMissing <==> file.Missing?
    ensures r.outcome == QueueEmpty <==> file.Document? && !Truthy(file.content)
    ensures r.outcome == ErrorLogged <==>
      file.Unparsable? || (file.Document? && SelectHead(file.content) == SelectionFails)
    ensures r.outcome == SlackSendFailed <==>
      file.Document? && SelectHead(file.content).Selected? && slackTs.None?
    ensures r.outcome.SentForApproval? <==>
      file.Document? && SelectHead(file.content).Selected? && slackTs.Some?
    ensures r.outcome.SentForApproval? ==>
      && r.outcome.ts == slackTs.value
      && r.pending == pending[r.outcome.ts := PendingTweet(SelectHead(file.content).text, 0, PendingStatus)]
    ensures !r.outcome.SentForApproval? ==> r.pending == pending
  {
    match file
    case Missing => TickResult(FileMissing, pending)
    case Unparsable => TickResult(ErrorLogged, pending)
    case Document(tweets) =>
      match SelectHead(tweets)
      case NothingQueued => TickResult(QueueEmpty, pending)
      case SelectionFails => TickResult(ErrorLogged, pending)
      case Selected(text) =>
        match slackTs
        case None => TickResult(SlackSendFailed, pending)
        case Some(ts) => TickResult(SentForApproval(ts), pending[ts := PendingTweet(text, 0, PendingStatus)])
  }

  /** Only a successful send changes the tracker, and then by one pending session with index 0. */
  lemma TickRegistersHead(file: FileState, pending: Sessions, slackTs: Option<string>)
    ensures var r := Tick(file, pending, slackTs);
      if r.outcome.SentForApproval? then
        && slackTs == Some(r.outcome.ts)
        && file.Document? && SelectHead(file.content).Selected?
        && r.pending.Keys == pending.Keys + {r.outcome.ts}
        && r.pending[r.outcome.ts] == PendingTweet(SelectHead(file.content).text, 0, PendingStatus)
        && (forall k :: k in pending && k != r.outcome.ts ==> r.pending[k] == pending[k])
      else r.pending == pending
  {
  }

  /** An empty queue sends nothing and generates nothing. */
  lemma EmptyQueueSendsNothing(tweets: Json, pending: Sessions, slackTs: Option<string>)
    requires !Truthy(tweets)
    ensures Tick(Document(tweets), pending, slackTs) == TickResult(QueueEmpty, pending)
  {
  }

  /** For a queue of entry objects the head's `tweet` field is what gets registered. */
  lemma HeadEntryIsSent(entries: seq<Json>, text: string, rest: seq<Json>, pending: Sessions, ts: string)
    requires entries == [TweetEntry(text)] + rest
    ensures Tick(Document(JArr(entries)), pending, Some(ts)) ==
            TickResult(SentForApproval(ts), pending[ts := PendingTweet(text, 0, PendingStatus)])
  {
    assert entries[0] == TweetEntry(text);
  }

  /**
   * `send_tweet_for_approval()` of tweet.py. The queue file is read and
   * never written; only the bot's tracker may change.
   */
  method SendTweetForApproval(queue: QueueFile, bot: SlackTweetBot, slackTs: Option<string>)
    returns (outcome: TickOutcome)
    modifies bot
    ensures unchanged(queue)
    ensures var r := Tick(queue.state, old(bot.pendingTweets), slackTs);
            outcome == r.outcome && bot.pendingTweets == r.pending
  {
    match queue.state {
      case Missing =>
        outcome := FileMissing;
      case Unparsable =>
        outcome := ErrorLogged;
      case Document(tweets) =>
        var selection := SelectHead(tweets);
        match selection {
          case NothingQueued =>
            outcome := QueueEmpty;
          case SelectionFails =>
            outcome := ErrorLogged;
          case Selected(text) =>
            var messageTs, _ := bot.SendTweetForApproval(text, 0, slackTs);
            if messageTs.Some? {
              outcome := SentForApproval(messageTs.value);
            } else {
              outcome := SlackSendFailed;
            }
        }
    }
  }
}
