/** The create-or-update reconciler of src/slack/message-service.ts. The
    Slack Web API is a client object that records every request sent
    (each retry attempt is one request) and answers the n-th request of
    its lifetime with a scripted reply or failure. */
module MessageService {
  import opened Common
  import opened Types
  import opened Db
  import opened Queries
  import opened Messages
  import opened Retry

  /** What chat.postMessage / chat.update answer with. */
  datatype Reply = Reply(ts: Option<string>, channel: Option<string>)

  /** A request to Slack. */
  datatype SlackCall =
    | Update(channel: string, ts: string, message: Message)
    | Post(channel: string, message: Message)
    | ThreadReply(channel: string, threadTs: string, text: string)

  /** The answers to the requests from number `start` on. */
  function AnswersFrom(script: nat -> Result<Reply, Fault>, start: nat): nat -> Result<Reply, Fault> {
    (k: nat) => script(start + k)
  }

  /** n copies of one request: withRetry sends the same request each time. */
  function Copies(call: SlackCall, n: nat): (calls: seq<SlackCall>)
    ensures |calls| == n
    ensures forall i :: 0 <= i < n ==> calls[i] == call
  {
    seq(n, _ => call)
  }

  class SlackClient {
    const script: nat -> Result<Reply, Fault>
    var sent: seq<SlackCall>

    constructor (script: nat -> Result<Reply, Fault>)
      ensures this.script == script && sent == []
    {
      this.script := script;
      sent := [];
    }

    /** One request under withRetry with its default three attempts: the
        request goes out once per attempt and the result is that of the
        first answered attempt or the last failure. */
    method SendWithRetry(call: SlackCall, name: string) returns (r: Result<Reply, RetryError>)
      modifies this
      ensures r == RetryResult(AnswersFrom(script, old(|sent|)), DEFAULT_MAX_RETRIES, name)
      ensures sent == old(sent) + Copies(call, CallsMade(AnswersFrom(script, old(|sent|)), DEFAULT_MAX_RETRIES))
    {
      var calls: nat, delays: seq<int>;
      r, calls, delays := WithRetry(AnswersFrom(script, |sent|), DEFAULT_MAX_RETRIES, DEFAULT_BASE_DELAY_MS, name);
      sent := sent + Copies(call, calls);
    }
  }

  /** The text stored in `pr_state`. */
  function StateName(s: PRState): (name: string)
    ensures name == "open" || name == "closed" || name == "merged"
    ensures name == "merged" <==> s.Merged?
    ensures name == "closed" <==> s.Closed?
  {
    match s
    case Merged => "merged"
    case Closed => "closed"
    case Open => "open"
  }

  /** A Slack string field read with JavaScript truthiness. */
  predicate Truthy(s: Option<string>) {
    s.Some? && s.value != ""
  }

  /** The row stored after a first post. */
  function PostedRow(pr: PRData, reply: Reply, fallbackChannel: string, nowIso: string): (row: PRMessageRow)
    requires Truthy(reply.ts)
    ensures row.prUrl == pr.url && row.slackMessageTs == reply.ts.value
    ensures row.slackChannel == if Truthy(reply.channel) then reply.channel.value else fallbackChannel
    ensures row.prState == StateName(pr.state) && row.owner == pr.owner && row.repo == pr.repo && row.prNumber == pr.number
  {
    PRMessageRow(pr.url, if Truthy(reply.channel) then reply.channel.value else fallbackChannel,
                 reply.ts.value, StateName(pr.state), pr.owner, pr.repo, pr.number, nowIso)
  }

  /** What one run of postOrUpdatePR does: what it returns (an error only
      when the message cannot be built), the table afterwards and the
      requests sent. */
  datatype Run = Run(outcome: Result<(), string>, messages: map<string, PRMessageRow>, calls: seq<SlackCall>)

  /** The update branch, for a tracked PR: chat.update on the stored
      message, then the new state once Slack has taken the update. */
  function UpdateRun(messages: map<string, PRMessageRow>, pr: PRData, msg: Message, nowSql: string,
                     answers: nat -> Result<Reply, Fault>): (run: Run)
    requires pr.url in messages
    ensures run.outcome.Ok?
    ensures forall i :: 0 <= i < |run.calls| ==>
      run.calls[i] == Update(messages[pr.url].slackChannel, messages[pr.url].slackMessageTs, msg)
    ensures 1 <= |run.calls| <= DEFAULT_MAX_RETRIES
    ensures RetryResult(answers, DEFAULT_MAX_RETRIES, "").Ok? ==> run.messages == StateUpdated(messages, pr.url, StateName(pr.state), nowSql)
    ensures RetryResult(answers, DEFAULT_MAX_RETRIES, "").Err? ==> run.messages == messages
  {
    CallsMadeIsFirstSuccess(answers, DEFAULT_MAX_RETRIES);
    var e := messages[pr.url];
    var n := CallsMade(answers, DEFAULT_MAX_RETRIES);
    var after := if RetryResult(answers, DEFAULT_MAX_RETRIES, "").Ok? then StateUpdated(messages, pr.url, StateName(pr.state), nowSql) else messages;
    Run(Ok(()), after, Copies(Update(e.slackChannel, e.slackMessageTs, msg), n))
  }

  /** The post branch, for an untracked PR: chat.postMessage to the
      configured channel, and a row only when Slack answers with a
      message id. */
  function PostRun(messages: map<string, PRMessageRow>, pr: PRData, slackChannel: string, msg: Message, nowIso: string,
                   answers: nat -> Result<Reply, Fault>): (run: Run)
    requires pr.url !in messages
    ensures run.outcome.Ok?
    ensures forall i :: 0 <= i < |run.calls| ==> run.calls[i] == Post(slackChannel, msg)
    ensures 1 <= |run.calls| <= DEFAULT_MAX_RETRIES
    ensures var result := RetryResult(answers, DEFAULT_MAX_RETRIES, "");
      && (result.Ok? && Truthy(result.value.ts) ==> run.messages == messages[pr.url := PostedRow(pr, result.value, slackChannel, nowIso)])
      && (!(result.Ok? && Truthy(result.value.ts)) ==> run.messages == messages)
  {
    CallsMadeIsFirstSuccess(answers, DEFAULT_MAX_RETRIES);
    var n := CallsMade(answers, DEFAULT_MAX_RETRIES);
    var result := RetryResult(answers, DEFAULT_MAX_RETRIES, "");
    var after := if result.Ok? && Truthy(result.value.ts)
      then UpsertedMessages(messages, PostedRow(pr, result.value, slackChannel, nowIso))
      else messages;
    Run(Ok(()), after, Copies(Post(slackChannel, msg), n))
  }

  /** The whole run, given the message as built (or the error building it
      threw) and the answers Slack gives from the next request on. */
  function Reconcile(messages: map<string, PRMessageRow>, pr: PRData, slackChannel: string, built: Result<Message, string>,
                     nowIso: string, nowSql: string, answers: nat -> Result<Reply, Fault>): (run: Run)
    ensures run.outcome.Err? <==> built.Err?
    ensures built.Err? ==> run.messages == messages && run.calls == []
    // a tracked PR is only ever updated, in place, where it was posted
    ensures pr.url in messages ==> forall i :: 0 <= i < |run.calls| ==>
      run.calls[i].Update? && run.calls[i].channel == messages[pr.url].slackChannel && run.calls[i].ts == messages[pr.url].slackMessageTs
    // an untracked PR is posted to the configured channel
    ensures pr.url !in messages ==> forall i :: 0 <= i < |run.calls| ==> run.calls[i].Post? && run.calls[i].channel == slackChannel
    // rows are never dropped, and no other row changes
    ensures run.messages.Keys == messages.Keys || run.messages.Keys == messages.Keys + {pr.url}
    ensures forall u :: u in messages && u != pr.url ==> run.messages[u] == messages[u]
    // a tracked PR keeps its channel and message; only its state moves
    ensures pr.url in messages ==>
      && run.messages[pr.url].slackChannel == messages[pr.url].slackChannel
      && run.messages[pr.url].slackMessageTs == messages[pr.url].slackMessageTs
      && (run.messages[pr.url].prState == messages[pr.url].prState || run.messages[pr.url].prState == StateName(pr.state))
    // failed Slack calls leave the table as it was
    ensures RetryResult(answers, DEFAULT_MAX_RETRIES, "").Err? ==> run.messages == messages
    ensures |run.calls| <= DEFAULT_MAX_RETRIES
  {
    match built
    case Err(e) => Run(Err(e), messages, [])
    case Ok(msg) =>
      if pr.url in messages then UpdateRun(messages, pr, msg, nowSql, answers)
      else PostRun(messages, pr, slackChannel, msg, nowIso, answers)
  }

  /** postOrUpdatePR. Building the message happens outside the try block,
      so a negative approval requirement is the one error it lets out;
      Slack failures are logged and dropped. Mentions are resolved from the
      stored user mappings. */
  method PostOrUpdatePR(db: Database, slack: SlackClient, pr: PRData, config: AppConfig,
                        nowMs: int, nowIso: string, nowSql: string)
    returns (outcome: Result<(), string>)
    requires db.Valid()
    modifies db`prMessages, slack
    ensures db.Valid()
    ensures var run := Reconcile(old(db.prMessages), pr, config.slackChannel, BuildPRMessage(pr, db.userMappings, nowMs, nowIso),
                                 nowIso, nowSql, AnswersFrom(slack.script, old(|slack.sent|)));
      && outcome == run.outcome
      && db.prMessages == run.messages
      && slack.sent == old(slack.sent) + run.calls
  {
    var built := BuildPRMessage(pr, db.userMappings, nowMs, nowIso);
    outcome := Deliver(db, slack, pr, config.slackChannel, built, nowIso, nowSql);
  }

  /** The rest of postOrUpdatePR once the message is built: update the
      tracked message or post a new one. */
  method Deliver(db: Database, slack: SlackClient, pr: PRData, slackChannel: string, built: Result<Message, string>,
                 nowIso: string, nowSql: string)
    returns (outcome: Result<(), string>)
    requires db.Valid()
    modifies db`prMessages, slack
    ensures db.Valid()
    ensures var run := Reconcile(old(db.prMessages), pr, slackChannel, built, nowIso, nowSql,
                                 AnswersFrom(slack.script, old(|slack.sent|)));
      && outcome == run.outcome
      && db.prMessages == run.messages
      && slack.sent == old(slack.sent) + run.calls
  {
    if built.Err? {
      return Err(built.error);
    }
    var msg := built.value;
    var existing := GetPRMessage(db, pr.url);
    if existing.Some? {
      var e := existing.value;
      var result := slack.SendWithRetry(Update(e.slackChannel, e.slackMessageTs, msg), "updateMessage(" + pr.url + ")");
      if result.Ok? {
        UpdatePRState(db, pr.url, StateName(pr.state), nowSql);
      }
    } else {
      var result := slack.SendWithRetry(Post(slackChannel, msg), "postMessage(" + pr.url + ")");
      if result.Ok? && Truthy(result.value.ts) {
        UpsertPRMessage(db, PostedRow(pr, result.value, slackChannel, nowIso));
      }
    }
    outcome := Ok(());
  }

  /** Once a run has stored the PR's row, every later run for that PR
      updates that message and never posts a second one, whatever Slack
      answers in between. */
  lemma NoSecondPost(messages: map<string, PRMessageRow>, pr: PRData, pr2: PRData, slackChannel: string,
                     built1: Result<Message, string>, built2: Result<Message, string>,
                     nowIso: string, nowSql: string, nowIso2: string, nowSql2: string,
                     answers1: nat -> Result<Reply, Fault>, answers2: nat -> Result<Reply, Fault>)
    requires pr2.url == pr.url
    ensures var first := Reconcile(messages, pr, slackChannel, built1, nowIso, nowSql, answers1);
      var second := Reconcile(first.messages, pr2, slackChannel, built2, nowIso2, nowSql2, answers2);
      pr.url in first.messages ==>
        forall i :: 0 <= i < |second.calls| ==>
          (second.calls[i].Update?
           && second.calls[i].channel == first.messages[pr.url].slackChannel
           && second.calls[i].ts == first.messages[pr.url].slackMessageTs)
  {
  }

  /** The calls postThreadReply makes: none for an untracked PR, otherwise
      one reply in the PR message's thread per attempt of the retry loop. */
  function ReplyCalls(messages: map<string, PRMessageRow>, prUrl: string, text: string,
                      answers: nat -> Result<Reply, Fault>): (calls: seq<SlackCall>)
    ensures prUrl !in messages ==> calls == []
    ensures prUrl in messages ==> 1 <= |calls| <= DEFAULT_MAX_RETRIES
    ensures forall i :: 0 <= i < |calls| ==>
      calls[i] == ThreadReply(messages[prUrl].slackChannel, messages[prUrl].slackMessageTs, text)
  {
    if prUrl !in messages then []
    else
      var e := messages[prUrl];
      CallsMadeIsFirstSuccess(answers, DEFAULT_MAX_RETRIES);
      Copies(ThreadReply(e.slackChannel, e.slackMessageTs, text), CallsMade(answers, DEFAULT_MAX_RETRIES))
  }

  /** postThreadReply: nothing for an untracked PR, otherwise chat.postMessage
      into the PR message's thread under the retry loop; failures are
      logged and dropped. */
  method PostThreadReply(db: Database, slack: SlackClient, prUrl: string, text: string)
    modifies slack
    ensures slack.sent == old(slack.sent) + ReplyCalls(db.prMessages, prUrl, text, AnswersFrom(slack.script, old(|slack.sent|)))
  {
    var existing := GetPRMessage(db, prUrl);
    if existing.None? {
      return;
    }
    var e := existing.value;
    var _ := slack.SendWithRetry(ThreadReply(e.slackChannel, e.slackMessageTs, text), "threadReply(" + prUrl + ")");
  }
}
