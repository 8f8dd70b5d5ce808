/** The GitHub webhook endpoint of src/github/webhook-handler.ts: request
    admission (body and signature), classification of the event into at
    most one handler, and the three handlers' filters and effects. The
    HMAC digest of the body is a parameter (the hex string the secret
    gives); the GitHub answers fetchPRData would get are parameters too,
    and the Slack side is the recorded client of the message service. */
module Webhook {
  import opened Common
  import opened Types
  import opened Db
  import opened Reviews
  import opened UserMapping
  import opened Messages
  import opened MessageService

  // ---------------------------------------------------------------------
  // Admission
  // ---------------------------------------------------------------------

  /** Bytes a character takes in UTF-8 (what Buffer.from counts). */
  function Utf8Width(c: char): (w: nat)
    ensures 1 <= w <= 4
    ensures (c as int < 0x80) <==> w == 1
  {
    if c as int < 0x80 then 1 else if c as int < 0x800 then 2 else if c as int < 0x1_0000 then 3 else 4
  }

  function Utf8Length(s: string): (n: nat)
    ensures n >= |s|
  {
    if s == [] then 0 else Utf8Width(s[0]) + Utf8Length(s[1..])
  }

  /** The `x-hub-signature-256` value GitHub sends for a body whose
      HMAC-SHA256 hex digest is `digest`. */
  function ExpectedSignature(digest: string): string {
    "sha256=" + digest
  }

  /** What verifySignature does: false without a header; otherwise
      timingSafeEqual on the two UTF-8 buffers, which throws when their
      lengths differ. */
  datatype SignatureCheck = Match | Mismatch | LengthError

  function CheckSignatureAsWritten(signature: Option<string>, digest: string): (c: SignatureCheck)
    ensures c == Match <==> signature == Some(ExpectedSignature(digest))
    ensures c == LengthError <==>
      signature.Some? && signature.value != "" && Utf8Length(signature.value) != Utf8Length(ExpectedSignature(digest))
  {
    if signature.None? || signature.value == "" then Mismatch
    else if Utf8Length(signature.value) != Utf8Length(ExpectedSignature(digest)) then LengthError
    else if signature.value == ExpectedSignature(digest) then Match
    else Mismatch
  }

  /** The check as evidently intended: a header that is not the expected
      signature, of whatever length, is a mismatch. */
  function CheckSignature(signature: Option<string>, digest: string): (c: SignatureCheck)
    ensures c != LengthError
    ensures c == Match <==> signature == Some(ExpectedSignature(digest))
  {
    if signature == Some(ExpectedSignature(digest)) then Match else Mismatch
  }

  /** The HTTP answer of the handler: a status code, or none when the
      handler rejects before writing one. */
  datatype Response = Status(code: int) | NoResponse

  /** Status written for a request and whether its event is dispatched:
      400 without a body, 401 for a bad signature, otherwise 200 written
      before any handler runs. An exception from the check escapes the
      handler with nothing written. */
  function Admit(rawBody: Option<string>, check: SignatureCheck): (a: (Response, bool))
    ensures a.1 <==> a.0 == Status(200)
    ensures (rawBody.None? || rawBody.value == "") ==> a.0 == Status(400)
    ensures a.1 <==> rawBody.Some? && rawBody.value != "" && check == Match
    ensures rawBody.Some? && rawBody.value != "" && check == Mismatch ==> a.0 == Status(401)
  {
    if rawBody.None? || rawBody.value == "" then (Status(400), false)
    else match check
      case LengthError => (NoResponse, false)
      case Mismatch => (Status(401), false)
      case Match => (Status(200), true)
  }

  /** A signature header of the wrong length — here "sha256=" with no
      digest — gets no answer from the code as written, where the intended
      check answers 401. */
  lemma ShortSignatureGetsNoResponse(digest: string)
    requires |digest| == 64
    ensures Admit(Some("{}"), CheckSignatureAsWritten(Some("sha256="), digest)).0 == NoResponse
    ensures Admit(Some("{}"), CheckSignature(Some("sha256="), digest)).0 == Status(401)
  {
    assert Utf8Length("sha256=") == 7;
    assert Utf8Length(ExpectedSignature(digest)) >= 71;
  }

  // ---------------------------------------------------------------------
  // Classification
  // ---------------------------------------------------------------------

  const PR_ACTIONS: set<string> :=
    {"opened", "closed", "reopened", "synchronize", "ready_for_review", "converted_to_draft", "edited"}

  const REVIEW_ACTIONS: set<string> := {"submitted", "dismissed"}

  datatype Handler = PRHandler | ReviewHandler | CommentHandler | NoHandler

  /** Which handler an admitted delivery goes to; `issueHasPR` is whether
      `issue.pull_request` is present. */
  function Classify(event: string, action: string, issueHasPR: bool): (h: Handler)
    ensures h == PRHandler <==> event == "pull_request" && action in PR_ACTIONS
    ensures h == ReviewHandler <==> event == "pull_request_review" && action in REVIEW_ACTIONS
    ensures h == CommentHandler <==> event == "issue_comment" && action == "created" && issueHasPR
  {
    if event == "pull_request" && action in PR_ACTIONS then PRHandler
    else if event == "pull_request_review" && action in REVIEW_ACTIONS then ReviewHandler
    else if event == "issue_comment" && action == "created" && issueHasPR then CommentHandler
    else NoHandler
  }

  /** The actions that reach a handler: seven pull-request actions, two
      review actions and one comment action; a review event never carries
      an action that routes a pull-request event. */
  lemma ClassifyActions()
    ensures |PR_ACTIONS| == 7 && |REVIEW_ACTIONS| == 2
    ensures PR_ACTIONS !! REVIEW_ACTIONS
    ensures Classify("pull_request", "labeled", true) == NoHandler
    ensures Classify("pull_request_review", "edited", true) == NoHandler
    ensures Classify("issue_comment", "created", false) == NoHandler
  {
  }

  // ---------------------------------------------------------------------
  // Thread texts
  // ---------------------------------------------------------------------

  const EM_DASH: string := "—"

  datatype ReviewTemplate = ApprovedText | ChangesText | DismissedText | ReviewedText

  /** The template for `review.state` (GitHub sends it in lower case
      here); anything else, including a missing state, is "left a
      review". */
  function TemplateFor(reviewState: string): (t: ReviewTemplate)
    ensures t == ApprovedText <==> reviewState == "approved"
    ensures t == ChangesText <==> reviewState == "changes_requested"
    ensures t == DismissedText <==> reviewState == "dismissed"
  {
    if reviewState == "approved" then ApprovedText
    else if reviewState == "changes_requested" then ChangesText
    else if reviewState == "dismissed" then DismissedText
    else ReviewedText
  }

  function TemplateHead(t: ReviewTemplate): string {
    match t
    case ApprovedText => ":white_check_mark: "
    case ChangesText => ":x: "
    case DismissedText => ":rewind: Review by "
    case ReviewedText => ":speech_balloon: "
  }

  function TemplateTail(t: ReviewTemplate): string {
    match t
    case ApprovedText => " *approved* this PR "
    case ChangesText => " *requested changes* "
    case DismissedText => " was *dismissed* "
    case ReviewedText => " *left a review* "
  }

  /** The review thread reply: the template's opening, the reviewer's
      mention, the template's verb and the time. */
  function ReviewThreadText(reviewState: string, mention: string, timestamp: string): (text: string)
    ensures StartsWith(text, TemplateHead(TemplateFor(reviewState)) + mention)
    ensures EndsWith(text, EM_DASH + " " + timestamp)
  {
    var t := TemplateFor(reviewState);
    var head := TemplateHead(t) + mention;
    var tail := TemplateTail(t) + (EM_DASH + " " + timestamp);
    StartsWithAppend(head, tail);
    EndsWithAppend(head + TemplateTail(t), EM_DASH + " " + timestamp);
    assert head + tail == head + TemplateTail(t) + (EM_DASH + " " + timestamp);
    head + tail
  }

  /** The opening of a review reply says which kind of review it was. */
  lemma ReviewThreadTextOpening(reviewState: string, mention: string, timestamp: string)
    ensures var text := ReviewThreadText(reviewState, mention, timestamp);
      && (reviewState == "approved" ==> StartsWith(text, ":white_check_mark: " + mention + " *approved*"))
      && (reviewState == "changes_requested" ==> StartsWith(text, ":x: " + mention + " *requested changes*"))
      && (reviewState == "dismissed" ==> StartsWith(text, ":rewind: Review by " + mention + " was *dismissed*"))
      && (reviewState !in {"approved", "changes_requested", "dismissed"} ==>
            StartsWith(text, ":speech_balloon: " + mention + " *left a review*"))
  {
    ReviewTextOpensWithVerb(reviewState, mention, timestamp);
  }

  /** The verb of a template, without what follows it. */
  function TemplateVerb(t: ReviewTemplate): string {
    match t
    case ApprovedText => " *approved*"
    case ChangesText => " *requested changes*"
    case DismissedText => " was *dismissed*"
    case ReviewedText => " *left a review*"
  }

  lemma TailStartsWithVerb(t: ReviewTemplate)
    ensures StartsWith(TemplateTail(t), TemplateVerb(t))
  {
    var tail, verb := TemplateTail(t), TemplateVerb(t);
    assert tail[..|verb|] == verb;
  }

  lemma ReviewTextOpensWithVerb(reviewState: string, mention: string, timestamp: string)
    ensures var t := TemplateFor(reviewState);
      StartsWith(ReviewThreadText(reviewState, mention, timestamp), TemplateHead(t) + mention + TemplateVerb(t))
  {
    var t := TemplateFor(reviewState);
    var head := TemplateHead(t) + mention;
    var rest := TemplateTail(t) + (EM_DASH + " " + timestamp);
    assert ReviewThreadText(reviewState, mention, timestamp) == head + rest;
    TailStartsWithVerb(t);
    StartsWithAppend(TemplateTail(t), EM_DASH + " " + timestamp);
    StartsWithTrans(rest, TemplateTail(t), TemplateVerb(t));
    StartsWithExtend(head, rest, TemplateVerb(t));
  }

  /** The comment thread reply: the commenter's mention, then the
      "commented on this PR" wording between it and the time. */
  function CommentThreadText(mention: string, timestamp: string): (text: string)
    ensures StartsWith(text, ":speech_balloon: " + mention)
    ensures EndsWith(text, EM_DASH + " " + timestamp)
    ensures |text| == |":speech_balloon: " + mention| + |" *commented* on this PR "| + |EM_DASH + " " + timestamp|
    ensures text[|":speech_balloon: " + mention|..|text| - |EM_DASH + " " + timestamp|] == " *commented* on this PR "
  {
    var head := ":speech_balloon: " + mention;
    var tail := " *commented* on this PR " + (EM_DASH + " " + timestamp);
    StartsWithAppend(head, tail);
    EndsWithAppend(head + " *commented* on this PR ", EM_DASH + " " + timestamp);
    assert head + tail == head + " *commented* on this PR " + (EM_DASH + " " + timestamp);
    assert (head + tail)[|head|..|head + tail| - |EM_DASH + " " + timestamp|] == " *commented* on this PR ";
    head + tail
  }

  /** A comment reply never reads like a review reply, whatever the
      review's state: the two can be told apart in the thread. */
  lemma CommentReplyIsNotReviewReply(reviewState: string, mention: string, timestamp: string)
    ensures CommentThreadText(mention, timestamp) != ReviewThreadText(reviewState, mention, timestamp)
  {
    var c := CommentThreadText(mention, timestamp);
    var r := ReviewThreadText(reviewState, mention, timestamp);
    var t := TemplateFor(reviewState);
    var head := ":speech_balloon: " + mention;
    if t == ReviewedText {
      ReviewTextOpensWithVerb(reviewState, mention, timestamp);
      CommentTextOpensWithVerb(mention, timestamp);
      assert " *commented*"[2] != TemplateVerb(ReviewedText)[2];
      DiffersAt(c, r, head + " *commented*", head + TemplateVerb(ReviewedText), |head| + 2);
    } else {
      assert head[1] != (TemplateHead(t) + mention)[1];
      DiffersAt(c, r, head, TemplateHead(t) + mention, 1);
    }
  }

  lemma CommentTextOpensWithVerb(mention: string, timestamp: string)
    ensures StartsWith(CommentThreadText(mention, timestamp), ":speech_balloon: " + mention + " *commented*")
  {
    var head := ":speech_balloon: " + mention;
    var middle := " *commented* on this PR ";
    var rest := middle + (EM_DASH + " " + timestamp);
    assert CommentThreadText(mention, timestamp) == head + rest;
    assert middle[..|" *commented*"|] == " *commented*";
    StartsWithAppend(middle, EM_DASH + " " + timestamp);
    StartsWithTrans(rest, middle, " *commented*");
    StartsWithExtend(head, rest, " *commented*");
  }

  /** Two texts whose openings differ at a place both openings reach are
      different. */
  lemma DiffersAt(x: string, y: string, px: string, py: string, k: nat)
    requires StartsWith(x, px) && StartsWith(y, py)
    requires k < |px| && k < |py| && px[k] != py[k]
    ensures x != y
  {
    assert x[k] == px[k] && y[k] == py[k];
  }

  // ---------------------------------------------------------------------
  // Handlers
  // ---------------------------------------------------------------------

  /** The review object of a review event. */
  datatype ReviewPayload = ReviewPayload(state: string, reviewer: string)

  /** The fields of the delivery the handlers read. */
  datatype Payload = Payload(
    action: string,
    prNumber: int,
    prHtmlUrl: string,
    prAuthor: string,
    repoName: string,
    repoOwner: string,
    review: Option<ReviewPayload>,
    issuePRUrl: Option<string>,
    commenter: string)

  /** `payload.review?.user.login || 'someone'`. */
  function ReviewerOf(p: Payload): (login: string)
    ensures login != ""
    ensures p.review.Some? && p.review.value.reviewer != "" ==> login == p.review.value.reviewer
  {
    if p.review.Some? && p.review.value.reviewer != "" then p.review.value.reviewer else "someone"
  }

  /** `payload.review?.state || ''`. */
  function ReviewStateOf(p: Payload): string {
    if p.review.Some? then p.review.value.state else ""
  }

  /** The repository and author filters of the PR and review handlers. */
  predicate Tracked(config: AppConfig, p: Payload) {
    p.repoName in config.githubRepos && IsTeamMember(p.prAuthor, config.teamMembers)
  }

  /** What postOrUpdatePR does for the PR a tracked event names, given the
      pull request fetch succeeded. */
  function EventRun(messages: map<string, PRMessageRow>, mappings: map<string, string>, config: AppConfig, p: Payload,
                    pull: Result<GhPull, Fault>, reviews: Result<seq<Review>, Fault>,
                    nowMs: int, nowIso: string, nowSql: string, answers: nat -> Result<Reply, Fault>): Run
    requires pull.Ok?
  {
    var pr := PRDataOf(p.repoOwner, p.repoName, config.requiredApprovals, pull, reviews).value;
    Reconcile(messages, pr, config.slackChannel, BuildPRMessage(pr, mappings, nowMs, nowIso), nowIso, nowSql, answers)
  }

  /** handlePREvent. */
  method HandlePREvent(db: Database, slack: SlackClient, config: AppConfig, p: Payload,
                       pull: Result<GhPull, Fault>, reviews: Result<seq<Review>, Fault>,
                       nowMs: int, nowIso: string, nowSql: string)
    returns (outcome: Result<(), string>)
    requires db.Valid()
    modifies db`prMessages, slack
    ensures db.Valid()
    ensures !Tracked(config, p) || pull.Err? ==>
      outcome.Ok? && db.prMessages == old(db.prMessages) && slack.sent == old(slack.sent)
    ensures Tracked(config, p) && pull.Ok? ==>
      var run := EventRun(old(db.prMessages), db.userMappings, config, p, pull, reviews, nowMs, nowIso, nowSql,
                          AnswersFrom(slack.script, old(|slack.sent|)));
      && outcome == run.outcome && db.prMessages == run.messages && slack.sent == old(slack.sent) + run.calls
    ensures
      var run := PRRun(old(db.prMessages), db.userMappings, config, p, pull, reviews, nowMs, nowIso, nowSql,
                       AnswersFrom(slack.script, old(|slack.sent|)));
      db.prMessages == run.messages && slack.sent == old(slack.sent) + run.calls
  {
    if p.repoName !in config.githubRepos {
      return Ok(());
    }
    if !IsTeamMember(p.prAuthor, config.teamMembers) {
      return Ok(());
    }
    var prData := FetchPRData(p.repoOwner, p.repoName, config.requiredApprovals, pull, reviews);
    if prData.None? {
      return Ok(());
    }
    outcome := PostOrUpdatePR(db, slack, prData.value, config, nowMs, nowIso, nowSql);
  }

  /** handleReviewEvent: refresh the top-level message first, then reply
      in its thread. An error out of the refresh ends the handler before
      the reply. */
  method HandleReviewEvent(db: Database, slack: SlackClient, config: AppConfig, p: Payload,
                           pull: Result<GhPull, Fault>, reviews: Result<seq<Review>, Fault>,
                           nowMs: int, nowIso: string, nowSql: string, timestamp: string)
    returns (outcome: Result<(), string>)
    requires db.Valid()
    modifies db`prMessages, slack
    ensures db.Valid()
    ensures !Tracked(config, p) || pull.Err? ==>
      outcome.Ok? && db.prMessages == old(db.prMessages) && slack.sent == old(slack.sent)
    ensures Tracked(config, p) && pull.Ok? ==>
      var run := EventRun(old(db.prMessages), db.userMappings, config, p, pull, reviews, nowMs, nowIso, nowSql,
                          AnswersFrom(slack.script, old(|slack.sent|)));
      var text := ReviewThreadText(ReviewStateOf(p), ResolveSlackUser(db.userMappings, ReviewerOf(p)), timestamp);
      && outcome == run.outcome
      && db.prMessages == run.messages
      // the refresh comes first, then the reply, and none when the refresh threw
      && (run.outcome.Err? ==> slack.sent == old(slack.sent) + run.calls)
      && (run.outcome.Ok? ==>
            slack.sent == old(slack.sent) + run.calls +
                          ReplyCalls(run.messages, p.prHtmlUrl, text, AnswersFrom(slack.script, |old(slack.sent) + run.calls|)))
    ensures
      var text := ReviewThreadText(ReviewStateOf(p), ResolveSlackUser(db.userMappings, ReviewerOf(p)), timestamp);
      var run := ReviewRun(old(db.prMessages), db.userMappings, config, p, pull, reviews, nowMs, nowIso, nowSql,
                           text, slack.script, old(|slack.sent|));
      db.prMessages == run.messages && slack.sent == old(slack.sent) + run.calls
  {
    ghost var messages0, sent0 := db.prMessages, slack.sent;
    ghost var reply := ReviewThreadText(ReviewStateOf(p), ResolveSlackUser(db.userMappings, ReviewerOf(p)), timestamp);
    // the filters, the fetch and the refresh are handlePREvent's steps
    outcome := HandlePREvent(db, slack, config, p, pull, reviews, nowMs, nowIso, nowSql);
    if !Tracked(config, p) || pull.Err? {
      return;
    }
    ghost var run := EventRun(messages0, db.userMappings, config, p, pull, reviews, nowMs, nowIso, nowSql,
                              AnswersFrom(slack.script, |sent0|));
    assert outcome == run.outcome && db.prMessages == run.messages && slack.sent == sent0 + run.calls;
    if outcome.Err? {
      ReviewRunTracked(messages0, db.userMappings, config, p, pull, reviews, nowMs, nowIso, nowSql, reply, slack.script, |sent0|);
      return;
    }
    var mention := ResolveSlackUser(db.userMappings, ReviewerOf(p));
    var text := ReviewThreadText(ReviewStateOf(p), mention, timestamp);
    ReviewRunTracked(messages0, db.userMappings, config, p, pull, reviews, nowMs, nowIso, nowSql, reply, slack.script, |sent0|);
    ReplyAfterRefresh(db, slack, p.prHtmlUrl, text, run, sent0);
  }

  /** The thread reply handleReviewEvent posts once the refresh `run`
      has made its calls after `sent0`. */
  method ReplyAfterRefresh(db: Database, slack: SlackClient, prUrl: string, text: string, ghost run: Run, ghost sent0: seq<SlackCall>)
    requires db.prMessages == run.messages && slack.sent == sent0 + run.calls
    modifies slack
    ensures slack.sent == old(slack.sent) + ReplyCalls(run.messages, prUrl, text, AnswersFrom(slack.script, old(|slack.sent|)))
    ensures slack.sent == sent0 + ThenReply(run, prUrl, text, slack.script, |sent0|)
  {
    PostThreadReply(db, slack, prUrl, text);
    assert |sent0 + run.calls| == |sent0| + |run.calls|;
  }

  /** handleCommentEvent: only the repository filter applies; the reply
      always uses the "commented" template. */
  method HandleCommentEvent(db: Database, slack: SlackClient, config: AppConfig, p: Payload, timestamp: string)
    requires p.issuePRUrl.Some?
    modifies slack
    ensures p.repoName !in config.githubRepos ==> slack.sent == old(slack.sent)
    ensures p.repoName in config.githubRepos ==>
      var text := CommentThreadText(ResolveSlackUser(db.userMappings, p.commenter), timestamp);
      slack.sent == old(slack.sent) + ReplyCalls(db.prMessages, p.issuePRUrl.value, text, AnswersFrom(slack.script, old(|slack.sent|)))
    ensures slack.sent == old(slack.sent) + CommentCalls(db.prMessages, db.userMappings, config, p, timestamp,
                                                         AnswersFrom(slack.script, old(|slack.sent|)))
  {
    if p.repoName !in config.githubRepos {
      return;
    }
    var mention := ResolveSlackUser(db.userMappings, p.commenter);
    var text := CommentThreadText(mention, timestamp);
    PostThreadReply(db, slack, p.issuePRUrl.value, text);
  }

  /** The effect of handlePREvent: postOrUpdatePR's run for a tracked
      event whose fetch succeeded, nothing otherwise. */
  function PRRun(messages: map<string, PRMessageRow>, mappings: map<string, string>, config: AppConfig, p: Payload,
                 pull: Result<GhPull, Fault>, reviews: Result<seq<Review>, Fault>,
                 nowMs: int, nowIso: string, nowSql: string, answers: nat -> Result<Reply, Fault>): Run
  {
    if Tracked(config, p) && pull.Ok? then EventRun(messages, mappings, config, p, pull, reviews, nowMs, nowIso, nowSql, answers)
    else Run(Ok(()), messages, [])
  }

  /** The effect of handleReviewEvent: handlePREvent's run, then the
      review reply in the thread, unless the event was filtered out, the
      fetch failed or the refresh threw. `text` is the reply and `start`
      the number of Slack calls made before. */
  function ReviewRun(messages: map<string, PRMessageRow>, mappings: map<string, string>, config: AppConfig, p: Payload,
                     pull: Result<GhPull, Fault>, reviews: Result<seq<Review>, Fault>,
                     nowMs: int, nowIso: string, nowSql: string, text: string,
                     script: nat -> Result<Reply, Fault>, start: nat): Run
  {
    var run := PRRun(messages, mappings, config, p, pull, reviews, nowMs, nowIso, nowSql, AnswersFrom(script, start));
    if Tracked(config, p) && pull.Ok? && run.outcome.Ok? then
      Run(run.outcome, run.messages, ThenReply(run, p.prHtmlUrl, text, script, start))
    else run
  }

  /** A run's calls followed by the thread reply made after them. */
  function ThenReply(run: Run, prUrl: string, text: string, script: nat -> Result<Reply, Fault>, start: nat): seq<SlackCall>
  {
    run.calls + ReplyCalls(run.messages, prUrl, text, AnswersFrom(script, start + |run.calls|))
  }

  /** For a tracked event whose fetch succeeded, handleReviewEvent's run
      is the refresh followed, when it did not throw, by the reply. */
  lemma ReviewRunTracked(messages: map<string, PRMessageRow>, mappings: map<string, string>, config: AppConfig, p: Payload,
                         pull: Result<GhPull, Fault>, reviews: Result<seq<Review>, Fault>,
                         nowMs: int, nowIso: string, nowSql: string, text: string,
                         script: nat -> Result<Reply, Fault>, start: nat)
    requires Tracked(config, p) && pull.Ok?
    ensures
      var run := EventRun(messages, mappings, config, p, pull, reviews, nowMs, nowIso, nowSql, AnswersFrom(script, start));
      var whole := ReviewRun(messages, mappings, config, p, pull, reviews, nowMs, nowIso, nowSql, text, script, start);
      && whole.messages == run.messages
      && (run.outcome.Err? ==> whole.calls == run.calls)
      && (run.outcome.Ok? ==> whole.calls == ThenReply(run, p.prHtmlUrl, text, script, start))
  {
    var answers := AnswersFrom(script, start);
    assert PRRun(messages, mappings, config, p, pull, reviews, nowMs, nowIso, nowSql, answers)
        == EventRun(messages, mappings, config, p, pull, reviews, nowMs, nowIso, nowSql, answers);
  }

  /** The Slack calls of handleCommentEvent: the comment reply for a
      tracked repository, none otherwise. */
  function CommentCalls(messages: map<string, PRMessageRow>, mappings: map<string, string>, config: AppConfig, p: Payload,
                        timestamp: string, answers: nat -> Result<Reply, Fault>): seq<SlackCall>
    requires p.issuePRUrl.Some?
  {
    if p.repoName in config.githubRepos then
      ReplyCalls(messages, p.issuePRUrl.value, CommentThreadText(ResolveSlackUser(mappings, p.commenter), timestamp), answers)
    else []
  }

  /** One delivery: the headers, the raw body and the parsed payload. */
  datatype Delivery = Delivery(signature: Option<string>, event: string, rawBody: Option<string>, payload: Payload)

  /** The webhook handler: answer first, then run at most one handler and
      swallow what it throws. Signatures go through the intended check. */
  method HandleWebhook(db: Database, slack: SlackClient, config: AppConfig, d: Delivery, digest: string,
                       pull: Result<GhPull, Fault>, reviews: Result<seq<Review>, Fault>,
                       nowMs: int, nowIso: string, nowSql: string, timestamp: string)
    returns (response: Response, handler: Handler)
    requires db.Valid()
    modifies db`prMessages, slack
    ensures db.Valid()
    ensures response == Admit(d.rawBody, CheckSignature(d.signature, digest)).0
    ensures response != Status(200) ==> handler == NoHandler
    ensures response == Status(200) ==> handler == Classify(d.event, d.payload.action, d.payload.issuePRUrl.Some?)
    ensures handler == NoHandler ==> db.prMessages == old(db.prMessages) && slack.sent == old(slack.sent)
    ensures handler == PRHandler ==>
      var run := PRRun(old(db.prMessages), db.userMappings, config, d.payload, pull, reviews, nowMs, nowIso, nowSql,
                       AnswersFrom(slack.script, old(|slack.sent|)));
      db.prMessages == run.messages && slack.sent == old(slack.sent) + run.calls
    ensures handler == ReviewHandler ==>
      var text := ReviewThreadText(ReviewStateOf(d.payload), ResolveSlackUser(db.userMappings, ReviewerOf(d.payload)), timestamp);
      var run := ReviewRun(old(db.prMessages), db.userMappings, config, d.payload, pull, reviews, nowMs, nowIso, nowSql,
                           text, slack.script, old(|slack.sent|));
      db.prMessages == run.messages && slack.sent == old(slack.sent) + run.calls
    ensures handler == CommentHandler ==>
      && d.payload.issuePRUrl.Some?
      && db.prMessages == old(db.prMessages)
      && slack.sent == old(slack.sent) + CommentCalls(db.prMessages, db.userMappings, config, d.payload, timestamp,
                                                      AnswersFrom(slack.script, old(|slack.sent|)))
  {
    var admitted: bool;
    response, admitted := Admit(d.rawBody, CheckSignature(d.signature, digest)).0, Admit(d.rawBody, CheckSignature(d.signature, digest)).1;
    if !admitted {
      return response, NoHandler;
    }
    handler := Classify(d.event, d.payload.action, d.payload.issuePRUrl.Some?);
    match handler {
      case PRHandler =>
        var _ := HandlePREvent(db, slack, config, d.payload, pull, reviews, nowMs, nowIso, nowSql);
      case ReviewHandler =>
        var _ := HandleReviewEvent(db, slack, config, d.payload, pull, reviews, nowMs, nowIso, nowSql, timestamp);
      case CommentHandler =>
        HandleCommentEvent(db, slack, config, d.payload, timestamp);
      case NoHandler =>
    }
  }
}
