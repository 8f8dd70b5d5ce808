# PR-Bot in Dafny

PR-Bot watches GitHub pull requests for a team and reports them in Slack.

- A GitHub webhook (`pull_request`, `pull_request_review`, `issue_comment`) makes the bot fetch the PR and its reviews.
- It counts the reviewers whose latest review approves.
- It posts one Slack message per PR and edits that same message on every later event.
- It answers reviews and comments in the message's thread.
- Per-channel team settings (members, repositories, required approvals, notification switches) live in SQLite and are edited from the Slack App Home.
- A stand-alone script (`pr-tracker.js`) mails a daily digest of the PRs still short of approvals.
- A demo (`src/demo.ts`) prints a console preview of the Slack messages.

This project models that decision layer and proves what it promises:

- review aggregation;
- status, bar, label and summary rendering;
- the PR message table and the post-or-update reconciler;
- the team directory and its routing queries;
- the webhook dispatcher;
- the retry loop;
- the configuration and App Home parsers;
- the digest script's selection and grouping;
- the demo's preview.

Module by module:

- `common.dfy` — strings as `seq<char>`: trim, split/join, repeat, decimal printing and `parseInt`, filter.
- `types.dfy` — reviews, PR data, pull listings, the app configuration, faults.
- `reviews.dfy` — `src/github/pr-service.ts`.
- `messages.dfy` — `src/slack/messages.ts`.
- `usermapping.dfy` — `src/slack/user-mapping.ts`.
- `database.dfy` — the `Database` class holding the SQLite tables of `src/db/database.ts`.
- `queries.dfy` — `src/db/queries.ts`.
- `teamconfig.dfy` — `src/db/team-config.ts`.
- `messageservice.dfy` — `src/slack/message-service.ts`, with the Slack Web API as a `SlackClient` object that replays scripted answers and logs every call.
- `webhook.dfy` — `src/github/webhook-handler.ts`.
- `retry.dfy` — `src/utils/retry.ts`.
- `config.dfy` — `src/config.ts`.
- `apphome.dfy` — `src/slack/app-home-handlers.ts`.
- `tracker.dfy` — `pr-tracker.js`.
- `demo.dfy` — `src/demo.ts`.

How the source's state and effects are modelled:

- The SQLite tables are fields of one `Database` object: `map`s for the tables keyed by a primary key, and `seq`s, in insertion order, for `team_members` and `team_repos`. The handlers change these fields in place through methods with `modifies` clauses.
- A remote call is a function from the attempt number to an answer or a fault. A retry loop walks that function, and the Slack client records every call it makes.
- Clocks and formatted dates are parameters.

## Model

| member | source | states |
|---|---|---|
| Common.Trim | src/config.ts:16 | the result is trimmed and stands in the input with only white space (ECMAScript WhiteSpace and LineTerminator, Unicode spaces included) before and after it; a trimmed string is left as it is |
| Common.TrimUnique | src/config.ts:16 | a trimmed infix with only white space around it is the result of trim, so trim removes exactly the leading and trailing white space |
| Common.TrimPadded | src/db/queries.ts:61 | white space padded around a trimmed text is removed, and nothing else |
| Common.OrElse | src/config.ts:26 | `value \|\| fallback`: the value when set and non-empty, the fallback otherwise |
| Common.Split | src/config.ts:16 | `split`: at least one part, no part holds the separator, a string without it is one part |
| Common.JoinSplit | src/config.ts:16 | joining what split returns gives the original string back |
| Common.SplitJoin | src/config.ts:16 | splitting a join of separator-free parts gives the parts back |
| Common.SplitHeads | src/db/queries.ts:61 | the first piece of split is the text before the first separator; with a separator, the second piece is the text after it up to the next one |
| Common.SplitTrimNonEmpty | src/config.ts:16 | `split/map(trim)/filter(Boolean)` yields non-empty, trimmed, separator-free items |
| Common.SplitTrimNonEmptyOfJoin | src/config.ts:16 | a list of such items survives join-then-parse unchanged and in order |
| Common.ParseSeparated | src/config.ts:14-17 | [] for a missing or empty value; otherwise items that are non-empty, trimmed and free of the separator (also the App Home's one-entry-per-line parse) |
| Common.ParseSeparatedOfJoin | src/config.ts:14-17 | items of that kind joined with the separator parse back to themselves, in order |
| Common.ParseSeparatedIdempotent | src/config.ts:14-17 | parsing the join of a parsed list gives the same list |
| Common.Repeat | src/slack/messages.ts:15 | `String.prototype.repeat`: length is count times token length |
| Common.CountLeadingRepeat | src/slack/messages.ts:15 | a run of n tokens followed by something else reads back as n tokens |
| Common.NatToString | src/slack/messages.ts:42 | template printing of a count: non-empty, digits only |
| Common.ParseInt | src/config.ts:26 | `parseInt(s, 10)`: NaN exactly when no digit follows the leading blanks and sign |
| Common.ParseIntOfNatToString | src/config.ts:26 | parseInt reads a printed count back |
| Common.ParseIntPrefix | src/slack/messages.ts:28 | parseInt reads a printed integer back even when text follows it |
| Common.Keep | src/db/team-config.ts:215-217 | `filter`: no longer than the input, holds exactly the kept elements |
| Common.KeepAppend | src/db/team-config.ts:215-217 | filter distributes over concatenation, so it keeps the input's order and multiplicity |
| Common.KeepSnoc | src/db/team-config.ts:215-217 | one more element at the end is kept at the end exactly when it passes the test |
| Common.KeepDistinctBy | src/db/database.ts:62 | filtering keeps a table's uniqueness key unique |
| Retry.LastCall | src/utils/retry.ts:15-19 | the last attempt made stays within the allowed attempts |
| Retry.CallsMadeIsFirstSuccess | src/utils/retry.ts:13-19 | no call when maxRetries <= 0; otherwise between 1 and maxRetries calls, all failed except possibly the last, which is the first success or the final attempt |
| Retry.LastCallSkipsFailures | src/utils/retry.ts:15-19 | every attempt before the last one made failed |
| Retry.LastCallIsFirstSuccess | src/utils/retry.ts:16-17 | the loop stops at the first success |
| Retry.Pow2 | src/utils/retry.ts:28 | `Math.pow(2, attempt)` is at least 1 |
| Retry.DelayAfter | src/utils/retry.ts:23-30 | a retry-after hint (body before header) gives hint*1000 ms, otherwise 2^attempt * base |
| Retry.WithRetry | src/utils/retry.ts:9-38 | resolves with the first success, rethrows the last fault, rejects "exhausted" with no attempt; one delay after each failed attempt but the last, each the hint or backoff value |
| Reviews.LoginsAreReviewers | src/github/pr-service.ts:47-48 | a login has a latest review exactly when it reviewed |
| Reviews.LatestKeys | src/github/pr-service.ts:47-52 | the latest-review map is keyed by exactly the reviewers' logins |
| Reviews.LatestIndex | src/github/pr-service.ts:47-52 | the kept review is one of the reviewer's own reviews |
| Reviews.LatestIsFirstMaximal | src/github/pr-service.ts:49 | the kept review has the greatest time of that reviewer, and is the first such on a tie (strict `>`) |
| Reviews.FirstMaximalUnique | src/github/pr-service.ts:49 | that review is unique per login |
| Reviews.FirstSeenIsDistinctLogins | src/github/pr-service.ts:54 | `Object.values` walks each reviewer once |
| Reviews.LatestPerReviewer | src/github/pr-service.ts:45-52 | the loop builds exactly the latest-review map and the key order |
| Reviews.ApprovedIffLatestApproves | src/github/pr-service.ts:44-55 | a reviewer counts exactly when their latest review is APPROVED; a superseded approval does not count |
| Reviews.CountApprovedInIsCardinality | src/github/pr-service.ts:54 | the filter-length over distinct keys is the size of the approving set |
| Reviews.ApprovedAmongFirstSeen | src/github/pr-service.ts:54 | walking the map's values yields the approving set, no larger than the set of reviewers |
| Reviews.CountApprovals | src/github/pr-service.ts:44-55 | the count is the number of reviewers whose latest review approves; 0 for no reviews; never above the distinct reviewers |
| Reviews.ReviewerList | src/github/pr-service.ts:67-70 | one entry per key, carrying that key's latest state |
| Reviews.ReviewersAreLatestPerLogin | src/github/pr-service.ts:57-71 | getReviewers: one entry per distinct login, every reviewer present, each with its latest state |
| Reviews.GetReviewers | src/github/pr-service.ts:57-71 | the loop returns that list |
| Reviews.ApprovalsMatchReviewers | src/github/pr-service.ts:44-71 | countApprovals equals the number of getReviewers entries whose state is APPROVED |
| Reviews.LatestOrderIndependent | src/github/pr-service.ts:49 | without ties the result does not depend on the order the reviews arrive in |
| Reviews.TieKeepsFirstSeen | src/github/pr-service.ts:49 | with a tie the first review seen is kept, so the order decides |
| Reviews.IsTeamMember | src/github/pr-service.ts:73-76 | everyone when the list is empty, list membership otherwise |
| Reviews.DeriveState | src/github/pr-service.ts:96-101 | merged if merged, else closed if state is "closed", else open |
| Reviews.FetchPRData | src/github/pr-service.ts:78-122 | null exactly when the PR fetch fails; otherwise the counts, reviewers, derived state, draft flag defaulting to false, and the PR's own fields; failed reviews count as none |
| Reviews.ServerPage | src/github/pr-service.ts:16 | a page holds at most 100 PRs |
| Reviews.FetchPRsForRepo | src/github/pr-service.ts:8-28 | the result is a prefix of the listing in page order; one request per full page plus one; stops at the first short page; on an error keeps the full pages gathered so far; the whole listing when no page fails |
| UserMapping.ResolveSlackUser | src/slack/user-mapping.ts:3-9 | a mapped login with a non-empty id becomes `<@id>`, anything else stays the login |
| UserMapping.MentionReadsBack | src/slack/user-mapping.ts:5-6 | the id can be read back from between the mention delimiters |
| UserMapping.ResolveIsLocal | src/slack/user-mapping.ts:4 | changing one login's mapping does not change how any other login resolves |
| Messages.StatusOf | src/slack/messages.ts:5-11 | exactly one icon, by precedence draft, merged, closed, enough approvals, waiting |
| Messages.SlackEmojiInjective | src/slack/messages.ts:5-11 | distinct icons have distinct emoji codes |
| Messages.LabelAgreesWithIcon | src/slack/messages.ts:27 | the state label follows the same precedence as the icon |
| Messages.ApprovalBar | src/slack/messages.ts:13-16 | defined exactly when required >= 0 (repeat throws on a negative count) |
| Messages.ApprovalBarReadsBack | src/slack/messages.ts:13-16 | min(approvals, required) green circles, then exactly required - filled white ones; all green once approvals reach required |
| Messages.DaysOld | src/slack/messages.ts:18-20 | the floor of the elapsed milliseconds over one day |
| Messages.AgeLineSingularIffOne | src/slack/messages.ts:43 | "day old" exactly when the age is 1, "days old" otherwise |
| Messages.FallbackTextReadsBack | src/slack/messages.ts:28 | the text opens with `emoji [repo] #`, the number parses back, and it ends with `by author` |
| Messages.BuildPRMessage | src/slack/messages.ts:22-58 | an error exactly for a negative requirement; otherwise the fallback text, a first section that is exactly the title section with the author's mention, a second section opening with the approvals head and ending with the age line, and a context block |
| Messages.TitleSection | src/slack/messages.ts:35 | the title link (emoji, URL, number and title) followed by the details line (owner/repo, author mention and state label) |
| Messages.TitleSectionStatusReadsBack | src/slack/messages.ts:27-35 | the section ends with the Draft, Merged, Closed or Open status exactly when the PR is a draft, or a non-draft merged, closed or open PR |
| Messages.ApprovalsHead | src/slack/messages.ts:42 | opens with the bar and a parenthesis, closes with `/required)`, and the approval count parses back from the place after the parenthesis |
| Messages.SummaryLines | src/slack/messages.ts:73-76 | one line per PR, in input order |
| Messages.BuildStatusSummary | src/slack/messages.ts:60-90 | one section; the fixed all-clear message for no PRs; otherwise the header naming the count |
| Messages.SummaryTextStatesCount | src/slack/messages.ts:79 | the fallback text's number is the count of PRs |
| Messages.SummaryOneLinePerPR | src/slack/messages.ts:73-89 | the body splits into the header, a blank line and one line per PR in order, each ending with `approvals/required approvals` |
| Db.Database.constructor | src/db/database.ts:23-79 | a fresh database has empty tables that satisfy the key constraints |
| Queries.UpsertedMessages | src/db/queries.ts:6-16 | inserts a new URL; for a known URL only ts, state and last-updated change, while channel, owner, repo and number keep their values; no other row changes |
| Queries.UpsertKeepsKeys | src/db/database.ts:25 | every row stays under its own URL, one row per URL |
| Queries.UpsertPRMessage | src/db/queries.ts:6-16 | the table becomes that upsert |
| Queries.GetPRMessage | src/db/queries.ts:18-21 | the row for the URL, or none |
| Queries.GetOpenPRMessages | src/db/queries.ts:23-26 | exactly the rows whose state is "open" |
| Queries.StateUpdated | src/db/queries.ts:28-33 | only the given URL's state and last-updated change; an absent URL changes nothing |
| Queries.UpdatePRState | src/db/queries.ts:28-33 | the table becomes that update |
| Queries.UpsertUserMapping | src/db/queries.ts:37-44 | inserts or overwrites the login's Slack id |
| Queries.GetUserMapping | src/db/queries.ts:46-50 | the stored id, or none |
| Queries.ParsePair | src/db/queries.ts:61-62 | a pair is accepted exactly when the trimmed text before the first colon and the trimmed text after it (up to any second colon) are both non-empty, and then gives exactly those two |
| Queries.ParsePairOfText | src/db/queries.ts:61-62 | `login : id` with blanks around the colon parses to the login and the id |
| Queries.SeedUserMappings | src/db/queries.ts:57-66 | the mappings become the old ones overwritten by the accepted pairs, in order |
| Queries.ApplyPairsLastWins | src/db/queries.ts:60-64 | the last pair for a login wins; logins without a pair keep their mapping |
| Queries.SeedPairsOfText | src/db/queries.ts:57-66 | a comma list of `login:id` pairs seeds exactly those pairs |
| TeamConfig.OrDefault | src/db/team-config.ts:19 | a supplied field wins over the default |
| TeamConfig.UpsertedRow | src/db/team-config.ts:6-42 | each setting is the supplied value or its default (approvals 2, open/ready/changes/approved 1, merged 0, exclude bot comments 1); updated now; creation time kept |
| TeamConfig.UpsertTeamConfig | src/db/team-config.ts:6-42 | the channel's row becomes that row; nothing else changes |
| TeamConfig.ChannelOnlyUpsertResets | src/db/team-config.ts:19-40 | an upsert naming only the channel resets customised settings to the defaults |
| TeamConfig.UpsertOwnSettings | src/db/team-config.ts:31-40 | upserting a row's own settings loses nothing |
| TeamConfig.GetTeamConfig | src/db/team-config.ts:44-47 | the channel's row, or none |
| TeamConfig.GetAllTeamConfigs | src/db/team-config.ts:49-52 | exactly the stored rows |
| TeamConfig.DeleteTeamConfig | src/db/team-config.ts:54-57 | only that channel's row goes |
| TeamConfig.NullIfEmpty | src/db/team-config.ts:70 | an empty Slack id is stored as NULL |
| TeamConfig.AddTeamMember | src/db/team-config.ts:61-74 | appends a new (channel, login); an existing pair is left untouched, with its Slack id |
| TeamConfig.RemoveTeamMember | src/db/team-config.ts:76-79 | removes exactly the (channel, login) row; other channels are untouched |
| TeamConfig.GetTeamMembers | src/db/team-config.ts:81-84 | exactly the channel's rows, in insertion order; unique member rows stay unique |
| TeamConfig.GetTeamMembersInsertionOrder | src/db/team-config.ts:81-84 | a row added to the table comes last in its channel's list, and the other channels' lists are unchanged |
| TeamConfig.ClearTeamMembers | src/db/team-config.ts:86-89 | removes every row of the channel and only those |
| TeamConfig.AddTeamRepo | src/db/team-config.ts:93-106 | appends a new (channel, repo); an existing pair is left untouched |
| TeamConfig.RemoveTeamRepo | src/db/team-config.ts:108-111 | removes exactly the (channel, repo) row |
| TeamConfig.GetTeamRepos | src/db/team-config.ts:113-116 | exactly the channel's repositories, in insertion order; unique repository rows stay unique |
| TeamConfig.GetTeamReposInsertionOrder | src/db/team-config.ts:113-116 | a repository added to the table comes last in its channel's list, and the other channels' lists are unchanged |
| TeamConfig.ClearTeamRepos | src/db/team-config.ts:118-121 | removes every repository of the channel and only those |
| TeamConfig.MemberView | src/db/team-config.ts:142-145 | a stored Slack id shows as `<@id>`, an empty or missing one as none |
| TeamConfig.FullTeamConfig | src/db/team-config.ts:125-148 | null without a config row; otherwise the row's settings as booleans and the channel's members and repositories in insertion order |
| TeamConfig.FullConfigAfterChannelOnlyUpsert | src/db/team-config.ts:6-42 | after a channel-only upsert the full config shows the default switches and two approvals |
| TeamConfig.FindTeamsTrackingUser | src/db/team-config.ts:152-158 | exactly the channels that have the login, without repeats |
| TeamConfig.FindTeamsTrackingRepo | src/db/team-config.ts:186-192 | exactly the channels that list the repository, without repeats |
| TeamConfig.FindTeamsTrackingUserAndRepo | src/db/team-config.ts:196-218 | a channel is returned exactly when it has the user and either lists the repo or has a config row and no repos; a subset of the user's channels; empty when no channel has the user |
| TeamConfig.FirstMappedId | src/db/team-config.ts:165-181 | the first row that matches and has an id, if any |
| TeamConfig.GetSlackUserIdForGithubUser | src/db/team-config.ts:162-182 | the channel's own mapping first; else some team's mapping; none exactly when no team maps the login |
| TeamConfig.SetUserSelectedChannel | src/db/team-config.ts:222-231 | stores the user's selection |
| TeamConfig.GetUserSelectedChannel | src/db/team-config.ts:233-239 | the stored non-empty selection, or null |
| TeamConfig.SelectedChannelIsLastSet | src/db/team-config.ts:222-239 | reading back gives the last value set for that user; other users are unaffected |
| MessageService.Copies | src/slack/message-service.ts:21-29 | each attempt repeats the same call |
| MessageService.SlackClient.constructor | src/slack/message-service.ts:10-12 | a client with its answers and no calls yet |
| MessageService.SlackClient.SendWithRetry | src/slack/message-service.ts:21-29 | result and calls as the retry loop makes them over the client's next answers |
| MessageService.StateName | src/slack/message-service.ts:32 | merged, closed or open, mirroring the PR state |
| MessageService.PostedRow | src/slack/message-service.ts:53-63 | the stored row holds the reply ts, the reply channel or else the configured one, and the PR's state, owner, repo and number |
| MessageService.UpdateRun | src/slack/message-service.ts:18-38 | updates go to the stored channel and ts; on success the stored state mirrors the PR; on failure the table is unchanged and the error is dropped |
| MessageService.PostRun | src/slack/message-service.ts:39-69 | posts go to the configured channel; a row is stored only for a reply with a ts |
| MessageService.Reconcile | src/slack/message-service.ts:14-71 | a tracked PR is only updated where it was posted and keeps channel and ts; an untracked one is posted; rows are never dropped; failures change nothing |
| MessageService.PostOrUpdatePR | src/slack/message-service.ts:14-71 | the method's table and call log are exactly that reconciliation |
| MessageService.Deliver | src/slack/message-service.ts:16-70 | the update or post of a built message changes the table and the Slack log exactly as Reconcile says |
| MessageService.NoSecondPost | src/slack/message-service.ts:16-63 | once a run stores the PR's row, every later run updates that message and never posts again |
| MessageService.ReplyCalls | src/slack/message-service.ts:73-92 | no call for an untracked URL; otherwise replies in the stored message's thread |
| MessageService.PostThreadReply | src/slack/message-service.ts:73-92 | the call log grows by exactly those replies; the table is not modified |
| Webhook.Utf8Width | src/github/webhook-handler.ts:12 | the UTF-8 byte width of a character, 1 exactly for ASCII |
| Webhook.Utf8Length | src/github/webhook-handler.ts:12 | a buffer is at least as long as its string |
| Webhook.CheckSignatureAsWritten | src/github/webhook-handler.ts:9-13 | a match exactly for the expected signature; a length error (a throw) for a header whose byte length differs |
| Webhook.CheckSignature | src/github/webhook-handler.ts:9-13 | a match exactly for the expected signature, a mismatch otherwise, never a throw |
| Webhook.Admit | src/github/webhook-handler.ts:42-55 | 400 without a body, 401 for a mismatch, 200 and dispatch exactly for a body with a matching signature |
| Webhook.ShortSignatureGetsNoResponse | src/github/webhook-handler.ts:9-52 | the header `sha256=` gets no answer as written, and 401 under the intended check |
| Webhook.Classify | src/github/webhook-handler.ts:15-66 | one handler per event: PR events with the 7 actions, reviews submitted or dismissed, created comments on a PR; nothing else |
| Webhook.ClassifyActions | src/github/webhook-handler.ts:15-28 | 7 PR actions, 2 review actions, disjoint; other actions are ignored |
| Webhook.TemplateFor | src/github/webhook-handler.ts:120-128 | the template is chosen by review state, "left a review" otherwise |
| Webhook.ReviewThreadText | src/github/webhook-handler.ts:120-128 | the reply opens with the template's head and the mention and ends with the timestamp |
| Webhook.ReviewThreadTextOpening | src/github/webhook-handler.ts:120-128 | each review state's reply opens with its own verb |
| Webhook.CommentThreadText | src/github/webhook-handler.ts:144 | the commenter's mention after `:speech_balloon: `, then exactly ` *commented* on this PR `, then the dash and the time |
| Webhook.CommentReplyIsNotReviewReply | src/github/webhook-handler.ts:120-144 | a comment reply differs from the review reply of every review state |
| Webhook.ReviewerOf | src/github/webhook-handler.ts:102 | the review's author, "someone" when missing |
| Webhook.HandlePREvent | src/github/webhook-handler.ts:73-96 | an untracked repo, a non-member author or a failed fetch changes nothing; otherwise exactly postOrUpdatePR |
| Webhook.HandleReviewEvent | src/github/webhook-handler.ts:98-131 | the same filters; the top-level update first, then the thread reply, and no reply when the update threw; its effect is ReviewRun |
| Webhook.ReviewRunTracked | src/github/webhook-handler.ts:107-130 | for a tracked PR whose fetch succeeded, the review handler's calls are the refresh's, then the reply's only when the refresh did not throw |
| Webhook.HandleCommentEvent | src/github/webhook-handler.ts:133-147 | filters on the repository only, then replies in the thread |
| Webhook.HandleWebhook | src/github/webhook-handler.ts:36-71 | the answer is decided before any handler; only an admitted delivery dispatches, to its classified handler; the new message table and the Slack calls are exactly those of the PR, review or comment handler chosen; an ignored delivery changes nothing |
| Config.RequireEnv | src/config.ts:6-12 | the value when set and non-empty, otherwise an error naming the variable |
| Config.AllSetIsRequired | src/config.ts:21-30 | all six required variables are set |
| Config.DefaultsParse | src/config.ts:26-34 | the defaults parse to 2 and 3000 |
| Config.NumberVar | src/config.ts:26-34 | parseInt of the value or its default; NaN is an error naming the variable; a set value loads exactly when it parses, as the number it parses to |
| Config.LoadSlackPart | src/config.ts:28-34 | success only with the three Slack variables set; the secrets, the Slack values, both lists and the mappings land in their fields; unset numbers default to 2 and 3000 |
| Config.LoadConfig | src/config.ts:19-36 | success only when every required variable is set; the fields come from their variables; approvals default to 2 and the port to 3000 |
| Config.LoadConfigNumbers | src/config.ts:26-34 | a set REQUIRED_APPROVALS or PORT is loaded as the number it parses to |
| Config.LoadConfigOkIff | src/config.ts:19-36 | loading succeeds exactly when every required variable is set and both numeric values parse |
| Config.LoadSlackPartOkIff | src/config.ts:28-34 | the Slack part succeeds exactly when its three variables are set and both numeric values parse |
| Config.LoadConfigOptionalVars | src/config.ts:23-32 | userMappings defaults to "", unset lists to [] |
| Config.LoadConfigNamesFirstMissing | src/config.ts:19-36 | the error names the first missing variable in field order |
| Config.LoadSlackPartNamesMissing | src/config.ts:28-30 | the first missing Slack variable is named |
| Config.LoadConfigSucceedsWithDefaults | src/config.ts:19-36 | with every required variable set and no numbers given, loading succeeds with 2 and 3000 |
| AppHome.HomeChannel | src/slack/app-home-handlers.ts:79-88 | the stored selection; else the first channel the bot is in; else the user id |
| AppHome.OpenAppHome | src/slack/app-home-handlers.ts:71-102 | shows that channel, and persists the first channel only when it falls back to it |
| AppHome.HomeChannelIsSticky | src/slack/app-home-handlers.ts:79-88 | once opened on a real channel, the home keeps showing it |
| AppHome.SelectedChannelIsShown | src/slack/app-home-handlers.ts:105-120 | a picked channel is what the home shows from then on |
| AppHome.ExtractSlackId | src/slack/app-home-handlers.ts:268-281 | `<@X>` gives X, `U…` is kept whole; `<@X` without the closing bracket, `@name` and anything else give none |
| AppHome.ExtractSlackIdOfMention | src/slack/app-home-handlers.ts:270-272 | a Slack mention gives back its id |
| AppHome.MemberEntry | src/slack/app-home-handlers.ts:264-287 | no colon: the entry alone; with one: the trimmed text before the first colon, and the id extracted from the trimmed text between the first and any second colon |
| AppHome.MemberEntryOfMention | src/slack/app-home-handlers.ts:264-283 | `login:<@U…>` gives the login and the id |
| AppHome.AddedMembersContains | src/slack/app-home-handlers.ts:263-288 | adding members only appends, and every submitted login ends up a member |
| AppHome.MemberEntries | src/slack/app-home-handlers.ts:263-288 | one entry per line, in order |
| AppHome.AddMembersSubmit | src/slack/app-home-handlers.ts:245-297 | the channel gets a config row only if it had none (the corrected step, see Findings), then one addTeamMember per line in order, added by the submitter |
| AppHome.AddMembersResetsSettings | src/slack/app-home-handlers.ts:259-260 | the channel-only upsert the handlers make, applied to a channel with three required approvals, stores two |
| AppHome.EnsureTeamConfig | src/slack/app-home-handlers.ts:259-260 | creates the default row only for a channel without one; an existing row is left alone |
| AppHome.AddedReposContains | src/slack/app-home-handlers.ts:342-345 | adding repos only appends, and every submitted name ends up tracked |
| AppHome.AddReposSubmit | src/slack/app-home-handlers.ts:325-354 | the channel gets a config row only if it had none (the corrected step, see Findings), then one addTeamRepo per line in order |
| AppHome.RemovedMembersExactly | src/slack/app-home-handlers.ts:308-313 | exactly the selected logins of the channel go; every other row stays |
| AppHome.RemoveMembersSubmit | src/slack/app-home-handlers.ts:300-322 | the member table becomes that removal |
| AppHome.RemovedReposExactly | src/slack/app-home-handlers.ts:365-370 | exactly the selected repositories of the channel go |
| AppHome.RemoveReposSubmit | src/slack/app-home-handlers.ts:357-379 | the repository table becomes that removal |
| AppHome.Flag | src/slack/app-home-handlers.ts:392-407 | 1 exactly when the checkbox selection is non-empty, else 0 |
| AppHome.SettingsInput | src/slack/app-home-handlers.ts:391-408 | approvals parsed from the field with default "2"; every flag supplied; no channel name |
| AppHome.SettingsSubmit | src/slack/app-home-handlers.ts:382-417 | the channel's row becomes the upsert of that input |
| AppHome.SettingsReadBack | src/slack/app-home-handlers.ts:391-408 | the stored row holds each flag exactly as ticked, the typed number (2 when empty), and no channel name |
| AppHome.SettingsApprovalsReadBack | src/slack/app-home-handlers.ts:391 | an empty field stores 2; a typed count stores that count |
| AppHome.OpenSettingsModal | src/slack/app-home-handlers.ts:215-242 | a channel without a row gets the default one before the form opens; an existing row is left alone |
| Tracker.WithRetry | pr-tracker.js:30-41 | the first success with no further calls; the last error after `retries` failures; undefined with no attempt; waits 2^attempt s between failed attempts |
| Tracker.SettledAgreesWithRetry | pr-tracker.js:30-41 | the script's loop settles as the app's retry loop does when no rate-limit hint is given |
| Tracker.Listed | pr-tracker.js:46-73 | the whole listing, or nothing when any page fails |
| Tracker.FetchPRsForRepo | pr-tracker.js:46-73 | pages until the first short one; a failed page yields [] |
| Tracker.FetchPRsNeedingApproval | pr-tracker.js:125-163 | the loop yields exactly the report over the configured repositories |
| Tracker.PendingInExactly | pr-tracker.js:133-158 | an entry comes from a repository exactly when it is a selected PR there, with its approval count |
| Tracker.PendingExactly | pr-tracker.js:128-160 | an entry is listed exactly when some configured repository contributes it |
| Tracker.PendingNeedApproval | pr-tracker.js:133-158 | every listed entry is a non-draft PR by a tracked author, short of the required approvals |
| Tracker.PendingComplete | pr-tracker.js:133-158 | every such PR is listed |
| Tracker.PendingConcat | pr-tracker.js:128-160 | the report over two repository lists is the two reports in order |
| Tracker.RepoOrderKeys | pr-tracker.js:202-211 | the group keys are distinct and are exactly the reported repositories |
| Tracker.GroupMembers | pr-tracker.js:202-208 | a group holds exactly the PRs of its repository |
| Tracker.GroupByRepo | pr-tracker.js:202-208 | one key per repository in first-appearance order, each holding its PRs in report order |
| Tracker.GroupsPartition | pr-tracker.js:202-218 | walked in key order, the groups hold every reported PR exactly once |
| Tracker.IconRow | pr-tracker.js:219 | the row is `required` icons long |
| Tracker.IconRowReadsBack | pr-tracker.js:219 | `approvals` approved icons, then exactly `required - approvals` missing ones |
| Tracker.Subject | pr-tracker.js:350-352 | the all-clear subject exactly for an empty report |
| Tracker.SubjectWording | pr-tracker.js:350-352 | "PR Needs Approval" exactly for one PR, "PRs Need Approval" exactly for more |
| Tracker.SubjectStatesCount | pr-tracker.js:352 | the count in the subject parses back to the number of PRs |
| Demo.ProcessReviews | src/demo.ts:32-52 | the approvals and reviewers of the app's review aggregation, and one activity entry per review, in order (ActivityOf) |
| Demo.ActivityOf | src/demo.ts:41-47 | one entry per review, in order, with that review's login, state and formatted date |
| Demo.ValuesOfLatest | src/demo.ts:49-50 | walking the latest map's values gives the app's counts and reviewer list |
| Demo.StatusEmoji | src/demo.ts:54-60 | exactly one glyph, by the same precedence as the Slack message |
| Demo.ApprovalBar | src/demo.ts:62-64 | defined exactly when required >= 0 |
| Demo.ApprovalBarReadsBack | src/demo.ts:62-64 | min(approvals, required) green, then exactly required - filled white |
| Demo.ReviewerIcon | src/demo.ts:66-70 | approved and changes-requested have their own glyph; everything else is a speech bubble |
| Demo.ActivityIcon | src/demo.ts:76-81 | as the reviewer icon, with a rewind glyph for a dismissal |
| Demo.ActivityLabel | src/demo.ts:83-88 | one verb per state, "left a review" otherwise |
| Demo.IconsAgree | src/demo.ts:66-88 | icon and label make the same distinctions; the two icon helpers differ only on a dismissal |
| Demo.ScanRepos | src/demo.ts:128-173 | the previews of every repository in order; the activity map has exactly the previewed URLs, and each holds the activity of the last PR listed under it |
| Demo.ScanListing | src/demo.ts:143-167 | one repository's previews are appended; the activity keys are kept in step, and each URL holds the activity of the last PR listed under it |
| Demo.ShownInExactly | src/demo.ts:143-164 | a PR is previewed exactly when it is a shown PR of the listing |
| Demo.AllShownExactly | src/demo.ts:131-173 | a preview comes from exactly one of the listed repositories |
| Demo.PreviewedPRs | src/demo.ts:144-164 | a preview is an open non-draft PR by a tracked author, with no reviewers, shown with one of the two review glyphs |
| Demo.PreviewComplete | src/demo.ts:143-164 | every tracked author's non-draft PR is previewed |

## Left out

- Network, Slack and GitHub I/O: every remote answer is a parameter (a scripted answer per attempt, or a page-failure oracle).
- HMAC-SHA256 is the `digest` parameter. The model checks only how the header is compared with `sha256=<digest>`.
- Sleeping between retries: the delays are returned as a sequence (`Retry.WithRetry`, `Tracker.WithRetry`). `MessageService.SlackClient.SendWithRetry` drops them.
- Logging (`logger`, `console`) everywhere, and `printSlackMessage` and the banner of the demo.
- Clocks and date formatting: `Date.now()`, `toISOString`, `toLocaleString` and SQLite's `datetime('now')` are parameters (`nowMs`, `nowIso`, `nowSql`, `timestamp`, `formatDate`).
- Review times are integers. Comparing `new Date(...)` values of unparsable strings (NaN) is not modelled.
- Slack views: building and publishing the App Home and the modals (`app-home.ts`), `views.open` and `views.publish`, the open-modal button actions, and `getBotChannels`, whose result is the `available` parameter.
- The slash commands (`commands.ts`), `index.ts`, `client.ts` and `manual-test.ts` are not part of this model.
- `getAllUserMappings` (src/db/queries.ts:52-55) is not modelled: it is a plain SELECT of the whole table, which is the `userMappings` field itself.
- The digest e-mail of `pr-tracker.js`: the HTML and text bodies, `daysOld`, SMTP sending, `main`'s checks of the environment and the exit codes.
- The tracker's `getReviews` is not modelled as a separate operation: a failed review request is an empty review list in the `reviews` parameter.
- `Tracker.FetchPRsForRepo`: a fetch error is the `fails` oracle per page, and the script's `withRetry` around each page is not re-run there.
- `Demo.ScanRepos` lists only the first page of up to 100 PRs, as the demo does. A failed listing skips the repository.
- The demo's `getReviews` errors are an empty list.
- The demo's `daysOld` and its printing are left out.
- `Object.keys` places integer-like keys first. `Tracker.GroupByRepo` and the review aggregation use insertion order, which differs only for repository names or logins made of digits alone.
- The literals of `pr-tracker.js` and the summary line of `messages.ts` are stored mis-encoded in the repository: the icons appear as mojibake, and the dash is "â€”". The model keeps them as written.
- The `database.ts` schema creates neither the `exclude_bot_comments` column nor the `user_app_home_state` table that `team-config.ts` uses. The model assumes both exist, as the code that reads them does.
- Foreign keys are not enabled in `database.ts`, so deleting a config does not cascade to members or repos. The model does not cascade either.
- A `NaN` from `parseInt` on the settings form is stored as NULL approvals.
- In `Config.LoadConfig` a NaN `REQUIRED_APPROVALS` or `PORT` is an error naming the variable, because the model's configuration holds integers. The source would carry NaN on.
- In `Tracker.Settings` the required count is an integer, so a NaN `REQUIRED_APPROVALS` in the script is not modelled.
- `types.ts` does not declare the `TeamConfig` types that `team-config.ts` imports. The model follows the shape `getFullTeamConfig` builds.
- `ORDER BY added_at` in `getTeamMembers`/`getTeamRepos` is modelled as insertion order. Rows added within the same second may come back in any order in SQLite.
- When two reviews of one reviewer have the same time, the code keeps the first seen (strict `>`), and the model follows the code (`Reviews.TieKeepsFirstSeen`).
- Webhook.HandleWebhook: admits deliveries through the corrected signature check (Webhook.CheckSignature), so a signature of the wrong length is answered with 401; the code as written leaves that request without a response (Webhook.ShortSignatureGetsNoResponse, see Findings).
- Errors thrown by a handler are swallowed by the webhook's `try`. The model returns them as `Err` from the handler, and `HandleWebhook` drops them.
- AppHome.AddMembersSubmit, AppHome.AddReposSubmit: ensure the config with the corrected step (AppHome.EnsureTeamConfig) rather than the channel-only upsert the code makes; the as-written step is AppHome.AddMembersResetsSettings (see Findings).
- Errors other than a UNIQUE violation in `addTeamMember`/`addTeamRepo` (the rethrow) cannot arise in the model's tables.

## Findings

| source | as written | input that shows it | evidently intended | confidence | as-written member | corrected member |
|---|---|---|---|---|---|---|
| src/github/webhook-handler.ts:9-13,48-52 | `timingSafeEqual` throws when the header and the expected signature differ in byte length, so the request gets no 401 and is left without any response | header `x-hub-signature-256: sha256=` with a non-empty body | a signature of the wrong length is a mismatch answered with 401 | not executed | Webhook.ShortSignatureGetsNoResponse | Webhook.CheckSignature |
| src/slack/app-home-handlers.ts:259-260,339-340 | "ensure config exists" calls `upsertTeamConfig({ channel_id })`, which overwrites every setting with its default | a channel configured with 3 required approvals gets a member added and is back to 2 | create the default row only when the channel has none | not executed | AppHome.AddMembersResetsSettings | AppHome.EnsureTeamConfig |
