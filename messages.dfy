/** The Slack rendering of src/slack/messages.ts: the status icon, the
    approval bar, the state label, the top-level PR message and the status
    summary. Everything here is a pure function of its inputs; the clock
    reading and its ISO rendering are parameters. */
module Messages {
  import opened Common
  import opened Types
  import opened UserMapping

  // ---------------------------------------------------------------------
  // Status icon and state label
  // ---------------------------------------------------------------------

  /** The five icons a PR can be shown with. */
  datatype StatusIcon = Construction | MergedPr | ClosedPr | CheckMark | Eyes

  /** statusEmoji: exactly one icon, by the precedence draft, merged,
      closed, enough approvals, waiting. */
  function StatusOf(state: PRState, isDraft: bool, approvals: int, required: int): (icon: StatusIcon)
    ensures icon == Construction <==> isDraft
    ensures icon == MergedPr <==> !isDraft && state == Merged
    ensures icon == ClosedPr <==> !isDraft && state == Closed
    ensures icon == CheckMark <==> !isDraft && state == Open && approvals >= required
    ensures icon == Eyes <==> !isDraft && state == Open && approvals < required
  {
    if isDraft then Construction
    else if state.Merged? then MergedPr
    else if state.Closed? then ClosedPr
    else if approvals >= required then CheckMark
    else Eyes
  }

  /** The Slack short-code of each icon. */
  function SlackEmoji(icon: StatusIcon): string {
    match icon
    case Construction => ":construction:"
    case MergedPr => ":merged-pr:"
    case ClosedPr => ":closed-pr:"
    case CheckMark => ":white_check_mark:"
    case Eyes => ":eyes:"
  }

  /** Different icons are shown differently, so the icon can be read off
      the message. */
  lemma SlackEmojiInjective(a: StatusIcon, b: StatusIcon)
    requires SlackEmoji(a) == SlackEmoji(b)
    ensures a == b
  {
  }

  /** The state label of the first section. */
  function StateLabel(state: PRState, isDraft: bool): string {
    if isDraft then "Draft" else if state.Merged? then "Merged" else if state.Closed? then "Closed" else "Open"
  }

  /** The label and the icon never disagree: Draft goes with the
      construction icon, Merged and Closed with theirs, and Open with one
      of the two review icons. */
  lemma LabelAgreesWithIcon(state: PRState, isDraft: bool, approvals: int, required: int)
    ensures var icon := StatusOf(state, isDraft, approvals, required);
      var shown := StateLabel(state, isDraft);
      && (shown == "Draft" <==> icon == Construction)
      && (shown == "Merged" <==> icon == MergedPr)
      && (shown == "Closed" <==> icon == ClosedPr)
      && (shown == "Open" <==> icon == CheckMark || icon == Eyes)
  {
  }

  // ---------------------------------------------------------------------
  // Approval bar
  // ---------------------------------------------------------------------

  const GREEN: string := ":large_green_circle:"
  const WHITE: string := ":white_circle:"

  function Min(a: int, b: int): int { if a <= b then a else b }
  function Max(a: int, b: int): int { if a >= b then a else b }

  /** approvalBar: min(approvals, required) green circles, then
      max(0, required - filled) white ones. String.prototype.repeat throws
      a RangeError on a negative count, which happens exactly when the
      required number is negative; None stands for that exception. */
  function ApprovalBar(approvals: nat, required: int): (bar: Option<string>)
    ensures bar.Some? <==> required >= 0
  {
    var filled := Min(approvals, required);
    var empty := Max(0, required - filled);
    if filled < 0 then None else Some(Repeat(GREEN, filled) + Repeat(WHITE, empty))
  }

  lemma WhiteIsNotGreen(n: nat)
    ensures !StartsWith(Repeat(WHITE, n), GREEN)
  {
    if n > 0 {
      assert Repeat(WHITE, n)[1] == 'w';
    }
  }

  /** Reading the bar back: it opens with min(approvals, required) green
      circles, followed by exactly required - filled white ones, so the
      circles always number `required`, and no white circle is left once
      the approvals reach the requirement. */
  lemma ApprovalBarReadsBack(approvals: nat, required: int)
    requires required >= 0
    ensures var bar := ApprovalBar(approvals, required).value;
      var filled := Min(approvals, required);
      && CountLeading(bar, GREEN) == filled
      && bar[filled * |GREEN|..] == Repeat(WHITE, required - filled)
      && CountLeading(bar[filled * |GREEN|..], WHITE) == required - filled
      && (approvals >= required ==> bar == Repeat(GREEN, required))
  {
    var filled := Min(approvals, required);
    var whites := Repeat(WHITE, required - filled);
    var bar := Repeat(GREEN, filled) + whites;
    assert ApprovalBar(approvals, required).value == bar;
    WhiteIsNotGreen(required - filled);
    CountLeadingRepeat(GREEN, filled, whites);
    assert bar[filled * |GREEN|..] == whites;
    CountLeadingRepeat(WHITE, required - filled, "");
    assert whites + "" == whites;
    if approvals >= required {
      assert whites == "";
      assert bar == Repeat(GREEN, required);
    }
  }

  // ---------------------------------------------------------------------
  // The top-level PR message
  // ---------------------------------------------------------------------

  const DAY_MS: int := 1000 * 60 * 60 * 24

  /** daysOld: whole days between creation and now, rounded down. */
  function DaysOld(nowMs: int, createdAtMs: int): (days: int)
    ensures days * DAY_MS <= nowMs - createdAtMs < (days + 1) * DAY_MS
  {
    (nowMs - createdAtMs) / DAY_MS
  }

  /** The age line of the second section. */
  function AgeLine(age: int): string {
    ":clock1: " + IntToString(age) + " day" + (if age != 1 then "s" else "") + " old"
  }

  /** The singular appears exactly for an age of one day. */
  lemma AgeLineSingularIffOne(age: int)
    ensures EndsWith(AgeLine(age), " day old") <==> age == 1
    ensures EndsWith(AgeLine(age), " days old") <==> age != 1
  {
    var n := IntToString(age);
    var line := AgeLine(age);
    if age != 1 {
      assert line == ":clock1: " + n + " days old";
      assert line[|line| - 8..] == "days old";
    } else {
      assert line == ":clock1: " + n + " day old";
      assert line[|line| - 9] == n[|n| - 1];
    }
  }

  /** The fallback text: `emoji [repo] #number: title by author`. */
  function FallbackText(emoji: string, pr: PRData): string {
    FallbackHead(emoji, pr) + IntToString(pr.number) + FallbackTail(pr)
  }

  function FallbackHead(emoji: string, pr: PRData): string {
    emoji + " [" + pr.repo + "] #"
  }

  function FallbackTail(pr: PRData): string {
    ": " + pr.title + (" by " + pr.author)
  }

  /** The fallback text opens with the icon and the bracketed repository,
      closes with the author, and the PR number can be parsed back from
      the place after `#`. */
  lemma FallbackTextReadsBack(emoji: string, pr: PRData)
    ensures var text := FallbackText(emoji, pr);
      var head := emoji + " [" + pr.repo + "] #";
      && StartsWith(text, head)
      && EndsWith(text, " by " + pr.author)
      && ParseInt(text[|head|..]) == Some(pr.number)
  {
    var head := FallbackHead(emoji, pr);
    var num := IntToString(pr.number);
    var tail := FallbackTail(pr);
    var text := FallbackText(emoji, pr);
    assert text == head + (num + tail);
    assert text[..|head|] == head;
    assert text[|head|..] == num + tail;
    ParseIntPrefix(pr.number, tail);
    EndsWithAppend(": " + pr.title, " by " + pr.author);
    EndsWithAppend(head + num, tail);
    EndsWithTrans(text, tail, " by " + pr.author);
  }

  /** A Slack block: a mrkdwn section or a context of mrkdwn elements. */
  datatype Block = Section(text: string) | Context(elements: seq<string>)

  /** What chat.postMessage / chat.update receive. */
  datatype Message = Message(text: string, blocks: seq<Block>)

  /** buildPRMessage. `mappings` is the GitHub-to-Slack table the author
      mention is resolved against, `nowMs` the clock and `nowIso` its ISO
      rendering. A negative required number makes the approval bar throw,
      which is reported as Err. */
  function BuildPRMessage(pr: PRData, mappings: map<string, string>, nowMs: int, nowIso: string): (r: Result<Message, string>)
    ensures r.Ok? <==> pr.requiredApprovals >= 0
    ensures r.Ok? ==>
      var emoji := SlackEmoji(StatusOf(pr.state, pr.isDraft, pr.approvals, pr.requiredApprovals));
      && r.value.text == FallbackText(emoji, pr)
      && |r.value.blocks| == 3
      && r.value.blocks[0].Section? && StartsWith(r.value.blocks[0].text, emoji)
      && r.value.blocks[0].text == TitleSection(emoji, pr, ResolveSlackUser(mappings, pr.author))
      && r.value.blocks[1].Section? && r.value.blocks[2].Context?
      && StartsWith(r.value.blocks[1].text, ApprovalsHead(pr, ApprovalBar(pr.approvals, pr.requiredApprovals).value))
      && EndsWith(r.value.blocks[1].text, AgeLine(DaysOld(nowMs, pr.createdAt)))
  {
    var emoji := SlackEmoji(StatusOf(pr.state, pr.isDraft, pr.approvals, pr.requiredApprovals));
    var bar := ApprovalBar(pr.approvals, pr.requiredApprovals);
    if bar.None? then Err("RangeError: Invalid count value")
    else
      var first := TitleSection(emoji, pr, ResolveSlackUser(mappings, pr.author));
      var second := ApprovalsHead(pr, bar.value) + AgeLine(DaysOld(nowMs, pr.createdAt));
      StartsWithAppend(ApprovalsHead(pr, bar.value), AgeLine(DaysOld(nowMs, pr.createdAt)));
      EndsWithAppend(ApprovalsHead(pr, bar.value), AgeLine(DaysOld(nowMs, pr.createdAt)));
      Ok(Message(FallbackText(emoji, pr), [Section(first), Section(second), Context([ContextLine(nowMs, nowIso)])]))
  }

  /** The first section: the icon, the number and title linked to the
      PR, then on the next line the repository, the author mention and
      the state label. */
  function TitleSection(emoji: string, pr: PRData, mention: string): (text: string)
    ensures StartsWith(text, emoji) && text == emoji + text[|emoji|..]
    ensures StartsWith(text, TitleLink(emoji, pr))
    ensures EndsWith(text, TitleDetails(pr, mention))
    ensures text == TitleLink(emoji, pr) + TitleDetails(pr, mention)
  {
    var link := TitleLink(emoji, pr);
    var details := TitleDetails(pr, mention);
    StartsWithAppend(link, details);
    EndsWithAppend(link, details);
    assert link + details == emoji + (link + details)[|emoji|..];
    link + details
  }

  /** `emoji *<url|#number: title>*` and the line break. */
  function TitleLink(emoji: string, pr: PRData): string {
    emoji + " *<" + pr.url + "|#" + IntToString(pr.number) + ": " + pr.title + ">*\n"
  }

  /** `*Repo:* owner/repo | *Author:* mention | *Status:* label`. */
  function TitleDetails(pr: PRData, mention: string): (details: string)
    ensures EndsWith(details, StatusTag(StateLabel(pr.state, pr.isDraft)))
  {
    var head := "*Repo:* " + pr.owner + "/" + pr.repo + " | *Author:* " + mention + " | ";
    EndsWithAppend(head, StatusTag(StateLabel(pr.state, pr.isDraft)));
    head + StatusTag(StateLabel(pr.state, pr.isDraft))
  }

  /** `*Status:* label`. */
  function StatusTag(shown: string): string {
    "*Status:* " + shown
  }

  /** The state can be read off the end of the first section: it ends with
      the Draft label exactly for a draft, and with Merged, Closed or Open
      exactly for a non-draft PR in that state. */
  lemma TitleSectionStatusReadsBack(emoji: string, pr: PRData, mention: string)
    ensures var text := TitleSection(emoji, pr, mention);
      && (EndsWith(text, StatusTag("Draft")) <==> pr.isDraft)
      && (EndsWith(text, StatusTag("Merged")) <==> !pr.isDraft && pr.state == Merged)
      && (EndsWith(text, StatusTag("Closed")) <==> !pr.isDraft && pr.state == Closed)
      && (EndsWith(text, StatusTag("Open")) <==> !pr.isDraft && pr.state == Open)
  {
    var text := TitleSection(emoji, pr, mention);
    EndsWithTrans(text, TitleDetails(pr, mention), StatusTag(StateLabel(pr.state, pr.isDraft)));
    StatusReadsBack(text, pr.state, pr.isDraft);
  }

  lemma StatusReadsBack(text: string, state: PRState, isDraft: bool)
    requires EndsWith(text, StatusTag(StateLabel(state, isDraft)))
    ensures && (EndsWith(text, StatusTag("Draft")) <==> isDraft)
      && (EndsWith(text, StatusTag("Merged")) <==> !isDraft && state == Merged)
      && (EndsWith(text, StatusTag("Closed")) <==> !isDraft && state == Closed)
      && (EndsWith(text, StatusTag("Open")) <==> !isDraft && state == Open)
  {
    var shown := StateLabel(state, isDraft);
    if EndsWith(text, StatusTag("Draft")) { SameLabel(text, shown, "Draft"); }
    if EndsWith(text, StatusTag("Merged")) { SameLabel(text, shown, "Merged"); }
    if EndsWith(text, StatusTag("Closed")) { SameLabel(text, shown, "Closed"); }
    if EndsWith(text, StatusTag("Open")) { SameLabel(text, shown, "Open"); }
  }

  /** Of two labels, a text ending with both is ending with the same one:
      no two labels agree on both their last and their third-last
      character. */
  lemma SameLabel(text: string, shown: string, other: string)
    requires shown in {"Draft", "Merged", "Closed", "Open"} && other in {"Draft", "Merged", "Closed", "Open"}
    requires EndsWith(text, StatusTag(shown)) && EndsWith(text, StatusTag(other))
    ensures other == shown
  {
    var a, b := StatusTag(shown), StatusTag(other);
    assert a[|a| - 1] == text[|text| - 1] == b[|b| - 1];
    assert a[|a| - 3] == text[|text| - 3] == b[|b| - 3];
    assert shown[|shown| - 1] == other[|other| - 1];
    assert shown[|shown| - 3] == other[|other| - 3];
  }

  /** The approvals line of the second section, up to the age line: the
      bar, then the count over the requirement. */
  function ApprovalsHead(pr: PRData, bar: string): (head: string)
    ensures StartsWith(head, ApprovalsLead(bar))
    ensures EndsWith(head, ApprovalsTail(pr.requiredApprovals))
    ensures ParseInt(head[|ApprovalsLead(bar)|..]) == Some(pr.approvals)
  {
    var lead := ApprovalsLead(bar);
    var tail := ApprovalsTail(pr.requiredApprovals);
    var rest := IntToString(pr.approvals) + tail;
    StartsWithAppend(lead, rest);
    EndsWithAppend(IntToString(pr.approvals), tail);
    EndsWithAppend(lead, rest);
    EndsWithTrans(lead + rest, rest, tail);
    ParseIntAfter(lead, pr.approvals, tail);
    lead + rest
  }

  /** `*Approvals:* bar (`, what precedes the approval count. */
  function ApprovalsLead(bar: string): string {
    "*Approvals:* " + bar + " ("
  }

  /** `/required)` and the line break, what follows the approval count. */
  function ApprovalsTail(required: int): string {
    "/" + IntToString(required) + ")\n"
  }

  /** The context element: Slack's date token for the current second,
      with the ISO time as its fallback. */
  function ContextLine(nowMs: int, nowIso: string): string {
    "Last updated: <!date^" + IntToString(nowMs / 1000) + "^{date_short_pretty} at {time}|" + nowIso + ">"
  }

  // ---------------------------------------------------------------------
  // Status summary
  // ---------------------------------------------------------------------

  /** The dash of the summary line, as the source file's characters read
      (an em dash whose UTF-8 bytes were decoded one by one). */
  const SUMMARY_DASH: string := "\U{E2}\U{20AC}\U{201D}"

  const NO_PRS_TEXT: string := "No open PRs being tracked."
  const NO_PRS_BLOCK: string := ":white_check_mark: *No open PRs being tracked.* All clear!"

  /** One line of the summary. */
  function SummaryLine(pr: PRData): string {
    SlackEmoji(StatusOf(pr.state, pr.isDraft, pr.approvals, pr.requiredApprovals))
      + " <" + pr.url + "|#" + IntToString(pr.number) + "> " + pr.title + " " + SUMMARY_DASH + " "
      + ApprovalsRatio(pr)
  }

  /** `approvals/required approvals`, the end of a summary line. */
  function ApprovalsRatio(pr: PRData): string {
    IntToString(pr.approvals) + "/" + IntToString(pr.requiredApprovals) + " approvals"
  }

  function SummaryLines(prs: seq<PRData>): (lines: seq<string>)
    ensures |lines| == |prs| && forall i :: 0 <= i < |prs| ==> lines[i] == SummaryLine(prs[i])
  {
    seq(|prs|, i requires 0 <= i < |prs| => SummaryLine(prs[i]))
  }

  function SummaryHeader(count: int): string {
    ":bar_chart: *" + IntToString(count) + " Open PR(s)*"
  }

  /** buildStatusSummary. */
  function BuildStatusSummary(prs: seq<PRData>): (m: Message)
    ensures |m.blocks| == 1 && m.blocks[0].Section?
    ensures prs == [] ==> m == Message(NO_PRS_TEXT, [Section(NO_PRS_BLOCK)])
    ensures prs != [] ==> StartsWith(m.blocks[0].text, SummaryHeader(|prs|))
  {
    if |prs| == 0 then Message(NO_PRS_TEXT, [Section(NO_PRS_BLOCK)])
    else
      var body := SummaryHeader(|prs|) + "\n\n" + Join(SummaryLines(prs), '\n');
      assert body[..|SummaryHeader(|prs|)|] == SummaryHeader(|prs|);
      Message(IntToString(|prs|) + " open PR(s) tracked", [Section(body)])
  }

  /** The fallback text of a non-empty summary states the count. */
  lemma SummaryTextStatesCount(prs: seq<PRData>)
    requires prs != []
    ensures ParseInt(BuildStatusSummary(prs).text) == Some(|prs|)
  {
    ParseIntPrefix(|prs|, " open PR(s) tracked");
  }

  predicate NoNewline(pr: PRData) {
    '\n' !in pr.url && '\n' !in pr.title
  }

  lemma SummaryLineHasNoNewline(pr: PRData)
    requires NoNewline(pr)
    ensures '\n' !in SummaryLine(pr)
  {
    var e := SlackEmoji(StatusOf(pr.state, pr.isDraft, pr.approvals, pr.requiredApprovals));
    assert '\n' !in e;
    NumberHasNoNewline(pr.number);
    NumberHasNoNewline(pr.approvals);
    NumberHasNoNewline(pr.requiredApprovals);
    var s1 := e + " <" + pr.url + "|#";
    assert '\n' !in s1;
    var s2 := s1 + IntToString(pr.number) + "> " + pr.title + " " + SUMMARY_DASH + " ";
    assert '\n' !in s2;
    assert '\n' !in ApprovalsRatio(pr);
  }

  lemma NumberHasNoNewline(n: int)
    ensures '\n' !in IntToString(n)
  {
    var s := IntToString(n);
    forall i | 0 <= i < |s| ensures s[i] != '\n' {
      assert IsDigit(s[i]) || s[i] == '-';
    }
  }

  /** When no URL or title holds a line break, the summary's lines are
      the header, a blank line, then one line per PR in input order, each
      ending with its approvals over the required number. */
  lemma SummaryOneLinePerPR(prs: seq<PRData>)
    requires prs != []
    requires forall i :: 0 <= i < |prs| ==> NoNewline(prs[i])
    ensures var lines := Split(BuildStatusSummary(prs).blocks[0].text, '\n');
      && lines == [SummaryHeader(|prs|), ""] + SummaryLines(prs)
      && |lines| == |prs| + 2
      && forall i :: 0 <= i < |prs| ==> EndsWith(lines[i + 2], ApprovalsRatio(prs[i]))
  {
    var parts := [SummaryHeader(|prs|), ""] + SummaryLines(prs);
    SummaryBodyIsJoin(prs);
    SummaryPartsHaveNoNewline(prs);
    SplitJoin(parts, '\n');
    SummaryLinesEndWithRatio(prs);
  }

  lemma SummaryPartsHaveNoNewline(prs: seq<PRData>)
    requires forall i :: 0 <= i < |prs| ==> NoNewline(prs[i])
    ensures var parts := [SummaryHeader(|prs|), ""] + SummaryLines(prs);
      forall k :: 0 <= k < |parts| ==> '\n' !in parts[k]
  {
    var parts := [SummaryHeader(|prs|), ""] + SummaryLines(prs);
    forall k | 0 <= k < |parts| ensures '\n' !in parts[k] {
      SummaryPartHasNoNewline(prs, k);
    }
  }

  lemma SummaryPartHasNoNewline(prs: seq<PRData>, k: int)
    requires forall i :: 0 <= i < |prs| ==> NoNewline(prs[i])
    requires 0 <= k < |prs| + 2
    ensures '\n' !in ([SummaryHeader(|prs|), ""] + SummaryLines(prs))[k]
  {
    var parts := [SummaryHeader(|prs|), ""] + SummaryLines(prs);
    if k >= 2 {
      assert parts[k] == SummaryLine(prs[k - 2]);
      SummaryLineHasNoNewline(prs[k - 2]);
    } else if k == 0 {
      HeaderHasNoNewline(|prs|);
    }
  }

  lemma HeaderHasNoNewline(n: int)
    ensures '\n' !in SummaryHeader(n)
  {
    NumberHasNoNewline(n);
  }

  lemma SummaryLinesEndWithRatio(prs: seq<PRData>)
    ensures var parts := [SummaryHeader(|prs|), ""] + SummaryLines(prs);
      forall i :: 0 <= i < |prs| ==> EndsWith(parts[i + 2], ApprovalsRatio(prs[i]))
  {
    var parts := [SummaryHeader(|prs|), ""] + SummaryLines(prs);
    forall i | 0 <= i < |prs| ensures EndsWith(parts[i + 2], ApprovalsRatio(prs[i])) {
      SummaryPartEndsWithRatio(prs, i);
    }
  }

  lemma SummaryPartEndsWithRatio(prs: seq<PRData>, i: int)
    requires 0 <= i < |prs|
    ensures EndsWith(([SummaryHeader(|prs|), ""] + SummaryLines(prs))[i + 2], ApprovalsRatio(prs[i]))
  {
    assert ([SummaryHeader(|prs|), ""] + SummaryLines(prs))[i + 2] == SummaryLine(prs[i]);
    LineEndsWithRatio(prs[i]);
  }

  lemma SummaryBodyIsJoin(prs: seq<PRData>)
    requires prs != []
    ensures BuildStatusSummary(prs).blocks[0].text == Join([SummaryHeader(|prs|), ""] + SummaryLines(prs), '\n')
  {
    JoinAfterBlank(SummaryHeader(|prs|), SummaryLines(prs), '\n');
  }

  /** A blank second part shows as two separators in a row. */
  lemma JoinAfterBlank(a: string, rest: seq<string>, sep: char)
    requires rest != []
    ensures Join([a, ""] + rest, sep) == a + [sep, sep] + Join(rest, sep)
  {
    var parts := [a, ""] + rest;
    assert parts[1..] == [""] + rest;
    assert ([""] + rest)[1..] == rest;
    assert Join(parts, sep) == a + [sep] + ([sep] + Join(rest, sep));
  }

  lemma LineEndsWithRatio(pr: PRData)
    ensures EndsWith(SummaryLine(pr), ApprovalsRatio(pr))
  {
    var front := SlackEmoji(StatusOf(pr.state, pr.isDraft, pr.approvals, pr.requiredApprovals))
      + " <" + pr.url + "|#" + IntToString(pr.number) + "> " + pr.title + " " + SUMMARY_DASH + " ";
    EndsWithAppend(front, ApprovalsRatio(pr));
  }
}
