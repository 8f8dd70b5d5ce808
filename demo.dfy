/** The preview script src/demo.ts: it lists each configured repository's
    open PRs, keeps the non-draft ones by tracked authors, aggregates their
    reviews, and renders what the bot would post. The rendering helpers
    here are the console variants, with Unicode emoji in place of Slack
    short-codes. Review states are GitHub's (APPROVED, CHANGES_REQUESTED,
    COMMENTED, PENDING, DISMISSED). */
module Demo {
  import opened Common
  import opened Types
  import Reviews
  import Messages

  // ---------------------------------------------------------------------
  // processReviews
  // ---------------------------------------------------------------------

  /** One line of the thread preview: who reviewed, how, and when
      (`date` is the clock's rendering of `submitted_at`). */
  datatype Activity = Activity(login: string, state: ReviewState, date: string)

  /** The activity list of a PR's reviews: one line per review, in the
      order GitHub lists them. */
  function ActivityOf(rs: seq<Review>, formatDate: int -> string): (activity: seq<Activity>)
    ensures |activity| == |rs|
    ensures forall k :: 0 <= k < |rs| ==> activity[k] == Activity(rs[k].login, rs[k].state, formatDate(rs[k].submittedAt))
  {
    MapSeq(rs, (r: Review) => Activity(r.login, r.state, formatDate(r.submittedAt)))
  }

  /** processReviews: one pass filling the latest-review dictionary and
      the activity list, then the approval count and the reviewer list
      over the dictionary's values. `formatDate` stands for
      toLocaleString. */
  method ProcessReviews(rs: seq<Review>, formatDate: int -> string)
    returns (approvals: nat, reviewers: seq<ReviewerInfo>, activity: seq<Activity>)
    ensures approvals == |Reviews.ApprovedLogins(rs)|
    ensures reviewers == Reviews.Reviewers(rs)
    ensures approvals == Reviews.CountApproved(reviewers)
    ensures |activity| == |rs|
    ensures activity == ActivityOf(rs, formatDate)
  {
    var latest: map<string, Review> := map[];
    var order: seq<string> := [];
    activity := [];
    for i := 0 to |rs|
      invariant latest == Reviews.Latest(rs[..i]) && order == Reviews.FirstSeen(rs[..i])
      invariant |activity| == i
      invariant forall k :: 0 <= k < i ==> activity[k] == Activity(rs[k].login, rs[k].state, formatDate(rs[k].submittedAt))
    {
      assert rs[..i + 1][..i] == rs[..i];
      var r := rs[i];
      if r.login !in order {
        order := order + [r.login];
      }
      if r.login !in latest || r.submittedAt > latest[r.login].submittedAt {
        latest := latest[r.login := r];
      }
      activity := activity + [Activity(r.login, r.state, formatDate(r.submittedAt))];
    }
    assert rs[..|rs|] == rs;
    assert activity == ActivityOf(rs, formatDate);
    ValuesOfLatest(rs);
    approvals := Reviews.CountApprovedIn(order, latest);
    reviewers := Reviews.ReviewerList(order, latest);
  }

  /** Walking the dictionary's values in insertion order gives the
      approving reviewers' count and the reviewer list of Reviews. */
  lemma ValuesOfLatest(rs: seq<Review>)
    ensures forall k :: 0 <= k < |Reviews.FirstSeen(rs)| ==> Reviews.FirstSeen(rs)[k] in Reviews.Latest(rs)
    ensures Reviews.CountApprovedIn(Reviews.FirstSeen(rs), Reviews.Latest(rs)) == |Reviews.ApprovedLogins(rs)|
    ensures Reviews.ReviewerList(Reviews.FirstSeen(rs), Reviews.Latest(rs)) == Reviews.Reviewers(rs)
    ensures Reviews.CountApproved(Reviews.Reviewers(rs)) == |Reviews.ApprovedLogins(rs)|
  {
    Reviews.FirstSeenIsDistinctLogins(rs);
    Reviews.LatestKeys(rs);
    Reviews.ApprovedAmongFirstSeen(rs);
    Reviews.ApprovalsMatchReviewers(rs);
  }

  // ---------------------------------------------------------------------
  // Icons
  // ---------------------------------------------------------------------

  const CONSTRUCTION: string := "\U{1F6A7}"
  const PURPLE: string := "\U{1F7E3}"
  const RED: string := "\U{1F534}"
  const CHECK: string := "\U{2705}"
  const EYES: string := "\U{1F440}"
  const CROSS: string := "\U{274C}"
  const REWIND: string := "\U{23EA}"
  const SPEECH: string := "\U{1F4AC}"
  const GREEN: string := "\U{1F7E2}"
  const WHITE: string := "\U{26AA}"

  /** The console glyph of each status icon. */
  function Glyph(icon: Messages.StatusIcon): string {
    match icon
    case Construction => CONSTRUCTION
    case MergedPr => PURPLE
    case ClosedPr => RED
    case CheckMark => CHECK
    case Eyes => EYES
  }

  /** statusEmoji: one glyph by the precedence draft, merged, closed,
      enough approvals, waiting; the same choice the Slack message makes. */
  function StatusEmoji(pr: PRData): (emoji: string)
    ensures emoji == CONSTRUCTION <==> pr.isDraft
    ensures emoji == PURPLE <==> !pr.isDraft && pr.state == Merged
    ensures emoji == RED <==> !pr.isDraft && pr.state == Closed
    ensures emoji == CHECK <==> !pr.isDraft && pr.state == Open && pr.approvals >= pr.requiredApprovals
    ensures emoji == EYES <==> !pr.isDraft && pr.state == Open && pr.approvals < pr.requiredApprovals
  {
    Glyph(Messages.StatusOf(pr.state, pr.isDraft, pr.approvals, pr.requiredApprovals))
  }

  /** approvalBar: min(approvals, required) green circles, then
      max(0, required - approvals) white ones; a negative required count
      makes String.prototype.repeat throw, shown as None. */
  function ApprovalBar(approvals: nat, required: int): (bar: Option<string>)
    ensures bar.Some? <==> required >= 0
  {
    var filled := Messages.Min(approvals, required);
    if filled < 0 then None else Some(Repeat(GREEN, filled) + Repeat(WHITE, Messages.Max(0, required - approvals)))
  }

  /** Reading the bar back: min(approvals, required) green circles, then
      the white ones up to `required`, so there are `required` circles in
      all and no white one once the approvals reach the requirement. */
  lemma ApprovalBarReadsBack(approvals: nat, required: int)
    requires required >= 0
    ensures var bar := ApprovalBar(approvals, required).value;
      var filled := Messages.Min(approvals, required);
      && CountLeading(bar, GREEN) == filled
      && bar[filled * |GREEN|..] == Repeat(WHITE, required - filled)
      && CountLeading(bar[filled * |GREEN|..], WHITE) == required - filled
      && (approvals >= required ==> bar == Repeat(GREEN, required))
  {
    var filled := Messages.Min(approvals, required);
    var whites := Repeat(WHITE, required - filled);
    assert Messages.Max(0, required - approvals) == required - filled;
    var bar := Repeat(GREEN, filled) + whites;
    assert ApprovalBar(approvals, required).value == bar;
    assert !StartsWith(whites, GREEN) by {
      if required - filled > 0 {
        assert whites[0] == WHITE[0];
      }
    }
    CountLeadingRepeat(GREEN, filled, whites);
    assert bar[filled * |GREEN|..] == whites;
    CountLeadingRepeat(WHITE, required - filled, "");
    assert whites + "" == whites;
  }

  /** reviewerIcon: approved and changes-requested have their own glyph;
      every other state, a dismissal included, is a speech bubble. */
  function ReviewerIcon(state: ReviewState): (icon: string)
    ensures icon == CHECK <==> state == Approved
    ensures icon == CROSS <==> state == ChangesRequested
    ensures icon == SPEECH <==> state != Approved && state != ChangesRequested
  {
    if state == Approved then CHECK else if state == ChangesRequested then CROSS else SPEECH
  }

  /** activityIcon: as reviewerIcon, with a rewind glyph for a dismissal. */
  function ActivityIcon(state: ReviewState): (icon: string)
    ensures icon == CHECK <==> state == Approved
    ensures icon == CROSS <==> state == ChangesRequested
    ensures icon == REWIND <==> state == Dismissed
    ensures icon == SPEECH <==> state == Commented || state == Pending
  {
    match state
    case Approved => CHECK
    case ChangesRequested => CROSS
    case Dismissed => REWIND
    case Commented => SPEECH
    case Pending => SPEECH
  }

  /** activityLabel: the verb of a thread line. */
  function ActivityLabel(state: ReviewState): (verb: string)
    ensures verb == "approved this PR" <==> state == Approved
    ensures verb == "requested changes" <==> state == ChangesRequested
    ensures verb == "review was dismissed" <==> state == Dismissed
    ensures verb == "left a review" <==> state == Commented || state == Pending
  {
    match state
    case Approved => "approved this PR"
    case ChangesRequested => "requested changes"
    case Dismissed => "review was dismissed"
    case Commented => "left a review"
    case Pending => "left a review"
  }

  /** The icon and the label of an activity line always tell the same
      story, and the reviewer list only differs from the thread on
      dismissals. */
  lemma IconsAgree(a: ReviewState, b: ReviewState)
    ensures ActivityIcon(a) == ActivityIcon(b) <==> ActivityLabel(a) == ActivityLabel(b)
    ensures ReviewerIcon(a) == ActivityIcon(a) <==> a != Dismissed
  {
  }

  // ---------------------------------------------------------------------
  // PR selection
  // ---------------------------------------------------------------------

  /** The inputs of a demo run: the configuration, the first page of
      each repository's open PRs (None when listing it failed) and the
      reviews of each PR (empty when that request failed). */
  datatype Settings = Settings(org: string, repos: seq<string>, teamMembers: seq<string>, requiredApprovals: int)

  datatype GitHub = GitHub(
    firstPage: string -> Option<seq<GhPull>>,
    reviews: (string, int) -> seq<Review>)

  /** The PRs the preview shows for one repository, with their activity
      lists keyed by URL. */
  predicate Shown(s: Settings, pr: GhPull) {
    pr.draft != Some(true) && (|s.teamMembers| == 0 || pr.author in s.teamMembers)
  }

  /** The PRData pushed for a shown PR: its approvals, no reviewers, not a
      draft, and state open whatever GitHub says. */
  function Preview(s: Settings, gh: GitHub, repo: string, pr: GhPull): PRData {
    PRData(repo, s.org, pr.number, pr.title, pr.author, pr.htmlUrl,
           |Reviews.ApprovedLogins(gh.reviews(repo, pr.number))|, s.requiredApprovals, [],
           pr.draft == Some(true), Open, pr.createdAt, pr.updatedAt)
  }

  function ShownIn(s: Settings, gh: GitHub, repo: string, prs: seq<GhPull>): seq<PRData> {
    if prs == [] then []
    else
      var pr := prs[|prs| - 1];
      ShownIn(s, gh, repo, prs[..|prs| - 1]) + (if Shown(s, pr) then [Preview(s, gh, repo, pr)] else [])
  }

  function Listing(gh: GitHub, repo: string): seq<GhPull> {
    if gh.firstPage(repo).Some? then gh.firstPage(repo).value else []
  }

  /** allPRs after the scan of `repos`. */
  function AllShown(s: Settings, gh: GitHub, repos: seq<string>): seq<PRData> {
    if repos == [] then []
    else
      var repo := repos[|repos| - 1];
      AllShown(s, gh, repos[..|repos| - 1]) + ShownIn(s, gh, repo, Listing(gh, repo))
  }

  lemma ShownInStep(s: Settings, gh: GitHub, repo: string, prs: seq<GhPull>, j: nat)
    requires j < |prs|
    ensures ShownIn(s, gh, repo, prs[..j + 1]) ==
      ShownIn(s, gh, repo, prs[..j]) + (if Shown(s, prs[j]) then [Preview(s, gh, repo, prs[j])] else [])
  {
    assert prs[..j + 1][..j] == prs[..j];
  }

  lemma AllShownStep(s: Settings, gh: GitHub, repos: seq<string>, i: nat)
    requires i < |repos|
    ensures AllShown(s, gh, repos[..i + 1]) == AllShown(s, gh, repos[..i]) + ShownIn(s, gh, repos[i], Listing(gh, repos[i]))
  {
    assert repos[..i + 1][..i] == repos[..i];
  }

  /** The activity map holds a list for exactly the URLs of the
      previewed PRs. */
  ghost predicate Keyed(prActivity: map<string, seq<Activity>>, allPRs: seq<PRData>) {
    forall url :: url in prActivity <==> exists p :: p in allPRs && p.url == url
  }

  /** Each URL's activity list is the one built from the reviews of the
      last previewed PR with that URL (prActivity.set overwrites). */
  ghost predicate ActivityRecorded(prActivity: map<string, seq<Activity>>, allPRs: seq<PRData>, gh: GitHub,
                                   formatDate: int -> string) {
    forall i :: 0 <= i < |allPRs| && LastWithUrl(allPRs, i) ==>
      allPRs[i].url in prActivity && prActivity[allPRs[i].url] == ActivityOf(gh.reviews(allPRs[i].repo, allPRs[i].number), formatDate)
  }

  /** No later PR of the list has the URL of the i-th. */
  ghost predicate LastWithUrl(allPRs: seq<PRData>, i: int)
    requires 0 <= i < |allPRs|
  {
    forall j :: i < j < |allPRs| ==> allPRs[j].url != allPRs[i].url
  }

  lemma RecordedStep(prActivity: map<string, seq<Activity>>, allPRs: seq<PRData>, gh: GitHub, formatDate: int -> string,
                     p: PRData)
    requires ActivityRecorded(prActivity, allPRs, gh, formatDate)
    ensures ActivityRecorded(prActivity[p.url := ActivityOf(gh.reviews(p.repo, p.number), formatDate)], allPRs + [p], gh, formatDate)
  {
    var all := allPRs + [p];
    forall i | 0 <= i < |all| && LastWithUrl(all, i)
      ensures var m := prActivity[p.url := ActivityOf(gh.reviews(p.repo, p.number), formatDate)];
        all[i].url in m && m[all[i].url] == ActivityOf(gh.reviews(all[i].repo, all[i].number), formatDate)
    {
      if i < |allPRs| {
        assert all[|allPRs|] == p;
        assert all[i] == allPRs[i];
        assert LastWithUrl(allPRs, i) by {
          forall j | i < j < |allPRs| ensures allPRs[j].url != allPRs[i].url {
            assert all[j] == allPRs[j];
          }
        }
      }
    }
  }

  lemma KeyedStep(prActivity: map<string, seq<Activity>>, allPRs: seq<PRData>, p: PRData, activity: seq<Activity>)
    requires Keyed(prActivity, allPRs)
    ensures Keyed(prActivity[p.url := activity], allPRs + [p])
  {
    assert forall q :: q in allPRs + [p] <==> q in allPRs || q == p;
  }

  /** The scan of main: for each repository, list the first page of open
      PRs; skip drafts and untracked authors; process the reviews of the
      rest and record them with their activity, keyed by URL. A failed
      listing skips the repository. */
  method ScanRepos(s: Settings, gh: GitHub, formatDate: int -> string)
    returns (allPRs: seq<PRData>, prActivity: map<string, seq<Activity>>)
    ensures allPRs == AllShown(s, gh, s.repos)
    ensures forall url :: url in prActivity <==> exists p :: p in allPRs && p.url == url
    ensures ActivityRecorded(prActivity, allPRs, gh, formatDate)
  {
    allPRs := [];
    prActivity := map[];
    for i := 0 to |s.repos|
      invariant allPRs == AllShown(s, gh, s.repos[..i])
      invariant Keyed(prActivity, allPRs)
      invariant ActivityRecorded(prActivity, allPRs, gh, formatDate)
    {
      var repo := s.repos[i];
      AllShownStep(s, gh, s.repos, i);
      var listed := gh.firstPage(repo);
      if listed.None? {
        assert allPRs + [] == allPRs;
        continue;
      }
      allPRs, prActivity := ScanListing(s, gh, repo, listed.value, formatDate, allPRs, prActivity);
    }
    assert s.repos[..|s.repos|] == s.repos;
  }

  /** The inner loop of the scan: one repository's listed PRs. */
  method ScanListing(s: Settings, gh: GitHub, repo: string, prs: seq<GhPull>, formatDate: int -> string,
                     allPRs0: seq<PRData>, prActivity0: map<string, seq<Activity>>)
    returns (allPRs: seq<PRData>, prActivity: map<string, seq<Activity>>)
    requires Keyed(prActivity0, allPRs0)
    requires ActivityRecorded(prActivity0, allPRs0, gh, formatDate)
    ensures allPRs == allPRs0 + ShownIn(s, gh, repo, prs)
    ensures Keyed(prActivity, allPRs)
    ensures ActivityRecorded(prActivity, allPRs, gh, formatDate)
  {
    allPRs, prActivity := allPRs0, prActivity0;
    for j := 0 to |prs|
      invariant allPRs == allPRs0 + ShownIn(s, gh, repo, prs[..j])
      invariant Keyed(prActivity, allPRs)
      invariant ActivityRecorded(prActivity, allPRs, gh, formatDate)
    {
      var pr := prs[j];
      ShownInStep(s, gh, repo, prs, j);
      if pr.draft == Some(true) {
        continue;
      }
      if |s.teamMembers| > 0 && pr.author !in s.teamMembers {
        continue;
      }
      var approvals, _, activity := ProcessReviews(gh.reviews(repo, pr.number), formatDate);
      var p := PRData(repo, s.org, pr.number, pr.title, pr.author, pr.htmlUrl, approvals, s.requiredApprovals, [],
                      pr.draft == Some(true), Open, pr.createdAt, pr.updatedAt);
      assert p == Preview(s, gh, repo, pr);
      KeyedStep(prActivity, allPRs, p, activity);
      RecordedStep(prActivity, allPRs, gh, formatDate, p);
      allPRs := allPRs + [p];
      prActivity := prActivity[pr.htmlUrl := activity];
    }
    assert prs[..|prs|] == prs;
  }

  /** A PR is previewed exactly when it is a shown PR of a listed
      repository. */
  lemma {:induction false} ShownInExactly(s: Settings, gh: GitHub, repo: string, prs: seq<GhPull>, p: PRData)
    ensures p in ShownIn(s, gh, repo, prs) <==> exists pr :: pr in prs && Shown(s, pr) && p == Preview(s, gh, repo, pr)
  {
    if prs != [] {
      var init := prs[..|prs| - 1];
      var pr := prs[|prs| - 1];
      assert prs == init + [pr];
      ShownInExactly(s, gh, repo, init, p);
      if exists q :: q in prs && Shown(s, q) && p == Preview(s, gh, repo, q) {
        var q :| q in prs && Shown(s, q) && p == Preview(s, gh, repo, q);
        if q != pr {
          assert q in init;
        }
      }
    }
  }

  lemma {:induction false} AllShownExactly(s: Settings, gh: GitHub, repos: seq<string>, p: PRData)
    ensures p in AllShown(s, gh, repos) <==> exists repo :: repo in repos && p in ShownIn(s, gh, repo, Listing(gh, repo))
  {
    if repos != [] {
      var init := repos[..|repos| - 1];
      var repo := repos[|repos| - 1];
      assert repos == init + [repo];
      AllShownExactly(s, gh, init, p);
      if exists r :: r in repos && p in ShownIn(s, gh, r, Listing(gh, r)) {
        var r :| r in repos && p in ShownIn(s, gh, r, Listing(gh, r));
        if r != repo {
          assert r in init;
        }
      }
    }
  }

  /** Every previewed PR is a tracked author's non-draft PR of a configured
      repository, shown as open with its approval count, so its status
      glyph is one of the two review glyphs. */
  lemma PreviewedPRs(s: Settings, gh: GitHub, p: PRData)
    requires p in AllShown(s, gh, s.repos)
    ensures p.repo in s.repos && p.owner == s.org
    ensures !p.isDraft && p.state == Open && p.reviewers == []
    ensures Reviews.IsTeamMember(p.author, s.teamMembers)
    ensures exists pr :: (pr in Listing(gh, p.repo) && pr.draft != Some(true) && pr.number == p.number
                          && p.approvals == |Reviews.ApprovedLogins(gh.reviews(p.repo, pr.number))|)
    ensures StatusEmoji(p) == CHECK || StatusEmoji(p) == EYES
  {
    AllShownExactly(s, gh, s.repos, p);
    var repo :| repo in s.repos && p in ShownIn(s, gh, repo, Listing(gh, repo));
    ShownInExactly(s, gh, repo, Listing(gh, repo), p);
    var pr :| pr in Listing(gh, repo) && Shown(s, pr) && p == Preview(s, gh, repo, pr);
    assert pr in Listing(gh, p.repo);
  }

  /** Every tracked author's non-draft PR of a listed repository is
      previewed. */
  lemma PreviewComplete(s: Settings, gh: GitHub, repo: string, pr: GhPull)
    requires repo in s.repos && pr in Listing(gh, repo) && Shown(s, pr)
    ensures Preview(s, gh, repo, pr) in AllShown(s, gh, s.repos)
  {
    ShownInExactly(s, gh, repo, Listing(gh, repo), Preview(s, gh, repo, pr));
    AllShownExactly(s, gh, s.repos, Preview(s, gh, repo, pr));
  }
}
