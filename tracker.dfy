/** The stand-alone e-mail reporter pr-tracker.js: its own retry loop and
    paginated listing, the selection of open PRs still short of approvals,
    their grouping by repository, the icon row of each listed PR and the
    subject line. Team membership and approval counting are those of
    Reviews, which the script repeats word for word.

    The emoji literals of the script are stored mis-decoded (UTF-8 bytes
    read as Mac Roman); the model keeps the characters as they stand. */
module Tracker {
  import opened Common
  import opened Types
  import Retry
  import Reviews

  // ---------------------------------------------------------------------
  // withRetry
  // ---------------------------------------------------------------------

  /** CONFIG.maxRetries, the default number of attempts. */
  const MAX_RETRIES: int := 3

  /** How the script's withRetry settles: the value of the first call that
      succeeds, the error of the last attempt, or `undefined` when no
      attempt was allowed (the loop body never runs). */
  datatype Settled<T> = Resolved(value: T) | Rejected(fault: Fault) | Undefined

  /** The outcome of withRetry for a call whose answers are `fn`. */
  function SettledWith<T>(fn: nat -> Result<T, Fault>, retries: int): Settled<T> {
    var calls := Retry.CallsMade(fn, retries);
    if calls == 0 then Undefined
    else if fn(calls - 1).Ok? then Resolved(fn(calls - 1).value)
    else Rejected(fn(calls - 1).error)
  }

  /** withRetry: attempts 1 to `retries`; after a failed attempt that is
      not the last, the wait is 2^attempt seconds; the last error is
      rethrown. `fn(k)` is what the call made at attempt k + 1 returns or
      throws, and the waits are recorded in `delays`. */
  method WithRetry<T>(fn: nat -> Result<T, Fault>, retries: int) returns (r: Settled<T>, calls: nat, delays: seq<int>)
    ensures calls == Retry.CallsMade(fn, retries)
    ensures r == SettledWith(fn, retries)
    ensures retries <= 0 ==> calls == 0 && r == Undefined
    ensures retries > 0 ==> 1 <= calls <= retries
    ensures r.Rejected? ==> calls == retries
    ensures |delays| == if calls == 0 then 0 else calls - 1
    ensures forall k :: 0 <= k < |delays| ==> fn(k).Err? && delays[k] == Retry.Pow2(k + 1) * 1000
  {
    calls := 0;
    delays := [];
    var attempt := 1;
    while attempt <= retries
      invariant 1 <= attempt && calls == attempt - 1
      invariant retries > 0 ==> attempt <= retries
      invariant retries <= 0 ==> attempt == 1
      invariant |delays| == calls
      invariant forall k :: 0 <= k < |delays| ==> fn(k).Err? && delays[k] == Retry.Pow2(k + 1) * 1000
      invariant retries > 0 ==> calls <= Retry.LastCall(fn, 0, retries)
      decreases retries - attempt
    {
      var outcome := fn(attempt - 1);
      calls := calls + 1;
      Retry.LastCallSkipsFailures(fn, 0, retries);
      if outcome.Ok? {
        Retry.LastCallIsFirstSuccess(fn, 0, retries, attempt - 1);
        return Resolved(outcome.value), calls, delays;
      }
      if attempt == retries {
        return Rejected(outcome.error), calls, delays;
      }
      delays := delays + [Retry.Pow2(attempt) * 1000];
      attempt := attempt + 1;
    }
    r := Undefined;
  }

  /** The script's loop is src/utils/retry.ts's with the rate-limit hints
      ignored: the same calls, the same value or error, `undefined` where
      that one throws "exhausted", and its backoff with a one-second base
      whenever no hint is given. */
  lemma SettledAgreesWithRetry<T>(fn: nat -> Result<T, Fault>, retries: int, name: string)
    ensures SettledWith(fn, retries).Resolved? <==> Retry.RetryResult(fn, retries, name).Ok?
    ensures SettledWith(fn, retries).Resolved? ==>
      SettledWith(fn, retries).value == Retry.RetryResult(fn, retries, name).value
    ensures SettledWith(fn, retries).Rejected? <==>
      Retry.RetryResult(fn, retries, name).Err? && Retry.RetryResult(fn, retries, name).error.Thrown?
    ensures SettledWith(fn, retries).Rejected? ==>
      SettledWith(fn, retries).fault == Retry.RetryResult(fn, retries, name).error.fault
    ensures SettledWith(fn, retries).Undefined? <==>
      Retry.RetryResult(fn, retries, name) == Err(Retry.Exhausted(name))
    ensures forall f: Fault, k: nat :: Retry.RetryAfterHint(f).None? ==>
      Retry.DelayAfter(f, k, Retry.DEFAULT_BASE_DELAY_MS) == Retry.Pow2(k) * 1000
  {
  }

  // ---------------------------------------------------------------------
  // fetchPRsForRepo
  // ---------------------------------------------------------------------

  /** The pages a full listing takes: the full ones and the short last one. */
  function PagesNeeded(all: seq<GhPull>): nat {
    |all| / Reviews.PER_PAGE + 1
  }

  /** What the script's fetchPRsForRepo returns for a repository whose
      open PRs are `all`, when `fails(p)` says the request for page p
      failed: every PR if each page it needs came back, and nothing as
      soon as one did not. */
  function Listed(all: seq<GhPull>, fails: nat -> bool): (prs: seq<GhPull>)
    ensures prs == all || prs == []
    ensures (forall p :: 1 <= p <= PagesNeeded(all) ==> !fails(p)) ==> prs == all
    ensures fails(1) ==> prs == []
  {
    if forall p :: 1 <= p <= PagesNeeded(all) ==> !fails(p) then all else []
  }

  lemma PageCount(n: nat, page: nat)
    requires (page - 1) * Reviews.PER_PAGE <= n < page * Reviews.PER_PAGE
    ensures n / Reviews.PER_PAGE + 1 == page
  {
  }

  /** fetchPRsForRepo: pages from 1 while full pages of 100 arrive; the
      first short page ends the loop, and any failure throws away what
      was gathered. */
  method FetchPRsForRepo(all: seq<GhPull>, fails: nat -> bool) returns (prs: seq<GhPull>, requests: nat)
    ensures prs == Listed(all, fails)
    ensures 1 <= requests <= PagesNeeded(all)
    ensures forall p :: 1 <= p < requests ==> !fails(p)
    ensures prs != all ==> fails(requests)
  {
    var gathered: seq<GhPull> := [];
    var page := 1;
    requests := 0;
    while true
      invariant page >= 1 && requests == page - 1
      invariant |gathered| == (page - 1) * Reviews.PER_PAGE <= |all| && gathered == all[..|gathered|]
      invariant forall p :: 1 <= p < page ==> !fails(p)
      decreases |all| - |gathered|
    {
      requests := requests + 1;
      if fails(page) {
        assert page <= PagesNeeded(all);
        return [], requests;
      }
      var got := Reviews.ServerPage(all, page);
      gathered := gathered + got;
      if |got| < Reviews.PER_PAGE {
        assert gathered == all;
        PageCount(|all|, page);
        return gathered, requests;
      }
      page := page + 1;
    }
  }

  // ---------------------------------------------------------------------
  // fetchPRsNeedingApproval
  // ---------------------------------------------------------------------

  /** The script's settings: GITHUB_REPOS, TEAM_MEMBERS and
      REQUIRED_APPROVALS. */
  datatype Settings = Settings(repos: seq<string>, teamMembers: seq<string>, requiredApprovals: int)

  /** GitHub as the script sees it: the open PRs of each repository, the
      listing requests that fail, and the reviews getReviews returns for
      a PR (empty when that request failed). */
  datatype GitHub = GitHub(
    openPulls: string -> seq<GhPull>,
    pageFails: string -> nat -> bool,
    reviews: (string, int) -> seq<Review>)

  /** One entry of prsNeedingApproval. */
  datatype PendingPR = PendingPR(
    repo: string,
    number: int,
    title: string,
    author: string,
    url: string,
    approvals: nat,
    createdAt: int,
    updatedAt: int)

  function Listing(gh: GitHub, repo: string): seq<GhPull> {
    Listed(gh.openPulls(repo), gh.pageFails(repo))
  }

  function Approvals(gh: GitHub, repo: string, pr: GhPull): nat {
    |Reviews.ApprovedLogins(gh.reviews(repo, pr.number))|
  }

  /** A PR the report lists: not a draft, by a tracked author, and short
      of the required approvals. */
  predicate Selected(s: Settings, gh: GitHub, repo: string, pr: GhPull) {
    && pr.draft != Some(true)
    && Reviews.IsTeamMember(pr.author, s.teamMembers)
    && Approvals(gh, repo, pr) < s.requiredApprovals
  }

  function Entry(repo: string, pr: GhPull, approvals: nat): PendingPR {
    PendingPR(repo, pr.number, pr.title, pr.author, pr.htmlUrl, approvals, pr.createdAt, pr.updatedAt)
  }

  /** The entries one repository contributes, in listing order. */
  function PendingIn(s: Settings, gh: GitHub, repo: string, prs: seq<GhPull>): seq<PendingPR> {
    if prs == [] then []
    else
      var pr := prs[|prs| - 1];
      PendingIn(s, gh, repo, prs[..|prs| - 1])
        + (if Selected(s, gh, repo, pr) then [Entry(repo, pr, Approvals(gh, repo, pr))] else [])
  }

  /** The report over `repos`, repository after repository. */
  function Pending(s: Settings, gh: GitHub, repos: seq<string>): seq<PendingPR> {
    if repos == [] then []
    else
      var repo := repos[|repos| - 1];
      Pending(s, gh, repos[..|repos| - 1]) + PendingIn(s, gh, repo, Listing(gh, repo))
  }

  /** fetchPRsNeedingApproval: for each configured repository, list its
      open PRs, skip drafts and untracked authors, count the approvals of
      the rest and keep those below the requirement. */
  method FetchPRsNeedingApproval(s: Settings, gh: GitHub) returns (out: seq<PendingPR>)
    ensures out == Pending(s, gh, s.repos)
  {
    out := [];
    for i := 0 to |s.repos|
      invariant out == Pending(s, gh, s.repos[..i])
    {
      var repo := s.repos[i];
      var prs, _ := FetchPRsForRepo(gh.openPulls(repo), gh.pageFails(repo));
      ghost var before := out;
      for j := 0 to |prs|
        invariant out == before + PendingIn(s, gh, repo, prs[..j])
      {
        var pr := prs[j];
        PendingInStep(s, gh, repo, prs, j);
        if pr.draft == Some(true) {
          continue;
        }
        if !Reviews.IsTeamMember(pr.author, s.teamMembers) {
          continue;
        }
        var approvals := Reviews.CountApprovals(gh.reviews(repo, pr.number));
        if approvals < s.requiredApprovals {
          out := out + [Entry(repo, pr, approvals)];
        }
      }
      PendingStep(s, gh, s.repos, i, prs);
    }
    assert s.repos[..|s.repos|] == s.repos;
  }

  lemma PendingInStep(s: Settings, gh: GitHub, repo: string, prs: seq<GhPull>, j: int)
    requires 0 <= j < |prs|
    ensures PendingIn(s, gh, repo, prs[..j + 1]) == PendingIn(s, gh, repo, prs[..j])
      + (if Selected(s, gh, repo, prs[j]) then [Entry(repo, prs[j], Approvals(gh, repo, prs[j]))] else [])
  {
    assert prs[..j + 1][..j] == prs[..j];
  }

  lemma PendingStep(s: Settings, gh: GitHub, repos: seq<string>, i: int, prs: seq<GhPull>)
    requires 0 <= i < |repos| && prs == Listing(gh, repos[i])
    ensures Pending(s, gh, repos[..i + 1]) == Pending(s, gh, repos[..i]) + PendingIn(s, gh, repos[i], prs[..|prs|])
  {
    assert repos[..i + 1][..i] == repos[..i];
    assert prs[..|prs|] == prs;
  }

  /** An entry comes from a repository exactly when it is a selected PR of
      that repository's listing, carrying its approval count. */
  lemma {:induction false} PendingInExactly(s: Settings, gh: GitHub, repo: string, prs: seq<GhPull>, x: PendingPR)
    ensures x in PendingIn(s, gh, repo, prs) <==>
      exists pr :: pr in prs && Selected(s, gh, repo, pr) && x == Entry(repo, pr, Approvals(gh, repo, pr))
  {
    if prs != [] {
      var init := prs[..|prs| - 1];
      var pr := prs[|prs| - 1];
      assert prs == init + [pr];
      PendingInExactly(s, gh, repo, init, x);
      if exists q :: q in prs && Selected(s, gh, repo, q) && x == Entry(repo, q, Approvals(gh, repo, q)) {
        var q :| q in prs && Selected(s, gh, repo, q) && x == Entry(repo, q, Approvals(gh, repo, q));
        if q != pr {
          assert q in init;
        }
      }
    }
  }

  /** An entry is in the report exactly when some configured repository
      contributes it. */
  lemma {:induction false} PendingExactly(s: Settings, gh: GitHub, repos: seq<string>, x: PendingPR)
    ensures x in Pending(s, gh, repos) <==>
      exists repo :: repo in repos && x in PendingIn(s, gh, repo, Listing(gh, repo))
  {
    if repos != [] {
      var init := repos[..|repos| - 1];
      var repo := repos[|repos| - 1];
      assert repos == init + [repo];
      PendingExactly(s, gh, init, x);
      if exists r :: r in repos && x in PendingIn(s, gh, r, Listing(gh, r)) {
        var r :| r in repos && x in PendingIn(s, gh, r, Listing(gh, r));
        if r != repo {
          assert r in init;
        }
      }
    }
  }

  /** Every listed PR still needs approvals: it is below the requirement,
      from a configured repository, by a tracked author, not a draft, and
      its count is that of its reviews. */
  lemma PendingNeedApproval(s: Settings, gh: GitHub, x: PendingPR)
    requires x in Pending(s, gh, s.repos)
    ensures x.approvals < s.requiredApprovals
    ensures x.repo in s.repos
    ensures Reviews.IsTeamMember(x.author, s.teamMembers)
    ensures exists pr :: (pr in Listing(gh, x.repo) && pr.draft != Some(true) && pr.number == x.number
                          && x.approvals == Approvals(gh, x.repo, pr))
  {
    PendingExactly(s, gh, s.repos, x);
    var repo :| repo in s.repos && x in PendingIn(s, gh, repo, Listing(gh, repo));
    PendingInExactly(s, gh, repo, Listing(gh, repo), x);
    var pr :| pr in Listing(gh, repo) && Selected(s, gh, repo, pr) && x == Entry(repo, pr, Approvals(gh, repo, pr));
    assert pr in Listing(gh, x.repo);
  }

  /** Every selected PR of a configured repository is listed. */
  lemma PendingComplete(s: Settings, gh: GitHub, repo: string, pr: GhPull)
    requires repo in s.repos && pr in Listing(gh, repo) && Selected(s, gh, repo, pr)
    ensures Entry(repo, pr, Approvals(gh, repo, pr)) in Pending(s, gh, s.repos)
  {
    var x := Entry(repo, pr, Approvals(gh, repo, pr));
    PendingInExactly(s, gh, repo, Listing(gh, repo), x);
    PendingExactly(s, gh, s.repos, x);
  }

  /** The report goes repository by repository in list order: the report
      over two lists is the report over the first followed by the report
      over the second. */
  lemma {:induction false} PendingConcat(s: Settings, gh: GitHub, a: seq<string>, b: seq<string>)
    ensures Pending(s, gh, a + b) == Pending(s, gh, a) + Pending(s, gh, b)
  {
    if b != [] {
      var init := b[..|b| - 1];
      var repo := b[|b| - 1];
      assert (a + b)[..|a + b| - 1] == a + init;
      assert (a + b)[|a + b| - 1] == repo;
      PendingConcat(s, gh, a, init);
    } else {
      assert a + b == a;
    }
  }

  // ---------------------------------------------------------------------
  // Grouping by repository
  // ---------------------------------------------------------------------

  /** The repositories in the order their first PR appears, the order in
      which the `prsByRepo` object receives its keys. */
  function RepoOrder(prs: seq<PendingPR>): seq<string> {
    if prs == [] then []
    else
      var init := RepoOrder(prs[..|prs| - 1]);
      var r := prs[|prs| - 1].repo;
      if r in init then init else init + [r]
  }

  /** The keys are distinct and are exactly the repositories of the PRs. */
  lemma {:induction false} RepoOrderKeys(prs: seq<PendingPR>)
    ensures Distinct(RepoOrder(prs))
    ensures forall r :: r in RepoOrder(prs) <==> exists x :: x in prs && x.repo == r
  {
    if prs != [] {
      var init := prs[..|prs| - 1];
      var x := prs[|prs| - 1];
      assert prs == init + [x];
      RepoOrderKeys(init);
      assert forall y :: y in prs <==> y in init || y == x;
    }
  }

  /** The PRs of repository r, in the order they were listed. */
  function Group(prs: seq<PendingPR>, r: string): seq<PendingPR> {
    if prs == [] then []
    else
      var x := prs[|prs| - 1];
      Group(prs[..|prs| - 1], r) + (if x.repo == r then [x] else [])
  }

  /** A group holds exactly the PRs of its repository. */
  lemma {:induction false} GroupMembers(prs: seq<PendingPR>, r: string)
    ensures forall x :: x in Group(prs, r) <==> x in prs && x.repo == r
  {
    if prs != [] {
      var init := prs[..|prs| - 1];
      var x := prs[|prs| - 1];
      assert prs == init + [x];
      GroupMembers(init, r);
      assert forall y :: y in prs <==> y in init || y == x;
    }
  }

  /** The groups one after another, walked in key order as the report does. */
  function Regrouped(keys: seq<string>, prs: seq<PendingPR>): seq<PendingPR> {
    if keys == [] then [] else Regrouped(keys[..|keys| - 1], prs) + Group(prs, keys[|keys| - 1])
  }

  lemma GroupStep(prs: seq<PendingPR>, x: PendingPR, r: string)
    ensures Group(prs + [x], r) == Group(prs, r) + (if x.repo == r then [x] else [])
  {
    assert (prs + [x])[..|prs|] == prs;
  }

  lemma RepoOrderStep(prs: seq<PendingPR>, x: PendingPR)
    ensures RepoOrder(prs + [x]) == if x.repo in RepoOrder(prs) then RepoOrder(prs) else RepoOrder(prs) + [x.repo]
  {
    assert (prs + [x])[..|prs|] == prs;
  }

  /** A repository not yet among the keys has no PRs so far. */
  lemma GroupOfNewRepo(prs: seq<PendingPR>, r: string)
    requires r !in RepoOrder(prs)
    ensures Group(prs, r) == []
  {
    RepoOrderKeys(prs);
    GroupMembers(prs, r);
  }

  /** `keys` and `groups` are the grouping of `prs`. */
  ghost predicate Grouped(prs: seq<PendingPR>, keys: seq<string>, groups: map<string, seq<PendingPR>>) {
    && keys == RepoOrder(prs)
    && (forall r :: r in groups <==> r in keys)
    && (forall r :: r in groups ==> groups[r] == Group(prs, r))
  }

  /** Filing one more PR keeps the grouping: a new key is added when its
      repository is new, and the PR goes at the end of its group. */
  lemma GroupedStep(prs: seq<PendingPR>, keys: seq<string>, groups: map<string, seq<PendingPR>>, x: PendingPR)
    requires Grouped(prs, keys, groups)
    ensures var g := if x.repo in groups then groups else groups[x.repo := []];
      var k := if x.repo in groups then keys else keys + [x.repo];
      Grouped(prs + [x], k, g[x.repo := g[x.repo] + [x]])
  {
    RepoOrderStep(prs, x);
    if x.repo !in groups {
      GroupOfNewRepo(prs, x.repo);
    }
    GroupsStep(prs, groups, x);
  }

  /** The group part of GroupedStep. */
  lemma GroupsStep(prs: seq<PendingPR>, groups: map<string, seq<PendingPR>>, x: PendingPR)
    requires forall r :: r in groups ==> groups[r] == Group(prs, r)
    requires x.repo !in groups ==> Group(prs, x.repo) == []
    ensures var g := if x.repo in groups then groups else groups[x.repo := []];
      var g' := g[x.repo := g[x.repo] + [x]];
      forall r :: r in g' ==> g'[r] == Group(prs + [x], r)
  {
    var g := if x.repo in groups then groups else groups[x.repo := []];
    var g' := g[x.repo := g[x.repo] + [x]];
    forall r | r in g'
      ensures g'[r] == Group(prs + [x], r)
    {
      GroupStep(prs, x, r);
    }
  }

  /** Grouping `prsByRepo`: a key per repository in first-appearance order,
      holding that repository's PRs in their original order. */
  method GroupByRepo(prs: seq<PendingPR>) returns (keys: seq<string>, groups: map<string, seq<PendingPR>>)
    ensures keys == RepoOrder(prs)
    ensures forall r :: r in groups <==> r in keys
    ensures forall r :: r in groups ==> groups[r] == Group(prs, r)
  {
    keys := [];
    groups := map[];
    for i := 0 to |prs|
      invariant Grouped(prs[..i], keys, groups)
    {
      var pr := prs[i];
      assert prs[..i + 1] == prs[..i] + [pr];
      GroupedStep(prs[..i], keys, groups, pr);
      if pr.repo !in groups {
        groups := groups[pr.repo := []];
        keys := keys + [pr.repo];
      }
      groups := groups[pr.repo := groups[pr.repo] + [pr]];
    }
    assert prs[..|prs|] == prs;
  }

  lemma {:induction false} RegroupedSnoc(keys: seq<string>, prs: seq<PendingPR>, x: PendingPR)
    requires Distinct(keys)
    ensures multiset(Regrouped(keys, prs + [x])) ==
      multiset(Regrouped(keys, prs)) + (if x.repo in keys then multiset{x} else multiset{})
  {
    if keys != [] {
      var init := keys[..|keys| - 1];
      assert keys == init + [keys[|keys| - 1]];
      RegroupedSnoc(init, prs, x);
      RegroupedSnocLastKey(init, keys[|keys| - 1], prs, x);
    }
  }

  /** The inductive step of RegroupedSnoc: one more key at the end. */
  lemma RegroupedSnocLastKey(init: seq<string>, k: string, prs: seq<PendingPR>, x: PendingPR)
    requires k !in init
    requires multiset(Regrouped(init, prs + [x])) ==
      multiset(Regrouped(init, prs)) + (if x.repo in init then multiset{x} else multiset{})
    ensures multiset(Regrouped(init + [k], prs + [x])) ==
      multiset(Regrouped(init + [k], prs)) + (if x.repo in init + [k] then multiset{x} else multiset{})
  {
    var keys := init + [k];
    assert keys[..|keys| - 1] == init;
    GroupStep(prs, x, k);
    var a, a', g, g' := Regrouped(init, prs), Regrouped(init, prs + [x]), Group(prs, k), Group(prs + [x], k);
    assert Regrouped(keys, prs) == a + g;
    assert Regrouped(keys, prs + [x]) == a' + g';
    assert multiset(a + g) == multiset(a) + multiset(g);
    assert multiset(a' + g') == multiset(a') + multiset(g');
    if x.repo == k {
      assert multiset(a') == multiset(a);
      assert multiset(g') == multiset(g) + multiset{x};
    } else {
      assert g' == g;
    }
  }

  /** Each PR lands in exactly one group: the groups walked in key order
      hold every PR once and nothing else. */
  lemma {:induction false} GroupsPartition(prs: seq<PendingPR>)
    ensures multiset(Regrouped(RepoOrder(prs), prs)) == multiset(prs)
  {
    if prs != [] {
      var init := prs[..|prs| - 1];
      var x := prs[|prs| - 1];
      assert prs == init + [x];
      GroupsPartition(init);
      var keys := RepoOrder(init);
      RepoOrderKeys(init);
      RegroupedSnoc(keys, init, x);
      RepoOrderStep(init, x);
      if x.repo !in keys {
        RegroupedNewKey(init, x);
      }
    }
  }

  /** A PR of a repository not seen before opens a group of its own, the last. */
  lemma RegroupedNewKey(init: seq<PendingPR>, x: PendingPR)
    requires x.repo !in RepoOrder(init)
    ensures multiset(Regrouped(RepoOrder(init) + [x.repo], init + [x]))
      == multiset(Regrouped(RepoOrder(init), init + [x])) + multiset{x}
  {
    var keys := RepoOrder(init);
    GroupOfNewRepo(init, x.repo);
    GroupStep(init, x, x.repo);
    assert (keys + [x.repo])[..|keys|] == keys;
  }

  // ---------------------------------------------------------------------
  // Icon row and subject
  // ---------------------------------------------------------------------

  /** The approved icon and the missing-approval icon as the script spells them. */
  const CHECK: string := "\U{201A}\U{FA}\U{D6}"
  const CIRCLE: string := "\U{201A}\U{2260}\U{EF}"
  /** The bell that opens a subject naming a count. */
  const BELL: string := "\U{F8FF}\U{FC}\U{EE}\U{EE}"

  /** A listed PR's icons: one per approval, then one per missing one.
      String.prototype.repeat throws on a negative count, which no listed
      PR reaches (see PendingNeedApproval). */
  function IconRow(approvals: nat, required: int): (row: string)
    requires approvals <= required
    ensures |row| == required * |CHECK|
  {
    Repeat(CHECK, approvals) + Repeat(CIRCLE, required - approvals)
  }

  /** Reading the row back gives `approvals` approved icons followed by
      exactly `required - approvals` missing ones: `required` in all. */
  lemma IconRowReadsBack(approvals: nat, required: int)
    requires approvals <= required
    ensures var row := IconRow(approvals, required);
      && CountLeading(row, CHECK) == approvals
      && row[approvals * |CHECK|..] == Repeat(CIRCLE, required - approvals)
      && CountLeading(row[approvals * |CHECK|..], CIRCLE) == required - approvals
  {
    var circles := Repeat(CIRCLE, required - approvals);
    assert !StartsWith(circles, CHECK) by {
      if required - approvals > 0 {
        assert circles[1] == CIRCLE[1];
      }
    }
    CountLeadingRepeat(CHECK, approvals, circles);
    CountLeadingRepeat(CIRCLE, required - approvals, "");
    assert circles + "" == circles;
    assert IconRow(approvals, required)[approvals * |CHECK|..] == circles;
  }

  const ALL_CLEAR: string := CHECK + " PR Status: All Clear!"

  /** The end of a subject naming a count: "PR Needs" for one PR, "PRs
      Need" for more. */
  function CountWording(count: nat): string {
    " PR" + (if count > 1 then "s" else "") + " Need" + (if count == 1 then "s" else "") + " Approval"
  }

  /** The e-mail subject: all clear for an empty report, otherwise the
      bell and the count. */
  function Subject(count: nat): (subject: string)
    ensures count == 0 <==> subject == ALL_CLEAR
  {
    if count == 0 then ALL_CLEAR
    else
      var s := BELL + " " + NatToString(count) + CountWording(count);
      assert s[0] != ALL_CLEAR[0];
      s
  }

  lemma EndsWithSameLength(a: string, t: string, u: string)
    requires |t| == |u|
    ensures EndsWith(a + t, u) <==> t == u
  {
    assert (a + t)[|a + t| - |u|..] == t;
  }

  /** The wording agrees with the count: singular exactly for one PR,
      plural exactly for more. */
  lemma SubjectWording(count: nat)
    ensures count == 1 <==> EndsWith(Subject(count), " PR Needs Approval")
    ensures count > 1 <==> EndsWith(Subject(count), " PRs Need Approval")
  {
    if count == 0 {
      AllClearWording();
    } else {
      CountedWording(count);
    }
  }

  /** The all-clear subject ends with neither wording. */
  lemma AllClearWording()
    ensures !EndsWith(ALL_CLEAR, " PR Needs Approval")
    ensures !EndsWith(ALL_CLEAR, " PRs Need Approval")
  {
    var s := ALL_CLEAR;
    var head, tail := s[..|s| - 18], s[|s| - 18..];
    assert tail[17] == '!';
    assert s == head + tail;
    EndsWithSameLength(head, tail, " PR Needs Approval");
    EndsWithSameLength(head, tail, " PRs Need Approval");
  }

  /** For a positive count the subject ends with the count wording. */
  lemma CountedWording(count: nat)
    requires count > 0
    ensures count == 1 <==> EndsWith(Subject(count), " PR Needs Approval")
    ensures count > 1 <==> EndsWith(Subject(count), " PRs Need Approval")
  {
    var head, tail := BELL + " " + NatToString(count), CountWording(count);
    assert Subject(count) == head + tail;
    WordingCases(count);
    EndsWithSameLength(head, tail, " PR Needs Approval");
    EndsWithSameLength(head, tail, " PRs Need Approval");
  }

  /** The count wording is the singular form for one and the plural for more. */
  lemma WordingCases(count: nat)
    requires count > 0
    ensures CountWording(count) == " PR Needs Approval" <==> count == 1
    ensures CountWording(count) == " PRs Need Approval" <==> count > 1
  {
    var singular, plural := " PR Needs Approval", " PRs Need Approval";
    assert singular[3] != plural[3];
    if count == 1 {
      assert CountWording(count) == singular;
    } else {
      assert CountWording(count) == plural;
    }
  }

  /** A subject that names a count names the right one: parseInt after
      the bell and the space reads it back. */
  lemma SubjectStatesCount(count: nat)
    requires count > 0
    ensures StartsWith(Subject(count), BELL + " ")
    ensures ParseInt(Subject(count)[|BELL| + 1..]) == Some(count)
  {
    var s := Subject(count);
    var tail := CountWording(count);
    assert s == (BELL + " ") + (NatToString(count) + tail);
    StartsWithAppend(BELL + " ", NatToString(count) + tail);
    assert s[|BELL| + 1..] == IntToString(count) + tail;
    assert tail[0] == ' ';
    ParseIntPrefixNat(count, tail);
  }
}
