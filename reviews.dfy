/** The review aggregator and PR fetching of src/github/pr-service.ts:
    the latest review per reviewer, the approval count, the reviewer list,
    team membership, the derived PR state and the paginated PR listing. */
module Reviews {
  import opened Common
  import opened Types

  // ---------------------------------------------------------------------
  // Latest review per reviewer
  // ---------------------------------------------------------------------

  /** The `latestReviews` dictionary after the loop has seen `rs`: a review
      replaces the stored one only when its `submitted_at` is strictly
      later, so on a tie the first review seen stays. */
  function Latest(rs: seq<Review>): map<string, Review> {
    if rs == [] then map[]
    else
      var m := Latest(rs[..|rs| - 1]);
      var r := rs[|rs| - 1];
      if r.login !in m || r.submittedAt > m[r.login].submittedAt then m[r.login := r] else m
  }

  /** The logins in the order the dictionary first received them, which
      is the order Object.values walks. */
  function FirstSeen(rs: seq<Review>): seq<string> {
    if rs == [] then []
    else
      var o := FirstSeen(rs[..|rs| - 1]);
      if rs[|rs| - 1].login in o then o else o + [rs[|rs| - 1].login]
  }

  function Logins(rs: seq<Review>): set<string> {
    if rs == [] then {} else Logins(rs[..|rs| - 1]) + {rs[|rs| - 1].login}
  }

  lemma {:induction false} LoginsAreReviewers(rs: seq<Review>, l: string)
    ensures l in Logins(rs) <==> exists i :: 0 <= i < |rs| && rs[i].login == l
  {
    if rs != [] {
      var n := |rs| - 1;
      LoginsAreReviewers(rs[..n], l);
      if exists i :: 0 <= i < |rs| && rs[i].login == l {
        var i :| 0 <= i < |rs| && rs[i].login == l;
        if i < n { assert rs[..n][i].login == l; }
      }
      if exists i :: 0 <= i < n && rs[..n][i].login == l {
        var i :| 0 <= i < n && rs[..n][i].login == l;
        assert rs[i].login == l;
      }
    }
  }

  /** Review i is the reviewer's latest (no review by the same login is
      later) and the first of the latest ones in input order. */
  predicate IsFirstMaximal(rs: seq<Review>, i: int) {
    && 0 <= i < |rs|
    && (forall j :: 0 <= j < |rs| && rs[j].login == rs[i].login ==> rs[j].submittedAt <= rs[i].submittedAt)
    && (forall j :: 0 <= j < i && rs[j].login == rs[i].login ==> rs[j].submittedAt < rs[i].submittedAt)
  }

  lemma {:induction false} LatestKeys(rs: seq<Review>)
    ensures Latest(rs).Keys == Logins(rs)
  {
    if rs != [] {
      LatestKeys(rs[..|rs| - 1]);
    }
  }

  /** Where in the input the stored review of login l came from. */
  ghost function LatestIndex(rs: seq<Review>, l: string): (i: nat)
    requires l in Latest(rs)
    ensures i < |rs| && Latest(rs)[l] == rs[i] && rs[i].login == l
  {
    var n := |rs| - 1;
    var m := Latest(rs[..n]);
    var r := rs[n];
    if r.login == l && (l !in m || r.submittedAt > m[l].submittedAt) then n
    else LatestIndex(rs[..n], l)
  }

  /** The dictionary keeps, for each login, the first review with the
      greatest `submitted_at`. */
  lemma {:induction false} LatestIsFirstMaximal(rs: seq<Review>, l: string)
    requires l in Latest(rs)
    ensures IsFirstMaximal(rs, LatestIndex(rs, l))
  {
    var n := |rs| - 1;
    var front := rs[..n];
    var m := Latest(front);
    var r := rs[n];
    var i := LatestIndex(rs, l);
    if i == n {
      if l in m {
        LatestIsFirstMaximal(front, l);
        var k := LatestIndex(front, l);
        assert forall j :: 0 <= j < n && rs[j].login == l ==> front[j].submittedAt <= front[k].submittedAt;
      } else {
        LatestKeys(front);
        forall j | 0 <= j < n ensures rs[j].login != l {
          LoginsAreReviewers(front, l);
          assert front[j].login == rs[j].login;
        }
      }
    } else {
      LatestIsFirstMaximal(front, l);
      assert forall j :: 0 <= j < n ==> front[j] == rs[j];
    }
  }

  /** Only one review can be the first maximal one of its reviewer. */
  lemma FirstMaximalUnique(rs: seq<Review>, i: int, k: int)
    requires IsFirstMaximal(rs, i) && IsFirstMaximal(rs, k) && rs[i].login == rs[k].login
    ensures i == k
  {
  }

  /** FirstSeen lists every login of the input once. */
  lemma {:induction false} FirstSeenIsDistinctLogins(rs: seq<Review>)
    ensures Distinct(FirstSeen(rs))
    ensures forall l :: l in FirstSeen(rs) <==> l in Logins(rs)
  {
    if rs != [] {
      FirstSeenIsDistinctLogins(rs[..|rs| - 1]);
    }
  }

  /** The loop of countApprovals / getReviewers: fill the latest-review
      dictionary, remembering the order in which logins were added. */
  method LatestPerReviewer(rs: seq<Review>) returns (latest: map<string, Review>, order: seq<string>)
    ensures latest == Latest(rs) && order == FirstSeen(rs)
  {
    latest, order := map[], [];
    for i := 0 to |rs|
      invariant latest == Latest(rs[..i]) && order == FirstSeen(rs[..i])
    {
      assert rs[..i + 1][..i] == rs[..i];
      var review := rs[i];
      var reviewer := review.login;
      if reviewer !in order {
        order := order + [reviewer];
      }
      if reviewer !in latest || review.submittedAt > latest[reviewer].submittedAt {
        latest := latest[reviewer := review];
      }
    }
    assert rs[..|rs|] == rs;
  }

  // ---------------------------------------------------------------------
  // Approval count and reviewer list
  // ---------------------------------------------------------------------

  /** The reviewers whose latest review is an approval. */
  function ApprovedLogins(rs: seq<Review>): set<string> {
    set l | l in Latest(rs) && Latest(rs)[l].state == Approved
  }

  /** A reviewer counts toward the approvals exactly when the first of
      their latest reviews is APPROVED; an approval followed by a later
      review of another kind does not count. */
  lemma ApprovedIffLatestApproves(rs: seq<Review>, i: int)
    requires IsFirstMaximal(rs, i)
    ensures rs[i].login in ApprovedLogins(rs) <==> rs[i].state == Approved
  {
    var l := rs[i].login;
    LoginsAreReviewers(rs, l);
    LatestKeys(rs);
    LatestIsFirstMaximal(rs, l);
    FirstMaximalUnique(rs, i, LatestIndex(rs, l));
  }

  /** The logins of `order` whose review in m is an approval. */
  function ApprovedAmong(order: seq<string>, m: map<string, Review>): set<string> {
    set l | l in order && l in m && m[l].state == Approved
  }

  /** The number of logins of `order` whose review in m is an approval,
      counted one by one as the filter does. */
  function CountApprovedIn(order: seq<string>, m: map<string, Review>): nat {
    if order == [] then 0
    else
      var l := order[|order| - 1];
      CountApprovedIn(order[..|order| - 1], m) + (if l in m && m[l].state == Approved then 1 else 0)
  }

  lemma {:induction false} CountApprovedInIsCardinality(order: seq<string>, m: map<string, Review>)
    requires Distinct(order)
    ensures CountApprovedIn(order, m) == |ApprovedAmong(order, m)|
  {
    if order != [] {
      var n := |order| - 1;
      var l := order[n];
      assert Distinct(order[..n]);
      CountApprovedInIsCardinality(order[..n], m);
      ApprovedAmongSnoc(order, m);
      assert l !in ApprovedAmong(order[..n], m) by {
        assert l !in order[..n];
      }
    }
  }

  lemma ApprovedAmongSnoc(order: seq<string>, m: map<string, Review>)
    requires order != []
    ensures var l := order[|order| - 1];
      ApprovedAmong(order, m) ==
        ApprovedAmong(order[..|order| - 1], m) + (if l in m && m[l].state == Approved then {l} else {})
  {
    assert order == order[..|order| - 1] + [order[|order| - 1]];
  }

  /** The approvals counted over the dictionary's values are exactly the
      approving reviewers. */
  lemma ApprovedAmongFirstSeen(rs: seq<Review>)
    ensures ApprovedAmong(FirstSeen(rs), Latest(rs)) == ApprovedLogins(rs)
    ensures CountApprovedIn(FirstSeen(rs), Latest(rs)) == |ApprovedLogins(rs)|
    ensures |ApprovedLogins(rs)| <= |Logins(rs)|
  {
    FirstSeenIsDistinctLogins(rs);
    LatestKeys(rs);
    CountApprovedInIsCardinality(FirstSeen(rs), Latest(rs));
    assert ApprovedLogins(rs) <= Logins(rs);
    SubsetCardinality(ApprovedLogins(rs), Logins(rs));
  }

  /** countApprovals: the number of reviewers whose latest review is an
      approval, never more than the number of distinct reviewers. */
  method CountApprovals(rs: seq<Review>) returns (n: nat)
    ensures n == |ApprovedLogins(rs)|
    ensures n <= |Logins(rs)|
    ensures rs == [] ==> n == 0
  {
    var latest, order := LatestPerReviewer(rs);
    n := 0;
    for k := 0 to |order|
      invariant n == CountApprovedIn(order[..k], latest)
    {
      assert order[..k + 1][..k] == order[..k];
      if order[k] in latest && latest[order[k]].state == Approved {
        n := n + 1;
      }
    }
    assert order[..|order|] == order;
    ApprovedAmongFirstSeen(rs);
  }

  lemma SubsetCardinality<T>(a: set<T>, b: set<T>)
    requires a <= b
    ensures |a| <= |b|
  {
    assert b == a + (b - a);
  }

  /** `Object.values(m).map(r => ({login, state}))` over the logins of
      `order`. */
  function ReviewerList(order: seq<string>, m: map<string, Review>): (infos: seq<ReviewerInfo>)
    requires forall k :: 0 <= k < |order| ==> order[k] in m
    ensures |infos| == |order|
    ensures forall k :: 0 <= k < |order| ==> infos[k] == ReviewerInfo(order[k], m[order[k]].state)
  {
    if order == [] then []
    else ReviewerList(order[..|order| - 1], m) + [ReviewerInfo(order[|order| - 1], m[order[|order| - 1]].state)]
  }

  /** The list getReviewers returns. */
  function Reviewers(rs: seq<Review>): (infos: seq<ReviewerInfo>)
  {
    FirstSeenIsDistinctLogins(rs);
    LatestKeys(rs);
    ReviewerList(FirstSeen(rs), Latest(rs))
  }

  /** The reviewer list has exactly one entry per distinct login, in
      first-seen order, carrying that login's latest state. */
  lemma ReviewersAreLatestPerLogin(rs: seq<Review>)
    ensures forall i, j :: 0 <= i < j < |Reviewers(rs)| ==> Reviewers(rs)[i].login != Reviewers(rs)[j].login
    ensures forall l :: l in Logins(rs) <==> exists k :: 0 <= k < |Reviewers(rs)| && Reviewers(rs)[k].login == l
    ensures forall k :: 0 <= k < |Reviewers(rs)| ==>
      Reviewers(rs)[k].login in Latest(rs) && Reviewers(rs)[k].state == Latest(rs)[Reviewers(rs)[k].login].state
  {
    ReviewersDistinct(rs);
    ReviewersCoverLogins(rs);
    ReviewersCarryLatest(rs);
  }

  lemma ReviewersDistinct(rs: seq<Review>)
    ensures forall i, j :: 0 <= i < j < |Reviewers(rs)| ==> Reviewers(rs)[i].login != Reviewers(rs)[j].login
  {
    var infos, order := Reviewers(rs), FirstSeen(rs);
    FirstSeenIsDistinctLogins(rs);
    assert forall k :: 0 <= k < |infos| ==> infos[k].login == order[k];
  }

  lemma ReviewersCoverLogins(rs: seq<Review>)
    ensures forall l :: l in Logins(rs) <==> exists k :: 0 <= k < |Reviewers(rs)| && Reviewers(rs)[k].login == l
  {
    var infos, order := Reviewers(rs), FirstSeen(rs);
    FirstSeenIsDistinctLogins(rs);
    assert forall k :: 0 <= k < |infos| ==> infos[k].login == order[k];
    forall l | l in Logins(rs) ensures exists k :: 0 <= k < |infos| && infos[k].login == l {
      var k :| 0 <= k < |order| && order[k] == l;
      assert infos[k].login == l;
    }
  }

  lemma ReviewersCarryLatest(rs: seq<Review>)
    ensures forall k :: 0 <= k < |Reviewers(rs)| ==>
      Reviewers(rs)[k].login in Latest(rs) && Reviewers(rs)[k].state == Latest(rs)[Reviewers(rs)[k].login].state
  {
    FirstSeenIsDistinctLogins(rs);
    LatestKeys(rs);
  }

  /** getReviewers. */
  method GetReviewers(rs: seq<Review>) returns (infos: seq<ReviewerInfo>)
    ensures infos == Reviewers(rs)
    ensures forall i, j :: 0 <= i < j < |infos| ==> infos[i].login != infos[j].login
    ensures forall l :: l in Logins(rs) <==> exists k :: 0 <= k < |infos| && infos[k].login == l
    ensures forall k :: 0 <= k < |infos| ==>
      infos[k].login in Latest(rs) && infos[k].state == Latest(rs)[infos[k].login].state
  {
    var latest, order := LatestPerReviewer(rs);
    FirstSeenIsDistinctLogins(rs);
    LatestKeys(rs);
    // Object.values(...).map(...)
    infos := ReviewerList(order, latest);
    ReviewersAreLatestPerLogin(rs);
  }

  /** The number of APPROVED entries of a reviewer list. */
  function CountApproved(infos: seq<ReviewerInfo>): nat {
    if infos == [] then 0
    else CountApproved(infos[..|infos| - 1]) + (if infos[|infos| - 1].state == Approved then 1 else 0)
  }

  lemma {:induction false} CountApprovedOfList(order: seq<string>, m: map<string, Review>)
    requires forall k :: 0 <= k < |order| ==> order[k] in m
    ensures CountApproved(ReviewerList(order, m)) == CountApprovedIn(order, m)
  {
    if order != [] {
      var n := |order| - 1;
      CountApprovedOfList(order[..n], m);
      assert ReviewerList(order, m)[..n] == ReviewerList(order[..n], m);
    }
  }

  /** countApprovals(r) equals the number of getReviewers(r) entries whose
      state is APPROVED. */
  lemma ApprovalsMatchReviewers(rs: seq<Review>)
    ensures CountApproved(Reviewers(rs)) == |ApprovedLogins(rs)|
  {
    FirstSeenIsDistinctLogins(rs);
    LatestKeys(rs);
    CountApprovedOfList(FirstSeen(rs), Latest(rs));
    ApprovedAmongFirstSeen(rs);
  }

  // ---------------------------------------------------------------------
  // Order (in)dependence of the aggregation
  // ---------------------------------------------------------------------

  /** No reviewer has two different reviews with the same `submitted_at`. */
  predicate NoTies(rs: seq<Review>) {
    forall i, j ::
      (0 <= i < |rs| && 0 <= j < |rs| && rs[i].login == rs[j].login && rs[i].submittedAt == rs[j].submittedAt)
      ==> rs[i] == rs[j]
  }

  lemma SameElements(rs: seq<Review>, ss: seq<Review>)
    requires multiset(rs) == multiset(ss)
    ensures forall x :: x in rs <==> x in ss
  {
    forall x ensures x in rs <==> x in ss {
      assert x in rs <==> x in multiset(rs);
      assert x in ss <==> x in multiset(ss);
    }
  }

  lemma SameLogins(rs: seq<Review>, ss: seq<Review>)
    requires forall x :: x in rs <==> x in ss
    ensures Logins(rs) == Logins(ss)
  {
    forall l ensures l in Logins(rs) <==> l in Logins(ss) {
      LoginsAreReviewers(rs, l);
      LoginsAreReviewers(ss, l);
      if l in Logins(rs) {
        var i :| 0 <= i < |rs| && rs[i].login == l;
        assert rs[i] in ss;
      }
      if l in Logins(ss) {
        var i :| 0 <= i < |ss| && ss[i].login == l;
        assert ss[i] in rs;
      }
    }
  }

  lemma LatestAgreesAt(rs: seq<Review>, ss: seq<Review>, l: string)
    requires forall x :: x in rs <==> x in ss
    requires NoTies(rs)
    requires l in Latest(rs) && l in Latest(ss)
    ensures Latest(rs)[l] == Latest(ss)[l]
  {
    LatestIsFirstMaximal(rs, l);
    LatestIsFirstMaximal(ss, l);
    var i := LatestIndex(rs, l);
    var k := LatestIndex(ss, l);
    assert rs[i] in ss;
    var k' :| 0 <= k' < |ss| && ss[k'] == rs[i];
    assert ss[k] in rs;
    var i' :| 0 <= i' < |rs| && rs[i'] == ss[k];
    assert rs[i'] == rs[i];
  }

  /** Without ties, re-ordering the reviews changes nothing. */
  lemma LatestOrderIndependent(rs: seq<Review>, ss: seq<Review>)
    requires multiset(rs) == multiset(ss)
    requires NoTies(rs)
    ensures Latest(rs) == Latest(ss)
    ensures ApprovedLogins(rs) == ApprovedLogins(ss)
  {
    SameElements(rs, ss);
    SameLogins(rs, ss);
    LatestKeys(rs);
    LatestKeys(ss);
    forall l | l in Latest(rs) ensures Latest(rs)[l] == Latest(ss)[l] {
      LatestAgreesAt(rs, ss, l);
    }
  }

  /** With a tie the order does matter: the first review seen wins. */
  lemma TieKeepsFirstSeen(l: string, t: int)
    ensures var rs := [Review(l, Approved, t), Review(l, ChangesRequested, t)];
      Latest(rs)[l].state == Approved && |ApprovedLogins(rs)| == 1
    ensures var ss := [Review(l, ChangesRequested, t), Review(l, Approved, t)];
      Latest(ss)[l].state == ChangesRequested && ApprovedLogins(ss) == {}
  {
    var rs := [Review(l, Approved, t), Review(l, ChangesRequested, t)];
    assert rs[..1] == [Review(l, Approved, t)];
    assert rs[..1][..0] == [];
    assert Latest(rs[..1]) == map[l := rs[0]];
    assert Latest(rs) == map[l := rs[0]];
    assert ApprovedLogins(rs) == {l};
    var ss := [Review(l, ChangesRequested, t), Review(l, Approved, t)];
    assert ss[..1] == [Review(l, ChangesRequested, t)];
    assert ss[..1][..0] == [];
    assert Latest(ss[..1]) == map[l := ss[0]];
    assert Latest(ss) == map[l := ss[0]];
    assert ApprovedLogins(ss) == {};
  }

  // ---------------------------------------------------------------------
  // Team membership and PR state
  // ---------------------------------------------------------------------

  /** isTeamMember: with no members configured every author counts;
      otherwise exactly the listed ones do. */
  function IsTeamMember(author: string, teamMembers: seq<string>): (r: bool)
    ensures teamMembers == [] ==> r
    ensures teamMembers != [] ==> (r <==> author in teamMembers)
  {
    if |teamMembers| == 0 then true else author in teamMembers
  }

  /** The state fetchPRData derives: merged wins over GitHub's 'closed',
      anything else is open. */
  function DeriveState(merged: bool, ghState: string): (s: PRState)
    ensures s == Merged <==> merged
    ensures s == Closed <==> !merged && ghState == "closed"
    ensures s == Open <==> !merged && ghState != "closed"
  {
    if merged then Merged else if ghState == "closed" then Closed else Open
  }

  /** The PRData fetchPRData assembles from the two GitHub answers. */
  function PRDataOf(owner: string, repo: string, requiredApprovals: int,
                    pull: Result<GhPull, Fault>, reviews: Result<seq<Review>, Fault>): Option<PRData>
  {
    if pull.Err? then None
    else
      var pr := pull.value;
      var rs := if reviews.Ok? then reviews.value else [];
      Some(PRData(repo, owner, pr.number, pr.title, pr.author, pr.htmlUrl, |ApprovedLogins(rs)|,
                  requiredApprovals, Reviewers(rs), pr.draft == Some(true), DeriveState(pr.merged, pr.state),
                  pr.createdAt, pr.updatedAt))
  }

  /** fetchPRData, given what the two GitHub calls returned (after their
      retries): no data when the PR fetch failed; a failed review fetch
      counts as no reviews. */
  method FetchPRData(owner: string, repo: string, requiredApprovals: int,
                     pull: Result<GhPull, Fault>, reviews: Result<seq<Review>, Fault>)
    returns (r: Option<PRData>)
    ensures pull.Err? <==> r.None?
    ensures r.Some? ==>
      var pr := pull.value;
      var rs := if reviews.Ok? then reviews.value else [];
      && r.value.approvals == |ApprovedLogins(rs)|
      && r.value.reviewers == Reviewers(rs)
      && r.value.state == DeriveState(pr.merged, pr.state)
      && r.value.isDraft == (pr.draft == Some(true))
      && r.value.requiredApprovals == requiredApprovals
      && r.value.repo == repo && r.value.owner == owner
      && r.value.number == pr.number && r.value.url == pr.htmlUrl
      && r.value.title == pr.title && r.value.author == pr.author
      && r.value.createdAt == pr.createdAt && r.value.updatedAt == pr.updatedAt
    ensures r == PRDataOf(owner, repo, requiredApprovals, pull, reviews)
  {
    if pull.Err? {
      return None;
    }
    var pr := pull.value;
    var rs := if reviews.Ok? then reviews.value else [];
    var approvals := CountApprovals(rs);
    var reviewers := GetReviewers(rs);
    var state := Open;
    if pr.merged {
      state := Merged;
    } else if pr.state == "closed" {
      state := Closed;
    }
    r := Some(PRData(repo, owner, pr.number, pr.title, pr.author, pr.htmlUrl, approvals,
                     requiredApprovals, reviewers, pr.draft == Some(true), state,
                     pr.createdAt, pr.updatedAt));
  }

  // ---------------------------------------------------------------------
  // Pagination of pulls.list
  // ---------------------------------------------------------------------

  const PER_PAGE: nat := 100

  /** Page `page` (from 1) of a repository's open PRs, `all`, as GitHub
      serves it with per_page = 100. */
  function ServerPage(all: seq<GhPull>, page: nat): (p: seq<GhPull>)
    requires page >= 1
    ensures |p| <= PER_PAGE
  {
    var lo := if (page - 1) * PER_PAGE <= |all| then (page - 1) * PER_PAGE else |all|;
    var hi := if page * PER_PAGE <= |all| then page * PER_PAGE else |all|;
    all[lo..hi]
  }

  /** fetchPRsForRepo against a repository whose open PRs are `all`;
      `fails(p)` says the request for page p failed after its retries.
      Pages are fetched while full ones arrive; the loop ends at the first
      short page, and a failure ends it keeping what was gathered. */
  method FetchPRsForRepo(all: seq<GhPull>, fails: nat -> bool) returns (prs: seq<GhPull>, requests: nat)
    ensures |prs| <= |all| && prs == all[..|prs|]
    ensures requests == |prs| / PER_PAGE + 1
    ensures forall p :: 1 <= p < requests ==> !fails(p)
    ensures |prs| < |all| ==> |prs| % PER_PAGE == 0 && fails(requests)
    ensures (forall p :: 1 <= p <= |all| / PER_PAGE + 1 ==> !fails(p)) ==> prs == all
  {
    prs := [];
    var page := 1;
    requests := 0;
    while true
      invariant page >= 1 && requests == page - 1
      invariant |prs| == (page - 1) * PER_PAGE && |prs| <= |all| && prs == all[..|prs|]
      invariant forall p :: 1 <= p < page ==> !fails(p)
      decreases |all| - |prs|
    {
      requests := requests + 1;
      if fails(page) {
        break;
      }
      var got := ServerPage(all, page);
      prs := prs + got;
      if |got| < PER_PAGE {
        break;
      }
      page := page + 1;
    }
  }
}
