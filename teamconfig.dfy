/** The team directory of src/db/team-config.ts: per-channel settings,
    members and repositories, and the channel each user last picked on
    the App Home. Writes are methods on the database that change only the
    table they touch; reads are functions. */
module TeamConfig {
  import opened Common
  import opened Db

  // ---------------------------------------------------------------------
  // team_configs
  // ---------------------------------------------------------------------

  /** The object handed to upsertTeamConfig. A field that is None was not
      supplied; requiredApprovals carries None inside when the caller
      passed a number that is not one (a failed parse), which is stored
      as NULL. */
  datatype ConfigInput = ConfigInput(
    channelId: string,
    channelName: Option<Option<string>>,
    requiredApprovals: Option<Option<int>>,
    notifyOnOpen: Option<int>,
    notifyOnReady: Option<int>,
    notifyOnChangesRequested: Option<int>,
    notifyOnApproved: Option<int>,
    notifyOnMerged: Option<int>,
    excludeBotComments: Option<int>)

  /** `{ channel_id }` alone. */
  function OnlyChannel(channelId: string): ConfigInput {
    ConfigInput(channelId, None, None, None, None, None, None, None, None)
  }

  const DEFAULT_REQUIRED_APPROVALS: int := 2
  const DEFAULT_NOTIFY_ON_OPEN: int := 1
  const DEFAULT_NOTIFY_ON_READY: int := 1
  const DEFAULT_NOTIFY_ON_CHANGES_REQUESTED: int := 1
  const DEFAULT_NOTIFY_ON_APPROVED: int := 1
  const DEFAULT_NOTIFY_ON_MERGED: int := 0
  const DEFAULT_EXCLUDE_BOT_COMMENTS: int := 1

  /** `{ ...defaults, ...config }` for one field. */
  function OrDefault<T>(given: Option<T>, default: T): (v: T)
    ensures given.Some? ==> v == given.value
    ensures given.None? ==> v == default
  {
    if given.Some? then given.value else default
  }

  /** The row stored for the channel by the upsert: every setting column
      is the supplied value or its default, whatever was stored before;
      the creation time is kept from an existing row. `nowIso` is the
      JavaScript clock, `nowSql` SQLite's datetime('now'). */
  function UpsertedRow(input: ConfigInput, existing: Option<ConfigRow>, nowIso: string, nowSql: string): (row: ConfigRow)
    ensures row.channelId == input.channelId
    ensures row.channelName == OrDefault(input.channelName, None)
    ensures row.requiredApprovals == OrDefault(input.requiredApprovals, Some(DEFAULT_REQUIRED_APPROVALS))
    ensures row.notifyOnOpen == OrDefault(input.notifyOnOpen, DEFAULT_NOTIFY_ON_OPEN)
    ensures row.notifyOnReady == OrDefault(input.notifyOnReady, DEFAULT_NOTIFY_ON_READY)
    ensures row.notifyOnChangesRequested == OrDefault(input.notifyOnChangesRequested, DEFAULT_NOTIFY_ON_CHANGES_REQUESTED)
    ensures row.notifyOnApproved == OrDefault(input.notifyOnApproved, DEFAULT_NOTIFY_ON_APPROVED)
    ensures row.notifyOnMerged == OrDefault(input.notifyOnMerged, DEFAULT_NOTIFY_ON_MERGED)
    ensures row.excludeBotComments == OrDefault(input.excludeBotComments, DEFAULT_EXCLUDE_BOT_COMMENTS)
    ensures row.updatedAt == nowIso
    ensures row.createdAt == if existing.Some? then existing.value.createdAt else nowSql
  {
    ConfigRow(
      input.channelId,
      OrDefault(input.channelName, None),
      OrDefault(input.requiredApprovals, Some(DEFAULT_REQUIRED_APPROVALS)),
      OrDefault(input.notifyOnOpen, DEFAULT_NOTIFY_ON_OPEN),
      OrDefault(input.notifyOnReady, DEFAULT_NOTIFY_ON_READY),
      OrDefault(input.notifyOnChangesRequested, DEFAULT_NOTIFY_ON_CHANGES_REQUESTED),
      OrDefault(input.notifyOnApproved, DEFAULT_NOTIFY_ON_APPROVED),
      OrDefault(input.notifyOnMerged, DEFAULT_NOTIFY_ON_MERGED),
      OrDefault(input.excludeBotComments, DEFAULT_EXCLUDE_BOT_COMMENTS),
      if existing.Some? then existing.value.createdAt else nowSql,
      nowIso)
  }

  /** The settings of a row: everything but the key and the times. */
  function Settings(row: ConfigRow): (Option<string>, Option<int>, int, int, int, int, int, int) {
    (row.channelName, row.requiredApprovals, row.notifyOnOpen, row.notifyOnReady,
     row.notifyOnChangesRequested, row.notifyOnApproved, row.notifyOnMerged, row.excludeBotComments)
  }

  /** The settings a channel gets from an upsert that supplies nothing. */
  const DEFAULT_SETTINGS: (Option<string>, Option<int>, int, int, int, int, int, int) :=
    (None, Some(DEFAULT_REQUIRED_APPROVALS), DEFAULT_NOTIFY_ON_OPEN, DEFAULT_NOTIFY_ON_READY,
     DEFAULT_NOTIFY_ON_CHANGES_REQUESTED, DEFAULT_NOTIFY_ON_APPROVED, DEFAULT_NOTIFY_ON_MERGED,
     DEFAULT_EXCLUDE_BOT_COMMENTS)

  /** upsertTeamConfig. */
  method UpsertTeamConfig(db: Database, input: ConfigInput, nowIso: string, nowSql: string)
    requires db.Valid()
    modifies db`teamConfigs
    ensures db.Valid()
    ensures db.teamConfigs == old(db.teamConfigs)[input.channelId :=
      UpsertedRow(input, if input.channelId in old(db.teamConfigs) then Some(old(db.teamConfigs)[input.channelId]) else None, nowIso, nowSql)]
  {
    var existing := if input.channelId in db.teamConfigs then Some(db.teamConfigs[input.channelId]) else None;
    db.teamConfigs := db.teamConfigs[input.channelId := UpsertedRow(input, existing, nowIso, nowSql)];
  }

  /** An upsert that supplies only the channel puts every setting back to
      its default, whatever the channel had configured; only the creation
      time survives. */
  lemma ChannelOnlyUpsertResets(existing: ConfigRow, nowIso: string, nowSql: string)
    ensures var row := UpsertedRow(OnlyChannel(existing.channelId), Some(existing), nowIso, nowSql);
      && Settings(row) == DEFAULT_SETTINGS
      && row.createdAt == existing.createdAt
      && (Settings(existing) != DEFAULT_SETTINGS ==> Settings(row) != Settings(existing))
  {
  }

  /** Upserting a channel's own settings back leaves its settings as they
      were: the upsert loses nothing it is given. */
  lemma UpsertOwnSettings(existing: ConfigRow, nowIso: string, nowSql: string)
    ensures var input := ConfigInput(existing.channelId, Some(existing.channelName), Some(existing.requiredApprovals),
        Some(existing.notifyOnOpen), Some(existing.notifyOnReady), Some(existing.notifyOnChangesRequested),
        Some(existing.notifyOnApproved), Some(existing.notifyOnMerged), Some(existing.excludeBotComments));
      UpsertedRow(input, Some(existing), nowIso, nowSql) == existing.(updatedAt := nowIso)
  {
  }

  /** getTeamConfig. */
  function GetTeamConfig(db: Database, channelId: string): (r: Option<ConfigRow>)
    reads db
    ensures r.Some? <==> channelId in db.teamConfigs
    ensures r.Some? ==> r.value == db.teamConfigs[channelId]
    ensures r.Some? && db.Valid() ==> r.value.channelId == channelId
  {
    if channelId in db.teamConfigs then Some(db.teamConfigs[channelId]) else None
  }

  /** getAllTeamConfigs (SELECT without ORDER BY: a set of rows). */
  function GetAllTeamConfigs(db: Database): (rows: set<ConfigRow>)
    reads db
    ensures forall row :: row in rows <==> exists c :: c in db.teamConfigs && db.teamConfigs[c] == row
    ensures db.Valid() ==> forall row :: row in rows ==> row.channelId in db.teamConfigs
  {
    db.teamConfigs.Values
  }

  /** deleteTeamConfig. Foreign keys are off, so the channel's members and
      repositories stay (the frame leaves those tables alone). */
  method DeleteTeamConfig(db: Database, channelId: string)
    requires db.Valid()
    modifies db`teamConfigs
    ensures db.Valid()
    ensures channelId !in db.teamConfigs
    ensures db.teamConfigs == old(db.teamConfigs) - {channelId}
  {
    db.teamConfigs := db.teamConfigs - {channelId};
  }

  // ---------------------------------------------------------------------
  // team_members
  // ---------------------------------------------------------------------

  /** `value || null` on an optional string argument. */
  function NullIfEmpty(s: Option<string>): (r: Option<string>)
    ensures r.Some? <==> s.Some? && s.value != ""
    ensures r.Some? ==> r == s
  {
    if s.Some? && s.value != "" then s else None
  }

  predicate HasMember(rows: seq<MemberRow>, channelId: string, githubUsername: string) {
    exists i :: 0 <= i < |rows| && MemberKey(rows[i]) == (channelId, githubUsername)
  }

  /** addTeamMember: the insert fails on UNIQUE(channel_id,
      github_username) and that failure is ignored, so an existing pair
      keeps its row, Slack id included. */
  method AddTeamMember(db: Database, channelId: string, githubUsername: string, slackUserId: Option<string>, addedBy: Option<string>)
    requires db.Valid()
    modifies db`teamMembers
    ensures db.Valid()
    ensures HasMember(old(db.teamMembers), channelId, githubUsername) ==> db.teamMembers == old(db.teamMembers)
    ensures !HasMember(old(db.teamMembers), channelId, githubUsername) ==>
      db.teamMembers == old(db.teamMembers) + [MemberRow(channelId, githubUsername, NullIfEmpty(slackUserId), NullIfEmpty(addedBy))]
    ensures HasMember(db.teamMembers, channelId, githubUsername)
  {
    if HasMember(db.teamMembers, channelId, githubUsername) {
      return;
    }
    var row := MemberRow(channelId, githubUsername, NullIfEmpty(slackUserId), NullIfEmpty(addedBy));
    db.teamMembers := db.teamMembers + [row];
    assert db.teamMembers[|db.teamMembers| - 1] == row;
  }

  /** removeTeamMember: deletes the one matching pair, nothing else. */
  method RemoveTeamMember(db: Database, channelId: string, githubUsername: string)
    requires db.Valid()
    modifies db`teamMembers
    ensures db.Valid()
    ensures db.teamMembers == Keep(old(db.teamMembers), (row: MemberRow) => MemberKey(row) != (channelId, githubUsername))
    ensures !HasMember(db.teamMembers, channelId, githubUsername)
    ensures forall row :: row in db.teamMembers <==> row in old(db.teamMembers) && MemberKey(row) != (channelId, githubUsername)
  {
    var keep := (row: MemberRow) => MemberKey(row) != (channelId, githubUsername);
    KeepDistinctBy(db.teamMembers, keep, MemberKey);
    db.teamMembers := Keep(db.teamMembers, keep);
    assert forall i :: 0 <= i < |db.teamMembers| ==> db.teamMembers[i] in db.teamMembers;
  }

  /** getTeamMembers: the channel's rows in the order they were added
      (see GetTeamMembersInsertionOrder), each once. */
  function GetTeamMembers(members: seq<MemberRow>, channelId: string): (rows: seq<MemberRow>)
    ensures forall row :: row in rows <==> row in members && row.channelId == channelId
    ensures MembersUnique(members) ==> MembersUnique(rows)
  {
    var keep := (row: MemberRow) => row.channelId == channelId;
    assert MembersUnique(members) ==> MembersUnique(Keep(members, keep)) by {
      if MembersUnique(members) {
        KeepDistinctBy(members, keep, MemberKey);
      }
    }
    Keep(members, keep)
  }

  /** Rows come back in table order: a row appended to the table (as
      AddTeamMember does) comes last in its own channel's list and
      changes no other channel's list. */
  lemma GetTeamMembersInsertionOrder(members: seq<MemberRow>, row: MemberRow, channelId: string)
    ensures GetTeamMembers(members + [row], channelId)
      == GetTeamMembers(members, channelId) + (if row.channelId == channelId then [row] else [])
  {
    KeepSnoc(members, row, (r: MemberRow) => r.channelId == channelId);
  }

  /** clearTeamMembers: the channel loses every member; other channels
      keep theirs. */
  method ClearTeamMembers(db: Database, channelId: string)
    requires db.Valid()
    modifies db`teamMembers
    ensures db.Valid()
    ensures db.teamMembers == Keep(old(db.teamMembers), (row: MemberRow) => row.channelId != channelId)
    ensures forall row :: row in db.teamMembers ==> row.channelId != channelId
  {
    var keep := (row: MemberRow) => row.channelId != channelId;
    KeepDistinctBy(db.teamMembers, keep, MemberKey);
    db.teamMembers := Keep(db.teamMembers, keep);
  }

  // ---------------------------------------------------------------------
  // team_repos
  // ---------------------------------------------------------------------

  predicate HasRepo(rows: seq<RepoRow>, channelId: string, repoName: string) {
    exists i :: 0 <= i < |rows| && RepoKey(rows[i]) == (channelId, repoName)
  }

  /** addTeamRepo: an existing pair is left as it is. */
  method AddTeamRepo(db: Database, channelId: string, repoName: string)
    requires db.Valid()
    modifies db`teamRepos
    ensures db.Valid()
    ensures HasRepo(old(db.teamRepos), channelId, repoName) ==> db.teamRepos == old(db.teamRepos)
    ensures !HasRepo(old(db.teamRepos), channelId, repoName) ==> db.teamRepos == old(db.teamRepos) + [RepoRow(channelId, repoName)]
    ensures HasRepo(db.teamRepos, channelId, repoName)
  {
    if HasRepo(db.teamRepos, channelId, repoName) {
      return;
    }
    db.teamRepos := db.teamRepos + [RepoRow(channelId, repoName)];
    assert db.teamRepos[|db.teamRepos| - 1] == RepoRow(channelId, repoName);
  }

  /** removeTeamRepo. */
  method RemoveTeamRepo(db: Database, channelId: string, repoName: string)
    requires db.Valid()
    modifies db`teamRepos
    ensures db.Valid()
    ensures db.teamRepos == Keep(old(db.teamRepos), (row: RepoRow) => RepoKey(row) != (channelId, repoName))
    ensures !HasRepo(db.teamRepos, channelId, repoName)
    ensures forall row :: row in db.teamRepos <==> row in old(db.teamRepos) && RepoKey(row) != (channelId, repoName)
  {
    var keep := (row: RepoRow) => RepoKey(row) != (channelId, repoName);
    KeepDistinctBy(db.teamRepos, keep, RepoKey);
    db.teamRepos := Keep(db.teamRepos, keep);
    assert forall i :: 0 <= i < |db.teamRepos| ==> db.teamRepos[i] in db.teamRepos;
  }

  /** getTeamRepos: the channel's repositories in the order they were
      added (see GetTeamReposInsertionOrder), each once. */
  function GetTeamRepos(repos: seq<RepoRow>, channelId: string): (rows: seq<RepoRow>)
    ensures forall row :: row in rows <==> row in repos && row.channelId == channelId
    ensures ReposUnique(repos) ==> ReposUnique(rows)
  {
    var keep := (row: RepoRow) => row.channelId == channelId;
    assert ReposUnique(repos) ==> ReposUnique(Keep(repos, keep)) by {
      if ReposUnique(repos) {
        KeepDistinctBy(repos, keep, RepoKey);
      }
    }
    Keep(repos, keep)
  }

  /** A repository appended to the table (as AddTeamRepo does) comes last
      in its own channel's list and changes no other channel's list. */
  lemma GetTeamReposInsertionOrder(repos: seq<RepoRow>, row: RepoRow, channelId: string)
    ensures GetTeamRepos(repos + [row], channelId)
      == GetTeamRepos(repos, channelId) + (if row.channelId == channelId then [row] else [])
  {
    KeepSnoc(repos, row, (r: RepoRow) => r.channelId == channelId);
  }

  /** clearTeamRepos. */
  method ClearTeamRepos(db: Database, channelId: string)
    requires db.Valid()
    modifies db`teamRepos
    ensures db.Valid()
    ensures db.teamRepos == Keep(old(db.teamRepos), (row: RepoRow) => row.channelId != channelId)
    ensures forall row :: row in db.teamRepos ==> row.channelId != channelId
  {
    var keep := (row: RepoRow) => row.channelId != channelId;
    KeepDistinctBy(db.teamRepos, keep, RepoKey);
    db.teamRepos := Keep(db.teamRepos, keep);
  }

  // ---------------------------------------------------------------------
  // getFullTeamConfig
  // ---------------------------------------------------------------------

  datatype TeamMember = TeamMember(github: string, slack: Option<string>)

  datatype TeamConfig = TeamConfig(
    channelId: string,
    channelName: Option<string>,
    requiredApprovals: Option<int>,
    notifyOnOpen: bool,
    notifyOnReady: bool,
    notifyOnChangesRequested: bool,
    notifyOnApproved: bool,
    notifyOnMerged: bool,
    excludeBotComments: bool,
    members: seq<TeamMember>,
    repos: seq<string>)

  /** A member as getFullTeamConfig shows it: a stored, non-empty Slack id
      becomes a mention. */
  function MemberView(row: MemberRow): (m: TeamMember)
    ensures m.github == row.githubUsername
    ensures m.slack.Some? <==> row.slackUserId.Some? && row.slackUserId.value != ""
    ensures m.slack.Some? ==> m.slack.value == "<@" + row.slackUserId.value + ">"
  {
    if row.slackUserId.Some? && row.slackUserId.value != "" then TeamMember(row.githubUsername, Some("<@" + row.slackUserId.value + ">"))
    else TeamMember(row.githubUsername, None)
  }

  /** getFullTeamConfig over the three tables. */
  function FullTeamConfig(configs: map<string, ConfigRow>, members: seq<MemberRow>, repos: seq<RepoRow>, channelId: string): (r: Option<TeamConfig>)
    ensures r.None? <==> channelId !in configs
    ensures r.Some? ==>
      var row := configs[channelId];
      var t := r.value;
      && t.channelId == row.channelId && t.channelName == row.channelName && t.requiredApprovals == row.requiredApprovals
      && (t.notifyOnOpen <==> row.notifyOnOpen != 0)
      && (t.notifyOnReady <==> row.notifyOnReady != 0)
      && (t.notifyOnChangesRequested <==> row.notifyOnChangesRequested != 0)
      && (t.notifyOnApproved <==> row.notifyOnApproved != 0)
      && (t.notifyOnMerged <==> row.notifyOnMerged != 0)
      && (t.excludeBotComments <==> row.excludeBotComments != 0)
    ensures r.Some? ==>
      var ms := GetTeamMembers(members, channelId);
      && |r.value.members| == |ms|
      && forall i :: 0 <= i < |ms| ==> r.value.members[i] == MemberView(ms[i])
    ensures r.Some? ==>
      var rs := GetTeamRepos(repos, channelId);
      && |r.value.repos| == |rs|
      && forall i :: 0 <= i < |rs| ==> r.value.repos[i] == rs[i].repoName
  {
    if channelId !in configs then None
    else
      var row := configs[channelId];
      var ms := GetTeamMembers(members, channelId);
      var rs := GetTeamRepos(repos, channelId);
      Some(TeamConfig(
        row.channelId, row.channelName, row.requiredApprovals,
        row.notifyOnOpen != 0, row.notifyOnReady != 0, row.notifyOnChangesRequested != 0,
        row.notifyOnApproved != 0, row.notifyOnMerged != 0, row.excludeBotComments != 0,
        seq(|ms|, i requires 0 <= i < |ms| => MemberView(ms[i])),
        seq(|rs|, i requires 0 <= i < |rs| => rs[i].repoName)))
  }

  /** After an upsert of the channel alone, the full configuration shows
      the default switches: everything on except merged notifications,
      and two approvals. */
  lemma FullConfigAfterChannelOnlyUpsert(configs: map<string, ConfigRow>, members: seq<MemberRow>, repos: seq<RepoRow>,
                                         channelId: string, nowIso: string, nowSql: string)
    ensures var existing := if channelId in configs then Some(configs[channelId]) else None;
      var after := configs[channelId := UpsertedRow(OnlyChannel(channelId), existing, nowIso, nowSql)];
      var t := FullTeamConfig(after, members, repos, channelId);
      && t.Some?
      && t.value.channelName.None? && t.value.requiredApprovals == Some(2)
      && t.value.notifyOnOpen && t.value.notifyOnReady && t.value.notifyOnChangesRequested && t.value.notifyOnApproved
      && !t.value.notifyOnMerged && t.value.excludeBotComments
  {
  }

  // ---------------------------------------------------------------------
  // Routing queries
  // ---------------------------------------------------------------------

  /** findTeamsTrackingUser: the channels that list the user. The query's
      DISTINCT changes nothing because (channel, user) is unique. */
  function FindTeamsTrackingUser(members: seq<MemberRow>, githubUsername: string): (cs: seq<string>)
    ensures forall c :: c in cs <==> HasMember(members, c, githubUsername)
    ensures MembersUnique(members) ==> Distinct(cs)
  {
    var rows := Keep(members, (row: MemberRow) => row.githubUsername == githubUsername);
    var cs := MapSeq(rows, (row: MemberRow) => row.channelId);
    assert forall c :: c in cs <==> HasMember(members, c, githubUsername) by {
      forall c ensures c in cs <==> HasMember(members, c, githubUsername) {
        if c in cs {
          var i :| 0 <= i < |cs| && cs[i] == c;
          assert rows[i] in members;
          var j :| 0 <= j < |members| && members[j] == rows[i];
          assert MemberKey(members[j]) == (c, githubUsername);
        }
        if HasMember(members, c, githubUsername) {
          var j :| 0 <= j < |members| && MemberKey(members[j]) == (c, githubUsername);
          assert members[j] in rows;
          var i :| 0 <= i < |rows| && rows[i] == members[j];
          assert cs[i] == c;
        }
      }
    }
    assert MembersUnique(members) ==> Distinct(cs) by {
      if MembersUnique(members) {
        KeepDistinctBy(members, (row: MemberRow) => row.githubUsername == githubUsername, MemberKey);
        forall i, j | 0 <= i < j < |cs| ensures cs[i] != cs[j] {
          assert rows[i] in rows && rows[j] in rows;
          assert MemberKey(rows[i]) != MemberKey(rows[j]);
        }
      }
    }
    cs
  }

  /** findTeamsTrackingRepo. */
  function FindTeamsTrackingRepo(repos: seq<RepoRow>, repoName: string): (cs: seq<string>)
    ensures forall c :: c in cs <==> HasRepo(repos, c, repoName)
    ensures ReposUnique(repos) ==> Distinct(cs)
  {
    var rows := Keep(repos, (row: RepoRow) => row.repoName == repoName);
    var cs := MapSeq(rows, (row: RepoRow) => row.channelId);
    assert forall c :: c in cs <==> HasRepo(repos, c, repoName) by {
      forall c ensures c in cs <==> HasRepo(repos, c, repoName) {
        if c in cs {
          var i :| 0 <= i < |cs| && cs[i] == c;
          assert rows[i] in repos;
          var j :| 0 <= j < |repos| && repos[j] == rows[i];
          assert RepoKey(repos[j]) == (c, repoName);
        }
        if HasRepo(repos, c, repoName) {
          var j :| 0 <= j < |repos| && RepoKey(repos[j]) == (c, repoName);
          assert repos[j] in rows;
          var i :| 0 <= i < |rows| && rows[i] == repos[j];
          assert cs[i] == c;
        }
      }
    }
    assert ReposUnique(repos) ==> Distinct(cs) by {
      if ReposUnique(repos) {
        KeepDistinctBy(repos, (row: RepoRow) => row.repoName == repoName, RepoKey);
        forall i, j | 0 <= i < j < |cs| ensures cs[i] != cs[j] {
          assert rows[i] in rows && rows[j] in rows;
          assert RepoKey(rows[i]) != RepoKey(rows[j]);
        }
      }
    }
    cs
  }

  /** The channel lists at least one repository. */
  predicate HasRepos(repos: seq<RepoRow>, channelId: string) {
    exists i :: 0 <= i < |repos| && repos[i].channelId == channelId
  }

  /** findTeamsTrackingUserAndRepo: the user's channels, in order, that
      either list the repository or have a configuration and list no
      repository at all (they follow every repository). */
  function FindTeamsTrackingUserAndRepo(configs: map<string, ConfigRow>, members: seq<MemberRow>, repos: seq<RepoRow>,
                                        githubUsername: string, repoName: string): (cs: seq<string>)
    ensures forall c :: c in cs <==>
      && HasMember(members, c, githubUsername)
      && (HasRepo(repos, c, repoName) || (c in configs && !HasRepos(repos, c)))
    ensures forall c :: c in cs ==> c in FindTeamsTrackingUser(members, githubUsername)
    ensures (forall c :: !HasMember(members, c, githubUsername)) ==> cs == []
    ensures MembersUnique(members) ==> Distinct(cs)
  {
    var userTeams := FindTeamsTrackingUser(members, githubUsername);
    if |userTeams| == 0 then
      assert forall c :: !HasMember(members, c, githubUsername);
      []
    else
      var repoTeams := FindTeamsTrackingRepo(repos, repoName);
      var allRepoTeams := set c | c in configs && !HasRepos(repos, c);
      var keep := (c: string) => c in repoTeams || c in allRepoTeams;
      var cs := Keep(userTeams, keep);
      assert MembersUnique(members) ==> Distinct(cs) by {
        if MembersUnique(members) {
          KeepDistinctBy(userTeams, keep, (c: string) => c);
        }
      }
      cs
  }

  /** A mapped row for the user, restricted to one channel when given. */
  predicate Mapped(row: MemberRow, githubUsername: string, channelId: Option<string>) {
    && row.githubUsername == githubUsername
    && (channelId.None? || row.channelId == channelId.value)
    && row.slackUserId.Some?
  }

  /** The Slack id of the first mapped row in table order. */
  function FirstMappedId(rows: seq<MemberRow>, githubUsername: string, channelId: Option<string>): (r: Option<string>)
    ensures r.Some? <==> exists i :: 0 <= i < |rows| && Mapped(rows[i], githubUsername, channelId)
    ensures r.Some? ==> exists i ::
      && 0 <= i < |rows| && Mapped(rows[i], githubUsername, channelId)
      && r == rows[i].slackUserId
      && forall j :: 0 <= j < i ==> !Mapped(rows[j], githubUsername, channelId)
  {
    if rows == [] then None
    else if Mapped(rows[0], githubUsername, channelId) then rows[0].slackUserId
    else
      var r := FirstMappedId(rows[1..], githubUsername, channelId);
      assert forall i :: 1 <= i < |rows| ==> rows[i] == rows[1..][i - 1];
      if r.Some? then
        var i :| 0 <= i < |rows[1..]| && Mapped(rows[1..][i], githubUsername, channelId)
          && r == rows[1..][i].slackUserId && forall j :: 0 <= j < i ==> !Mapped(rows[1..][j], githubUsername, channelId);
        assert Mapped(rows[i + 1], githubUsername, channelId) && r == rows[i + 1].slackUserId;
        r
      else r
  }

  /** getSlackUserIdForGithubUser: the mapping in the given channel first
      (when a channel is given), then the first mapping in any channel,
      else none. */
  function GetSlackUserIdForGithubUser(members: seq<MemberRow>, githubUsername: string, channelId: Option<string>): (r: Option<string>)
    ensures channelId.Some? && channelId.value != "" && MembersUnique(members) ==>
      forall i :: 0 <= i < |members| && Mapped(members[i], githubUsername, channelId) ==> r == members[i].slackUserId
    ensures r.None? <==> forall i :: 0 <= i < |members| ==> !Mapped(members[i], githubUsername, None)
    ensures r.Some? ==> exists i :: 0 <= i < |members| && Mapped(members[i], githubUsername, None) && r == members[i].slackUserId
  {
    var specific := if channelId.Some? && channelId.value != "" then FirstMappedId(members, githubUsername, channelId) else None;
    if specific.Some? then
      assert MembersUnique(members) ==>
        forall i :: 0 <= i < |members| && Mapped(members[i], githubUsername, channelId) ==> specific == members[i].slackUserId
      by {
        if MembersUnique(members) {
          forall i | 0 <= i < |members| && Mapped(members[i], githubUsername, channelId) ensures specific == members[i].slackUserId {
            var k :| 0 <= k < |members| && Mapped(members[k], githubUsername, channelId) && specific == members[k].slackUserId;
            assert MemberKey(members[k]) == MemberKey(members[i]);
          }
        }
      }
      specific
    else
      FirstMappedId(members, githubUsername, None)
  }

  // ---------------------------------------------------------------------
  // user_app_home_state
  // ---------------------------------------------------------------------

  /** setUserSelectedChannel (the time of the change is not kept). */
  method SetUserSelectedChannel(db: Database, userId: string, channelId: string)
    modifies db`homeState
    ensures db.homeState == old(db.homeState)[userId := channelId]
  {
    db.homeState := db.homeState[userId := channelId];
  }

  /** getUserSelectedChannel: the stored selection, with an empty one read
      as none. */
  function GetUserSelectedChannel(homeState: map<string, string>, userId: string): (r: Option<string>)
    ensures r.Some? <==> userId in homeState && homeState[userId] != ""
    ensures r.Some? ==> r.value == homeState[userId]
  {
    if userId in homeState && homeState[userId] != "" then Some(homeState[userId]) else None
  }

  /** The selection read back is the last one set for that user; other
      users' selections are untouched. */
  lemma SelectedChannelIsLastSet(homeState: map<string, string>, userId: string, channelId: string, other: string)
    ensures GetUserSelectedChannel(homeState[userId := channelId], userId) == if channelId == "" then None else Some(channelId)
    ensures other != userId ==> GetUserSelectedChannel(homeState[userId := channelId], other) == GetUserSelectedChannel(homeState, other)
  {
  }
}
