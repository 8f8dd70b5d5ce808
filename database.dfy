/** The SQLite store of src/db/database.ts as a class whose fields are the
    tables: `pr_messages` and `user_mappings` keyed by their primary keys,
    `team_configs` keyed by channel, `team_members` and `team_repos` as
    rows in insertion order with their UNIQUE pairs, and the App Home
    selection per user. Foreign keys are declared in the schema but never
    switched on, so nothing cascades. */
module Db {
  import opened Common

  /** A `pr_messages` row. Times are the text the database stores. */
  datatype PRMessageRow = PRMessageRow(
    prUrl: string,
    slackChannel: string,
    slackMessageTs: string,
    prState: string,
    owner: string,
    repo: string,
    prNumber: int,
    lastUpdated: string)

  /** A `team_configs` row; the flags are the stored integers and the
      approvals column is nullable. */
  datatype ConfigRow = ConfigRow(
    channelId: string,
    channelName: Option<string>,
    requiredApprovals: Option<int>,
    notifyOnOpen: int,
    notifyOnReady: int,
    notifyOnChangesRequested: int,
    notifyOnApproved: int,
    notifyOnMerged: int,
    excludeBotComments: int,
    createdAt: string,
    updatedAt: string)

  /** A `team_members` row (the surrogate id and the time added are left
      out: insertion order stands for them). */
  datatype MemberRow = MemberRow(channelId: string, githubUsername: string, slackUserId: Option<string>, addedBy: Option<string>)

  /** A `team_repos` row. */
  datatype RepoRow = RepoRow(channelId: string, repoName: string)

  function MemberKey(row: MemberRow): (string, string) {
    (row.channelId, row.githubUsername)
  }

  function RepoKey(row: RepoRow): (string, string) {
    (row.channelId, row.repoName)
  }

  /** UNIQUE(channel_id, github_username). */
  predicate MembersUnique(rows: seq<MemberRow>) {
    DistinctBy(rows, MemberKey)
  }

  /** UNIQUE(channel_id, repo_name). */
  predicate ReposUnique(rows: seq<RepoRow>) {
    DistinctBy(rows, RepoKey)
  }

  /** Every stored row sits under its own primary key. */
  predicate MessagesKeyed(messages: map<string, PRMessageRow>) {
    forall url :: url in messages ==> messages[url].prUrl == url
  }

  predicate ConfigsKeyed(configs: map<string, ConfigRow>) {
    forall c :: c in configs ==> configs[c].channelId == c
  }

  class Database {
    var prMessages: map<string, PRMessageRow>
    var userMappings: map<string, string>
    var teamConfigs: map<string, ConfigRow>
    var teamMembers: seq<MemberRow>
    var teamRepos: seq<RepoRow>
    var homeState: map<string, string>

    /** The keys the schema declares hold. */
    ghost predicate Valid()
      reads this
    {
      && MessagesKeyed(prMessages)
      && ConfigsKeyed(teamConfigs)
      && MembersUnique(teamMembers)
      && ReposUnique(teamRepos)
    }

    /** initDatabase on a fresh file: every table exists and is empty. */
    constructor ()
      ensures Valid()
      ensures prMessages == map[] && userMappings == map[] && teamConfigs == map[]
      ensures teamMembers == [] && teamRepos == [] && homeState == map[]
    {
      prMessages := map[];
      userMappings := map[];
      teamConfigs := map[];
      teamMembers := [];
      teamRepos := [];
      homeState := map[];
    }
  }
}
