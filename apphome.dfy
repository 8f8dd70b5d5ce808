/** The App Home handlers of src/slack/app-home-handlers.ts, without the
    Slack views: which channel a user's home shows, the text the add
    modals submit and how it becomes member and repository rows, the
    remove submissions, and the settings form. The Slack user id of the
    submitter, the channel list and the clock are parameters. */
module AppHome {
  import opened Common
  import opened Db
  import opened TeamConfig

  // ---------------------------------------------------------------------
  // Which channel the home shows (app_home_opened, select_channel)
  // ---------------------------------------------------------------------

  /** The channel shown: the stored selection; else the first channel the
      bot is in; else the user's own id. */
  function HomeChannel(homeState: map<string, string>, userId: string, available: seq<string>): (c: string)
    ensures GetUserSelectedChannel(homeState, userId).Some? ==> c == GetUserSelectedChannel(homeState, userId).value
    ensures GetUserSelectedChannel(homeState, userId).None? && |available| > 0 ==> c == available[0]
    ensures GetUserSelectedChannel(homeState, userId).None? && available == [] ==> c == userId
  {
    var selected := GetUserSelectedChannel(homeState, userId);
    if selected.Some? then selected.value
    else if |available| > 0 then available[0]
    else userId
  }

  /** app_home_opened: picks the channel and stores the first available
      one when the user had no selection; the user-id fallback is not
      stored. */
  method OpenAppHome(db: Database, userId: string, available: seq<string>) returns (channelId: string)
    modifies db`homeState
    ensures channelId == HomeChannel(old(db.homeState), userId, available)
    ensures GetUserSelectedChannel(old(db.homeState), userId).None? && |available| > 0 ==>
      db.homeState == old(db.homeState)[userId := available[0]]
    ensures GetUserSelectedChannel(old(db.homeState), userId).Some? || available == [] ==>
      db.homeState == old(db.homeState)
  {
    var selected := GetUserSelectedChannel(db.homeState, userId);
    if selected.None? && |available| > 0 {
      channelId := available[0];
      SetUserSelectedChannel(db, userId, channelId);
    } else if selected.None? {
      channelId := userId;
    } else {
      channelId := selected.value;
    }
  }

  /** Once a home has been opened on a real channel, it keeps showing that
      channel, whatever channels the bot is in later. */
  lemma HomeChannelIsSticky(homeState: map<string, string>, userId: string, available: seq<string>, later: seq<string>)
    requires |available| > 0 && available[0] != ""
    ensures var c := HomeChannel(homeState, userId, available);
      var stored := if GetUserSelectedChannel(homeState, userId).None? then homeState[userId := available[0]] else homeState;
      HomeChannel(stored, userId, later) == c
  {
    SelectedChannelIsLastSet(homeState, userId, available[0], userId);
  }

  /** select_channel: the picked channel is stored and is what the home
      shows from then on. */
  lemma SelectedChannelIsShown(homeState: map<string, string>, userId: string, picked: string, available: seq<string>)
    requires picked != ""
    ensures HomeChannel(homeState[userId := picked], userId, available) == picked
  {
    SelectedChannelIsLastSet(homeState, userId, picked, userId);
  }

  // ---------------------------------------------------------------------
  // Parsing the add modals
  // ---------------------------------------------------------------------

  /** `(value || '').split('\n').map(trim).filter(Boolean)`: one entry per
      non-blank line (see Common.ParseSeparated). */
  function ParseLines(value: Option<string>): seq<string> {
    ParseSeparated(value, '\n')
  }

  /** The Slack id in the part after the colon: `<@X>` gives X, a bare id
      starting with `U` is kept whole, and `@name` or anything else gives
      none. */
  function ExtractSlackId(slackPart: string): (id: Option<string>)
    ensures StartsWith(slackPart, "<@") && EndsWith(slackPart, ">") ==>
      |slackPart| >= 3 && id == Some(slackPart[2..|slackPart| - 1])
    ensures StartsWith(slackPart, "@") ==> id.None?
    ensures StartsWith(slackPart, "U") ==> id == Some(slackPart)
    ensures StartsWith(slackPart, "<@") && !EndsWith(slackPart, ">") ==> id.None?
    ensures !StartsWith(slackPart, "<@") && !StartsWith(slackPart, "U") ==> id.None?
  {
    if StartsWith(slackPart, "<@") && EndsWith(slackPart, ">") then
      assert slackPart[0] == '<' && slackPart[1] == '@';
      Some(slackPart[2..|slackPart| - 1])
    else if StartsWith(slackPart, "@") then None
    else if StartsWith(slackPart, "U") then Some(slackPart)
    else None
  }

  /** A mention as Slack writes it gives back the id inside it. */
  lemma ExtractSlackIdOfMention(id: string)
    ensures ExtractSlackId("<@" + id + ">") == Some(id)
  {
    var m := "<@" + id + ">";
    assert m[..2] == "<@";
    assert m[|m| - 1..] == ">";
    assert m[2..|m| - 1] == id;
  }

  /** One member line: without a colon the whole line is the GitHub login;
      with one, the trimmed text before the first colon is the login and
      the trimmed text after it, up to the next colon if any, is read for
      a Slack id. */
  function MemberEntry(entry: string): (e: (string, Option<string>))
    ensures ':' !in entry ==> e == (entry, None)
    ensures ':' in entry ==> e.0 == Trim(Before(entry, ':'))
    ensures ':' in entry ==> e.1 == ExtractSlackId(Trim(Before(entry[|Before(entry, ':')| + 1..], ':')))
  {
    if ':' in entry then
      var parts := Split(entry, ':');
      SplitHeads(entry, ':');
      (Trim(parts[0]), ExtractSlackId(Trim(parts[1])))
    else (entry, None)
  }

  /** `login:<@U123>` gives the login and the id. */
  lemma MemberEntryOfMention(login: string, id: string)
    requires IsTrimmed(login) && ':' !in login && ':' !in id
    ensures MemberEntry(login + ":" + ("<@" + id + ">")) == (login, Some(id))
  {
    var m := "<@" + id + ">";
    var entry := login + ":" + m;
    assert ':' !in m;
    IndexOfAfter(login, ':', m);
    assert entry == login + [':'] + m;
    var parts := Split(entry, ':');
    assert parts[0] == login;
    assert entry[IndexOf(entry, ':') + 1..] == m;
    assert parts[1] == m;
    assert IsTrimmed(m);
    ExtractSlackIdOfMention(id);
  }

  // ---------------------------------------------------------------------
  // add_members_submit / add_repos_submit
  // ---------------------------------------------------------------------

  /** The member table after addTeamMember for one entry. */
  function AddedMember(rows: seq<MemberRow>, channelId: string, entry: (string, Option<string>), addedBy: string): seq<MemberRow> {
    if HasMember(rows, channelId, entry.0) then rows
    else rows + [MemberRow(channelId, entry.0, NullIfEmpty(entry.1), NullIfEmpty(Some(addedBy)))]
  }

  /** The member table after addTeamMember for each entry in turn. */
  function AddedMembers(rows: seq<MemberRow>, channelId: string, entries: seq<(string, Option<string>)>, addedBy: string): seq<MemberRow> {
    if entries == [] then rows
    else AddedMember(AddedMembers(rows, channelId, entries[..|entries| - 1], addedBy), channelId, entries[|entries| - 1], addedBy)
  }

  /** Adding members only appends, and afterwards every submitted login is
      a member of the channel. */
  lemma {:induction false} AddedMembersContains(rows: seq<MemberRow>, channelId: string, entries: seq<(string, Option<string>)>, addedBy: string)
    ensures var after := AddedMembers(rows, channelId, entries, addedBy);
      && |after| >= |rows| && after[..|rows|] == rows
      && forall k :: 0 <= k < |entries| ==> HasMember(after, channelId, entries[k].0)
  {
    if entries != [] {
      var init := entries[..|entries| - 1];
      var prev := AddedMembers(rows, channelId, init, addedBy);
      AddedMembersContains(rows, channelId, init, addedBy);
      var after := AddedMembers(rows, channelId, entries, addedBy);
      assert after[..|prev|] == prev;
      assert after[..|rows|] == prev[..|rows|];
      forall k | 0 <= k < |entries| ensures HasMember(after, channelId, entries[k].0) {
        if k < |entries| - 1 {
          assert entries[k] == init[k];
          var i :| 0 <= i < |prev| && MemberKey(prev[i]) == (channelId, entries[k].0);
          assert after[i] == prev[i];
        } else if !HasMember(prev, channelId, entries[k].0) {
          assert MemberKey(after[|prev|]) == (channelId, entries[k].0);
        }
      }
    }
  }

  function MemberEntries(lines: seq<string>): (entries: seq<(string, Option<string>)>)
    ensures |entries| == |lines|
    ensures forall k :: 0 <= k < |lines| ==> entries[k] == MemberEntry(lines[k])
  {
    seq(|lines|, k requires 0 <= k < |lines| => MemberEntry(lines[k]))
  }

  /** add_members_submit: make sure the channel has a config row, then one
      addTeamMember per parsed line, in order, added by the submitter. The
      first step is the corrected one (EnsureTeamConfig); the handler as
      written upserts the channel alone (see AddMembersResetsSettings). */
  method AddMembersSubmit(db: Database, channelId: string, userId: string, text: Option<string>, nowIso: string, nowSql: string)
    requires db.Valid()
    modifies db`teamConfigs, db`teamMembers
    ensures db.Valid()
    ensures channelId in old(db.teamConfigs) ==> db.teamConfigs == old(db.teamConfigs)
    ensures channelId !in old(db.teamConfigs) ==>
      db.teamConfigs == old(db.teamConfigs)[channelId := UpsertedRow(OnlyChannel(channelId), None, nowIso, nowSql)]
    ensures db.teamMembers == AddedMembers(old(db.teamMembers), channelId, MemberEntries(ParseLines(text)), userId)
  {
    var entries := ParseLines(text);
    ghost var members0 := db.teamMembers;
    EnsureTeamConfig(db, channelId, nowIso, nowSql);
    ghost var es := MemberEntries(entries);
    ghost var configs := db.teamConfigs;
    for i := 0 to |entries|
      invariant db.Valid()
      invariant db.teamConfigs == configs
      invariant db.teamMembers == AddedMembers(members0, channelId, es[..i], userId)
    {
      var entry := MemberEntry(entries[i]);
      assert entry == es[i];
      AddedMembersStep(members0, channelId, es, i, userId);
      AddTeamMember(db, channelId, entry.0, entry.1, Some(userId));
    }
    assert es[..|entries|] == es;
  }

  lemma AddedMembersStep(rows: seq<MemberRow>, channelId: string, es: seq<(string, Option<string>)>, i: int, addedBy: string)
    requires 0 <= i < |es|
    ensures AddedMembers(rows, channelId, es[..i + 1], addedBy)
      == AddedMember(AddedMembers(rows, channelId, es[..i], addedBy), channelId, es[i], addedBy)
  {
    assert es[..i + 1][..i] == es[..i];
  }

  /** The handlers as written ensure the config with an upsert of the
      channel alone: on a channel set to three required approvals that
      upsert stores two again. */
  lemma AddMembersResetsSettings(existing: ConfigRow, nowIso: string, nowSql: string)
    requires existing.requiredApprovals == Some(3)
    ensures UpsertedRow(OnlyChannel(existing.channelId), Some(existing), nowIso, nowSql).requiredApprovals == Some(2)
  {
  }

  /** The step the add submissions evidently mean ("ensure config exists"),
      as the settings button does it: create the default row only when the
      channel has none. */
  method EnsureTeamConfig(db: Database, channelId: string, nowIso: string, nowSql: string)
    requires db.Valid()
    modifies db`teamConfigs
    ensures db.Valid()
    ensures channelId in old(db.teamConfigs) ==> db.teamConfigs == old(db.teamConfigs)
    ensures channelId !in old(db.teamConfigs) ==>
      db.teamConfigs == old(db.teamConfigs)[channelId := UpsertedRow(OnlyChannel(channelId), None, nowIso, nowSql)]
    ensures channelId in db.teamConfigs
  {
    var config := GetTeamConfig(db, channelId);
    if config.None? {
      UpsertTeamConfig(db, OnlyChannel(channelId), nowIso, nowSql);
    }
  }

  /** The repository table after one addTeamRepo. */
  function AddedRepo(rows: seq<RepoRow>, channelId: string, name: string): seq<RepoRow> {
    if HasRepo(rows, channelId, name) then rows else rows + [RepoRow(channelId, name)]
  }

  /** The repository table after addTeamRepo for each name in turn. */
  function AddedRepos(rows: seq<RepoRow>, channelId: string, names: seq<string>): seq<RepoRow> {
    if names == [] then rows
    else AddedRepo(AddedRepos(rows, channelId, names[..|names| - 1]), channelId, names[|names| - 1])
  }

  /** Adding repositories only appends, and afterwards every submitted
      name is tracked by the channel. */
  lemma {:induction false} AddedReposContains(rows: seq<RepoRow>, channelId: string, names: seq<string>)
    ensures var after := AddedRepos(rows, channelId, names);
      && |after| >= |rows| && after[..|rows|] == rows
      && forall k :: 0 <= k < |names| ==> HasRepo(after, channelId, names[k])
  {
    if names != [] {
      var init := names[..|names| - 1];
      var prev := AddedRepos(rows, channelId, init);
      AddedReposContains(rows, channelId, init);
      var after := AddedRepos(rows, channelId, names);
      assert after[..|prev|] == prev;
      assert after[..|rows|] == prev[..|rows|];
      forall k | 0 <= k < |names| ensures HasRepo(after, channelId, names[k]) {
        if k < |names| - 1 {
          assert names[k] == init[k];
          var i :| 0 <= i < |prev| && RepoKey(prev[i]) == (channelId, names[k]);
          assert after[i] == prev[i];
        } else if !HasRepo(prev, channelId, names[k]) {
          assert RepoKey(after[|prev|]) == (channelId, names[k]);
        }
      }
    }
  }

  /** add_repos_submit: make sure the channel has a config row (the
      corrected step, as in AddMembersSubmit), then one addTeamRepo per
      parsed line. */
  method AddReposSubmit(db: Database, channelId: string, text: Option<string>, nowIso: string, nowSql: string)
    requires db.Valid()
    modifies db`teamConfigs, db`teamRepos
    ensures db.Valid()
    ensures channelId in old(db.teamConfigs) ==> db.teamConfigs == old(db.teamConfigs)
    ensures channelId !in old(db.teamConfigs) ==>
      db.teamConfigs == old(db.teamConfigs)[channelId := UpsertedRow(OnlyChannel(channelId), None, nowIso, nowSql)]
    ensures db.teamRepos == AddedRepos(old(db.teamRepos), channelId, ParseLines(text))
  {
    var repos := ParseLines(text);
    ghost var repos0 := db.teamRepos;
    EnsureTeamConfig(db, channelId, nowIso, nowSql);
    ghost var configs := db.teamConfigs;
    for i := 0 to |repos|
      invariant db.Valid()
      invariant db.teamConfigs == configs
      invariant db.teamRepos == AddedRepos(repos0, channelId, repos[..i])
    {
      AddedReposStep(repos0, channelId, repos, i);
      AddTeamRepo(db, channelId, repos[i]);
    }
    assert repos[..|repos|] == repos;
  }

  lemma AddedReposStep(rows: seq<RepoRow>, channelId: string, names: seq<string>, i: int)
    requires 0 <= i < |names|
    ensures AddedRepos(rows, channelId, names[..i + 1])
      == AddedRepo(AddedRepos(rows, channelId, names[..i]), channelId, names[i])
  {
    assert names[..i + 1][..i] == names[..i];
  }

  // ---------------------------------------------------------------------
  // remove_members_submit / remove_repos_submit
  // ---------------------------------------------------------------------

  /** The member table after removeTeamMember for each selected login. */
  function RemovedMembers(rows: seq<MemberRow>, channelId: string, names: seq<string>): seq<MemberRow> {
    if names == [] then rows
    else
      var last := names[|names| - 1];
      Keep(RemovedMembers(rows, channelId, names[..|names| - 1]), (row: MemberRow) => MemberKey(row) != (channelId, last))
  }

  /** Exactly the selected logins of the channel go; every other row, of
      this channel or another, stays. */
  lemma {:induction false} RemovedMembersExactly(rows: seq<MemberRow>, channelId: string, names: seq<string>)
    ensures forall row :: row in RemovedMembers(rows, channelId, names) <==>
      row in rows && !(row.channelId == channelId && row.githubUsername in names)
  {
    if names != [] {
      var init := names[..|names| - 1];
      RemovedMembersExactly(rows, channelId, init);
      assert names == init + [names[|names| - 1]];
      assert forall u :: u in names <==> u in init || u == names[|names| - 1];
    }
  }

  /** remove_members_submit. */
  method RemoveMembersSubmit(db: Database, channelId: string, usernames: seq<string>)
    requires db.Valid()
    modifies db`teamMembers
    ensures db.Valid()
    ensures db.teamMembers == RemovedMembers(old(db.teamMembers), channelId, usernames)
  {
    for i := 0 to |usernames|
      invariant db.Valid()
      invariant db.teamMembers == RemovedMembers(old(db.teamMembers), channelId, usernames[..i])
    {
      RemoveTeamMember(db, channelId, usernames[i]);
      assert usernames[..i + 1][..i] == usernames[..i];
    }
    assert usernames[..|usernames|] == usernames;
  }

  /** The repository table after removeTeamRepo for each selected name. */
  function RemovedRepos(rows: seq<RepoRow>, channelId: string, names: seq<string>): seq<RepoRow> {
    if names == [] then rows
    else
      var last := names[|names| - 1];
      Keep(RemovedRepos(rows, channelId, names[..|names| - 1]), (row: RepoRow) => RepoKey(row) != (channelId, last))
  }

  lemma {:induction false} RemovedReposExactly(rows: seq<RepoRow>, channelId: string, names: seq<string>)
    ensures forall row :: row in RemovedRepos(rows, channelId, names) <==>
      row in rows && !(row.channelId == channelId && row.repoName in names)
  {
    if names != [] {
      var init := names[..|names| - 1];
      RemovedReposExactly(rows, channelId, init);
      assert names == init + [names[|names| - 1]];
      assert forall u :: u in names <==> u in init || u == names[|names| - 1];
    }
  }

  /** remove_repos_submit. */
  method RemoveReposSubmit(db: Database, channelId: string, repos: seq<string>)
    requires db.Valid()
    modifies db`teamRepos
    ensures db.Valid()
    ensures db.teamRepos == RemovedRepos(old(db.teamRepos), channelId, repos)
  {
    for i := 0 to |repos|
      invariant db.Valid()
      invariant db.teamRepos == RemovedRepos(old(db.teamRepos), channelId, repos[..i])
    {
      RemoveTeamRepo(db, channelId, repos[i]);
      assert repos[..i + 1][..i] == repos[..i];
    }
    assert repos[..|repos|] == repos;
  }

  // ---------------------------------------------------------------------
  // open_settings_modal / settings_submit
  // ---------------------------------------------------------------------

  /** A checkbox group: `(selected_options || []).length > 0 ? 1 : 0`. */
  function Flag(selected: Option<seq<string>>): (f: int)
    ensures f == 1 <==> selected.Some? && |selected.value| > 0
    ensures f == 0 || f == 1
  {
    if selected.Some? && |selected.value| > 0 then 1 else 0
  }

  /** The settings form as submitted. */
  datatype SettingsForm = SettingsForm(
    approvals: Option<string>,
    notifyOpen: Option<seq<string>>,
    notifyReady: Option<seq<string>>,
    notifyChanges: Option<seq<string>>,
    notifyApproved: Option<seq<string>>,
    notifyMerged: Option<seq<string>>,
    excludeBotComments: Option<seq<string>>)

  /** The upsert input settings_submit builds: approvals parsed from the
      field with "2" for an empty one (a failed parse is NULL), and every
      flag supplied. The channel name is not supplied. */
  function SettingsInput(channelId: string, form: SettingsForm): (input: ConfigInput)
    ensures input.channelId == channelId && input.channelName.None?
    ensures input.requiredApprovals == Some(ParseInt(OrElse(form.approvals, "2")))
    ensures input.notifyOnOpen == Some(Flag(form.notifyOpen))
    ensures input.notifyOnReady == Some(Flag(form.notifyReady))
    ensures input.notifyOnChangesRequested == Some(Flag(form.notifyChanges))
    ensures input.notifyOnApproved == Some(Flag(form.notifyApproved))
    ensures input.notifyOnMerged == Some(Flag(form.notifyMerged))
    ensures input.excludeBotComments == Some(Flag(form.excludeBotComments))
  {
    ConfigInput(channelId, None, Some(ParseInt(OrElse(form.approvals, "2"))),
                Some(Flag(form.notifyOpen)), Some(Flag(form.notifyReady)), Some(Flag(form.notifyChanges)),
                Some(Flag(form.notifyApproved)), Some(Flag(form.notifyMerged)), Some(Flag(form.excludeBotComments)))
  }

  /** settings_submit. */
  method SettingsSubmit(db: Database, channelId: string, form: SettingsForm, nowIso: string, nowSql: string)
    requires db.Valid()
    modifies db`teamConfigs
    ensures db.Valid()
    ensures db.teamConfigs == old(db.teamConfigs)[channelId :=
      UpsertedRow(SettingsInput(channelId, form), if channelId in old(db.teamConfigs) then Some(old(db.teamConfigs)[channelId]) else None, nowIso, nowSql)]
  {
    UpsertTeamConfig(db, SettingsInput(channelId, form), nowIso, nowSql);
  }

  /** What the form submits is what the channel's row then holds: each
      flag is on iff its box was ticked, the approvals are the number
      typed (2 when left empty), and the channel name is cleared. */
  lemma SettingsReadBack(channelId: string, form: SettingsForm, existing: Option<ConfigRow>, nowIso: string, nowSql: string, n: nat)
    ensures var row := UpsertedRow(SettingsInput(channelId, form), existing, nowIso, nowSql);
      && row.channelName.None?
      && (row.notifyOnOpen == 1 <==> form.notifyOpen.Some? && |form.notifyOpen.value| > 0)
      && (row.notifyOnReady == 1 <==> form.notifyReady.Some? && |form.notifyReady.value| > 0)
      && (row.notifyOnChangesRequested == 1 <==> form.notifyChanges.Some? && |form.notifyChanges.value| > 0)
      && (row.notifyOnApproved == 1 <==> form.notifyApproved.Some? && |form.notifyApproved.value| > 0)
      && (row.notifyOnMerged == 1 <==> form.notifyMerged.Some? && |form.notifyMerged.value| > 0)
      && (row.excludeBotComments == 1 <==> form.excludeBotComments.Some? && |form.excludeBotComments.value| > 0)
      && (form.approvals.None? || form.approvals.value == "" ==> row.requiredApprovals == Some(2))
      && (form.approvals == Some(NatToString(n)) ==> row.requiredApprovals == Some(n as int))
  {
    SettingsApprovalsReadBack(channelId, form, n);
  }

  /** The approvals field of the settings form as stored. */
  lemma SettingsApprovalsReadBack(channelId: string, form: SettingsForm, n: nat)
    ensures var input := SettingsInput(channelId, form);
      && (form.approvals.None? || form.approvals.value == "" ==> input.requiredApprovals == Some(Some(2)))
      && (form.approvals == Some(NatToString(n)) ==> input.requiredApprovals == Some(Some(n as int)))
  {
    ParseIntOfNatToString(2);
    assert NatToString(2) == "2";
    ParseIntOfNatToString(n);
  }

  /** open_settings_modal: a channel without a config row gets the default
      one before the form opens; an existing row is left alone. */
  method OpenSettingsModal(db: Database, channelId: string, nowIso: string, nowSql: string) returns (config: ConfigRow)
    requires db.Valid()
    modifies db`teamConfigs
    ensures db.Valid()
    ensures channelId in old(db.teamConfigs) ==> db.teamConfigs == old(db.teamConfigs) && config == old(db.teamConfigs)[channelId]
    ensures channelId !in old(db.teamConfigs) ==> Settings(config) == DEFAULT_SETTINGS
    ensures channelId in db.teamConfigs && config == db.teamConfigs[channelId] && config.channelId == channelId
  {
    EnsureTeamConfig(db, channelId, nowIso, nowSql);
    config := GetTeamConfig(db, channelId).value;
  }
}
