/** Start-up configuration of src/config.ts: the environment is a map
    from variable names to values (an absent name is an unset variable). */
module Config {
  import opened Common
  import opened Types

  type Env = map<string, string>

  /** `process.env[name]`. */
  function Lookup(env: Env, name: string): Option<string> {
    if name in env then Some(env[name]) else None
  }

  /** parseList: a comma-separated list (see Common.ParseSeparated). */
  function ParseList(value: Option<string>): seq<string> {
    ParseSeparated(value, ',')
  }

  /** What loadConfig throws. The source only ever throws Missing; a
      number that does not parse gives NaN there, which the integer
      fields of the model cannot hold. */
  datatype ConfigError = Missing(message: string) | NotANumber(name: string)

  function MissingMessage(name: string): string {
    "Missing required environment variable: " + name
  }

  /** requireEnv: the value when it is set and non-empty, otherwise an
      error naming the variable. */
  function RequireEnv(env: Env, name: string): (r: Result<string, ConfigError>)
    ensures r.Ok? <==> name in env && env[name] != ""
    ensures r.Ok? ==> r.value == env[name]
    ensures r.Err? ==> r.error == Missing(MissingMessage(name))
  {
    var v := Lookup(env, name);
    if v.Some? && v.value != "" then Ok(v.value) else Err(Missing(MissingMessage(name)))
  }

  /** The variables loadConfig requires, in the order it reads them. */
  const REQUIRED: seq<string> :=
    ["GITHUB_TOKEN", "GITHUB_ORG", "GITHUB_WEBHOOK_SECRET", "SLACK_BOT_TOKEN", "SLACK_SIGNING_SECRET", "SLACK_CHANNEL"]

  const DEFAULT_REQUIRED_APPROVALS: string := "2"
  const DEFAULT_PORT: string := "3000"

  predicate IsSet(env: Env, name: string) {
    name in env && env[name] != ""
  }

  /** Every required variable is set. */
  predicate AllSet(env: Env) {
    && IsSet(env, "GITHUB_TOKEN") && IsSet(env, "GITHUB_ORG") && IsSet(env, "GITHUB_WEBHOOK_SECRET")
    && IsSet(env, "SLACK_BOT_TOKEN") && IsSet(env, "SLACK_SIGNING_SECRET") && IsSet(env, "SLACK_CHANNEL")
  }

  lemma AllSetIsRequired(env: Env)
    ensures AllSet(env) <==> forall k :: 0 <= k < |REQUIRED| ==> IsSet(env, REQUIRED[k])
  {
    if AllSet(env) {
      forall k | 0 <= k < |REQUIRED| ensures IsSet(env, REQUIRED[k]) {
        assert REQUIRED[k] in {"GITHUB_TOKEN", "GITHUB_ORG", "GITHUB_WEBHOOK_SECRET", "SLACK_BOT_TOKEN", "SLACK_SIGNING_SECRET", "SLACK_CHANNEL"};
      }
    }
    if forall k :: 0 <= k < |REQUIRED| ==> IsSet(env, REQUIRED[k]) {
      assert IsSet(env, REQUIRED[0]) && IsSet(env, REQUIRED[1]) && IsSet(env, REQUIRED[2]);
      assert IsSet(env, REQUIRED[3]) && IsSet(env, REQUIRED[4]) && IsSet(env, REQUIRED[5]);
    }
  }

  /** Both defaults are numbers. */
  lemma DefaultsParse()
    ensures ParseInt(DEFAULT_REQUIRED_APPROVALS) == Some(2)
    ensures ParseInt(DEFAULT_PORT) == Some(3000)
  {
    ApprovalsDefaultParses();
    PortDefaultParses();
  }

  lemma ApprovalsDefaultParses()
    ensures ParseInt(DEFAULT_REQUIRED_APPROVALS) == Some(2)
  {
    assert NatToString(2) == DEFAULT_REQUIRED_APPROVALS;
    ParseIntOfNatToString(2);
  }

  lemma PortDefaultParses()
    ensures ParseInt(DEFAULT_PORT) == Some(3000)
  {
    assert NatToString(3) == "3";
    assert NatToString(30) == "30";
    assert NatToString(300) == "300";
    assert NatToString(3000) == DEFAULT_PORT;
    ParseIntOfNatToString(3000);
  }

  /** parseInt(value || fallback, 10). */
  function NumberVar(env: Env, name: string, fallback: string): (r: Result<int, ConfigError>)
    ensures r.Err? <==> ParseInt(OrElse(Lookup(env, name), fallback)).None?
    ensures r.Err? ==> r.error == NotANumber(name)
    ensures !IsSet(env, name) && ParseInt(fallback).Some? ==> r == Ok(ParseInt(fallback).value)
    ensures IsSet(env, name) ==> (r.Ok? <==> ParseInt(env[name]).Some?)
    ensures r.Ok? && IsSet(env, name) ==> ParseInt(env[name]) == Some(r.value)
  {
    var parsed := ParseInt(OrElse(Lookup(env, name), fallback));
    if parsed.Some? then Ok(parsed.value) else Err(NotANumber(name))
  }

  /** Both numeric variables, or their defaults, parse as numbers. */
  predicate NumbersParse(env: Env) {
    && ParseInt(OrElse(Lookup(env, "REQUIRED_APPROVALS"), DEFAULT_REQUIRED_APPROVALS)).Some?
    && ParseInt(OrElse(Lookup(env, "PORT"), DEFAULT_PORT)).Some?
  }

  /** The part of loadConfig after the three GitHub secrets were read. */
  function LoadSlackPart(env: Env, githubToken: string, githubOrg: string, secret: string): (r: Result<AppConfig, ConfigError>)
    ensures r.Ok? ==> IsSet(env, "SLACK_BOT_TOKEN") && IsSet(env, "SLACK_SIGNING_SECRET") && IsSet(env, "SLACK_CHANNEL")
    ensures r.Ok? ==>
      && r.value.githubToken == githubToken && r.value.githubOrg == githubOrg && r.value.githubWebhookSecret == secret
      && r.value.slackBotToken == env["SLACK_BOT_TOKEN"]
      && r.value.slackSigningSecret == env["SLACK_SIGNING_SECRET"]
      && r.value.slackChannel == env["SLACK_CHANNEL"]
      && r.value.githubRepos == ParseList(Lookup(env, "GITHUB_REPOS"))
      && r.value.teamMembers == ParseList(Lookup(env, "TEAM_MEMBERS"))
      && r.value.userMappings == OrElse(Lookup(env, "USER_MAPPINGS"), "")
    ensures r.Ok? && !IsSet(env, "REQUIRED_APPROVALS") ==> r.value.requiredApprovals == 2
    ensures r.Ok? && !IsSet(env, "PORT") ==> r.value.port == 3000
  {
    DefaultsParse();
    var approvals := NumberVar(env, "REQUIRED_APPROVALS", DEFAULT_REQUIRED_APPROVALS);
    if approvals.Err? then Err(approvals.error)
    else
      var bot := RequireEnv(env, "SLACK_BOT_TOKEN");
      if bot.Err? then Err(bot.error)
      else
        var signing := RequireEnv(env, "SLACK_SIGNING_SECRET");
        if signing.Err? then Err(signing.error)
        else
          var channel := RequireEnv(env, "SLACK_CHANNEL");
          if channel.Err? then Err(channel.error)
          else
            var port := NumberVar(env, "PORT", DEFAULT_PORT);
            if port.Err? then Err(port.error)
            else
              Ok(AppConfig(githubToken, githubOrg, ParseList(Lookup(env, "GITHUB_REPOS")), secret,
                           ParseList(Lookup(env, "TEAM_MEMBERS")), approvals.value,
                           bot.value, signing.value, channel.value,
                           OrElse(Lookup(env, "USER_MAPPINGS"), ""), port.value))
  }

  /** loadConfig: the fields in the order the object literal evaluates
      them, stopping at the first error. */
  function LoadConfig(env: Env): (r: Result<AppConfig, ConfigError>)
    ensures r.Ok? ==> AllSet(env)
    ensures r.Ok? ==>
      && r.value.githubToken == env["GITHUB_TOKEN"]
      && r.value.githubOrg == env["GITHUB_ORG"]
      && r.value.githubWebhookSecret == env["GITHUB_WEBHOOK_SECRET"]
      && r.value.slackBotToken == env["SLACK_BOT_TOKEN"]
      && r.value.slackSigningSecret == env["SLACK_SIGNING_SECRET"]
      && r.value.slackChannel == env["SLACK_CHANNEL"]
      && r.value.githubRepos == ParseList(Lookup(env, "GITHUB_REPOS"))
      && r.value.teamMembers == ParseList(Lookup(env, "TEAM_MEMBERS"))
    // the defaults
    ensures r.Ok? && !IsSet(env, "REQUIRED_APPROVALS") ==> r.value.requiredApprovals == 2
    ensures r.Ok? && !IsSet(env, "PORT") ==> r.value.port == 3000
  {
    var token := RequireEnv(env, "GITHUB_TOKEN");
    if token.Err? then Err(token.error)
    else
      var org := RequireEnv(env, "GITHUB_ORG");
      if org.Err? then Err(org.error)
      else
        var secret := RequireEnv(env, "GITHUB_WEBHOOK_SECRET");
        if secret.Err? then Err(secret.error)
        else
          LoadSlackPart(env, token.value, org.value, secret.value)
  }

  /** A set numeric variable is read with parseInt: the approvals and the
      port are the numbers their variables start with. */
  lemma LoadConfigNumbers(env: Env)
    requires LoadConfig(env).Ok?
    ensures IsSet(env, "REQUIRED_APPROVALS") ==> ParseInt(env["REQUIRED_APPROVALS"]) == Some(LoadConfig(env).value.requiredApprovals)
    ensures IsSet(env, "PORT") ==> ParseInt(env["PORT"]) == Some(LoadConfig(env).value.port)
  {
    LoadSlackPartNumbers(env, env["GITHUB_TOKEN"], env["GITHUB_ORG"], env["GITHUB_WEBHOOK_SECRET"]);
  }

  lemma LoadSlackPartNumbers(env: Env, githubToken: string, githubOrg: string, secret: string)
    requires LoadSlackPart(env, githubToken, githubOrg, secret).Ok?
    ensures var c := LoadSlackPart(env, githubToken, githubOrg, secret).value;
      && (IsSet(env, "REQUIRED_APPROVALS") ==> ParseInt(env["REQUIRED_APPROVALS"]) == Some(c.requiredApprovals))
      && (IsSet(env, "PORT") ==> ParseInt(env["PORT"]) == Some(c.port))
  {
  }

  /** Loading succeeds exactly when every required variable is set and
      both numeric variables (or their defaults) parse. */
  lemma LoadConfigOkIff(env: Env)
    ensures LoadConfig(env).Ok? <==> AllSet(env) && NumbersParse(env)
  {
    if AllSet(env) {
      LoadSlackPartOkIff(env, env["GITHUB_TOKEN"], env["GITHUB_ORG"], env["GITHUB_WEBHOOK_SECRET"]);
    }
  }

  lemma LoadSlackPartOkIff(env: Env, githubToken: string, githubOrg: string, secret: string)
    ensures LoadSlackPart(env, githubToken, githubOrg, secret).Ok? <==>
      IsSet(env, "SLACK_BOT_TOKEN") && IsSet(env, "SLACK_SIGNING_SECRET") && IsSet(env, "SLACK_CHANNEL") && NumbersParse(env)
  {
  }

  /** The optional variables: unset mappings read as the empty string and
      an unset list variable as the empty list. */
  lemma LoadConfigOptionalVars(env: Env)
    requires LoadConfig(env).Ok?
    ensures LoadConfig(env).value.userMappings == (if IsSet(env, "USER_MAPPINGS") then env["USER_MAPPINGS"] else "")
    ensures !IsSet(env, "GITHUB_REPOS") ==> LoadConfig(env).value.githubRepos == []
    ensures !IsSet(env, "TEAM_MEMBERS") ==> LoadConfig(env).value.teamMembers == []
  {
  }

  /** The error names the first required variable, in reading order, that
      is unset or empty (a malformed REQUIRED_APPROVALS, read between the
      GitHub and the Slack variables, is reported in its place). */
  lemma LoadConfigNamesFirstMissing(env: Env, k: nat)
    requires k < |REQUIRED| && !IsSet(env, REQUIRED[k])
    requires forall j :: 0 <= j < k ==> IsSet(env, REQUIRED[j])
    requires k >= 3 ==> ParseInt(OrElse(Lookup(env, "REQUIRED_APPROVALS"), DEFAULT_REQUIRED_APPROVALS)).Some?
    ensures LoadConfig(env) == Err(Missing(MissingMessage(REQUIRED[k])))
  {
    var name := REQUIRED[k];
    if k < 3 {
      if k >= 1 { assert IsSet(env, REQUIRED[0]); }
      if k >= 2 { assert IsSet(env, REQUIRED[1]); }
    } else {
      assert IsSet(env, REQUIRED[0]) && IsSet(env, REQUIRED[1]) && IsSet(env, REQUIRED[2]);
      if k >= 4 { assert IsSet(env, REQUIRED[3]); }
      if k >= 5 { assert IsSet(env, REQUIRED[4]); }
      LoadSlackPartNamesMissing(env, env["GITHUB_TOKEN"], env["GITHUB_ORG"], env["GITHUB_WEBHOOK_SECRET"], k);
    }
  }

  lemma LoadSlackPartNamesMissing(env: Env, githubToken: string, githubOrg: string, secret: string, k: nat)
    requires 3 <= k < |REQUIRED| && !IsSet(env, REQUIRED[k])
    requires forall j :: 3 <= j < k ==> IsSet(env, REQUIRED[j])
    requires ParseInt(OrElse(Lookup(env, "REQUIRED_APPROVALS"), DEFAULT_REQUIRED_APPROVALS)).Some?
    ensures LoadSlackPart(env, githubToken, githubOrg, secret) == Err(Missing(MissingMessage(REQUIRED[k])))
  {
    if k == 3 {
      BotTokenMissing(env, githubToken, githubOrg, secret);
    } else if k == 4 {
      assert IsSet(env, REQUIRED[3]);
      SigningSecretMissing(env, githubToken, githubOrg, secret);
    } else {
      assert IsSet(env, REQUIRED[3]) && IsSet(env, REQUIRED[4]);
      ChannelMissing(env, githubToken, githubOrg, secret);
    }
  }

  lemma BotTokenMissing(env: Env, githubToken: string, githubOrg: string, secret: string)
    requires !IsSet(env, "SLACK_BOT_TOKEN")
    requires NumberVar(env, "REQUIRED_APPROVALS", DEFAULT_REQUIRED_APPROVALS).Ok?
    ensures LoadSlackPart(env, githubToken, githubOrg, secret) == Err(Missing(MissingMessage("SLACK_BOT_TOKEN")))
  {
  }

  lemma SigningSecretMissing(env: Env, githubToken: string, githubOrg: string, secret: string)
    requires IsSet(env, "SLACK_BOT_TOKEN") && !IsSet(env, "SLACK_SIGNING_SECRET")
    requires NumberVar(env, "REQUIRED_APPROVALS", DEFAULT_REQUIRED_APPROVALS).Ok?
    ensures LoadSlackPart(env, githubToken, githubOrg, secret) == Err(Missing(MissingMessage("SLACK_SIGNING_SECRET")))
  {
  }

  lemma ChannelMissing(env: Env, githubToken: string, githubOrg: string, secret: string)
    requires IsSet(env, "SLACK_BOT_TOKEN") && IsSet(env, "SLACK_SIGNING_SECRET") && !IsSet(env, "SLACK_CHANNEL")
    requires NumberVar(env, "REQUIRED_APPROVALS", DEFAULT_REQUIRED_APPROVALS).Ok?
    ensures LoadSlackPart(env, githubToken, githubOrg, secret) == Err(Missing(MissingMessage("SLACK_CHANNEL")))
  {
  }

  /** With every required variable set and the numeric ones left unset,
      loading succeeds. */
  lemma LoadConfigSucceedsWithDefaults(env: Env)
    requires AllSet(env)
    requires !IsSet(env, "REQUIRED_APPROVALS") && !IsSet(env, "PORT")
    ensures LoadConfig(env).Ok?
    ensures LoadConfig(env).value.requiredApprovals == 2 && LoadConfig(env).value.port == 3000
  {
    DefaultsParse();
  }
}
