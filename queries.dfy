/** The PR message table and the global user mappings (src/db/queries.ts):
    each statement is a method on the database that changes only the
    table it writes, specified by a function on that table's value. */
module Queries {
  import opened Common
  import opened Db

  // ---------------------------------------------------------------------
  // pr_messages
  // ---------------------------------------------------------------------

  /** The table after the INSERT ... ON CONFLICT(pr_url) DO UPDATE of
      upsertPRMessage: a new URL gets the whole row; a known one changes
      its message ts, state and last-updated time and keeps its channel,
      owner, repo and number. No other row changes. */
  function UpsertedMessages(messages: map<string, PRMessageRow>, row: PRMessageRow): (r: map<string, PRMessageRow>)
    ensures r.Keys == messages.Keys + {row.prUrl}
    ensures forall u :: u in messages && u != row.prUrl ==> r[u] == messages[u]
    ensures row.prUrl !in messages ==> r[row.prUrl] == row
    ensures row.prUrl in messages ==>
      var was := messages[row.prUrl];
      var now := r[row.prUrl];
      && now.slackMessageTs == row.slackMessageTs && now.prState == row.prState && now.lastUpdated == row.lastUpdated
      && now.prUrl == was.prUrl && now.slackChannel == was.slackChannel
      && now.owner == was.owner && now.repo == was.repo && now.prNumber == was.prNumber
  {
    if row.prUrl in messages then
      var was := messages[row.prUrl];
      messages[row.prUrl := was.(slackMessageTs := row.slackMessageTs, prState := row.prState, lastUpdated := row.lastUpdated)]
    else messages[row.prUrl := row]
  }

  /** The upsert keeps one row per URL, each under its own URL. */
  lemma UpsertKeepsKeys(messages: map<string, PRMessageRow>, row: PRMessageRow)
    requires MessagesKeyed(messages)
    ensures MessagesKeyed(UpsertedMessages(messages, row))
  {
  }

  /** upsertPRMessage. */
  method UpsertPRMessage(db: Database, row: PRMessageRow)
    requires db.Valid()
    modifies db`prMessages
    ensures db.Valid()
    ensures db.prMessages == UpsertedMessages(old(db.prMessages), row)
  {
    if row.prUrl in db.prMessages {
      var existing := db.prMessages[row.prUrl];
      db.prMessages := db.prMessages[row.prUrl := existing.(slackMessageTs := row.slackMessageTs,
                                                            prState := row.prState,
                                                            lastUpdated := row.lastUpdated)];
    } else {
      db.prMessages := db.prMessages[row.prUrl := row];
    }
  }

  /** getPRMessage: the row stored for the URL, if any. */
  function GetPRMessage(db: Database, url: string): (r: Option<PRMessageRow>)
    reads db
    ensures r.Some? <==> url in db.prMessages
    ensures r.Some? ==> r.value == db.prMessages[url]
    ensures r.Some? && db.Valid() ==> r.value.prUrl == url
  {
    if url in db.prMessages then Some(db.prMessages[url]) else None
  }

  /** getOpenPRMessages: exactly the stored rows whose state is 'open'. */
  function GetOpenPRMessages(db: Database): (rows: set<PRMessageRow>)
    reads db
    ensures forall row :: row in rows <==> row in db.prMessages.Values && row.prState == "open"
  {
    set u | u in db.prMessages && db.prMessages[u].prState == "open" :: db.prMessages[u]
  }

  /** The table after updatePRState: the URL's row, if there is one,
      takes the new state and time; nothing else changes. */
  function StateUpdated(messages: map<string, PRMessageRow>, url: string, state: string, now: string): (r: map<string, PRMessageRow>)
    ensures r.Keys == messages.Keys
    ensures forall u :: u in messages && u != url ==> r[u] == messages[u]
    ensures url in messages ==> r[url] == messages[url].(prState := state, lastUpdated := now)
  {
    if url in messages then messages[url := messages[url].(prState := state, lastUpdated := now)] else messages
  }

  /** updatePRState; `now` is what datetime('now') gives. */
  method UpdatePRState(db: Database, url: string, state: string, now: string)
    requires db.Valid()
    modifies db`prMessages
    ensures db.Valid()
    ensures db.prMessages == StateUpdated(old(db.prMessages), url, state, now)
  {
    if url in db.prMessages {
      db.prMessages := db.prMessages[url := db.prMessages[url].(prState := state, lastUpdated := now)];
    }
  }

  // ---------------------------------------------------------------------
  // user_mappings
  // ---------------------------------------------------------------------

  /** upsertUserMapping: insert, or overwrite the Slack id. */
  method UpsertUserMapping(db: Database, githubUsername: string, slackUserId: string)
    modifies db`userMappings
    ensures db.userMappings == old(db.userMappings)[githubUsername := slackUserId]
  {
    db.userMappings := db.userMappings[githubUsername := slackUserId];
  }

  /** getUserMapping. */
  function GetUserMapping(db: Database, githubUsername: string): (r: Option<string>)
    reads db
    ensures r.Some? <==> githubUsername in db.userMappings
    ensures r.Some? ==> r.value == db.userMappings[githubUsername]
  {
    if githubUsername in db.userMappings then Some(db.userMappings[githubUsername]) else None
  }

  /** One `gh:slack` pair: the trimmed text before the first `:` and the
      trimmed text after it up to any second `:`; kept only when both
      are non-empty. */
  function ParsePair(pair: string): (r: Option<(string, string)>)
    ensures var gh := Trim(Before(pair, ':'));
      var slack := if ':' in pair then Trim(Before(pair[|Before(pair, ':')| + 1..], ':')) else "";
      && (r.Some? <==> gh != "" && slack != "")
      && (r.Some? ==> r.value == (gh, slack))
    ensures r.Some? ==> r.value.0 != "" && r.value.1 != "" && ':' !in r.value.0 && ':' !in r.value.1
  {
    var parts := Split(pair, ':');
    SplitHeads(pair, ':');
    var second := if |parts| > 1 then parts[1] else "";
    var gh := Trim(parts[0]);
    var slack := Trim(second);
    TrimSubstring(parts[0]);
    TrimSubstring(second);
    if gh != "" && slack != "" then Some((gh, slack)) else None
  }

  /** A pair written as `gh:slack`, with any blanks around either side,
      reads back as the two trimmed names. */
  lemma ParsePairOfText(gh: string, slack: string, pad1: string, pad2: string)
    requires gh != "" && IsTrimmed(gh) && ':' !in gh
    requires slack != "" && IsTrimmed(slack) && ':' !in slack
    requires forall k :: 0 <= k < |pad1| ==> pad1[k] == ' '
    requires forall k :: 0 <= k < |pad2| ==> pad2[k] == ' '
    ensures ParsePair(gh + pad1 + ":" + pad2 + slack) == Some((gh, slack))
  {
    var left := gh + pad1;
    var right := pad2 + slack;
    assert gh + pad1 + ":" + pad2 + slack == left + ":" + right;
    assert [] + gh + pad1 == left;
    TrimPadded(gh, [], pad1);
    assert pad2 + slack + [] == right;
    TrimPadded(slack, pad2, []);
    ParsePairHalves(left, right);
  }

  lemma ParsePairHalves(left: string, right: string)
    requires ':' !in left && ':' !in right
    ensures ParsePair(left + ":" + right)
      == if Trim(left) != "" && Trim(right) != "" then Some((Trim(left), Trim(right))) else None
  {
    PairHalves(left, right);
  }

  /** Text with one colon splits at it. */
  lemma PairHalves(left: string, right: string)
    requires ':' !in left && ':' !in right
    ensures var pair := left + ":" + right;
      ':' in pair && Before(pair, ':') == left && Before(pair[|left| + 1..], ':') == right
  {
    var pair := left + ":" + right;
    IndexOfAfter(left, ':', right);
    assert pair == left + [':'] + right;
    assert pair[|left| + 1..] == right;
  }

  /** Each comma-separated item, parsed. */
  function ParsedItems(items: seq<string>): (parsed: seq<Option<(string, string)>>)
    ensures |parsed| == |items|
    ensures forall k :: 0 <= k < |items| ==> parsed[k] == ParsePair(items[k])
  {
    seq(|items|, k requires 0 <= k < |items| => ParsePair(items[k]))
  }

  /** The pairs that parsed, in order. */
  function Present(parsed: seq<Option<(string, string)>>): (pairs: seq<(string, string)>)
    ensures |pairs| <= |parsed|
  {
    if parsed == [] then []
    else
      var n := |parsed| - 1;
      Present(parsed[..n]) + (match parsed[n] case Some(p) => [p] case None => [])
  }

  /** The pairs seedUserMappings stores, in order. */
  function SeedPairs(mappingsStr: string): seq<(string, string)> {
    if mappingsStr == "" then [] else Present(ParsedItems(SplitTrimNonEmpty(mappingsStr, ',')))
  }

  /** The mapping table after storing the pairs one after the other. */
  function ApplyPairs(m: map<string, string>, pairs: seq<(string, string)>): map<string, string> {
    if pairs == [] then m
    else
      var n := |pairs| - 1;
      ApplyPairs(m, pairs[..n])[pairs[n].0 := pairs[n].1]
  }

  lemma PresentStep(parsed: seq<Option<(string, string)>>, i: nat)
    requires i < |parsed|
    ensures Present(parsed[..i + 1]) == Present(parsed[..i]) + (match parsed[i] case Some(p) => [p] case None => [])
  {
    assert parsed[..i + 1][..i] == parsed[..i];
  }

  lemma ApplyPairsSnoc(m: map<string, string>, pairs: seq<(string, string)>, p: (string, string))
    ensures ApplyPairs(m, pairs + [p]) == ApplyPairs(m, pairs)[p.0 := p.1]
  {
    assert (pairs + [p])[..|pairs|] == pairs;
  }

  /** ParsePair takes the same steps as the loop of seedUserMappings. */
  lemma ParsePairSteps(pair: string)
    ensures var parts := Split(pair, ':');
      var ghUser := Trim(parts[0]);
      var slackId := Trim(if |parts| > 1 then parts[1] else "");
      ParsePair(pair) == if ghUser != "" && slackId != "" then Some((ghUser, slackId)) else None
  {
  }

  /** seedUserMappings. */
  method SeedUserMappings(db: Database, mappingsStr: string)
    modifies db`userMappings
    ensures db.userMappings == ApplyPairs(old(db.userMappings), SeedPairs(mappingsStr))
  {
    if mappingsStr == "" {
      return;
    }
    var pairs := SplitTrimNonEmpty(mappingsStr, ',');
    for i := 0 to |pairs|
      invariant db.userMappings == SeededAfter(old(db.userMappings), pairs, i)
    {
      var parts := Split(pairs[i], ':');
      var ghUser := Trim(parts[0]);
      var slackId := Trim(if |parts| > 1 then parts[1] else "");
      SeedStep(old(db.userMappings), pairs, i);
      ParsePairSteps(pairs[i]);
      if ghUser != "" && slackId != "" {
        UpsertUserMapping(db, ghUser, slackId);
      }
    }
    assert ParsedItems(pairs)[..|pairs|] == ParsedItems(pairs);
  }

  /** The mapping table after the first i items of the list. */
  function SeededAfter(m: map<string, string>, pairs: seq<string>, i: int): map<string, string>
    requires 0 <= i <= |pairs|
  {
    ApplyPairs(m, Present(ParsedItems(pairs)[..i]))
  }

  /** One turn of the loop of seedUserMappings stores the i-th item's pair
      when it parses. */
  lemma SeedStep(m: map<string, string>, pairs: seq<string>, i: int)
    requires 0 <= i < |pairs|
    ensures SeededAfter(m, pairs, i + 1)
      == match ParsePair(pairs[i])
         case Some(p) => SeededAfter(m, pairs, i)[p.0 := p.1]
         case None => SeededAfter(m, pairs, i)
  {
    var parsed := ParsedItems(pairs);
    PresentStep(parsed, i);
    assert parsed[i] == ParsePair(pairs[i]);
    if parsed[i].Some? {
      ApplyPairsSnoc(m, Present(parsed[..i]), parsed[i].value);
    } else {
      assert Present(parsed[..i + 1]) == Present(parsed[..i]);
    }
  }

  /** The last pair for a user wins; users without a pair keep their
      previous mapping. */
  lemma {:induction false} ApplyPairsLastWins(m: map<string, string>, pairs: seq<(string, string)>, user: string)
    ensures user in ApplyPairs(m, pairs) <==> user in m || exists k :: 0 <= k < |pairs| && pairs[k].0 == user
    ensures forall k :: (0 <= k < |pairs| && pairs[k].0 == user && (forall j :: k < j < |pairs| ==> pairs[j].0 != user))
                        ==> ApplyPairs(m, pairs)[user] == pairs[k].1
    ensures (forall k :: 0 <= k < |pairs| ==> pairs[k].0 != user) && user in m ==> ApplyPairs(m, pairs)[user] == m[user]
  {
    if pairs != [] {
      var n := |pairs| - 1;
      ApplyPairsLastWins(m, pairs[..n], user);
      if user != pairs[n].0 {
        if exists k :: 0 <= k < |pairs| && pairs[k].0 == user {
          var k :| 0 <= k < |pairs| && pairs[k].0 == user;
          assert pairs[..n][k].0 == user;
        }
        forall k | 0 <= k < |pairs| && pairs[k].0 == user && (forall j :: k < j < |pairs| ==> pairs[j].0 != user)
          ensures ApplyPairs(m, pairs)[user] == pairs[k].1
        {
          assert pairs[..n][k] == pairs[k];
        }
      }
    }
  }

  /** What the seed text `gh1:slack1,gh2:slack2,...` looks like for a
      list of pairs. */
  function PairText(p: (string, string)): string {
    p.0 + ":" + p.1
  }

  function PairTexts(pairs: seq<(string, string)>): (texts: seq<string>)
    ensures |texts| == |pairs|
    ensures forall k :: 0 <= k < |pairs| ==> texts[k] == PairText(pairs[k])
  {
    seq(|pairs|, k requires 0 <= k < |pairs| => PairText(pairs[k]))
  }

  function PairsText(pairs: seq<(string, string)>): string {
    Join(PairTexts(pairs), ',')
  }

  predicate SeedablePair(p: (string, string)) {
    && p.0 != "" && p.1 != "" && IsTrimmed(p.0) && IsTrimmed(p.1)
    && ':' !in p.0 && ':' !in p.1 && ',' !in p.0 && ',' !in p.1
  }

  lemma ParsePairText(p: (string, string))
    requires SeedablePair(p)
    ensures ParsePair(PairText(p)) == Some(p)
  {
    assert PairText(p) == Join([p.0, p.1], ':');
    SplitJoin([p.0, p.1], ':');
  }

  lemma {:induction false} PresentAll(pairs: seq<(string, string)>)
    ensures Present(seq(|pairs|, k requires 0 <= k < |pairs| => Some(pairs[k]))) == pairs
  {
    if pairs != [] {
      var n := |pairs| - 1;
      var parsed := seq(|pairs|, k requires 0 <= k < |pairs| => Some(pairs[k]));
      assert parsed[..n] == seq(n, k requires 0 <= k < n => Some(pairs[..n][k]));
      PresentAll(pairs[..n]);
      assert pairs[..n] + [pairs[n]] == pairs;
    }
  }

  /** The text of a seedable pair is a clean comma-list item. */
  lemma PairTextIsItem(p: (string, string))
    requires SeedablePair(p)
    ensures PairText(p) != [] && IsTrimmed(PairText(p)) && ',' !in PairText(p)
  {
    var t := PairText(p);
    assert t == p.0 + (":" + p.1);
    assert t[0] == p.0[0];
    assert t[|t| - 1] == p.1[|p.1| - 1];
  }

  lemma ParsedItemsOfTexts(pairs: seq<(string, string)>)
    requires forall k :: 0 <= k < |pairs| ==> SeedablePair(pairs[k])
    ensures ParsedItems(PairTexts(pairs)) == seq(|pairs|, k requires 0 <= k < |pairs| => Some(pairs[k]))
  {
    forall k | 0 <= k < |pairs| ensures ParsePair(PairTexts(pairs)[k]) == Some(pairs[k]) {
      ParsePairText(pairs[k]);
    }
  }

  /** Seeding from the text of well-formed pairs stores exactly those
      pairs, in order. */
  lemma SeedPairsOfText(pairs: seq<(string, string)>)
    requires forall k :: 0 <= k < |pairs| ==> SeedablePair(pairs[k])
    ensures SeedPairs(PairsText(pairs)) == pairs
  {
    var texts := PairTexts(pairs);
    if pairs != [] {
      forall k | 0 <= k < |texts| ensures texts[k] != [] && IsTrimmed(texts[k]) && ',' !in texts[k] {
        PairTextIsItem(pairs[k]);
      }
      SplitTrimNonEmptyOfJoin(texts, ',');
      ParsedItemsOfTexts(pairs);
      PresentAll(pairs);
    }
  }
}
