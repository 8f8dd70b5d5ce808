/** resolveSlackUser (src/slack/user-mapping.ts): how a GitHub login is
    shown in Slack, given the global GitHub-to-Slack mapping table. */
module UserMapping {

  /** A stored Slack id counts only when it is non-empty (the truthiness
      test), so an empty id behaves like no mapping at all. */
  predicate HasSlackId(mappings: map<string, string>, login: string) {
    login in mappings && mappings[login] != ""
  }

  /** The mention for a mapped login, the login itself otherwise. The
      table is only read. */
  function ResolveSlackUser(mappings: map<string, string>, login: string): (r: string)
    ensures HasSlackId(mappings, login) ==> r == "<@" + mappings[login] + ">"
    ensures !HasSlackId(mappings, login) ==> r == login
  {
    if HasSlackId(mappings, login) then "<@" + mappings[login] + ">" else login
  }

  /** A mention is recognisable as one: it is never mistaken for a login
      that does not itself look like a mention, and the id can be read
      back from between its delimiters. */
  lemma MentionReadsBack(mappings: map<string, string>, login: string)
    requires HasSlackId(mappings, login)
    ensures var r := ResolveSlackUser(mappings, login);
      |r| >= 4 && r[..2] == "<@" && r[|r| - 1] == '>' && r[2..|r| - 1] == mappings[login]
  {
  }

  /** Changing the mapping of one login changes how no other login is
      shown. */
  lemma ResolveIsLocal(mappings: map<string, string>, login: string, other: string, id: string)
    requires other != login
    ensures ResolveSlackUser(mappings[login := id], other) == ResolveSlackUser(mappings, other)
  {
  }
}
