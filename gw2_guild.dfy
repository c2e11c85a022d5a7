/** The official-API view of a guild: the response status check, the
    API-key object whose permissions gate access to a guild, and the guild
    object whose roster, info and ranks are requested once and kept.

    Both classes send their requests with a header dictionary that belongs
    to the class, not to the instance, and every constructor writes its
    bearer token into it. Such a dictionary is a `HeaderTable` object here,
    shared by every instance of its class. The server is a set of functions
    from the headers actually sent to the reply, so which token a request
    carries is visible in what it gets back. */
module Gw2Guild {
  import opened Wrappers
  import opened Text

  type Headers = map<string, string>

  /** The class-level header dictionary both classes start from. */
  const DefaultHeaders: Headers := map["accept" := "application/json"]

  const BadRequest := 400

  /** One HTTP reply: status, reason phrase, the `"text"` field of the JSON
      error body when there is one, and the decoded body. */
  datatype Reply<T> = Reply(status: int, reason: string, errorText: Option<string>, body: T)

  /** The exception a failed status check raises. */
  datatype HttpError = HttpError(status: int, reason: string)

  /** One roster record of `GET /v2/guild/{id}/members`. */
  datatype Gw2Member = Gw2Member(name: string, rank: string, wvwMember: bool)

  /** One entry of `GET /v2/guild/{id}/ranks`. */
  datatype Gw2Rank = Gw2Rank(id: string)

  /** `GET /v2/guild/{id}`, of which the tag is used. */
  datatype GuildInfo = GuildInfo(tag: string)

  /** The official API, as a function of the headers sent (and the guild id). */
  datatype Gw2Server = Gw2Server(
    tokenInfo: Headers -> Reply<seq<string>>,
    guildMembers: (Headers, string) -> Reply<seq<Gw2Member>>,
    guildInfo: (Headers, string) -> Reply<GuildInfo>,
    guildRanks: (Headers, string) -> Reply<seq<Gw2Rank>>)

  /** The reason a failed request reports: on a 400 reply whose body has a
      non-empty `"text"`, that text is appended after `": "`; any other
      reply keeps its reason phrase. */
  function RewrittenReason(status: int, reason: string, errorText: Option<string>): (r: string)
    ensures reason <= r
    ensures |r| > |reason| <==> status == BadRequest && errorText.Some? && errorText.value != ""
    ensures |r| > |reason| ==> r[|reason|..] == ": " + errorText.value
  {
    if status == BadRequest && errorText.Some? && errorText.value != "" then
      reason + ": " + errorText.value
    else
      reason
  }

  /** `status_check` followed by reading the body: a status of 400 or more
      raises with the (rewritten) reason, any other status yields the body. */
  function StatusCheck<T>(reply: Reply<T>): (r: Result<T, HttpError>)
    ensures r.Success? <==> reply.status < 400
    ensures r.Success? ==> r.value == reply.body
    ensures r.Failure? ==> r.error.status == reply.status && reply.reason <= r.error.reason
  {
    if reply.status >= 400 then
      Failure(HttpError(reply.status, RewrittenReason(reply.status, reply.reason, reply.errorText)))
    else
      Success(reply.body)
  }

  /** The "text" of a 400 reply can be read back from the raised reason. */
  lemma BadRequestTextRecoverable<T>(reply: Reply<T>)
    requires reply.status == BadRequest && reply.errorText.Some? && reply.errorText.value != ""
    ensures StatusCheck(reply).Failure?
    ensures StatusCheck(reply).error.reason[|reply.reason| + 2..] == reply.errorText.value
  {
    var r := StatusCheck(reply).error.reason;
    assert r[|reply.reason|..] == ": " + reply.errorText.value;
    assert r[|reply.reason| + 2..] == r[|reply.reason|..][2..];
  }

  /** A class-level header dictionary. */
  class HeaderTable {
    var headers: Headers

    constructor()
      ensures headers == DefaultHeaders
    {
      headers := DefaultHeaders;
    }
  }

  function BearerOf(key: string): string {
    "Bearer " + key
  }

  /** What `/v2/tokeninfo` told about a key. */
  datatype ApiKeyData = ApiKeyData(key: string, permissions: seq<string>)

  /** `GW2_API_KEY`. */
  class Gw2ApiKey {
    const apiKey: string
    const server: Gw2Server
    /** `GW2_API_KEY.API_HEADERS`, shared by all instances. */
    const table: HeaderTable
    var dataCache: Option<ApiKeyData>

    /** Writes this key's bearer token into the shared headers. */
    constructor(apiKey: string, server: Gw2Server, table: HeaderTable)
      modifies table
      ensures table.headers == old(table.headers)["authorization" := BearerOf(apiKey)]
      ensures this.apiKey == apiKey && this.server == server && this.table == table
      ensures dataCache == None
    {
      this.apiKey := apiKey;
      this.server := server;
      this.table := table;
      dataCache := None;
      new;
      table.headers := table.headers["authorization" := BearerOf(apiKey)];
    }

    /** `data`: requested with the shared headers as they are now, kept
        when the request succeeds. */
    method Data() returns (r: Result<ApiKeyData, HttpError>)
      modifies this`dataCache
      ensures old(dataCache).Some? ==> r == Success(old(dataCache).value) && unchanged(this)
      ensures old(dataCache).None? ==>
                var reply := StatusCheck(server.tokenInfo(table.headers));
                && (reply.Failure? ==> r == Failure(reply.error) && dataCache == None)
                && (reply.Success? ==> r == Success(ApiKeyData(apiKey, reply.value)) && dataCache == Some(r.value))
    {
      if dataCache.None? {
        var raw := StatusCheck(server.tokenInfo(table.headers));
        if raw.Failure? {
          return Failure(raw.error);
        }
        dataCache := Some(ApiKeyData(apiKey, raw.value));
      }
      r := Success(dataCache.value);
    }
  }

  /** Why constructing a guild object raised. */
  datatype GuildError =
    | RequestFailed(error: HttpError)
    | PermissionMissing(message: string)

  const GuildsPermission := "guilds"

  function PermissionMessage(name: string, permissions: seq<string>): string {
    "the api key provided for guild '" + name + "'" + " doesn't have 'guilds' permission among "
    + Join(permissions, ", ")
  }

  /** The permission check of the guild constructor, given what
      `/v2/tokeninfo` answered. */
  function PermissionCheck(name: string, permissions: Result<seq<string>, HttpError>): (e: Option<GuildError>)
    ensures e.None? <==> permissions.Success? && GuildsPermission in permissions.value
    ensures permissions.Failure? ==> e == Some(RequestFailed(permissions.error))
    ensures e.Some? && e.value.PermissionMissing? ==>
              permissions.Success? && e.value.message == PermissionMessage(name, permissions.value)
  {
    if permissions.Failure? then Some(RequestFailed(permissions.error))
    else if GuildsPermission !in permissions.value then
      Some(PermissionMissing(PermissionMessage(name, permissions.value)))
    else None
  }

  /** The message names the guild and ends with the permissions the key
      does have, joined by ", ". */
  lemma PermissionMessageShape(name: string, permissions: seq<string>)
    ensures var m := PermissionMessage(name, permissions);
            var head := "the api key provided for guild '" + name + "'";
            && head <= m
            && m[|m| - |Join(permissions, ", ")|..] == Join(permissions, ", ")
  {
    var m := PermissionMessage(name, permissions);
    var head := "the api key provided for guild '" + name + "'";
    var tail := " doesn't have 'guilds' permission among " + Join(permissions, ", ");
    assert m == head + tail;
    PrefixAndSuffix(head, tail);
    PrefixAndSuffix(" doesn't have 'guilds' permission among ", Join(permissions, ", "));
  }

  lemma PrefixAndSuffix(a: string, b: string)
    ensures a <= a + b && (a + b)[|a + b| - |b|..] == b
  {
  }

  /** A key allowed to read characters only is refused, and the message
      ends with that one permission. */
  lemma CharactersOnlyRefused()
    ensures var e := PermissionCheck("Guild", Success(["characters"]));
            && e.Some? && e.value.PermissionMissing?
            && e.value.message[|e.value.message| - |"characters"|..] == "characters"
  {
    assert Join(["characters"], ", ") == "characters";
    assert GuildsPermission != "characters";
    assert GuildsPermission !in ["characters"];
    PermissionMessageShape("Guild", ["characters"]);
  }

  function NameSet(roster: seq<Gw2Member>): set<string> {
    set p | p in roster :: p.name
  }

  function WvwNameSet(roster: seq<Gw2Member>): set<string> {
    set p | p in roster && p.wvwMember :: p.name
  }

  /** Every name that chose the guild for World vs World is a member name,
      and a member is outside that set exactly when none of its records
      chose it. */
  lemma WvwNamesAreMembers(roster: seq<Gw2Member>)
    ensures WvwNameSet(roster) <= NameSet(roster)
    ensures forall n :: n in NameSet(roster) - WvwNameSet(roster) <==>
              (exists p :: p in roster && p.name == n) && (forall p :: p in roster && p.name == n ==> !p.wvwMember)
  {
  }

  /** `GW2_GUILD`. */
  class Gw2Guild {
    const name: string
    const gid: string
    const server: Gw2Server
    /** `GW2_GUILD.API_HEADERS`, shared by all instances. */
    const table: HeaderTable
    var profileCache: Option<seq<Gw2Member>>
    var infoCache: Option<GuildInfo>
    var ranksCache: Option<seq<Gw2Rank>>
    var membersCache: Option<set<string>>
    var wvwMembersCache: Option<set<string>>

    /** The name sets are those of the kept roster. */
    ghost predicate Valid()
      reads this
    {
      && (membersCache.Some? ==> profileCache.Some? && membersCache.value == NameSet(profileCache.value))
      && (wvwMembersCache.Some? ==> profileCache.Some? && wvwMembersCache.value == WvwNameSet(profileCache.value))
    }

    /** The part of `GW2_GUILD.__init__` after the permission check: the
        key's bearer token goes into the shared headers. */
    constructor(name: string, gid: string, key: string, server: Gw2Server, table: HeaderTable)
      modifies table
      ensures table.headers == old(table.headers)["authorization" := BearerOf(key)]
      ensures this.name == name && this.gid == gid && this.server == server && this.table == table
      ensures profileCache == None && infoCache == None && ranksCache == None
      ensures membersCache == None && wvwMembersCache == None
      ensures Valid()
    {
      this.name := name;
      this.gid := gid;
      this.server := server;
      this.table := table;
      profileCache, infoCache, ranksCache := None, None, None;
      membersCache, wvwMembersCache := None, None;
      new;
      table.headers := table.headers["authorization" := BearerOf(key)];
    }

    /** `profile`: the roster, requested with the shared headers as they
        are now and kept once it arrives. */
    method Profile() returns (r: Result<seq<Gw2Member>, HttpError>)
      requires Valid()
      modifies this`profileCache
      ensures Valid()
      ensures old(profileCache).Some? ==> r == Success(old(profileCache).value) && unchanged(this)
      ensures old(profileCache).None? ==>
                && r == StatusCheck(server.guildMembers(table.headers, gid))
                && profileCache == (if r.Success? then Some(r.value) else None)
    {
      if profileCache.None? {
        r := StatusCheck(server.guildMembers(table.headers, gid));
        if r.Success? {
          profileCache := Some(r.value);
        }
      } else {
        r := Success(profileCache.value);
      }
    }

    /** `info`. */
    method Info() returns (r: Result<GuildInfo, HttpError>)
      requires Valid()
      modifies this`infoCache
      ensures Valid()
      ensures old(infoCache).Some? ==> r == Success(old(infoCache).value) && unchanged(this)
      ensures old(infoCache).None? ==>
                && r == StatusCheck(server.guildInfo(table.headers, gid))
                && infoCache == (if r.Success? then Some(r.value) else None)
    {
      if infoCache.None? {
        r := StatusCheck(server.guildInfo(table.headers, gid));
        if r.Success? {
          infoCache := Some(r.value);
        }
      } else {
        r := Success(infoCache.value);
      }
    }

    /** `ranks`. */
    method Ranks() returns (r: Result<seq<Gw2Rank>, HttpError>)
      requires Valid()
      modifies this`ranksCache
      ensures Valid()
      ensures old(ranksCache).Some? ==> r == Success(old(ranksCache).value) && unchanged(this)
      ensures old(ranksCache).None? ==>
                && r == StatusCheck(server.guildRanks(table.headers, gid))
                && ranksCache == (if r.Success? then Some(r.value) else None)
    {
      if ranksCache.None? {
        r := StatusCheck(server.guildRanks(table.headers, gid));
        if r.Success? {
          ranksCache := Some(r.value);
        }
      } else {
        r := Success(ranksCache.value);
      }
    }

    /** `members`: the names on the roster. */
    method Members() returns (r: Result<set<string>, HttpError>)
      requires Valid()
      modifies this`profileCache, this`membersCache
      ensures Valid()
      ensures old(membersCache).Some? ==> r == Success(old(membersCache).value) && unchanged(this)
      ensures r.Success? ==> profileCache.Some? && r.value == NameSet(profileCache.value) && membersCache == Some(r.value)
      ensures old(profileCache).Some? ==> r.Success? && profileCache == old(profileCache)
      ensures old(profileCache).None? ==>
                var reply := StatusCheck(server.guildMembers(table.headers, gid));
                && (reply.Failure? ==> r == Failure(reply.error) && profileCache == None)
                && (reply.Success? ==> r.Success? && profileCache == Some(reply.value))
      ensures r.Failure? ==> membersCache == None
    {
      if membersCache.None? {
        var roster :- Profile();
        membersCache := Some(NameSet(roster));
      }
      r := Success(membersCache.value);
    }

    /** `wvw_members`: the names whose record chose this guild for World vs World. */
    method WvwMembers() returns (r: Result<set<string>, HttpError>)
      requires Valid()
      modifies this`profileCache, this`wvwMembersCache
      ensures Valid()
      ensures old(wvwMembersCache).Some? ==> r == Success(old(wvwMembersCache).value) && unchanged(this)
      ensures r.Success? ==>
                profileCache.Some? && r.value == WvwNameSet(profileCache.value) && wvwMembersCache == Some(r.value)
      ensures old(profileCache).Some? ==> r.Success? && profileCache == old(profileCache)
      ensures old(profileCache).None? ==>
                var reply := StatusCheck(server.guildMembers(table.headers, gid));
                && (reply.Failure? ==> r == Failure(reply.error) && profileCache == None)
                && (reply.Success? ==> r.Success? && profileCache == Some(reply.value))
      ensures r.Failure? ==> wvwMembersCache == None
    {
      if wvwMembersCache.None? {
        var roster :- Profile();
        wvwMembersCache := Some(WvwNameSet(roster));
      }
      r := Success(wvwMembersCache.value);
    }
  }

  /** The headers a request carries once the key `key` was the last one
      written into a table that started from the defaults. */
  function TokenHeaders(key: string): (h: Headers)
    ensures h.Keys == {"accept", "authorization"}
    ensures h["authorization"] == BearerOf(key)
  {
    DefaultHeaders["authorization" := BearerOf(key)]
  }

  /** `GW2_GUILD(name, gid=gid, api_key=key)`: builds the key object (which
      writes the key's table), asks `/v2/tokeninfo` for its permissions,
      raises unless `"guilds"` is among them, and otherwise writes the
      guild table and returns a guild whose caches are all empty. */
  method NewGw2Guild(name: string, gid: string, key: string, server: Gw2Server, keyTable: HeaderTable, guildTable: HeaderTable)
    returns (r: Result<Gw2Guild, GuildError>)
    requires keyTable != guildTable
    modifies keyTable, guildTable
    ensures keyTable.headers == old(keyTable.headers)["authorization" := BearerOf(key)]
    ensures var permissions := StatusCheck(server.tokenInfo(keyTable.headers));
            && (r.Failure? ==> Some(r.error) == PermissionCheck(name, permissions))
            && (r.Success? <==> PermissionCheck(name, permissions).None?)
    ensures r.Failure? ==> guildTable.headers == old(guildTable.headers)
    ensures r.Success? ==>
              && fresh(r.value) && r.value.Valid()
              && r.value.name == name && r.value.gid == gid && r.value.server == server && r.value.table == guildTable
              && r.value.profileCache == None && r.value.infoCache == None && r.value.ranksCache == None
              && r.value.membersCache == None && r.value.wvwMembersCache == None
              && guildTable.headers == old(guildTable.headers)["authorization" := BearerOf(key)]
  {
    var apiKey := new Gw2ApiKey(key, server, keyTable);
    var data := apiKey.Data();
    var permissions := if data.Success? then Success(data.value.permissions) else Failure(data.error);
    var refused := PermissionCheck(name, permissions);
    if refused.Some? {
      return Failure(refused.value);
    }
    var g := new Gw2Guild(name, gid, data.value.key, server, guildTable);
    r := Success(g);
  }

  /** Two guild objects share one header table: after guild B is built
      with its own key, guild A's roster request carries B's token, and
      gets whatever the server answers to that token. */
  method LastConstructorWins(server: Gw2Server, gidA: string, keyA: string, gidB: string, keyB: string)
    returns (rosterA: Result<seq<Gw2Member>, HttpError>)
    requires forall h :: GuildsPermission in server.tokenInfo(h).body && server.tokenInfo(h).status == 200
    ensures rosterA == StatusCheck(server.guildMembers(TokenHeaders(keyB), gidA))
  {
    var keyTable := new HeaderTable();
    var guildTable := new HeaderTable();
    var a := NewGw2Guild("A", gidA, keyA, server, keyTable, guildTable);
    var b := NewGw2Guild("B", gidB, keyB, server, keyTable, guildTable);
    assert a.Success? && b.Success?;
    assert guildTable.headers == TokenHeaders(keyB);
    var ga := a.value;
    rosterA := ga.Profile();
  }
}
