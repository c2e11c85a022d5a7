/** `report_guild_gw2`: the guild report against the official API. It
    builds the guild object (and, when alliance settings with a key are
    given, the alliance object), writes the member count, the World vs
    World choice, the alliance membership differences and the rank checks,
    and stops at the first exception. Logging is the list of records
    written so far. */
module GuildReport {
  import opened Wrappers
  import opened Text
  import opened Gw2Guild
  import opened Reports

  /** The `[guild]` section of the settings file. */
  datatype GuildSettings = GuildSettings(name: string, gid: string, apiKey: string)

  /** The exception that ended a report run. */
  datatype ReportError =
    | ConstructionFailed(error: GuildError)
    | RequestError(httpError: HttpError)
    | MissingSetting(key: string)

  /** The records written, and the exception raised after them, if any. */
  datatype Outcome = Outcome(records: seq<LogRecord>, error: Option<ReportError>)

  function MembersNumberLine(tag: string, count: nat): string {
    Gw2Prefix + ": " + tag + " members number: " + NatToString(count)
  }

  function NoWvwMessage(tag: string): string {
    tag + " members that didn't choose [" + tag + "] as wvw guild"
  }

  function WvwInsteadMessage(tag: string): string {
    tag + " members that chose [" + tag + "] as wvw guild instead of alliance"
  }

  function NotJoinedMessage(tag: string): string {
    tag + " members that didn't join alliance"
  }

  function NotAllianceWvwMessage(tag: string): string {
    tag + " members that didn't choose alliance as wvw guild"
  }

  function MissingTagLine(tag: string): string {
    "missing guild tag (" + Upper(tag) + ") in alliance ranks: "
  }

  function WrongRankMessage(tag: string): string {
    tag + " members that don't have '" + tag + "' or special alliance rank"
  }

  function ForeignTagMessage(tag: string): string {
    "NOT " + tag + " members that have '" + tag + "' alliance rank"
  }

  /** A header table holding the defaults and at most a bearer token. */
  predicate FromDefaults(h: Headers) {
    h - {"authorization"} == DefaultHeaders
  }

  lemma TokenAfterDefaults(h: Headers, key: string)
    requires FromDefaults(h)
    ensures h["authorization" := BearerOf(key)] == TokenHeaders(key)
    ensures FromDefaults(TokenHeaders(key))
  {
    var t := h["authorization" := BearerOf(key)];
    assert t.Keys == TokenHeaders(key).Keys by {
      assert h.Keys <= DefaultHeaders.Keys + {"authorization"} by {
        forall k | k in h ensures k in DefaultHeaders.Keys + {"authorization"} {
          if k != "authorization" {
            assert k in h - {"authorization"};
          }
        }
      }
    }
    assert forall k :: k in t && k != "authorization" ==> k in h - {"authorization"};
    assert TokenHeaders(key) - {"authorization"} == DefaultHeaders;
  }

  /** The report as it should come out: every guild's requests carry that
      guild's own token. */
  ghost function GuildGw2Report(gs: GuildSettings, alliance: Option<map<string, string>>, server: Gw2Server): Outcome {
    var gh := TokenHeaders(gs.apiKey);
    var check := PermissionCheck(gs.name, StatusCheck(server.tokenInfo(gh)));
    if check.Some? then Outcome([], Some(ConstructionFailed(check.value)))
    else GuildSection(StatusCheck(server.guildInfo(gh, gs.gid)), StatusCheck(server.guildMembers(gh, gs.gid)),
                      alliance, server)
  }

  /** From the guild's info and roster on: the member count, then the
      rest of the report. */
  ghost function GuildSection(info: Result<GuildInfo, HttpError>, roster: Result<seq<Gw2Member>, HttpError>,
                              alliance: Option<map<string, string>>, server: Gw2Server): Outcome {
    if info.Failure? then Outcome([], Some(RequestError(info.error)))
    else if roster.Failure? then Outcome([], Some(RequestError(roster.error)))
    else
      var tag := info.value.tag;
      ChoiceSection([LogRecord(Info, MembersNumberLine(tag, |NameSet(roster.value)|))], tag, roster.value, alliance, server)
  }

  /** The World vs World choice of the guild's members, then the alliance
      part when there is one. */
  ghost function ChoiceSection(before: seq<LogRecord>, tag: string, roster: seq<Gw2Member>,
                               alliance: Option<map<string, string>>, server: Gw2Server): Outcome {
    var g, gw := NameSet(roster), WvwNameSet(roster);
    if alliance.None? || alliance.value == map[] then
      Outcome(before + [ReportSet(Gw2Prefix, NoWvwMessage(tag), g - gw)], None)
    else
      AllianceSettings(before + [ReportSet(Gw2Prefix, WvwInsteadMessage(tag), gw)], tag, g, alliance.value, server)
  }

  /** Alliance settings without a key end the report; a key without the
      name or the guild id is a missing setting. */
  ghost function AllianceSettings(before: seq<LogRecord>, tag: string, g: set<string>,
                                  a: map<string, string>, server: Gw2Server): Outcome {
    if "api_key" !in a then Outcome(before, None)
    else if "name" !in a then Outcome(before, Some(MissingSetting("name")))
    else if "gid" !in a then Outcome(before, Some(MissingSetting("gid")))
    else AllianceReport(before, tag, g, a["name"], a["gid"], a["api_key"], server)
  }

  /** The part of the report that needs the alliance leader's key. */
  ghost function AllianceReport(before: seq<LogRecord>, tag: string, g: set<string>,
                                name: string, gid: string, key: string, server: Gw2Server): Outcome {
    var ah := TokenHeaders(key);
    var check := PermissionCheck(name, StatusCheck(server.tokenInfo(ah)));
    if check.Some? then Outcome(before, Some(ConstructionFailed(check.value)))
    else
      MembershipSection(before, tag, g, StatusCheck(server.guildMembers(ah, gid)), StatusCheck(server.guildRanks(ah, gid)))
  }

  /** From the alliance roster on: the membership differences, then the
      rank checks. */
  ghost function MembershipSection(before: seq<LogRecord>, tag: string, g: set<string>,
                                   roster: Result<seq<Gw2Member>, HttpError>,
                                   ranks: Result<seq<Gw2Rank>, HttpError>): Outcome {
    if roster.Failure? then Outcome(before, Some(RequestError(roster.error)))
    else RankSection(before + MembershipRecords(tag, g, roster.value), tag, g, roster.value, ranks)
  }

  /** Guild members missing from the alliance, and those whose World vs
      World guild is not the alliance. */
  ghost function MembershipRecords(tag: string, g: set<string>, roster: seq<Gw2Member>): seq<LogRecord> {
    [ReportSet(Gw2Prefix, NotJoinedMessage(tag), g - NameSet(roster)),
     ReportSet(Gw2Prefix, NotAllianceWvwMessage(tag), g - (g * WvwNameSet(roster)))]
  }

  /** The rank checks, or the note that the alliance has no rank for the tag. */
  ghost function RankSection(before: seq<LogRecord>, tag: string, g: set<string>, roster: seq<Gw2Member>,
                             ranks: Result<seq<Gw2Rank>, HttpError>): Outcome {
    if ranks.Failure? then Outcome(before, Some(RequestError(ranks.error)))
    else if !TagRanked(tag, ranks.value) then
      Outcome(before + [LogRecord(Info, MissingTagLine(tag) + SetRepr(RankNames(ranks.value)))], None)
    else Outcome(before + RankCheckRecords(tag, g * NameSet(roster), roster), None)
  }

  function RankCheckRecords(tag: string, shared: set<string>, roster: seq<Gw2Member>): seq<LogRecord> {
    [ReportMembers(Gw2Prefix, WrongRankMessage(tag), Lines(WrongRankEntries(tag, shared, roster)), Warning, true, false),
     ReportMembers(Gw2Prefix, ForeignTagMessage(tag), Lines(ForeignTagEntries(tag, shared, roster)), Warning, true, false)]
  }

  /** The rank section appends at most two records. */
  lemma RankSectionAppends(before: seq<LogRecord>, tag: string, g: set<string>, roster: seq<Gw2Member>,
                           ranks: Result<seq<Gw2Rank>, HttpError>)
    ensures var out := RankSection(before, tag, g, roster, ranks);
            before <= out.records && |out.records| <= |before| + 2
  {
    var out := RankSection(before, tag, g, roster, ranks);
    if ranks.Failure? {
      assert out.records == before;
    } else if !TagRanked(tag, ranks.value) {
      assert out.records == before + [out.records[|before|]];
    } else {
      assert out.records == before + RankCheckRecords(tag, g * NameSet(roster), roster);
    }
  }

  /** The alliance part only appends to what the guild part wrote. */
  lemma AllianceOnlyAppends(before: seq<LogRecord>, tag: string, g: set<string>, a: map<string, string>, server: Gw2Server)
    ensures var out := AllianceSettings(before, tag, g, a, server);
            && before <= out.records
            && |out.records| <= |before| + 4
            && ("api_key" !in a ==> out == Outcome(before, None))
  {
    var out := AllianceSettings(before, tag, g, a, server);
    if "api_key" in a && "name" in a && "gid" in a {
      var ah := TokenHeaders(a["api_key"]);
      var check := PermissionCheck(a["name"], StatusCheck(server.tokenInfo(ah)));
      var roster := StatusCheck(server.guildMembers(ah, a["gid"]));
      if check.None? && roster.Success? {
        var sets := before + MembershipRecords(tag, g, roster.value);
        var ranks := StatusCheck(server.guildRanks(ah, a["gid"]));
        assert out == RankSection(sets, tag, g, roster.value, ranks);
        RankSectionAppends(sets, tag, g, roster.value, ranks);
        assert before <= sets;
      } else {
        assert out.records == before;
      }
    }
  }

  /** Once the guild's key is accepted and its info and roster arrive, the
      report opens with the member count, then the World vs World record;
      without alliance settings that is all, and nothing is raised. */
  lemma GuildReportOpens(gs: GuildSettings, alliance: Option<map<string, string>>, server: Gw2Server)
    requires var gh := TokenHeaders(gs.apiKey);
             && PermissionCheck(gs.name, StatusCheck(server.tokenInfo(gh))).None?
             && server.guildInfo(gh, gs.gid).status < 400
             && server.guildMembers(gh, gs.gid).status < 400
    ensures var gh := TokenHeaders(gs.apiKey);
            var tag, roster := server.guildInfo(gh, gs.gid).body.tag, server.guildMembers(gh, gs.gid).body;
            var out := GuildGw2Report(gs, alliance, server);
            && |out.records| >= 2
            && out.records[0] == LogRecord(Info, MembersNumberLine(tag, |NameSet(roster)|))
            && (alliance.None? || alliance.value == map[] ==>
                  out.records[1] == ReportSet(Gw2Prefix, NoWvwMessage(tag), NameSet(roster) - WvwNameSet(roster))
                  && |out.records| == 2 && out.error.None?)
            && (alliance.Some? && alliance.value != map[] ==>
                  out.records[1] == ReportSet(Gw2Prefix, WvwInsteadMessage(tag), WvwNameSet(roster)))
  {
    var gh := TokenHeaders(gs.apiKey);
    var info, roster := server.guildInfo(gh, gs.gid).body, server.guildMembers(gh, gs.gid).body;
    var count := [LogRecord(Info, MembersNumberLine(info.tag, |NameSet(roster)|))];
    ReportReachesChoice(gs, alliance, server);
    ChoiceOpens(count, info.tag, roster, alliance, server);
    assert GuildGw2Report(gs, alliance, server) == ChoiceSection(count, info.tag, roster, alliance, server);
  }

  /** Past construction, info and roster, the report is the choice section
      after the member count. */
  lemma ReportReachesChoice(gs: GuildSettings, alliance: Option<map<string, string>>, server: Gw2Server)
    requires var gh := TokenHeaders(gs.apiKey);
             && PermissionCheck(gs.name, StatusCheck(server.tokenInfo(gh))).None?
             && server.guildInfo(gh, gs.gid).status < 400
             && server.guildMembers(gh, gs.gid).status < 400
    ensures var gh := TokenHeaders(gs.apiKey);
            var tag, roster := server.guildInfo(gh, gs.gid).body.tag, server.guildMembers(gh, gs.gid).body;
            GuildGw2Report(gs, alliance, server)
              == ChoiceSection([LogRecord(Info, MembersNumberLine(tag, |NameSet(roster)|))], tag, roster, alliance, server)
  {
    var gh := TokenHeaders(gs.apiKey);
    var info, roster := server.guildInfo(gh, gs.gid).body, server.guildMembers(gh, gs.gid).body;
    assert GuildGw2Report(gs, alliance, server) == GuildSection(Success(info), Success(roster), alliance, server);
  }

  /** The choice section keeps what was written and adds the World vs
      World record; without alliance settings nothing else follows. */
  lemma ChoiceOpens(before: seq<LogRecord>, tag: string, roster: seq<Gw2Member>,
                    alliance: Option<map<string, string>>, server: Gw2Server)
    requires |before| == 1
    ensures var out := ChoiceSection(before, tag, roster, alliance, server);
            && |out.records| >= 2
            && out.records[0] == before[0]
            && (alliance.None? || alliance.value == map[] ==>
                  out.records[1] == ReportSet(Gw2Prefix, NoWvwMessage(tag), NameSet(roster) - WvwNameSet(roster))
                  && |out.records| == 2 && out.error.None?)
            && (alliance.Some? && alliance.value != map[] ==>
                  out.records[1] == ReportSet(Gw2Prefix, WvwInsteadMessage(tag), WvwNameSet(roster)))
  {
    if alliance.Some? && alliance.value != map[] {
      AllianceChoice(before, tag, roster, alliance.value, server);
    } else {
      NoAllianceChoice(before, tag, roster, alliance, server);
    }
  }

  lemma NoAllianceChoice(before: seq<LogRecord>, tag: string, roster: seq<Gw2Member>,
                         alliance: Option<map<string, string>>, server: Gw2Server)
    requires |before| == 1
    requires alliance.None? || alliance.value == map[]
    ensures var out := ChoiceSection(before, tag, roster, alliance, server);
            && out.records == [before[0], ReportSet(Gw2Prefix, NoWvwMessage(tag), NameSet(roster) - WvwNameSet(roster))]
            && out.error.None?
  {
    assert before == [before[0]];
  }

  lemma AllianceChoice(before: seq<LogRecord>, tag: string, roster: seq<Gw2Member>,
                       a: map<string, string>, server: Gw2Server)
    requires |before| == 1
    requires a != map[]
    ensures var out := ChoiceSection(before, tag, roster, Some(a), server);
            && |out.records| >= 2
            && out.records[0] == before[0]
            && out.records[1] == ReportSet(Gw2Prefix, WvwInsteadMessage(tag), WvwNameSet(roster))
  {
    var written := before + [ReportSet(Gw2Prefix, WvwInsteadMessage(tag), WvwNameSet(roster))];
    assert ChoiceSection(before, tag, roster, Some(a), server) == AllianceSettings(written, tag, NameSet(roster), a, server);
    AllianceKeepsTwo(written, tag, NameSet(roster), a, server);
  }

  /** The alliance part keeps the two records written before it. */
  lemma AllianceKeepsTwo(written: seq<LogRecord>, tag: string, g: set<string>, a: map<string, string>, server: Gw2Server)
    requires |written| == 2
    ensures var out := AllianceSettings(written, tag, g, a, server);
            |out.records| >= 2 && out.records[0] == written[0] && out.records[1] == written[1]
  {
    AllianceOnlyAppends(written, tag, g, a, server);
  }

  /** Iterates a set: some order, each element once. */
  method Enumerate(s: set<string>) returns (e: seq<string>)
    ensures Enumerates(e, s)
  {
    e := [];
    var rest := s;
    while rest != {}
      invariant rest <= s
      invariant forall i :: 0 <= i < |e| ==> e[i] in s && e[i] !in rest
      invariant forall y :: y in s && y !in rest ==> y in e
      invariant forall i, j :: 0 <= i < j < |e| ==> e[i] != e[j]
      decreases rest
    {
      var x :| x in rest;
      e := e + [x];
      rest := rest - {x};
    }
  }

  /** `report_members` on a set with the default level and sorting. */
  method ReportSetMethod(prefix: string, message: string, s: set<string>) returns (r: LogRecord)
    ensures r == ReportSet(prefix, message, s)
  {
    var e := Enumerate(s);
    ReportSetAnyOrder(prefix, message, e, s);
    r := ReportMembers(prefix, message, e, Warning, true, false);
  }

  /** `str(s)` for a set of names. */
  method RenderSet(s: set<string>) returns (text: string)
    ensures text == SetRepr(s)
  {
    if s == {} {
      return "set()";
    }
    var e := Enumerate(s);
    SortEnumeration(e, s);
    text := "{" + Join(Quoted(SortStrings(e)), ", ") + "}";
  }

  /** The report run: the records it writes are those of `GuildGw2Report`,
      even though both guild objects share one header table. */
  method ReportGuildGw2(gs: GuildSettings, alliance: Option<map<string, string>>, server: Gw2Server,
                        keyTable: HeaderTable, guildTable: HeaderTable)
    returns (out: Outcome)
    requires keyTable != guildTable
    requires FromDefaults(keyTable.headers) && FromDefaults(guildTable.headers)
    modifies keyTable, guildTable
    ensures out == GuildGw2Report(gs, alliance, server)
  {
    TokenAfterDefaults(keyTable.headers, gs.apiKey);
    TokenAfterDefaults(guildTable.headers, gs.apiKey);
    var built := NewGw2Guild(gs.name, gs.gid, gs.apiKey, server, keyTable, guildTable);
    if built.Failure? {
      return Outcome([], Some(ConstructionFailed(built.error)));
    }
    out := GuildRun(built.value, alliance, server, keyTable, guildTable);
  }

  /** Everything after the guild object is built. */
  method GuildRun(guild: Gw2Guild, alliance: Option<map<string, string>>, server: Gw2Server,
                  keyTable: HeaderTable, guildTable: HeaderTable)
    returns (out: Outcome)
    requires keyTable != guildTable && guild.table == guildTable && guild.server == server
    requires FromDefaults(keyTable.headers) && FromDefaults(guildTable.headers)
    requires guild.Valid() && guild.infoCache.None? && guild.profileCache.None?
    requires guild.membersCache.None? && guild.wvwMembersCache.None?
    modifies keyTable, guildTable, guild
    ensures out == GuildSection(StatusCheck(server.guildInfo(old(guildTable.headers), guild.gid)),
                                StatusCheck(server.guildMembers(old(guildTable.headers), guild.gid)),
                                alliance, server)
  {
    var info := guild.Info();
    if info.Failure? {
      return Outcome([], Some(RequestError(info.error)));
    }
    var tag := info.value.tag;
    var members := guild.Members();
    if members.Failure? {
      return Outcome([], Some(RequestError(members.error)));
    }
    out := ChoiceRun([LogRecord(Info, MembersNumberLine(tag, |members.value|))], tag, guild, alliance, server,
                     keyTable, guildTable);
  }

  /** The World vs World choice and the alliance part, once the guild's
      roster is kept. */
  method ChoiceRun(before: seq<LogRecord>, tag: string, guild: Gw2Guild, alliance: Option<map<string, string>>,
                   server: Gw2Server, keyTable: HeaderTable, guildTable: HeaderTable)
    returns (out: Outcome)
    requires keyTable != guildTable
    requires FromDefaults(keyTable.headers) && FromDefaults(guildTable.headers)
    requires guild.Valid() && guild.profileCache.Some? && guild.membersCache.Some?
    modifies keyTable, guildTable, guild
    ensures out == ChoiceSection(before, tag, old(guild.profileCache.value), alliance, server)
  {
    var members := guild.Members();
    var wvw := guild.WvwMembers();
    if alliance.None? || alliance.value == map[] {
      var r := ReportSetMethod(Gw2Prefix, NoWvwMessage(tag), members.value - wvw.value);
      return Outcome(before + [r], None);
    }
    var r := ReportSetMethod(Gw2Prefix, WvwInsteadMessage(tag), wvw.value);
    var records := before + [r];
    var a := alliance.value;
    if "api_key" !in a {
      return Outcome(records, None);
    }
    if "name" !in a {
      return Outcome(records, Some(MissingSetting("name")));
    }
    if "gid" !in a {
      return Outcome(records, Some(MissingSetting("gid")));
    }
    out := AllianceRun(records, tag, guild, a["name"], a["gid"], a["api_key"], server, keyTable, guildTable);
  }

  /** The alliance part of the run; the guild object only answers from
      what it has kept by now. */
  method AllianceRun(before: seq<LogRecord>, tag: string, guild: Gw2Guild,
                     name: string, gid: string, key: string, server: Gw2Server,
                     keyTable: HeaderTable, guildTable: HeaderTable)
    returns (out: Outcome)
    requires keyTable != guildTable
    requires FromDefaults(keyTable.headers) && FromDefaults(guildTable.headers)
    requires guild.Valid() && guild.membersCache.Some?
    modifies keyTable, guildTable, guild
    ensures out == AllianceReport(before, tag, old(guild.membersCache.value), name, gid, key, server)
  {
    TokenAfterDefaults(keyTable.headers, key);
    TokenAfterDefaults(guildTable.headers, key);
    var built := NewGw2Guild(name, gid, key, server, keyTable, guildTable);
    if built.Failure? {
      return Outcome(before, Some(ConstructionFailed(built.error)));
    }
    var g := guild.Members();
    out := MembershipRun(before, tag, g.value, built.value);
  }

  /** The membership differences and the rank checks, with the alliance
      object just built. */
  method MembershipRun(before: seq<LogRecord>, tag: string, g: set<string>, alliance: Gw2Guild)
    returns (out: Outcome)
    requires alliance.Valid() && alliance.profileCache.None? && alliance.ranksCache.None?
    requires alliance.membersCache.None? && alliance.wvwMembersCache.None?
    modifies alliance
    ensures var server, headers, gid := alliance.server, alliance.table.headers, alliance.gid;
            out == MembershipSection(before, tag, g, StatusCheck(server.guildMembers(headers, gid)),
                                     StatusCheck(server.guildRanks(headers, gid)))
  {
    var a := alliance.Members();
    if a.Failure? {
      return Outcome(before, Some(RequestError(a.error)));
    }
    out := MembershipReports(before, tag, g, alliance);
  }

  /** The two membership records, once the alliance roster is kept, then
      the rank checks. */
  method MembershipReports(before: seq<LogRecord>, tag: string, g: set<string>, alliance: Gw2Guild)
    returns (out: Outcome)
    requires alliance.Valid() && alliance.profileCache.Some? && alliance.membersCache.Some?
    requires alliance.ranksCache.None?
    modifies alliance
    ensures var roster := old(alliance.profileCache.value);
            var ranks := StatusCheck(alliance.server.guildRanks(alliance.table.headers, alliance.gid));
            out == RankSection(before + MembershipRecords(tag, g, roster), tag, g, roster, ranks)
  {
    ghost var roster := alliance.profileCache.value;
    var a := alliance.Members();
    assert alliance.profileCache == Some(roster) && alliance.ranksCache.None?;
    var aw := alliance.WvwMembers();
    assert alliance.profileCache == Some(roster) && alliance.ranksCache.None?;
    var records := MembershipRecordsOf(tag, g, a.value, aw.value, roster);
    out := RankRun(before + records, tag, g, alliance);
  }

  /** The two membership records from the alliance's name sets. */
  method MembershipRecordsOf(tag: string, g: set<string>, a: set<string>, aw: set<string>,
                             ghost roster: seq<Gw2Member>)
    returns (records: seq<LogRecord>)
    requires a == NameSet(roster) && aw == WvwNameSet(roster)
    ensures records == MembershipRecords(tag, g, roster)
  {
    var notJoined := ReportSetMethod(Gw2Prefix, NotJoinedMessage(tag), g - a);
    var notWvw := ReportSetMethod(Gw2Prefix, NotAllianceWvwMessage(tag), g - (g * aw));
    records := [notJoined, notWvw];
  }

  /** The rank checks, once the alliance roster is kept. */
  method RankRun(before: seq<LogRecord>, tag: string, g: set<string>, alliance: Gw2Guild)
    returns (out: Outcome)
    requires alliance.Valid() && alliance.profileCache.Some? && alliance.ranksCache.None?
    modifies alliance
    ensures out == RankSection(before, tag, g, old(alliance.profileCache.value),
                               StatusCheck(alliance.server.guildRanks(alliance.table.headers, alliance.gid)))
  {
    var ranks := alliance.Ranks();
    if ranks.Failure? {
      return Outcome(before, Some(RequestError(ranks.error)));
    }
    var rankNames := set r | r in ranks.value :: Upper(r.id);
    if Upper(tag) !in rankNames {
      var repr := RenderSet(rankNames);
      return Outcome(before + [LogRecord(Info, MissingTagLine(tag) + repr)], None);
    }
    var a := alliance.Members();
    var shared := g * a.value;
    var order := Enumerate(shared);
    var roster := alliance.Profile();
    var wrongRank := WrongRankIterated(tag, order, roster.value);
    var foreignTag := Lines(ForeignTagEntries(tag, shared, roster.value));
    WrongRankReportAnyOrder(Gw2Prefix, WrongRankMessage(tag), tag, order, shared, roster.value);
    out := Outcome(before + [
      ReportMembers(Gw2Prefix, WrongRankMessage(tag), wrongRank, Warning, true, false),
      ReportMembers(Gw2Prefix, ForeignTagMessage(tag), foreignTag, Warning, true, false)], None);
  }
}
