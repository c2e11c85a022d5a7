/** The community (gw2mists) view of a guild: the roster records, the
    member name sets derived from them, the inactive-member filter and the
    weekly leaderboards. Everything here is a pure function of the fetched
    data; the caching object that calls these lives in module Gw2Mists. */
module MistsRoster {
  import opened Ranking

  /** Members with fewer kills than this during the current match are inactive. */
  const InactivePlayerKills := 1000
  /** Length of each leaderboard. */
  const TopStatsMembers := 10
  /** The statistics a leaderboard is built for. */
  const MemberStatsList: seq<string> := ["kills", "captured_targets", "defended_targets", "killed_dolyaks"]

  /** One roster record: `registered` is 1 for a member registered on the
      community site and 0 otherwise; `teamId` is the member's match team. */
  datatype MistsMember = MistsMember(name: string, registered: int, teamId: int)

  /** The answer to `GET /guilds/{name}`: the fields the modelled properties
      read (the tag, member count and display flags feed only the report
      driver, which is not part of this model). */
  datatype MistsGuildProfile = MistsGuildProfile(teamId: int, member: seq<MistsMember>)

  /** The `stats` object of a member's profile page. */
  datatype Stats = Stats(kills: int, capturedTargets: int, defendedTargets: int, killedDolyaks: int)

  /** A member's profile page, tagged with the name it was requested for. */
  datatype MemberProfile = MemberProfile(name: string, stats: Stats)

  /** The roster a guild profile can be trusted to hold: one record per
      name, and every `registered` flag 0 or 1. */
  ghost predicate WellFormedRoster(roster: seq<MistsMember>) {
    && (forall i, j :: 0 <= i < j < |roster| ==> roster[i].name != roster[j].name)
    && (forall m :: m in roster ==> m.registered == 0 || m.registered == 1)
  }

  // The derived sets, one per memoised property of the guild object.

  function MemberNames(roster: seq<MistsMember>): set<string> {
    set m | m in roster :: m.name
  }

  function UnregisteredNames(roster: seq<MistsMember>): set<string> {
    set m | m in roster && m.registered == 0 :: m.name
  }

  function RegisteredNames(roster: seq<MistsMember>): set<string> {
    set m | m in roster && m.registered == 1 :: m.name
  }

  /** Names having a record whose team differs from the guild's. */
  function OffTeamNames(roster: seq<MistsMember>, teamId: int): set<string> {
    set m | m in roster && m.teamId != teamId :: m.name
  }

  function WrongTeamNames(roster: seq<MistsMember>, teamId: int): set<string> {
    OffTeamNames(roster, teamId) - UnregisteredNames(roster)
  }

  function CurrentMatchNames(roster: seq<MistsMember>, teamId: int): set<string> {
    RegisteredNames(roster) - WrongTeamNames(roster, teamId)
  }

  /** The names whose record carries a flag of 0 or 1. */
  function FlaggedNames(roster: seq<MistsMember>): set<string> {
    set m | m in roster && (m.registered == 0 || m.registered == 1) :: m.name
  }

  /** Registered and unregistered names together are exactly the names
      flagged 0 or 1; a record with any other flag is in neither. */
  lemma RegistrationCovers(roster: seq<MistsMember>)
    ensures RegisteredNames(roster) + UnregisteredNames(roster) == FlaggedNames(roster)
  {
  }

  /** Two records of a well-formed roster with the same name are the same record. */
  lemma SameNameSameRecord(roster: seq<MistsMember>, a: MistsMember, b: MistsMember)
    requires WellFormedRoster(roster)
    requires a in roster && b in roster && a.name == b.name
    ensures a == b
  {
    var i :| 0 <= i < |roster| && roster[i] == a;
    var j :| 0 <= j < |roster| && roster[j] == b;
    assert i == j;
  }

  /** In a well-formed roster a record is the only one with its name. */
  lemma OnlyRecord(roster: seq<MistsMember>, a: MistsMember)
    requires WellFormedRoster(roster) && a in roster
    ensures forall b :: b in roster && b.name == a.name ==> b == a
  {
    forall b | b in roster && b.name == a.name ensures b == a {
      SameNameSameRecord(roster, a, b);
    }
  }

  /** On a well-formed roster the registered and the unregistered names
      split the members. */
  lemma RegistrationPartition(roster: seq<MistsMember>)
    requires WellFormedRoster(roster)
    ensures RegisteredNames(roster) + UnregisteredNames(roster) == MemberNames(roster)
    ensures RegisteredNames(roster) !! UnregisteredNames(roster)
  {
    forall n | n in RegisteredNames(roster) ensures n !in UnregisteredNames(roster) {
      var a :| a in roster && a.registered == 1 && a.name == n;
      OnlyRecord(roster, a);
    }
  }

  /** Every wrong-team name is registered once flags are 0 or 1, and none
      is ever unregistered. */
  lemma WrongTeamRegistered(roster: seq<MistsMember>, teamId: int)
    requires forall m :: m in roster ==> m.registered == 0 || m.registered == 1
    ensures WrongTeamNames(roster, teamId) <= RegisteredNames(roster)
    ensures WrongTeamNames(roster, teamId) !! UnregisteredNames(roster)
  {
    forall n | n in WrongTeamNames(roster, teamId) ensures n in RegisteredNames(roster) {
      var m :| m in roster && m.teamId != teamId && m.name == n;
      assert m.registered != 0;
    }
  }

  /** On a well-formed roster: the wrong-team names are exactly the
      registered members on another team, and the current-match names
      exactly the registered members on the guild's team. */
  lemma {:induction false} TeamCharacterisation(roster: seq<MistsMember>, teamId: int)
    requires WellFormedRoster(roster)
    ensures WrongTeamNames(roster, teamId) == set m | m in roster && m.registered == 1 && m.teamId != teamId :: m.name
    ensures CurrentMatchNames(roster, teamId) == set m | m in roster && m.registered == 1 && m.teamId == teamId :: m.name
  {
    var wrong := set m | m in roster && m.registered == 1 && m.teamId != teamId :: m.name;
    var current := set m | m in roster && m.registered == 1 && m.teamId == teamId :: m.name;
    forall n | n in WrongTeamNames(roster, teamId) ensures n in wrong {
      var m :| m in roster && m.teamId != teamId && m.name == n;
      assert m.registered != 0;
    }
    forall n | n in wrong ensures n in WrongTeamNames(roster, teamId) {
      var m :| m in roster && m.registered == 1 && m.teamId != teamId && m.name == n;
      OnlyRecord(roster, m);
    }
    forall n | n in CurrentMatchNames(roster, teamId) ensures n in current {
      var m :| m in roster && m.registered == 1 && m.name == n;
      OnlyRecord(roster, m);
    }
    forall n | n in current ensures n in CurrentMatchNames(roster, teamId) {
      var m :| m in roster && m.registered == 1 && m.teamId == teamId && m.name == n;
      OnlyRecord(roster, m);
    }
  }

  /** On a well-formed roster every member is in exactly one of the
      unregistered, wrong-team and current-match sets. */
  lemma MembershipPartition(roster: seq<MistsMember>, teamId: int)
    requires WellFormedRoster(roster)
    ensures MemberNames(roster) == UnregisteredNames(roster) + WrongTeamNames(roster, teamId) + CurrentMatchNames(roster, teamId)
    ensures UnregisteredNames(roster) !! WrongTeamNames(roster, teamId)
    ensures UnregisteredNames(roster) !! CurrentMatchNames(roster, teamId)
    ensures WrongTeamNames(roster, teamId) !! CurrentMatchNames(roster, teamId)
  {
    RegistrationPartition(roster);
    WrongTeamRegistered(roster, teamId);
  }

  /** The three-member example: A registered on the guild's team 7, B not
      registered, C registered on team 9. */
  lemma ThreeMemberExample()
    ensures var roster := [MistsMember("A", 1, 7), MistsMember("B", 0, 9), MistsMember("C", 1, 9)];
      && UnregisteredNames(roster) == {"B"}
      && WrongTeamNames(roster, 7) == {"C"}
      && RegisteredNames(roster) == {"A", "C"}
      && CurrentMatchNames(roster, 7) == {"A"}
  {
    var a, b, c := MistsMember("A", 1, 7), MistsMember("B", 0, 9), MistsMember("C", 1, 9);
    var roster := [a, b, c];
    assert forall m :: m in roster <==> m == a || m == b || m == c;
    assert "A" != "B" && "A" != "C" && "B" != "C";
    assert UnregisteredNames(roster) == {"B"};
    assert RegisteredNames(roster) == {"A", "C"};
    assert OffTeamNames(roster, 7) == {"B", "C"};
  }

  // Member profiles, inactivity and leaderboards.

  ghost predicate UniqueNames(ps: seq<MemberProfile>) {
    forall i, j :: 0 <= i < j < |ps| ==> ps[i].name != ps[j].name
  }

  /** The name-keyed dict `{p.name: p for p in ps}`: later entries win. */
  function ProfilesMap(ps: seq<MemberProfile>): (m: map<string, Stats>)
    ensures m.Keys == set p | p in ps :: p.name
  {
    if |ps| == 0 then map[]
    else
      var last := ps[|ps| - 1];
      assert ps == ps[..|ps| - 1] + [last];
      ProfilesMap(ps[..|ps| - 1])[last.name := last.stats]
  }

  /** With one profile per name, the dict holds every profile's stats. */
  lemma {:induction false} ProfilesMapLookup(ps: seq<MemberProfile>, i: nat)
    requires UniqueNames(ps) && i < |ps|
    ensures ProfilesMap(ps)[ps[i].name] == ps[i].stats
  {
    if i < |ps| - 1 {
      ProfilesMapLookup(ps[..|ps| - 1], i);
    }
  }

  /** The profiles fetched for `names`: one per name, in some order, each
      holding what that member's profile page returned. */
  ghost predicate IsProfilesOf(ps: seq<MemberProfile>, names: set<string>, pages: map<string, Stats>) {
    && UniqueNames(ps)
    && (set p | p in ps :: p.name) == names
    && (forall p :: p in ps ==> p.name in pages && p.stats == pages[p.name])
  }

  /** Whatever order the profiles were fetched in, the name-keyed dict is
      the pages of exactly the requested names. */
  lemma ProfilesOfPages(ps: seq<MemberProfile>, names: set<string>, pages: map<string, Stats>)
    requires IsProfilesOf(ps, names, pages)
    ensures names <= pages.Keys
    ensures ProfilesMap(ps).Keys == names
    ensures forall n :: n in names ==> ProfilesMap(ps)[n] == pages[n]
  {
    forall n | n in names ensures n in pages && ProfilesMap(ps)[n] == pages[n] {
      var p :| p in ps && p.name == n;
      var i :| 0 <= i < |ps| && ps[i] == p;
      ProfilesMapLookup(ps, i);
    }
  }

  /** The inactive members of a fetch for `names`: exactly the requested
      members whose page shows fewer than 1000 kills, with that count. */
  lemma InactiveFromPages(ps: seq<MemberProfile>, names: set<string>, pages: map<string, Stats>)
    requires IsProfilesOf(ps, names, pages)
    ensures names <= pages.Keys
    ensures InactiveKills(ps).Keys <= names
    ensures forall n :: n in InactiveKills(ps) ==> InactiveKills(ps)[n] == pages[n].kills < InactivePlayerKills
    ensures forall n :: n in names && pages[n].kills < InactivePlayerKills ==> n in InactiveKills(ps)
  {
    ProfilesOfPages(ps, names, pages);
  }

  /** `inactive_members`: each profiled member with fewer than 1000 kills,
      mapped to that kill count. */
  function InactiveKills(ps: seq<MemberProfile>): (r: map<string, int>)
    ensures r.Keys <= ProfilesMap(ps).Keys
    ensures forall n :: n in r ==> r[n] == ProfilesMap(ps)[n].kills && r[n] < InactivePlayerKills
    ensures forall n :: n in ProfilesMap(ps) ==> (n in r <==> ProfilesMap(ps)[n].kills < InactivePlayerKills)
  {
    var m := ProfilesMap(ps);
    map n | n in m && m[n].kills < InactivePlayerKills :: m[n].kills
  }

  /** `profile["stats"][stat]` for one of the listed statistics. */
  function StatValue(st: Stats, stat: string): int
    requires stat in MemberStatsList
  {
    if stat == "kills" then st.kills
    else if stat == "captured_targets" then st.capturedTargets
    else if stat == "defended_targets" then st.defendedTargets
    else st.killedDolyaks
  }

  /** `[(name, profile["stats"][stat]) for name, profile in ...items()]`. */
  function StatColumn(ps: seq<MemberProfile>, stat: string): (col: seq<Entry>)
    requires stat in MemberStatsList
    ensures |col| == |ps|
    ensures forall i :: 0 <= i < |ps| ==> col[i] == (ps[i].name, StatValue(ps[i].stats, stat))
  {
    if |ps| == 0 then [] else [(ps[0].name, StatValue(ps[0].stats, stat))] + StatColumn(ps[1..], stat)
  }

  /** `_sorted_members(stat, reverse=True)`: the statistic's column sorted
      best first, cut to its first ten entries. */
  function SortedMembers(ps: seq<MemberProfile>, stat: string): seq<Entry>
    requires stat in MemberStatsList
  {
    Top(StatColumn(ps, stat), TopStatsMembers)
  }

  /** A leaderboard holds the ten best members (all of them when fewer),
      best first, each with its own value; no member left out beats one
      kept; members with equal values keep their profile order. */
  lemma SortedMembersRanked(ps: seq<MemberProfile>, stat: string)
    requires stat in MemberStatsList
    ensures var r := SortedMembers(ps, stat);
            && |r| == Min(TopStatsMembers, |ps|)
            && NonIncreasing(r)
            && multiset(r) <= multiset(StatColumn(ps, stat))
            && (forall i, k ::
                  0 <= i < |ps| && (ps[i].name, StatValue(ps[i].stats, stat)) !in r && 0 <= k < |r| ==>
                  r[k].1 >= StatValue(ps[i].stats, stat))
            && (forall v :: WithValue(r, v) <= WithValue(StatColumn(ps, stat), v))
  {
    var col := StatColumn(ps, stat);
    TopRanked(col, TopStatsMembers);
    assert forall i :: 0 <= i < |ps| ==> col[i] in col;
  }

  /** Every leaderboard entry is a profiled member with that member's value. */
  lemma SortedMembersFromProfiles(ps: seq<MemberProfile>, stat: string, e: Entry)
    requires UniqueNames(ps) && stat in MemberStatsList
    requires e in SortedMembers(ps, stat)
    ensures e.0 in ProfilesMap(ps) && e.1 == StatValue(ProfilesMap(ps)[e.0], stat)
  {
    var col := StatColumn(ps, stat);
    SortedMembersRanked(ps, stat);
    assert e in multiset(col);
    var i :| 0 <= i < |col| && col[i] == e;
    ProfilesMapLookup(ps, i);
    assert ps[i] in ps;
  }

  /** The leaderboards of the first `i` listed statistics. */
  function BoardsUpTo(ps: seq<MemberProfile>, i: nat): map<string, seq<Entry>>
    requires i <= |MemberStatsList|
  {
    if i == 0 then map[]
    else BoardsUpTo(ps, i - 1)[MemberStatsList[i - 1] := SortedMembers(ps, MemberStatsList[i - 1])]
  }

  /** `top_week`: one leaderboard per listed statistic. */
  function Leaderboards(ps: seq<MemberProfile>): map<string, seq<Entry>> {
    BoardsUpTo(ps, |MemberStatsList|)
  }

  lemma {:induction false} BoardsUpToKeys(ps: seq<MemberProfile>, i: nat)
    requires i <= |MemberStatsList|
    ensures BoardsUpTo(ps, i).Keys == set j | 0 <= j < i :: MemberStatsList[j]
  {
    if i > 0 {
      BoardsUpToKeys(ps, i - 1);
    }
  }

  lemma {:induction false} BoardsUpToValues(ps: seq<MemberProfile>, i: nat, j: nat)
    requires j < i <= |MemberStatsList|
    ensures MemberStatsList[j] in BoardsUpTo(ps, i)
    ensures BoardsUpTo(ps, i)[MemberStatsList[j]] == SortedMembers(ps, MemberStatsList[j])
  {
    if j < i - 1 {
      BoardsUpToValues(ps, i - 1, j);
    }
  }

  /** The `top_week` map has exactly the four listed statistics as keys, and
      each maps to that statistic's leaderboard. */
  lemma LeaderboardsKeys(ps: seq<MemberProfile>)
    ensures Leaderboards(ps).Keys == {"kills", "captured_targets", "defended_targets", "killed_dolyaks"}
    ensures forall stat :: stat in Leaderboards(ps) ==>
              stat in MemberStatsList && Leaderboards(ps)[stat] == SortedMembers(ps, stat)
  {
    BoardsUpToKeys(ps, |MemberStatsList|);
    assert (set j | 0 <= j < 4 :: MemberStatsList[j])
        == {"kills", "captured_targets", "defended_targets", "killed_dolyaks"} by {
      assert MemberStatsList[0] == "kills" && MemberStatsList[1] == "captured_targets";
      assert MemberStatsList[2] == "defended_targets" && MemberStatsList[3] == "killed_dolyaks";
    }
    forall stat | stat in Leaderboards(ps)
      ensures stat in MemberStatsList && Leaderboards(ps)[stat] == SortedMembers(ps, stat)
    {
      var j :| 0 <= j < 4 && MemberStatsList[j] == stat;
      BoardsUpToValues(ps, 4, j);
    }
  }
}
