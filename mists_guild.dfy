/** The community-API guild object: every property is computed on first
    access, stored in its own slot and returned from there afterwards. The
    network is replaced by what it answers: `remote` for the guild profile
    and `pages` for the per-member profile pages. */
module Gw2Mists {
  import opened Wrappers
  import opened Ranking
  import opened MistsRoster

  /** A member profile request that failed; the batch stops there. */
  datatype FetchError = ProfilePageFailed(name: string)

  class MistsGuild {
    const guildName: string
    /** The answer to `GET /guilds/{guildName}`. */
    const remote: MistsGuildProfile
    /** The answer to `GET /profile/{name}`, by name; a name absent here is
        a request that fails. */
    const pages: map<string, Stats>

    var profileCache: Option<MistsGuildProfile>
    var unregisteredCache: Option<set<string>>
    var teamIdCache: Option<int>
    var wrongteamCache: Option<set<string>>
    var registeredCache: Option<set<string>>
    var currentmatchCache: Option<set<string>>
    var membersProfilesCache: Option<seq<MemberProfile>>
    var inactiveCache: Option<map<string, int>>
    var membersCache: Option<set<string>>
    var topWeekCache: Option<map<string, seq<Entry>>>
    /** Number of guild-profile requests made so far. */
    ghost var profileFetches: nat

    /** Each filled slot holds its derivation from the fetched data, a
        derived slot is only filled once the slots it reads are, and the
        guild profile has been requested at most once. */
    ghost predicate Valid()
      reads this
    {
      && profileFetches == (if profileCache.Some? then 1 else 0)
      && (profileCache.Some? ==> profileCache.value == remote)
      && (unregisteredCache.Some? ==>
            profileCache.Some? && unregisteredCache.value == UnregisteredNames(remote.member))
      && (membersCache.Some? ==> profileCache.Some? && membersCache.value == MemberNames(remote.member))
      && (teamIdCache.Some? ==> profileCache.Some? && teamIdCache.value == remote.teamId)
      && (wrongteamCache.Some? ==>
            unregisteredCache.Some? && wrongteamCache.value == WrongTeamNames(remote.member, remote.teamId))
      && (registeredCache.Some? ==>
            profileCache.Some? && registeredCache.value == RegisteredNames(remote.member))
      && (currentmatchCache.Some? ==>
            registeredCache.Some? && wrongteamCache.Some?
            && currentmatchCache.value == CurrentMatchNames(remote.member, remote.teamId))
      && (membersProfilesCache.Some? ==>
            registeredCache.Some?
            && IsProfilesOf(membersProfilesCache.value, RegisteredNames(remote.member), pages))
      && (inactiveCache.Some? ==>
            membersProfilesCache.Some? && inactiveCache.value == InactiveKills(membersProfilesCache.value))
      && (topWeekCache.Some? ==>
            membersProfilesCache.Some? && topWeekCache.value == Leaderboards(membersProfilesCache.value))
    }

    constructor(guildName: string, remote: MistsGuildProfile, pages: map<string, Stats>)
      ensures Valid()
      ensures this.guildName == guildName && this.remote == remote && this.pages == pages
      ensures profileCache == None && unregisteredCache == None && teamIdCache == None
      ensures wrongteamCache == None && registeredCache == None && currentmatchCache == None
      ensures membersProfilesCache == None && inactiveCache == None && membersCache == None
      ensures topWeekCache == None
    {
      this.guildName := guildName;
      this.remote := remote;
      this.pages := pages;
      profileCache, unregisteredCache, teamIdCache := None, None, None;
      wrongteamCache, registeredCache, currentmatchCache := None, None, None;
      membersProfilesCache, inactiveCache, membersCache, topWeekCache := None, None, None, None;
      profileFetches := 0;
    }

    /** `profile`: requested on the first access only. */
    method Profile() returns (p: MistsGuildProfile)
      requires Valid()
      modifies this`profileCache, this`profileFetches
      ensures Valid()
      ensures p == remote && profileCache == Some(remote)
      ensures profileFetches == old(profileFetches) + (if old(profileCache).None? then 1 else 0)
    {
      if profileCache.None? {
        profileFetches := profileFetches + 1;
        profileCache := Some(remote);
      }
      p := profileCache.value;
    }

    /** `members`: the names on the roster. */
    method Members() returns (s: set<string>)
      requires Valid()
      modifies this`profileCache, this`profileFetches, this`membersCache
      ensures Valid()
      ensures s == MemberNames(remote.member) && membersCache == Some(s) && profileCache == Some(remote)
      ensures old(membersCache).Some? ==> unchanged(this)
    {
      if membersCache.None? {
        var p := Profile();
        membersCache := Some(MemberNames(p.member));
      }
      s := membersCache.value;
    }

    /** `unregistered_members`: the names whose `registered` flag is 0. */
    method UnregisteredMembers() returns (s: set<string>)
      requires Valid()
      modifies this`profileCache, this`profileFetches, this`unregisteredCache
      ensures Valid()
      ensures s == UnregisteredNames(remote.member) && unregisteredCache == Some(s)
      ensures profileCache == Some(remote)
      ensures old(unregisteredCache).Some? ==> unchanged(this)
    {
      if unregisteredCache.None? {
        var p := Profile();
        unregisteredCache := Some(UnregisteredNames(p.member));
      }
      s := unregisteredCache.value;
    }

    /** `registered_members`: the names whose `registered` flag is 1. */
    method RegisteredMembers() returns (s: set<string>)
      requires Valid()
      modifies this`profileCache, this`profileFetches, this`registeredCache
      ensures Valid()
      ensures s == RegisteredNames(remote.member) && registeredCache == Some(s)
      ensures profileCache == Some(remote)
      ensures old(registeredCache).Some? ==> unchanged(this)
    {
      if registeredCache.None? {
        var p := Profile();
        registeredCache := Some(RegisteredNames(p.member));
      }
      s := registeredCache.value;
    }

    /** `team_id`: the guild's team in the current match. */
    method TeamId() returns (t: int)
      requires Valid()
      modifies this`profileCache, this`profileFetches, this`teamIdCache
      ensures Valid()
      ensures t == remote.teamId && teamIdCache == Some(t) && profileCache == Some(remote)
      ensures old(teamIdCache).Some? ==> unchanged(this)
    {
      if teamIdCache.None? {
        var p := Profile();
        teamIdCache := Some(p.teamId);
      }
      t := teamIdCache.value;
    }

    /** `wrongteam_members`: the names with a record on another team than
        the guild's, less the unregistered names. The guild's team is read
        through `team_id` once per roster record, so an empty roster leaves
        that slot as it was. */
    method WrongteamMembers() returns (s: set<string>)
      requires Valid()
      modifies this`profileCache, this`profileFetches, this`teamIdCache
      modifies this`unregisteredCache, this`wrongteamCache
      ensures Valid()
      ensures s == WrongTeamNames(remote.member, remote.teamId) && wrongteamCache == Some(s)
      ensures unregisteredCache == Some(UnregisteredNames(remote.member))
      ensures old(wrongteamCache).Some? ==> unchanged(this)
      ensures old(wrongteamCache).None? ==>
                profileCache == Some(remote)
                && teamIdCache == (if |remote.member| > 0 then Some(remote.teamId) else old(teamIdCache))
    {
      if wrongteamCache.Some? {
        s := wrongteamCache.value;
        return;
      }
      var p := Profile();
      var roster := p.member;
      var offTeam: set<string> := {};
      var i := 0;
      while i < |roster|
        invariant 0 <= i <= |roster|
        invariant Valid() && profileCache == Some(remote) && roster == remote.member
        invariant offTeam == OffTeamNames(roster[..i], remote.teamId)
        invariant teamIdCache == (if i > 0 then Some(remote.teamId) else old(teamIdCache))
        invariant unregisteredCache == old(unregisteredCache) && wrongteamCache == None
      {
        var t := TeamId();
        assert roster[..i + 1] == roster[..i] + [roster[i]];
        if roster[i].teamId != t {
          offTeam := offTeam + {roster[i].name};
        }
        i := i + 1;
      }
      assert roster[..i] == roster;
      var unregistered := UnregisteredMembers();
      s := offTeam - unregistered;
      wrongteamCache := Some(s);
    }

    /** `currentmatch_members`: the registered names less the wrong-team names. */
    method CurrentmatchMembers() returns (s: set<string>)
      requires Valid()
      modifies this`profileCache, this`profileFetches, this`teamIdCache, this`unregisteredCache
      modifies this`wrongteamCache, this`registeredCache, this`currentmatchCache
      ensures Valid()
      ensures s == CurrentMatchNames(remote.member, remote.teamId) && currentmatchCache == Some(s)
      ensures registeredCache == Some(RegisteredNames(remote.member))
      ensures wrongteamCache == Some(WrongTeamNames(remote.member, remote.teamId))
      ensures old(currentmatchCache).Some? ==> unchanged(this)
      ensures old(wrongteamCache).None? ==>
                teamIdCache == (if |remote.member| > 0 then Some(remote.teamId) else old(teamIdCache))
      ensures old(wrongteamCache).Some? ==> teamIdCache == old(teamIdCache)
    {
      if currentmatchCache.None? {
        var registered := RegisteredMembers();
        var wrongteam := WrongteamMembers();
        currentmatchCache := Some(registered - wrongteam);
      }
      s := currentmatchCache.value;
    }

    /** `members_profiles`: one profile page per registered name, requested
        together, in the (unspecified) iteration order of the name set. The
        first failing request fails the whole batch and nothing is stored. */
    method MembersProfiles() returns (r: Result<seq<MemberProfile>, FetchError>)
      requires Valid()
      modifies this`profileCache, this`profileFetches, this`registeredCache, this`membersProfilesCache
      ensures Valid()
      ensures registeredCache == Some(RegisteredNames(remote.member))
      ensures old(membersProfilesCache).Some? ==> r == Success(old(membersProfilesCache).value) && unchanged(this)
      ensures r.Success? <==> RegisteredNames(remote.member) <= pages.Keys
      ensures r.Success? ==>
                membersProfilesCache == Some(r.value)
                && IsProfilesOf(r.value, RegisteredNames(remote.member), pages)
      ensures r.Failure? ==>
                membersProfilesCache == None
                && r.error.name in RegisteredNames(remote.member) && r.error.name !in pages
    {
      if membersProfilesCache.Some? {
        ProfilesOfPages(membersProfilesCache.value, RegisteredNames(remote.member), pages);
        return Success(membersProfilesCache.value);
      }
      var names := RegisteredMembers();
      var rest := names;
      var fetched: seq<MemberProfile> := [];
      while rest != {}
        invariant Valid() && membersProfilesCache == None
        invariant names == RegisteredNames(remote.member) && registeredCache == Some(names)
        invariant rest <= names
        invariant IsProfilesOf(fetched, names - rest, pages)
        decreases rest
      {
        var n :| n in rest;
        if n !in pages {
          return Failure(ProfilePageFailed(n));
        }
        var page := MemberProfile(n, pages[n]);
        assert forall p :: p in fetched ==> p.name != n;
        assert (set p | p in fetched + [page] :: p.name) == (set p | p in fetched :: p.name) + {n};
        fetched := fetched + [page];
        rest := rest - {n};
      }
      ProfilesOfPages(fetched, names, pages);
      membersProfilesCache := Some(fetched);
      r := Success(fetched);
    }

    /** `inactive_members`: the fetched members with fewer than 1000 kills,
        each with its kill count. */
    method InactiveMembers() returns (r: Result<map<string, int>, FetchError>)
      requires Valid()
      modifies this`profileCache, this`profileFetches, this`registeredCache, this`membersProfilesCache
      modifies this`inactiveCache
      ensures Valid()
      ensures old(inactiveCache).Some? ==> r == Success(old(inactiveCache).value) && unchanged(this)
      ensures r.Success? <==> RegisteredNames(remote.member) <= pages.Keys
      ensures r.Success? ==>
                && membersProfilesCache.Some?
                && r.value == InactiveKills(membersProfilesCache.value)
                && inactiveCache == Some(r.value)
      ensures r.Success? ==> r.value.Keys <= RegisteredNames(remote.member)
      ensures r.Success? ==>
                forall n :: n in r.value ==> n in pages && r.value[n] == pages[n].kills < InactivePlayerKills
      ensures r.Success? ==>
                forall n :: n in RegisteredNames(remote.member) && n in pages && pages[n].kills < InactivePlayerKills
                  ==> n in r.value
      ensures r.Failure? ==> inactiveCache == None && membersProfilesCache == None
    {
      if inactiveCache.Some? {
        InactiveFromPages(membersProfilesCache.value, RegisteredNames(remote.member), pages);
        return Success(inactiveCache.value);
      }
      var fetched := MembersProfiles();
      if fetched.Failure? {
        return Failure(fetched.error);
      }
      InactiveFromPages(fetched.value, RegisteredNames(remote.member), pages);
      inactiveCache := Some(InactiveKills(fetched.value));
      r := Success(inactiveCache.value);
    }

    /** `top_week` as corrected: a leaderboard per listed statistic, filled
        in the order of the list. The member profiles are fetched before the
        slot is touched, so a failed fetch leaves the slot empty and the next
        access tries again; each access is one step of `TopWeekAccess`. The
        source stores an empty dict first, which `TopWeekAccessAsWritten`
        models. */
    method TopWeek() returns (r: Result<map<string, seq<Entry>>, FetchError>)
      requires Valid()
      modifies this`profileCache, this`profileFetches, this`registeredCache, this`membersProfilesCache
      modifies this`topWeekCache
      ensures Valid()
      ensures old(topWeekCache).Some? ==> r == Success(old(topWeekCache).value) && unchanged(this)
      ensures r.Success? <==> RegisteredNames(remote.member) <= pages.Keys
      ensures r.Success? ==>
                && membersProfilesCache.Some?
                && r.value == Leaderboards(membersProfilesCache.value)
                && topWeekCache == Some(r.value)
      ensures r.Failure? ==> topWeekCache == None && membersProfilesCache == None
      ensures r.Failure? ==> Access(r, topWeekCache) == TopWeekAccess(old(topWeekCache), Failure(r.error))
      ensures r.Success? && old(topWeekCache).None? ==>
                Access(r, topWeekCache) == TopWeekAccess(None, Success(membersProfilesCache.value))
    {
      if topWeekCache.Some? {
        ProfilesOfPages(membersProfilesCache.value, RegisteredNames(remote.member), pages);
        return Success(topWeekCache.value);
      }
      var fetched := MembersProfiles();
      if fetched.Failure? {
        return Failure(fetched.error);
      }
      FillTopWeek(fetched.value);
      r := Success(topWeekCache.value);
    }
    /** The loop of `top_week`: the slot starts as an empty dict and gains
        one leaderboard per listed statistic, in the order of the list. */
    method FillTopWeek(ps: seq<MemberProfile>)
      modifies this`topWeekCache
      ensures topWeekCache == Some(Leaderboards(ps))
    {
      topWeekCache := Some(map[]);
      var i := 0;
      while i < |MemberStatsList|
        invariant 0 <= i <= |MemberStatsList|
        invariant topWeekCache == Some(BoardsUpTo(ps, i))
      {
        var stat := MemberStatsList[i];
        topWeekCache := Some(topWeekCache.value[stat := SortedMembers(ps, stat)]);
        i := i + 1;
      }
    }
  }

  /** The outcome of one access to a memoised property: what the caller
      gets, and what the slot holds afterwards. */
  datatype Access = Access(result: Result<map<string, seq<Entry>>, FetchError>, slot: Option<map<string, seq<Entry>>>)

  /** One access to `top_week` as the source writes it: the slot is set to
      an empty dict before the loop that fetches the member profiles, so a
      failing fetch leaves that empty dict behind. */
  function TopWeekAccessAsWritten(
    slot: Option<map<string, seq<Entry>>>,
    fetched: Result<seq<MemberProfile>, FetchError>): Access
  {
    if slot.Some? then Access(Success(slot.value), slot)
    else if fetched.Failure? then Access(Failure(fetched.error), Some(map[]))
    else Access(Success(Leaderboards(fetched.value)), Some(Leaderboards(fetched.value)))
  }

  /** After one failed fetch the source's `top_week` answers every later
      access with an empty dict, even once the profiles can be fetched. */
  lemma TopWeekFailureCachedAsWritten(e: FetchError, ps: seq<MemberProfile>)
    ensures var first := TopWeekAccessAsWritten(None, Failure(e));
            var second := TopWeekAccessAsWritten(first.slot, Success(ps));
            && first.result.Failure?
            && second.result == Success(map[])
            && second.result != Success(Leaderboards(ps))
  {
    LeaderboardsKeys(ps);
  }

  /** One access to `top_week` as intended: a failed fetch stores nothing. */
  function TopWeekAccess(
    slot: Option<map<string, seq<Entry>>>,
    fetched: Result<seq<MemberProfile>, FetchError>): (a: Access)
    ensures a.result.Failure? ==> a.slot == slot
    ensures a.result.Success? ==> a.slot == Some(a.result.value)
    ensures slot.None? && fetched.Success? ==> a.result == Success(Leaderboards(fetched.value))
  {
    if slot.Some? then Access(Success(slot.value), slot)
    else if fetched.Failure? then Access(Failure(fetched.error), None)
    else Access(Success(Leaderboards(fetched.value)), Some(Leaderboards(fetched.value)))
  }

  /** As intended, an access after a failed one returns the leaderboards. */
  lemma TopWeekRetriesAfterFailure(e: FetchError, ps: seq<MemberProfile>)
    ensures var first := TopWeekAccess(None, Failure(e));
            var second := TopWeekAccess(first.slot, Success(ps));
            first.result.Failure? && second.result == Success(Leaderboards(ps))
  {
  }
}
