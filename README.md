# Guild manager core, modelled in Dafny

This project models the core of `guild_manager.py`, a tool that reports on a
Guild Wars 2 guild from two sources:

- the community site gw2mists: the guild roster, registration, match team,
  per-member weekly statistics, inactive members and weekly leaderboards;
- the official Guild Wars 2 API: key permissions, the guild roster, its
  World vs World choice, the alliance roster and the alliance ranks.

Properties on the objects of both sources are computed on first access,
then kept and returned from their slot afterwards. The official-API
classes send every request with a header dictionary that belongs to the
class, and every constructor writes its key into it.

Files and modules:

- `wrappers.dfy` (`Wrappers`): `Option` and `Result`.
- `text.dfy` (`Text`): text helpers.
  - ASCII `str.upper`;
  - `", ".join`;
  - `%d` rendering;
  - Python's code-point string order and `sorted` on strings;
  - splitting a text into lines;
  - the enumeration of a set in some order.
- `ranking.dfy` (`Ranking`): tallying and ranking.
  - `sorted(..., key=value, reverse=True)` on `(name, value)` pairs, which is stable;
  - the top-N cut;
  - `Counter(...).most_common()`.
- `mists_roster.dfy` (`MistsRoster`): the gw2mists data as pure functions.
  - the roster records and the name sets derived from them;
  - the name-keyed profile dict;
  - the inactive filter;
  - `_sorted_members` and the weekly leaderboards.
- `mists_guild.dfy` (`Gw2Mists`): `GW2MISTS_GUILD` as a class.
  - one `Option` slot per memoised property, each property a method that
    fills its slot;
  - the guild profile request is counted, so the model shows it is made
    at most once;
  - `top_week` is a loop that fills the leaderboard map stat by stat.
- `gw2_guild.dfy` (`Gw2Guild`): the official-API classes.
  - `status_check`;
  - the two class-level header dictionaries, each a shared `HeaderTable`
    object;
  - `GW2_API_KEY`;
  - `GW2_GUILD` with its permission check and its cached properties.
- `reports.dfy` (`Reports`): what gets logged.
  - `report_members`;
  - the set algebra and the two rank-compliance lists of `report_guild_gw2`;
  - the alliance rank tally of `report_alliance`.
- `guild_report.dfy` (`GuildReport`): `report_guild_gw2` as a method.
  - It runs the two `GW2_GUILD` objects against the shared header tables.
  - It is proved to write exactly the records of a specification in which
    every guild's requests carry that guild's own token.

How the outside world appears in the model:

- The network is a parameter.
  - The gw2mists guild profile is a value.
  - The member profile pages are a map, where a missing name is a request
    that fails.
  - The official API is a `Gw2Server` of functions from the headers
    actually sent, and the guild id, to a reply with a status, a reason,
    the JSON `text` field and a body.
- Logging is the list of `LogRecord`s a report writes.
- An exception ends a report with an error value after the records
  already written.

`API_HEADERS` is a class attribute, one dict per class, that every
`GW2_API_KEY` and `GW2_GUILD` constructor writes its bearer token into
(`guild_manager.py:197`, `guild_manager.py:256`). The model keeps one
`HeaderTable` object per class, shared by every instance. So a guild object
built earlier sends its later, uncached requests with the key of the last
guild constructed: `Gw2Guild.LastConstructorWins` proves that guild A's
roster request, made after guild B is constructed, carries B's token.
`GuildReport.ReportGuildGw2` proves that `report_guild_gw2` nonetheless
writes the same records and raises the same error as a report in which
each guild's requests carry that guild's own key, because it reads
everything it needs from the guild before it constructs the alliance.

## Model

| member | source | states |
|---|---|---|
| MistsRoster.RegistrationCovers | guild_manager.py:90-138 | registered and unregistered names together are exactly the names flagged 1 or 0; a record with another flag is in neither set |
| MistsRoster.RegistrationPartition | guild_manager.py:90-138 | when names are unique and flags are 0/1, registered and unregistered members split the member set into two disjoint parts |
| MistsRoster.WrongTeamRegistered | guild_manager.py:116-126 | wrong-team members are registered and never unregistered |
| MistsRoster.TeamCharacterisation | guild_manager.py:116-146 | wrong-team members are exactly the registered ones of another team, and current-match members exactly the registered ones of the guild's team |
| MistsRoster.MembershipPartition | guild_manager.py:90-146 | every member is exactly one of unregistered, wrong-team or current-match |
| MistsRoster.ThreeMemberExample | guild_manager.py:90-146 | on a three-record roster the four sets come out as {B}, {C}, {A, C} and {A} |
| MistsRoster.ProfilesMap | guild_manager.py:151-156 | the keys of the name-keyed profile dict are the fetched names |
| MistsRoster.ProfilesMapLookup | guild_manager.py:151-156 | with unique names, each name maps to its own profile's statistics |
| MistsRoster.ProfilesOfPages | guild_manager.py:148-157 | whatever order the fan-out returned, the dict maps exactly the registered names to their pages |
| MistsRoster.InactiveKills | guild_manager.py:159-167 | a member is inactive iff its kills are below 1000, and it is mapped to those kills |
| MistsRoster.InactiveFromPages | guild_manager.py:159-167 | inactive members are the registered names whose page shows fewer than 1000 kills, each mapped to its page's kills |
| MistsRoster.StatColumn | guild_manager.py:171-175 | one (name, value of the stat) pair per profile, in dict order |
| MistsRoster.SortedMembersRanked | guild_manager.py:170-178 | the leaderboard has min(10, n) entries, in non-increasing order, all taken from the column; no entry left out beats one kept; entries of equal value keep the dict order |
| MistsRoster.SortedMembersFromProfiles | guild_manager.py:170-178 | every leaderboard entry is a member's name with that member's value of the stat |
| MistsRoster.BoardsUpToKeys | guild_manager.py:182-185 | after i rounds of the loop, the map's keys are the first i stats |
| MistsRoster.BoardsUpToValues | guild_manager.py:182-185 | after i rounds of the loop, every stat already handled maps to its leaderboard |
| MistsRoster.LeaderboardsKeys | guild_manager.py:23-28 | the weekly map has exactly the four stats as keys, each with its leaderboard |
| Gw2Mists.MistsGuild.constructor | guild_manager.py:41-52 | a new object keeps its name and answers, with every slot empty |
| Gw2Mists.MistsGuild.Profile | guild_manager.py:84-88 | returns the guild profile; requests it only when the slot is empty, so at most once in the object's life |
| Gw2Mists.MistsGuild.Members | guild_manager.py:102-108 | returns the roster names and keeps them; a second access changes nothing |
| Gw2Mists.MistsGuild.UnregisteredMembers | guild_manager.py:90-100 | returns the names flagged 0 and keeps them |
| Gw2Mists.MistsGuild.RegisteredMembers | guild_manager.py:128-138 | returns the names flagged 1 and keeps them |
| Gw2Mists.MistsGuild.TeamId | guild_manager.py:110-114 | returns the guild's match team and keeps it |
| Gw2Mists.MistsGuild.WrongteamMembers | guild_manager.py:116-126 | returns the off-team names minus the unregistered ones; the team slot is filled only when the roster is non-empty, as the generator reads it per record |
| Gw2Mists.MistsGuild.CurrentmatchMembers | guild_manager.py:140-146 | returns registered minus wrong-team names and leaves the registered and wrong-team slots filled |
| Gw2Mists.MistsGuild.MembersProfiles | guild_manager.py:148-157 | succeeds iff every registered name has a page; on success keeps exactly those names' pages; on failure keeps nothing and names a registered name without a page |
| Gw2Mists.MistsGuild.InactiveMembers | guild_manager.py:159-167 | succeeds iff the profile fetch does; then returns exactly the registered members below 1000 kills, with their kills |
| Gw2Mists.MistsGuild.TopWeek | guild_manager.py:180-186 | the corrected access of the finding below, not the code as written: succeeds iff the profile fetch does, then returns and keeps the leaderboards; after a failure the slot stays empty; each access is one step of `TopWeekAccess` |
| Gw2Mists.MistsGuild.FillTopWeek | guild_manager.py:182-185 | the loop over the four stats leaves the slot holding the full leaderboard map |
| Gw2Mists.TopWeekFailureCachedAsWritten | guild_manager.py:180-186 | as written: after a failed first access, the second access returns an empty map, not the leaderboards |
| Gw2Mists.TopWeekAccess | guild_manager.py:180-186 | corrected access: a failure leaves the slot as it was; a success keeps the result; from an empty slot it computes the leaderboards |
| Gw2Mists.TopWeekRetriesAfterFailure | guild_manager.py:180-186 | corrected access: after a failed first access, the second returns the leaderboards |
| Ranking.SortDesc | guild_manager.py:171-178 | the result is non-increasing, a permutation of the input, and keeps the input order among equal values |
| Ranking.TopRanked | guild_manager.py:171-178 | the first n of the descending sort: length min(n, len), non-increasing, a sub-multiset, none left out beats one kept, ties in input order |
| Ranking.TopOrdered | guild_manager.py:171-178 | min(n, len) entries are kept, in non-increasing value order |
| Ranking.TopSubset | guild_manager.py:171-178 | the kept entries are a sub-multiset of the input |
| Ranking.TopLeftOut | guild_manager.py:171-178 | no entry left out has a larger value than one kept |
| Ranking.TopStable | guild_manager.py:171-178 | for each value, the kept entries of that value are a prefix of the input's entries of that value, in input order |
| Ranking.Tally | guild_manager.py:678-680 | one entry per distinct value, in first-occurrence order, with its number of occurrences |
| Ranking.MostCommon | guild_manager.py:678-681 | the tally in non-increasing count order, ties in first-occurrence order |
| Ranking.MostCommonCounts | guild_manager.py:676-681 | each entry is a value that occurs, with its count of at least 1, and every value that occurs has an entry |
| Text.Upper | guild_manager.py:605-609 | same length, no lower-case ASCII letter left, each of a-z shifted to its upper case and every other character kept |
| Text.UpperIdempotent | guild_manager.py:586-587 | upper-casing twice is upper-casing once |
| Text.NatToString | guild_manager.py:368 | the `%d` rendering: non-empty, all digits, no leading zero unless it is 0 |
| Text.DecimalRoundTrip | guild_manager.py:368 | reading back the rendered count gives the count |
| Text.LessEqTotal | guild_manager.py:382 | Python's string order is total |
| Text.LessEqAntisymmetric | guild_manager.py:382 | Python's string order is antisymmetric |
| Text.LessEqTransitive | guild_manager.py:382 | Python's string order is transitive |
| Text.SortStrings | guild_manager.py:382 | `sorted` on strings gives a sorted permutation |
| Text.SortedUnique | guild_manager.py:382 | two sorted permutations of the same strings are equal |
| Text.SortStringsOrderIndependent | guild_manager.py:382 | sorting the same strings in any order gives the same list |
| Text.SplitJoin | guild_manager.py:379-384 | joining lines with newlines and splitting the text gives the lines back |
| Text.SortedElements | guild_manager.py:382 | the sorted list of a set's elements, each once |
| Text.SortEnumeration | guild_manager.py:382 | sorting any enumeration of a set gives that set's sorted list |
| Gw2Guild.RewrittenReason | guild_manager.py:266-272 | the reason gains ": " followed by the error text exactly when the status is 400 and the JSON text is non-empty; otherwise it is unchanged |
| Gw2Guild.StatusCheck | guild_manager.py:266-272 | a reply succeeds with its body iff its status is below 400; otherwise the error keeps the status and extends the reason |
| Gw2Guild.BadRequestTextRecoverable | guild_manager.py:204-210 | the error text of a 400 reply can be read back from the raised reason |
| Gw2Guild.HeaderTable.constructor | guild_manager.py:241-243 | a class's header dictionary starts as just `accept: application/json` |
| Gw2Guild.Gw2ApiKey.constructor | guild_manager.py:195-198 | writes the key's bearer token into the class's shared headers |
| Gw2Guild.Gw2ApiKey.Data | guild_manager.py:220-228 | on first access asks tokeninfo with the shared headers as they are now and keeps key and permissions on success; later accesses return what was kept |
| Gw2Guild.PermissionCheck | guild_manager.py:250-255 | the constructor goes on iff tokeninfo succeeded and lists "guilds"; a failed request is re-raised as is |
| Gw2Guild.PermissionMessageShape | guild_manager.py:251-255 | the refusal names the guild and ends with the permissions joined by ", " |
| Gw2Guild.CharactersOnlyRefused | guild_manager.py:250-255 | a key with only "characters" is refused, and the message ends with "characters" |
| Gw2Guild.WvwNamesAreMembers | guild_manager.py:325-331 | World vs World members are members, and a member is outside that set iff none of its records chose the guild |
| Gw2Guild.Gw2Guild.constructor | guild_manager.py:256-261 | writes the bearer token into the shared guild headers, with every slot empty |
| Gw2Guild.Gw2Guild.Profile | guild_manager.py:282-292 | on first access requests the members endpoint with the shared headers as they are now, and keeps the roster only on success |
| Gw2Guild.Gw2Guild.Info | guild_manager.py:294-302 | the same for the guild endpoint |
| Gw2Guild.Gw2Guild.Ranks | guild_manager.py:304-317 | the same for the ranks endpoint |
| Gw2Guild.Gw2Guild.Members | guild_manager.py:319-323 | the name set of the kept roster; a request failure propagates and keeps nothing |
| Gw2Guild.Gw2Guild.WvwMembers | guild_manager.py:325-331 | the names whose record has `wvw_member`, from the kept roster |
| Gw2Guild.TokenHeaders | guild_manager.py:241-256 | the headers after a key is written into a default table: accept plus the key's bearer token |
| Gw2Guild.NewGw2Guild | guild_manager.py:245-261 | builds the key object, then raises exactly when the permission check fails, leaving the guild headers untouched; otherwise writes the token and returns a fresh guild with empty slots |
| Gw2Guild.LastConstructorWins | guild_manager.py:241-256 | after guilds A then B are built, A's roster request carries B's token and gets the server's answer to it |
| Reports.Arrows | guild_manager.py:379-384 | each shown member becomes "-> " followed by its name |
| Reports.ReportMembers | guild_manager.py:368-385 | an empty list logs the count at info level whatever the level asked; the text opens with "prefix: message: count"; it is that header alone iff the list is empty or only the number is asked |
| Reports.UnarrowArrows | guild_manager.py:379-384 | stripping the arrows gives the members back |
| Reports.ListingRoundTrip | guild_manager.py:375-385 | the header is the first line of the text, and the remaining lines give back the listed members |
| Reports.ReportMembersListing | guild_manager.py:368-385 | for one-line members, the record's first line is the header and the other lines list the members, sorted when asked and in given order otherwise |
| Reports.SortedReportOrderIndependent | guild_manager.py:382 | a sorted report depends only on the multiset of members |
| Reports.ReportSetAnyOrder | guild_manager.py:539-543 | reporting a set gives the same record whatever the set's iteration order |
| Reports.AllianceDifferences | guild_manager.py:570-578 | "didn't choose alliance as wvw" is guild minus alliance World vs World members, and contains "didn't join alliance" |
| Reports.NotChoosingAllianceWvw | guild_manager.py:576-577 | a guild member is in that list iff no alliance record with its name chose the alliance |
| Reports.Lines | guild_manager.py:600 | each member becomes "name: rank" |
| Reports.WrongRankEntries | guild_manager.py:599-611 | exactly the alliance records of shared members whose rank is none of the tag, OFFICER or LEADER, compared case-insensitively |
| Reports.ForeignTagEntries | guild_manager.py:618-627 | exactly the alliance records carrying the tag as rank whose name is not a shared member |
| Reports.RankListsSeparate | guild_manager.py:593-628 | no record is in both lists, and no record in the first carries the tag |
| Reports.RankChecksIgnoreTagCase | guild_manager.py:586-628 | the tag's case changes neither the rank gate nor either list |
| Reports.WrongRankIteratedSame | guild_manager.py:599-611 | the list built by iterating the set of shared names has the same lines as the roster-order filter |
| Reports.WrongRankReportAnyOrder | guild_manager.py:593-634 | whatever the set's iteration order, the first rank report is the one of the roster-order filter |
| Reports.Quoted | guild_manager.py:590 | each name is shown as its `repr`, as a set of strings prints its elements |
| Reports.QuotedReadBack | guild_manager.py:590 | each shown name is between matching quotes and reads back as the name |
| Text.ReprQuote | guild_manager.py:590 | `repr` uses double quotes exactly when the string holds a single quote and no double quote |
| Text.Repr | guild_manager.py:590 | the shown string starts and ends with the chosen quote |
| Text.ReprRoundTrip | guild_manager.py:590 | reading the escapes inside `repr(s)` back gives `s` |
| Text.PlainRepr | guild_manager.py:590 | a string with nothing to escape and no single quote is shown between single quotes as it is |
| Text.ApostropheRepr | guild_manager.py:590 | a string with a single quote, no double quote and nothing else to escape is shown between double quotes as it is |
| Reports.Ranks | guild_manager.py:679 | the rank of each alliance record, in roster order |
| Reports.TallyLines | guild_manager.py:677 | each tally entry becomes "rank: count" |
| Reports.RankTallyCounts | guild_manager.py:676-681 | the tally lines are in non-increasing count order, one per distinct rank, each with that rank's count of at least 1 |
| Reports.RankTallyCovers | guild_manager.py:676-681 | every rank that occurs has a tally line |
| Reports.AllianceRankRecords | guild_manager.py:668-684 | the alliance member count at info level, then the rank tally at info level |
| Reports.AllianceRankListing | guild_manager.py:673-684 | the listed lines of the tally record are the tally lines, in most-common order |
| GuildReport.Enumerate | guild_manager.py:601 | iterating a set visits each element once |
| GuildReport.ReportSetMethod | guild_manager.py:539-543 | reporting a set in its iteration order gives the set's sorted report |
| GuildReport.RenderSet | guild_manager.py:588-591 | the rank-name set printed as "set()" when empty, otherwise as the `repr` of each name in braces |
| GuildReport.ReportGuildGw2 | guild_manager.py:515-634 | the records and the raised error equal the report in which each guild's requests carry its own key, though both guild objects share one header table |
| GuildReport.GuildRun | guild_manager.py:522-527 | after construction: the info and roster requests carry the guild's token, or their failure ends the report with nothing written |
| GuildReport.ChoiceRun | guild_manager.py:528-561 | the World vs World record, then a stop when there is no alliance key, or a missing-setting error for name or gid |
| GuildReport.AllianceRun | guild_manager.py:563-568 | the alliance constructor's refusal ends the report; the guild's names come from its slot, untouched by the alliance's token |
| GuildReport.MembershipRun | guild_manager.py:570-584 | the alliance roster is fetched with the alliance's token; its failure raises with the records written so far, otherwise the two membership records follow |
| GuildReport.MembershipReports | guild_manager.py:570-584 | once the alliance roster is kept: the members outside the alliance, then those that did not choose it for World vs World, then the rank part |
| GuildReport.MembershipRecordsOf | guild_manager.py:570-584 | the two membership records computed from the alliance's name sets equal the records specified from its roster |
| GuildReport.RankRun | guild_manager.py:586-634 | a ranks failure raises; a missing tag logs the rank-name set; otherwise the two rank-compliance reports |
| GuildReport.RankSectionAppends | guild_manager.py:586-634 | the rank part appends at most two records to what was written |
| GuildReport.AllianceOnlyAppends | guild_manager.py:559-634 | the alliance part only appends, at most four records, and without an alliance key it writes and raises nothing |
| GuildReport.ChoiceOpens | guild_manager.py:528-561 | after the one member-count record: the World vs World record naming the members outside the guild's choice and nothing more when there are no alliance settings, otherwise the record of members choosing the guild instead of the alliance, kept by whatever the alliance part writes |
| GuildReport.GuildReportOpens | guild_manager.py:522-557 | the report opens with the member count and the World vs World record; without alliance settings those are the only two records and nothing is raised |

## Left out

- Asynchronous I/O is not modelled. The aiohttp sessions, the connection
  limit of 50 and URL quoting are gone: each request is one function
  application.
- `copy.deepcopy` of replies is not modelled. Values are immutable here.
- Gw2Mists.MistsGuild.MembersProfiles: on failure the model names some registered name
  without a page. `asyncio.gather` raises the failure that completes first, and completion
  order is not modelled.
- The gw2mists guild profile request always succeeds in the model. A
  failure there is an exception before anything is kept; that is not modelled.
- `GW2MISTS_GUILD.API_HEADERS` is never written, so it is not modelled as
  shared state.
- `GW2_API_KEY.key` and `permissions` are folded into `ApiKeyData`.
- Text.Upper: models `str.upper` on ASCII letters only. Python's Unicode case mapping,
  including mappings that change length, is not modelled.
- `%` inside a guild tag or message is not modelled. `logging` would read
  it as a format directive.
- Logger identities are not modelled. The source uses the root logger in
  some places and the module logger in others; the model records only the
  level and the text.
- Text.Repr: characters beyond ASCII always stand for themselves. Python's
  `repr` escapes those it does not class as printable (`\xhh`, `\uhhhh`,
  `\Uhhhhhhhh`); its Unicode printability table is not modelled.
- Gw2Mists.MistsGuild.TopWeek: the class carries the corrected access, where a
  failed profile fetch leaves the slot empty. The code as written stores an
  empty dict first and keeps it after a failure; `TopWeekAccessAsWritten` and
  `TopWeekFailureCachedAsWritten` model that, and the finding below records it.
- GuildReport.RenderSet: prints the rank-name set in sorted order. Python prints a set in
  hash order, which is not a property of its contents.
- A 400 reply whose body is not JSON, or is JSON but not an object, is not
  modelled: `status_check` then raises a different error. A `text` that is
  not a string is not modelled either, because `errorText` is a string; in
  the source a truthy non-string `text` is formatted into the reason like a
  string.
- A missing key in the guild settings (`name`, `gid`, `api_key`) is not
  modelled, and neither is a missing field in a server reply (`tag`,
  `name`, `rank`, `id`, `stats`). Each is a `KeyError` in the source.
  Missing `name` or `gid` in the alliance settings is modelled.
- The partition lemmas in `MistsRoster` assume unique names and 0/1 flags
  (`WellFormedRoster`). `RegistrationCovers` states what holds without
  that assumption.
- `report_guild_gw2mists`, `report_members_stats`, `report`, `report_guild`,
  `setup_logging`, `main_parser` and `main` are not modelled. They are
  drivers and command-line wiring outside the modelled core. Of
  `report_alliance`, only the count and the rank tally
  (`guild_manager.py:663-684`) are modelled.

## Findings

| source | as written | input that shows it | evidently intended | confidence | as-written member | corrected member |
|---|---|---|---|---|---|---|
| guild_manager.py:180-186 | `top_week` stores `{}` in its slot before the loop that triggers the member-profile fan-out. If a profile request fails, the `{}` stays, and every later access returns an empty leaderboard map. | a registered member whose profile page request fails on the first access, then succeeds | a failed computation leaves the slot empty, like every other property, so the next access computes the leaderboards | high, not executed | Gw2Mists.TopWeekFailureCachedAsWritten | Gw2Mists.TopWeekRetriesAfterFailure |
