/** What the guild report writes, as pure functions of the fetched data:
    the member-list record, the set differences between a guild and its
    alliance, the two rank-compliance lists and the alliance rank tally.
    A log call is a `LogRecord` value: its level and its rendered text. */
module Reports {
  import opened Text
  import opened Ranking
  import opened Gw2Guild

  const Gw2Prefix := "gw2"

  datatype Level = Info | Warning

  datatype LogRecord = LogRecord(level: Level, text: string)

  /** `f"{prefix}: {message}: %d"` with the count filled in. */
  function CountHeader(prefix: string, message: string, count: nat): string {
    prefix + ": " + message + ": " + NatToString(count)
  }

  /** `f"-> {m}"` for each listed name. */
  function Arrows(ms: seq<string>): (r: seq<string>)
    ensures |r| == |ms|
    ensures forall i :: 0 <= i < |ms| ==> r[i] == "-> " + ms[i]
  {
    if |ms| == 0 then [] else ["-> " + ms[0]] + Arrows(ms[1..])
  }

  /** `report_members`: an empty collection gives an INFO record with
      count 0; with `onlyNumber` the record is the count line alone;
      otherwise the count line is followed by one `-> name` line per
      element, sorted when `sortMembers` is set. */
  function ReportMembers(prefix: string, message: string, members: seq<string>, level: Level,
                         sortMembers: bool, onlyNumber: bool): (r: LogRecord)
    ensures r.level == (if |members| == 0 then Info else level)
    ensures CountHeader(prefix, message, |members|) <= r.text
    ensures r.text == CountHeader(prefix, message, |members|) <==> |members| == 0 || onlyNumber
  {
    var header := CountHeader(prefix, message, |members|);
    if |members| == 0 then LogRecord(Info, header)
    else if onlyNumber then LogRecord(level, header)
    else
      var shown := if sortMembers then SortStrings(members) else members;
      LogRecord(level, header + "\n" + Join(Arrows(shown), "\n"))
  }

  /** Drops the `-> ` in front of each listing line. */
  function Unarrow(lines: seq<string>): (ms: seq<string>)
    ensures |ms| == |lines|
  {
    if |lines| == 0 then []
    else [if |lines[0]| >= 3 then lines[0][3..] else lines[0]] + Unarrow(lines[1..])
  }

  /** The names a listing record names, read back from its text. */
  function ListedNames(text: string): seq<string> {
    Unarrow(SplitLines(text)[1..])
  }

  lemma {:induction false} UnarrowArrows(ms: seq<string>)
    ensures Unarrow(Arrows(ms)) == ms
  {
    if |ms| > 0 {
      assert Arrows(ms)[1..] == Arrows(ms[1..]);
      UnarrowArrows(ms[1..]);
      assert ("-> " + ms[0])[3..] == ms[0];
    }
  }

  predicate OneLine(s: string) {
    '\n' !in s
  }

  lemma HeaderOneLine(prefix: string, message: string, count: nat)
    requires OneLine(prefix) && OneLine(message)
    ensures OneLine(CountHeader(prefix, message, count))
  {
    var digits := NatToString(count);
    assert forall i :: 0 <= i < |digits| ==> IsDigit(digits[i]);
    assert '\n' !in digits;
  }

  /** A count line followed by a listing splits back into the count line
      and the listed names. */
  lemma ListingRoundTrip(header: string, shown: seq<string>)
    requires OneLine(header) && |shown| > 0
    requires forall i :: 0 <= i < |shown| ==> OneLine(shown[i])
    ensures SplitLines(header + "\n" + Join(Arrows(shown), "\n"))[0] == header
    ensures Unarrow(SplitLines(header + "\n" + Join(Arrows(shown), "\n"))[1..]) == shown
  {
    var arrows := Arrows(shown);
    forall i | 0 <= i < |arrows| ensures '\n' !in arrows[i] {
      assert arrows[i] == "-> " + shown[i];
      assert '\n' !in "-> ";
    }
    SplitJoin(arrows);
    SplitAfterLine(header, Join(arrows, "\n"));
    assert ([header] + arrows)[1..] == arrows;
    UnarrowArrows(shown);
  }

  /** A listing record reads back as its count line followed by exactly the
      names it was given (sorted when asked), when no name and neither the
      prefix nor the message holds a line break. */
  lemma ReportMembersListing(prefix: string, message: string, members: seq<string>, level: Level, sortMembers: bool)
    requires |members| > 0
    requires OneLine(prefix) && OneLine(message)
    requires forall m :: m in members ==> OneLine(m)
    ensures var r := ReportMembers(prefix, message, members, level, sortMembers, false);
            && SplitLines(r.text)[0] == CountHeader(prefix, message, |members|)
            && ListedNames(r.text) == (if sortMembers then SortStrings(members) else members)
  {
    var shown := if sortMembers then SortStrings(members) else members;
    if sortMembers {
      SortedOneLine(members);
    }
    HeaderOneLine(prefix, message, |members|);
    ListingRoundTrip(CountHeader(prefix, message, |members|), shown);
  }

  /** Sorting keeps every name on one line. */
  lemma SortedOneLine(members: seq<string>)
    requires forall m :: m in members ==> OneLine(m)
    ensures forall i :: 0 <= i < |SortStrings(members)| ==> OneLine(SortStrings(members)[i])
  {
    var shown := SortStrings(members);
    forall i | 0 <= i < |shown| ensures OneLine(shown[i]) {
      assert shown[i] in multiset(shown);
    }
  }

  /** With sorting on, the record depends only on which names are listed
      (and how often), not on the order they were enumerated in. */
  lemma SortedReportOrderIndependent(prefix: string, message: string, a: seq<string>, b: seq<string>,
                                     level: Level, onlyNumber: bool)
    requires multiset(a) == multiset(b)
    ensures ReportMembers(prefix, message, a, level, true, onlyNumber)
         == ReportMembers(prefix, message, b, level, true, onlyNumber)
  {
    assert |a| == |multiset(a)| == |multiset(b)| == |b|;
    SortStringsOrderIndependent(a, b);
  }

  /** `report_members` on a set, with its default WARNING level and
      sorting: the record is the same whatever the set's iteration order. */
  ghost function ReportSet(prefix: string, message: string, s: set<string>): LogRecord {
    ReportMembers(prefix, message, SortedElements(s), Warning, true, false)
  }

  /** Any iteration order of the set gives the record `ReportSet` describes:
      its count is the size of the set and it lists every element once, in
      sorted order. */
  lemma ReportSetAnyOrder(prefix: string, message: string, e: seq<string>, s: set<string>)
    requires Enumerates(e, s)
    ensures ReportMembers(prefix, message, e, Warning, true, false) == ReportSet(prefix, message, s)
    ensures CountHeader(prefix, message, |s|) <= ReportSet(prefix, message, s).text
  {
    EnumerationLength(e, s);
    EnumerationLength(SortedElements(s), s);
    SortedReportOrderIndependent(prefix, message, e, SortedElements(s), Warning, false);
  }

  // The set expressions of the report.

  /** Dropping the members who chose the alliance for World vs World from
      the guild's members is the same as the guild's members minus the
      alliance's World vs World members, and it includes every member who
      did not join the alliance. */
  lemma AllianceDifferences(guild: seq<Gw2Member>, alliance: seq<Gw2Member>)
    ensures var g := NameSet(guild);
            && g - (g * WvwNameSet(alliance)) == g - WvwNameSet(alliance)
            && g - NameSet(alliance) <= g - (g * WvwNameSet(alliance))
  {
    WvwNamesAreMembers(alliance);
  }

  /** A name is reported as not choosing the alliance for World vs World
      exactly when it is a guild member and no alliance record with that
      name has chosen it. */
  lemma NotChoosingAllianceWvw(guild: seq<Gw2Member>, alliance: seq<Gw2Member>, n: string)
    ensures var g := NameSet(guild);
            n in g - (g * WvwNameSet(alliance)) <==>
              (exists p :: p in guild && p.name == n) && (forall q :: q in alliance && q.name == n ==> !q.wvwMember)
  {
  }

  // The rank checks.

  /** The upper-cased ids of the alliance ranks. */
  function RankNames(ranks: seq<Gw2Rank>): set<string> {
    set r | r in ranks :: Upper(r.id)
  }

  /** The compliance lists are produced only when the guild's tag,
      upper-cased, names one of the alliance ranks. */
  predicate TagRanked(tag: string, ranks: seq<Gw2Rank>) {
    Upper(tag) in RankNames(ranks)
  }

  /** A rank that needs no report: the guild's tag, OFFICER or LEADER, in
      any case. */
  predicate CompliantRank(tag: string, rank: string) {
    Upper(rank) in [Upper(tag), "OFFICER", "LEADER"]
  }

  /** `f"{p['name']}: {p['rank']}"`. */
  function MemberLine(p: Gw2Member): string {
    p.name + ": " + p.rank
  }

  function Lines(ps: seq<Gw2Member>): (ls: seq<string>)
    ensures |ls| == |ps|
    ensures forall i :: 0 <= i < |ps| ==> ls[i] == MemberLine(ps[i])
  {
    if |ps| == 0 then [] else [MemberLine(ps[0])] + Lines(ps[1..])
  }

  /** The alliance records of the members shared by guild and alliance
      whose rank is none of the guild's tag, OFFICER or LEADER, in roster
      order. */
  function WrongRankEntries(tag: string, shared: set<string>, roster: seq<Gw2Member>): (r: seq<Gw2Member>)
    ensures forall p :: p in r <==> p in roster && p.name in shared && !CompliantRank(tag, p.rank)
  {
    if |roster| == 0 then []
    else
      var p := roster[0];
      assert roster == [p] + roster[1..];
      (if p.name in shared && !CompliantRank(tag, p.rank) then [p] else [])
      + WrongRankEntries(tag, shared, roster[1..])
  }

  /** The alliance records whose rank is the guild's tag (in any case)
      but whose name is not shared by guild and alliance, in roster order. */
  function ForeignTagEntries(tag: string, shared: set<string>, roster: seq<Gw2Member>): (r: seq<Gw2Member>)
    ensures forall p :: p in r <==> p in roster && Upper(p.rank) == Upper(tag) && p.name !in shared
  {
    if |roster| == 0 then []
    else
      var p := roster[0];
      assert roster == [p] + roster[1..];
      (if Upper(p.rank) == Upper(tag) && p.name !in shared then [p] else [])
      + ForeignTagEntries(tag, shared, roster[1..])
  }

  /** No alliance record is on both lists, and a record ranked with the
      guild's tag is never on the first. */
  lemma RankListsSeparate(tag: string, shared: set<string>, roster: seq<Gw2Member>)
    ensures forall p :: !(p in WrongRankEntries(tag, shared, roster) && p in ForeignTagEntries(tag, shared, roster))
    ensures forall p :: p in WrongRankEntries(tag, shared, roster) ==> Upper(p.rank) != Upper(tag)
  {
  }

  /** The checks compare upper-cased values only, so the case the tag is
      written in makes no difference. */
  lemma {:induction false} RankChecksIgnoreTagCase(tag: string, shared: set<string>, roster: seq<Gw2Member>, ranks: seq<Gw2Rank>)
    ensures TagRanked(tag, ranks) == TagRanked(Upper(tag), ranks)
    ensures WrongRankEntries(tag, shared, roster) == WrongRankEntries(Upper(tag), shared, roster)
    ensures ForeignTagEntries(tag, shared, roster) == ForeignTagEntries(Upper(tag), shared, roster)
  {
    UpperIdempotent(tag);
    if |roster| > 0 {
      RankChecksIgnoreTagCase(tag, shared, roster[1..], ranks);
    }
  }

  /** The records of `roster` named `m` whose rank needs reporting. */
  function MatchEntries(tag: string, m: string, roster: seq<Gw2Member>): seq<Gw2Member> {
    if |roster| == 0 then []
    else
      (if roster[0].name == m && !CompliantRank(tag, roster[0].rank) then [roster[0]] else [])
      + MatchEntries(tag, m, roster[1..])
  }

  /** The first list the way the comprehension builds it: for each shared
      name, in the set's iteration order `order`, the lines of the matching
      records. */
  function WrongRankIterated(tag: string, order: seq<string>, roster: seq<Gw2Member>): seq<string> {
    if |order| == 0 then []
    else Lines(MatchEntries(tag, order[0], roster)) + WrongRankIterated(tag, order[1..], roster)
  }

  lemma LinesAppend(a: seq<Gw2Member>, b: seq<Gw2Member>)
    ensures Lines(a + b) == Lines(a) + Lines(b)
  {
  }

  /** Adding a name to the shared set adds exactly that name's lines. */
  lemma {:induction false} WrongRankAddName(tag: string, x: string, rest: set<string>, roster: seq<Gw2Member>)
    requires x !in rest
    ensures multiset(Lines(WrongRankEntries(tag, rest + {x}, roster)))
         == multiset(Lines(MatchEntries(tag, x, roster))) + multiset(Lines(WrongRankEntries(tag, rest, roster)))
  {
    if |roster| > 0 {
      var p, tail := roster[0], roster[1..];
      WrongRankAddName(tag, x, rest, tail);
      var hAll := if p.name in rest + {x} && !CompliantRank(tag, p.rank) then [p] else [];
      var hRest := if p.name in rest && !CompliantRank(tag, p.rank) then [p] else [];
      var hX := if p.name == x && !CompliantRank(tag, p.rank) then [p] else [];
      LinesAppend(hAll, WrongRankEntries(tag, rest + {x}, tail));
      LinesAppend(hRest, WrongRankEntries(tag, rest, tail));
      LinesAppend(hX, MatchEntries(tag, x, tail));
      HeadSplits(tag, x, rest, p);
    }
  }

  /** One record's contribution splits the same way as the whole roster's. */
  lemma HeadSplits(tag: string, x: string, rest: set<string>, p: Gw2Member)
    requires x !in rest
    ensures var hAll := if p.name in rest + {x} && !CompliantRank(tag, p.rank) then [p] else [];
            var hRest := if p.name in rest && !CompliantRank(tag, p.rank) then [p] else [];
            var hX := if p.name == x && !CompliantRank(tag, p.rank) then [p] else [];
            multiset(Lines(hAll)) == multiset(Lines(hX)) + multiset(Lines(hRest))
  {
  }

  /** Whatever the set's iteration order, the comprehension yields the
      lines of the roster-order filter, each as often. */
  lemma {:induction false} WrongRankIteratedSame(tag: string, order: seq<string>, shared: set<string>, roster: seq<Gw2Member>)
    requires Enumerates(order, shared)
    ensures multiset(WrongRankIterated(tag, order, roster)) == multiset(Lines(WrongRankEntries(tag, shared, roster)))
  {
    if |order| == 0 {
      assert shared == {};
      EmptyNamesNoEntries(tag, roster);
    } else {
      var x := order[0];
      var rest := shared - {x};
      assert Enumerates(order[1..], rest) by {
        assert order == [x] + order[1..];
      }
      WrongRankIteratedSame(tag, order[1..], rest, roster);
      WrongRankAddName(tag, x, rest, roster);
      assert rest + {x} == shared;
    }
  }

  lemma {:induction false} EmptyNamesNoEntries(tag: string, roster: seq<Gw2Member>)
    ensures WrongRankEntries(tag, {}, roster) == []
  {
    if |roster| > 0 {
      EmptyNamesNoEntries(tag, roster[1..]);
    }
  }

  /** `report_members` of the first list built the source's way is the
      record of the roster-order filter. */
  lemma WrongRankReportAnyOrder(prefix: string, message: string, tag: string, order: seq<string>,
                                shared: set<string>, roster: seq<Gw2Member>)
    requires Enumerates(order, shared)
    ensures ReportMembers(prefix, message, WrongRankIterated(tag, order, roster), Warning, true, false)
         == ReportMembers(prefix, message, Lines(WrongRankEntries(tag, shared, roster)), Warning, true, false)
  {
    WrongRankIteratedSame(tag, order, shared, roster);
    SortedReportOrderIndependent(prefix, message, WrongRankIterated(tag, order, roster),
                                 Lines(WrongRankEntries(tag, shared, roster)), Warning, false);
  }

  /** `str(set_of_names)`: `set()` when empty, otherwise the `repr` of each
      name between braces. */
  ghost function SetRepr(s: set<string>): string {
    if s == {} then "set()" else "{" + Join(Quoted(SortedElements(s)), ", ") + "}"
  }

  function Quoted(ms: seq<string>): (r: seq<string>)
    ensures |r| == |ms|
    ensures forall i :: 0 <= i < |ms| ==> r[i] == Repr(ms[i])
  {
    if |ms| == 0 then [] else [Repr(ms[0])] + Quoted(ms[1..])
  }

  /** Each shown name reads back as the name itself. */
  lemma QuotedReadBack(ms: seq<string>)
    ensures forall i :: 0 <= i < |ms| ==>
              var r := Quoted(ms)[i];
              |r| >= 2 && r[0] == r[|r| - 1] && Unescape(r[1..|r| - 1]) == ms[i]
  {
    forall i | 0 <= i < |ms|
      ensures var r := Quoted(ms)[i];
              |r| >= 2 && r[0] == r[|r| - 1] && Unescape(r[1..|r| - 1]) == ms[i]
    {
      ReprRoundTrip(ms[i]);
    }
  }

  // The alliance rank tally.

  function Ranks(roster: seq<Gw2Member>): (rs: seq<string>)
    ensures |rs| == |roster|
    ensures forall i :: 0 <= i < |roster| ==> rs[i] == roster[i].rank
  {
    if |roster| == 0 then [] else [roster[0].rank] + Ranks(roster[1..])
  }

  /** `f"{g}: {n}"` for each (rank, count) entry. */
  function TallyLines(tally: seq<Entry>): (lines: seq<string>)
    requires forall i :: 0 <= i < |tally| ==> tally[i].1 >= 0
    ensures |lines| == |tally|
    ensures forall i :: 0 <= i < |tally| ==> lines[i] == tally[i].0 + ": " + NatToString(tally[i].1)
  {
    if |tally| == 0 then [] else [tally[0].0 + ": " + NatToString(tally[0].1)] + TallyLines(tally[1..])
  }

  /** `[f"{g}: {n}" for g, n in Counter(ranks).most_common()]`. */
  function RankTallyLines(roster: seq<Gw2Member>): seq<string> {
    MostCommonCounts(Ranks(roster));
    TallyLines(MostCommon(Ranks(roster)))
  }

  /** Each tally line names a rank held in the alliance with the number of
      records holding it, most common first. */
  lemma RankTallyCounts(roster: seq<Gw2Member>)
    ensures var tally := MostCommon(Ranks(roster));
            && NonIncreasing(tally)
            && |RankTallyLines(roster)| == |tally|
            && (forall i :: 0 <= i < |tally| ==> tally[i].1 == multiset(Ranks(roster))[tally[i].0] >= 1)
            && (forall i :: 0 <= i < |tally| ==>
                  RankTallyLines(roster)[i] == tally[i].0 + ": " + NatToString(tally[i].1))
  {
    var rs := Ranks(roster);
    var tally := MostCommon(rs);
    MostCommonCounts(rs);
    assert RankTallyLines(roster) == TallyLines(tally);
  }

  /** Every rank held in the alliance has a tally line. */
  lemma RankTallyCovers(roster: seq<Gw2Member>, p: Gw2Member)
    requires p in roster
    ensures exists i :: 0 <= i < |MostCommon(Ranks(roster))| && MostCommon(Ranks(roster))[i].0 == p.rank
  {
    var rs := Ranks(roster);
    var tally := MostCommon(rs);
    MostCommonCounts(rs);
    var k :| 0 <= k < |roster| && roster[k] == p;
    assert rs[k] == p.rank;
    assert p.rank in rs;
    var i :| 0 <= i < |tally| && tally[i] == (p.rank, multiset(rs)[p.rank]);
    assert tally[i].0 == p.rank;
  }

  /** The records `report_alliance` writes from the alliance roster: the
      member count, then the rank tally at INFO level, unsorted. */
  function AllianceRankRecords(roster: seq<Gw2Member>): (r: seq<LogRecord>)
    ensures |r| == 2
    ensures r[0] == LogRecord(Info, Gw2Prefix + ": alliance members number: " + NatToString(|NameSet(roster)|))
    ensures r[1].level == Info
    ensures CountHeader(Gw2Prefix, "alliance ranks", |RankTallyLines(roster)|) <= r[1].text
  {
    [LogRecord(Info, Gw2Prefix + ": alliance members number: " + NatToString(|NameSet(roster)|)),
     ReportMembers(Gw2Prefix, "alliance ranks", RankTallyLines(roster), Info, false, false)]
  }

  /** The rank tally is listed in `most_common()` order, not re-sorted. */
  lemma AllianceRankListing(roster: seq<Gw2Member>)
    requires |roster| > 0
    requires forall p :: p in roster ==> OneLine(p.rank)
    ensures ListedNames(AllianceRankRecords(roster)[1].text) == RankTallyLines(roster)
  {
    var lines := RankTallyLines(roster);
    RankTallyNonEmpty(roster);
    TallyLinesOneLine(roster);
    ReportMembersListing(Gw2Prefix, "alliance ranks", lines, Info, false);
    assert AllianceRankRecords(roster)[1] == ReportMembers(Gw2Prefix, "alliance ranks", lines, Info, false, false);
  }

  /** A non-empty alliance has at least one tally line. */
  lemma RankTallyNonEmpty(roster: seq<Gw2Member>)
    requires |roster| > 0
    ensures |RankTallyLines(roster)| > 0
  {
    RankTallyCovers(roster, roster[0]);
    assert |RankTallyLines(roster)| == |MostCommon(Ranks(roster))|;
  }

  /** No tally line holds a line break when no rank does. */
  lemma TallyLinesOneLine(roster: seq<Gw2Member>)
    requires forall p :: p in roster ==> OneLine(p.rank)
    ensures forall m :: m in RankTallyLines(roster) ==> OneLine(m)
  {
    var lines := RankTallyLines(roster);
    forall m | m in lines ensures OneLine(m) {
      var i :| 0 <= i < |lines| && lines[i] == m;
      TallyLineOneLine(roster, i);
    }
  }

  lemma TallyLineOneLine(roster: seq<Gw2Member>, i: nat)
    requires forall p :: p in roster ==> OneLine(p.rank)
    requires i < |RankTallyLines(roster)|
    ensures OneLine(RankTallyLines(roster)[i])
  {
    var rs := Ranks(roster);
    var tally := MostCommon(rs);
    RankTallyCounts(roster);
    var digits := NatToString(tally[i].1);
    assert forall k :: 0 <= k < |digits| ==> IsDigit(digits[k]);
    assert '\n' !in digits;
    assert tally[i].0 in rs;
    var j :| 0 <= j < |roster| && rs[j] == tally[i].0;
    assert roster[j] in roster;
    assert RankTallyLines(roster)[i] == tally[i].0 + ": " + digits;
  }
}
