/** InetdiagerStater: counters fed with differences of the workers' own totals. */
module Stater {
  import opened Misc
  import opened Stats

  datatype Report = Report(af: nat, id: int, stats: InetdiagerStats)

  type Key = (nat, int)

  function KeyOf(r: Report): Key {
    (r.af, r.id)
  }

  // ---- The state and one report as values ----

  /** counters: the eight counters labelled (af, id). A label is created at zero by its first Add. */
  datatype StaterState = StaterState(
    oldStats: map<Key, InetdiagerStats>, counters: map<Key, InetdiagerStats>,
    msgsTotal: map<nat, int>, udpsTotal: map<nat, int>,
    totalInetdiagerMsgs: int, totalInetdiagerUDPs: int,
    loops: nat, afLoops: map<nat, nat>, updates: nat)

  const EMPTY: StaterState := StaterState(map[], map[], map[], map[], 0, 0, 0, map[AF_INET := 0, AF_INET6 := 0], 0)

  function Lookup(m: map<Key, InetdiagerStats>, k: Key): InetdiagerStats {
    if k in m then m[k] else ZERO_STATS
  }

  function Of(m: map<nat, int>, af: nat): int {
    if af in m then m[af] else 0
  }

  /** How many inetdiagers each family has, and the modulus of the console line; both divide. */
  datatype Config = Config(inetdiagers: map<nat, int>, happyModulus: int, statsd: bool)

  predicate Usable(c: Config) {
    c.inetdiagers.Keys == {AF_INET, AF_INET6} && c.inetdiagers[AF_INET] != 0 && c.inetdiagers[AF_INET6] != 0
        && c.happyModulus != 0
  }

  /** The statsd line goes out once per round of a family's inetdiagers. */
  predicate Due(loops: nat, inetdiagers: int)
    requires inetdiagers != 0
  {
    loops % inetdiagers == 0
  }

  /** A Prometheus counter panics on a negative addition. */
  predicate Addable(d: InetdiagerStats) {
    AtMost(ZERO_STATS, d)
  }

  /** One report: None when the goroutine panics. Reports of an unknown family meet a nil pointer. */
  function Feed(c: Config, s: StaterState, r: Report): Option<StaterState> {
    var d := Difference(r.stats, Lookup(s.oldStats, KeyOf(r)));
    if !Addable(d) || r.af !in c.inetdiagers || c.inetdiagers[r.af] == 0 || c.happyModulus == 0
        || r.af !in {AF_INET, AF_INET6} then None
    else
      Some(StaterState(
        s.oldStats[KeyOf(r) := r.stats],
        s.counters[KeyOf(r) := Add(Lookup(s.counters, KeyOf(r)), d)],
        s.msgsTotal[r.af := Of(s.msgsTotal, r.af) + d.msgCount],
        s.udpsTotal[r.af := Of(s.udpsTotal, r.af) + d.udpWritesTotal],
        s.totalInetdiagerMsgs + d.msgCount, s.totalInetdiagerUDPs + d.udpWritesTotal,
        s.loops + 1,
        s.afLoops[r.af := (if r.af in s.afLoops then s.afLoops[r.af] else 0) + 1],
        s.updates + if Due(s.loops + 1, c.inetdiagers[r.af]) && c.statsd then 1 else 0))
  }

  function FeedAll(c: Config, reports: seq<Report>): Option<StaterState> {
    if reports == [] then Some(EMPTY)
    else
      match FeedAll(c, reports[..|reports| - 1])
      case None => None
      case Some(s) => Feed(c, s, reports[|reports| - 1])
  }

  // ---- The goroutine as the source runs it ----

  /** The nested map read as one map. */
  ghost function Flat(m: map<nat, map<int, InetdiagerStats>>): map<Key, InetdiagerStats> {
    map af, id | af in m && id in m[af] :: (af, id) := m[af][id]
  }

  lemma FlatLookup(m: map<nat, map<int, InetdiagerStats>>, r: Report)
    ensures Lookup(Flat(m), KeyOf(r)) == if r.af in m && r.id in m[r.af] then m[r.af][r.id] else ZERO_STATS
  {
  }

  lemma FlatUpdate(m: map<nat, map<int, InetdiagerStats>>, r: Report)
    requires r.af in m
    ensures Flat(m[r.af := m[r.af][r.id := r.stats]]) == Flat(m)[KeyOf(r) := r.stats]
  {
  }

  class InetdiagerStater {
    const config: Config
    var oldStatsMap: map<nat, map<int, InetdiagerStats>>
    var counters: map<Key, InetdiagerStats>
    var msgsTotal: map<nat, int>
    var udpsTotal: map<nat, int>
    var totalInetdiagerMsgs: int
    var totalInetdiagerUDPs: int
    var loops: nat
    var afLoops: map<nat, nat>
    var updates: nat

    ghost function State(): StaterState
      reads this
    {
      StaterState(Flat(oldStatsMap), counters, msgsTotal, udpsTotal, totalInetdiagerMsgs, totalInetdiagerUDPs, loops,
                  afLoops, updates)
    }

    ghost predicate Valid()
      reads this
    {
      oldStatsMap.Keys == {AF_INET, AF_INET6}
    }

    constructor (config: Config)
      ensures Valid() && State() == EMPTY && this.config == config
    {
      this.config := config;
      oldStatsMap := map[AF_INET := map[], AF_INET6 := map[]];
      counters, msgsTotal, udpsTotal := map[], map[], map[];
      totalInetdiagerMsgs, totalInetdiagerUDPs, loops, updates := 0, 0, 0, 0;
      afLoops := map[AF_INET := 0, AF_INET6 := 0];
      new;
      assert Flat(oldStatsMap) == map[];
    }

    /** The ten counter additions and the two local totals. */
    method Count(r: Report, d: InetdiagerStats)
      modifies this`counters, this`msgsTotal, this`udpsTotal, this`totalInetdiagerMsgs, this`totalInetdiagerUDPs
      ensures counters == old(counters)[KeyOf(r) := Add(Lookup(old(counters), KeyOf(r)), d)]
      ensures msgsTotal == old(msgsTotal)[r.af := Of(old(msgsTotal), r.af) + d.msgCount]
      ensures udpsTotal == old(udpsTotal)[r.af := Of(old(udpsTotal), r.af) + d.udpWritesTotal]
      ensures totalInetdiagerMsgs == old(totalInetdiagerMsgs) + d.msgCount
      ensures totalInetdiagerUDPs == old(totalInetdiagerUDPs) + d.udpWritesTotal
    {
      counters := counters[KeyOf(r) := Add(Lookup(counters, KeyOf(r)), d)];
      msgsTotal := msgsTotal[r.af := Of(msgsTotal, r.af) + d.msgCount];
      udpsTotal := udpsTotal[r.af := Of(udpsTotal, r.af) + d.udpWritesTotal];
      totalInetdiagerMsgs := totalInetdiagerMsgs + d.msgCount;
      totalInetdiagerUDPs := totalInetdiagerUDPs + d.udpWritesTotal;
    }

    /** The differences, and whether counting them, dividing or storing the report panics. */
    method Judge(r: Report) returns (panicked: bool, d: InetdiagerStats)
      requires Valid()
      ensures d == Difference(r.stats, Lookup(Flat(oldStatsMap), KeyOf(r)))
      ensures panicked <==> Feed(config, State(), r).None?
    {
      FlatLookup(oldStatsMap, r);
      FeedPanicsIff(config, State(), r);
      hide Feed, Add, Difference, AtMost, Flat, Addable, Lookup, KeyOf;
      var oldStats := if r.af in oldStatsMap && r.id in oldStatsMap[r.af] then oldStatsMap[r.af][r.id] else ZERO_STATS;
      d := Difference(r.stats, oldStats);
      panicked := !Addable(d) || r.af !in config.inetdiagers || config.inetdiagers[r.af] == 0
                  || config.happyModulus == 0 || r.af !in oldStatsMap;
    }

    method OnReport(r: Report) returns (panicked: bool)
      requires Valid()
      modifies this
      ensures panicked <==> Feed(config, old(State()), r).None?
      ensures !panicked ==> Valid() && Feed(config, old(State()), r) == Some(State())
    {
      hide Feed, Add, Difference, AtMost, Addable, Flat, Lookup, Due, Of, KeyOf;
      var d;
      panicked, d := Judge(r);
      if panicked {
        return;
      }
      ghost var before := State();
      FeedUsable(config, before, r);
      FlatUpdate(oldStatsMap, r);
      Tally(r, d);
      FeedCounts(config, before, r, State());
    }

    /** The loop counters, the counter additions, the statsd line and the stored report. */
    method Tally(r: Report, d: InetdiagerStats)
      requires Valid() && r.af in oldStatsMap && r.af in config.inetdiagers && config.inetdiagers[r.af] != 0
      modifies this
      ensures oldStatsMap == old(oldStatsMap)[r.af := old(oldStatsMap)[r.af][r.id := r.stats]]
      ensures counters == old(counters)[KeyOf(r) := Add(Lookup(old(counters), KeyOf(r)), d)]
      ensures msgsTotal == old(msgsTotal)[r.af := Of(old(msgsTotal), r.af) + d.msgCount]
      ensures udpsTotal == old(udpsTotal)[r.af := Of(old(udpsTotal), r.af) + d.udpWritesTotal]
      ensures totalInetdiagerMsgs == old(totalInetdiagerMsgs) + d.msgCount
      ensures totalInetdiagerUDPs == old(totalInetdiagerUDPs) + d.udpWritesTotal
      ensures loops == old(loops) + 1
      ensures afLoops == old(afLoops)[r.af := (if r.af in old(afLoops) then old(afLoops)[r.af] else 0) + 1]
      ensures updates == old(updates) + if Due(loops, config.inetdiagers[r.af]) && config.statsd then 1 else 0
    {
      hide Add, Lookup, Due, Of, KeyOf;
      loops := loops + 1;
      afLoops := afLoops[r.af := (if r.af in afLoops then afLoops[r.af] else 0) + 1];
      Count(r, d);
      if Due(loops, config.inetdiagers[r.af]) && config.statsd {
        updates := updates + 1;
      }
      oldStatsMap := oldStatsMap[r.af := oldStatsMap[r.af][r.id := r.stats]];
    }
  }

  lemma FeedUsable(c: Config, s: StaterState, r: Report)
    ensures Feed(c, s, r).Some? ==> r.af in c.inetdiagers && c.inetdiagers[r.af] != 0 && r.af in {AF_INET, AF_INET6}
  {
  }

  /** A report that does not panic, told by what it moves. */
  lemma FeedCounts(c: Config, s: StaterState, r: Report, t: StaterState)
    requires Feed(c, s, r).Some? && r.af in c.inetdiagers && c.inetdiagers[r.af] != 0
    requires t.oldStats == s.oldStats[KeyOf(r) := r.stats]
    requires t.loops == s.loops + 1
    requires t.afLoops == s.afLoops[r.af := (if r.af in s.afLoops then s.afLoops[r.af] else 0) + 1]
    requires t.updates == s.updates + if Due(t.loops, c.inetdiagers[r.af]) && c.statsd then 1 else 0
    requires var d := Difference(r.stats, Lookup(s.oldStats, KeyOf(r)));
             && t.counters == s.counters[KeyOf(r) := Add(Lookup(s.counters, KeyOf(r)), d)]
             && t.msgsTotal == s.msgsTotal[r.af := Of(s.msgsTotal, r.af) + d.msgCount]
             && t.udpsTotal == s.udpsTotal[r.af := Of(s.udpsTotal, r.af) + d.udpWritesTotal]
             && t.totalInetdiagerMsgs == s.totalInetdiagerMsgs + d.msgCount
             && t.totalInetdiagerUDPs == s.totalInetdiagerUDPs + d.udpWritesTotal
    ensures Feed(c, s, r) == Some(t)
  {
    hide Add, Difference, Addable, Lookup, Due, Of, KeyOf;
  }

  /** Where the goroutine panics: a shrinking counter, a missing or zero divisor, a family without a table. */
  lemma FeedPanicsIff(c: Config, s: StaterState, r: Report)
    ensures Feed(c, s, r).None? <==>
      || !Addable(Difference(r.stats, Lookup(s.oldStats, KeyOf(r)))) || r.af !in c.inetdiagers
      || c.inetdiagers[r.af] == 0
      || c.happyModulus == 0 || r.af !in {AF_INET, AF_INET6}
  {
  }

  // ---- What the counters mean ----

  /** The latest report of a worker, zero before its first. */
  function LastReport(reports: seq<Report>, k: Key): InetdiagerStats {
    if reports == [] then ZERO_STATS
    else if KeyOf(reports[|reports| - 1]) == k then reports[|reports| - 1].stats
    else LastReport(reports[..|reports| - 1], k)
  }

  /** Sum of the latest message counts of workers 0 to n - 1 of a family. */
  function SumMsgs(reports: seq<Report>, af: nat, n: nat): int {
    if n == 0 then 0 else SumMsgs(reports, af, n - 1) + LastReport(reports, (af, n - 1)).msgCount
  }

  function SumUdps(reports: seq<Report>, af: nat, n: nat): int {
    if n == 0 then 0 else SumUdps(reports, af, n - 1) + LastReport(reports, (af, n - 1)).udpWritesTotal
  }

  predicate IdsBelow(reports: seq<Report>, n: nat) {
    forall i :: 0 <= i < |reports| ==> 0 <= reports[i].id < n
  }

  /** Every report is at least the same worker's previous one, the first at least zero. */
  predicate NeverDecreases(reports: seq<Report>) {
    forall i :: 0 <= i < |reports| ==> AtMost(LastReport(reports[..i], KeyOf(reports[i])), reports[i].stats)
  }

  predicate KnownFamilies(reports: seq<Report>) {
    forall i :: 0 <= i < |reports| ==> reports[i].af in {AF_INET, AF_INET6}
  }

  lemma AddOfDifference(a: InetdiagerStats, b: InetdiagerStats)
    ensures Add(b, Difference(a, b)) == a
    ensures Addable(Difference(a, b)) <==> AtMost(b, a)
  {
  }

  /** While it lives, each worker's counters equal its last report. */
  lemma {:induction false} CountersAreLastReports(c: Config, reports: seq<Report>, k: Key)
    ensures var r := FeedAll(c, reports);
            r.Some? ==> Lookup(r.value.oldStats, k) == Lookup(r.value.counters, k) == LastReport(reports, k)
  {
    hide Add, Difference, AtMost;
    if reports != [] && FeedAll(c, reports).Some? {
      var n := |reports| - 1;
      CountersAreLastReports(c, reports[..n], k);
      CountersAreLastReports(c, reports[..n], KeyOf(reports[n]));
      AddOfDifference(reports[n].stats, LastReport(reports[..n], KeyOf(reports[n])));
    }
  }

  /** One more report moves exactly its own worker's term of the sum. */
  lemma {:induction false} SumStep(reports: seq<Report>, af: nat, n: nat)
    requires reports != []
    ensures var i := |reports| - 1;
            var r, d := reports[i], Difference(reports[i].stats, LastReport(reports[..i], KeyOf(reports[i])));
            var hit := r.af == af && 0 <= r.id < n;
            SumMsgs(reports, af, n) == SumMsgs(reports[..i], af, n) + (if hit then d.msgCount else 0)
            && SumUdps(reports, af, n) == SumUdps(reports[..i], af, n) + (if hit then d.udpWritesTotal else 0)
  {
    if n == 0 {
    } else {
      SumStep(reports, af, n - 1);
    }
  }

  /** The family totals are the sums of the workers' last reports, and the grand totals those of both families. */
  lemma {:induction false} TotalsAreSums(c: Config, reports: seq<Report>, n: nat)
    requires IdsBelow(reports, n)
    ensures var r := FeedAll(c, reports);
            r.Some? ==>
              && (forall af :: af in {AF_INET, AF_INET6} ==>
                    Of(r.value.msgsTotal, af) == SumMsgs(reports, af, n)
                        && Of(r.value.udpsTotal, af) == SumUdps(reports, af, n))
              && r.value.totalInetdiagerMsgs == SumMsgs(reports, AF_INET, n) + SumMsgs(reports, AF_INET6, n)
              && r.value.totalInetdiagerUDPs == SumUdps(reports, AF_INET, n) + SumUdps(reports, AF_INET6, n)
              && r.value.loops == |reports|
  {
    hide Add, AtMost;
    if reports == [] {
      NoReports(AF_INET, n);
      NoReports(AF_INET6, n);
    } else if FeedAll(c, reports).Some? {
      var i := |reports| - 1;
      assert IdsBelow(reports[..i], n);
      TotalsAreSums(c, reports[..i], n);
      CountersAreLastReports(c, reports[..i], KeyOf(reports[i]));
      SumStep(reports, AF_INET, n);
      SumStep(reports, AF_INET6, n);
      hide SumMsgs, SumUdps, LastReport;
      assert 0 <= reports[i].id < n;
    }
  }

  /** How many reports came from a family. */
  function ReportsOf(reports: seq<Report>, af: nat): nat {
    if reports == [] then 0
    else ReportsOf(reports[..|reports| - 1], af) + if reports[|reports| - 1].af == af then 1 else 0
  }

  /** The statsd lines due: report i, counted from 1 over both families, is a multiple of its family's inetdiagers. */
  function LinesDue(c: Config, reports: seq<Report>): nat {
    if reports == [] then 0
    else
      var i := |reports|;
      var af := reports[i - 1].af;
      LinesDue(c, reports[..i - 1])
      + if af in c.inetdiagers && c.inetdiagers[af] != 0 && i % c.inetdiagers[af] == 0 then 1 else 0
  }

  /** The loop counters count reports, and a line goes out, unless statsd is off, for every one that is due. */
  lemma {:induction false} LoopsAreReports(c: Config, reports: seq<Report>)
    ensures var r := FeedAll(c, reports);
            r.Some? ==>
              && r.value.loops == |reports| && r.value.updates == (if c.statsd then LinesDue(c, reports) else 0)
              && r.value.afLoops.Keys == {2, 10}
              && r.value.afLoops[2] == ReportsOf(reports, 2) && r.value.afLoops[10] == ReportsOf(reports, 10)
  {
    hide Add, Difference, Addable, Lookup, Of, KeyOf;
    if reports != [] {
      LoopsAreReports(c, reports[..|reports| - 1]);
    }
  }

  /** Survival for any flags and any reports: the worker's totals never shrink, the family is 2 or 10 and has
      inetdiagers to divide by, and the modulus of the console line is not zero. */
  lemma {:induction false} SurvivesAnyIff(c: Config, reports: seq<Report>)
    ensures FeedAll(c, reports).Some? <==>
      NeverDecreases(reports)
      && forall i :: 0 <= i < |reports| ==> Divisible(c, reports[i].af)
  {
    if reports == [] {
    } else {
      var n := |reports| - 1;
      SurvivesAnyIff(c, reports[..n]);
      LastDecides(reports);
      AnyFeedDecides(c, reports);
      CountersAreLastReports(c, reports[..n], KeyOf(reports[n]));
      hide *;
      LastDivides(c, reports);
    }
  }

  lemma LastDivides(c: Config, reports: seq<Report>)
    requires reports != []
    ensures var n := |reports| - 1;
            (forall i :: 0 <= i < |reports| ==> Divisible(c, reports[i].af))
            <==> (forall i :: 0 <= i < n ==> Divisible(c, reports[..n][i].af)) && Divisible(c, reports[n].af)
  {
    var n := |reports| - 1;
    hide Divisible;
    assert forall i :: 0 <= i < n ==> reports[..n][i] == reports[i];
  }

  predicate Divisible(c: Config, af: nat) {
    af in {2, 10} && af in c.inetdiagers && c.inetdiagers[af] != 0 && c.happyModulus != 0
  }

  lemma AnyFeedDecides(c: Config, reports: seq<Report>)
    requires reports != []
    ensures var n := |reports| - 1;
            var s := FeedAll(c, reports[..n]);
            FeedAll(c, reports).Some? <==>
              s.Some? && AtMost(Lookup(s.value.oldStats, KeyOf(reports[n])), reports[n].stats)
              && Divisible(c, reports[n].af)
  {
    var n := |reports| - 1;
    if FeedAll(c, reports[..n]).Some? {
      AddOfDifference(reports[n].stats, Lookup(FeedAll(c, reports[..n]).value.oldStats, KeyOf(reports[n])));
    }
    hide Add, Difference, AtMost, Addable, Lookup;
  }

  lemma {:induction false} NoReports(af: nat, n: nat)
    ensures SumMsgs([], af, n) == 0 && SumUdps([], af, n) == 0
  {
    if n > 0 { NoReports(af, n - 1); }
  }

  /** The goroutine survives exactly when every worker's reports never decrease (given usable flags and families). */
  lemma {:induction false} SurvivesIff(c: Config, reports: seq<Report>)
    requires Usable(c) && KnownFamilies(reports)
    ensures FeedAll(c, reports).Some? <==> NeverDecreases(reports)
  {
    if reports == [] {
    } else {
      var n := |reports| - 1;
      SurvivesIff(c, reports[..n]);
      LastDecides(reports);
      FeedDecides(c, reports);
      CountersAreLastReports(c, reports[..n], KeyOf(reports[n]));
      hide *;
    }
  }

  lemma LastDecides(reports: seq<Report>)
    requires reports != []
    ensures var n := |reports| - 1;
            NeverDecreases(reports)
            <==> NeverDecreases(reports[..n]) && AtMost(LastReport(reports[..n], KeyOf(reports[n])), reports[n].stats)
  {
    var n := |reports| - 1;
    hide AtMost, LastReport;
    assert forall i :: 0 <= i < n ==> reports[..n][i] == reports[i] && reports[..n][..i] == reports[..i];
  }

  lemma FeedDecides(c: Config, reports: seq<Report>)
    requires Usable(c) && KnownFamilies(reports) && reports != []
    ensures var n := |reports| - 1;
            var s := FeedAll(c, reports[..n]);
            FeedAll(c, reports).Some? <==>
              s.Some? && AtMost(Lookup(s.value.oldStats, KeyOf(reports[n])), reports[n].stats)
  {
    var n := |reports| - 1;
    if FeedAll(c, reports[..n]).Some? {
      AddOfDifference(reports[n].stats, Lookup(FeedAll(c, reports[..n]).value.oldStats, KeyOf(reports[n])));
    }
    hide Add, Difference, AtMost, Addable, Lookup;
  }

  /** A second report of a worker that is not at least the first kills the stater. */
  lemma SmallerReportPanics(c: Config, before: InetdiagerStats, after: InetdiagerStats)
    requires Usable(c) && AtMost(ZERO_STATS, before) && !AtMost(before, after)
    ensures FeedAll(c, [Report(AF_INET, 0, before)]).Some?
    ensures FeedAll(c, [Report(AF_INET, 0, before), Report(AF_INET, 0, after)]).None?
  {
    var one, two := [Report(AF_INET, 0, before)], [Report(AF_INET, 0, before), Report(AF_INET, 0, after)];
    assert one[..0] == [] && two[..1] == one && two[..0] == [];
    hide AtMost;
    assert LastReport(one, (AF_INET, 0)) == before && LastReport([], (AF_INET, 0)) == ZERO_STATS;
    SurvivesIff(c, one);
    SurvivesIff(c, two);
    assert two[1] == Report(AF_INET, 0, after);
  }
}
