/** Reports of inetdiagers that are never restarted, as the stater receives them. */
module Reports {
  import opened Misc
  import opened Stats
  import I = Inetdiager
  import opened Stater
  import opened Sampling
  import P = Pipeline
  import opened Conservation
  import opened Incarnations
  import opened Workers

  /** What an inetdiager reports when the ticker fires on its p-th message. */
  ghost predicate ReportedAt(hostname: string, modulus: int, life: seq<I.Input>, p: nat, stats: InetdiagerStats) {
    && p < |life| && life[p].around.tick
    && (var r := I.Life(hostname, modulus, life[..p]);
        r.Alive? && I.ReportOf(r.worker.totals, life[p].body, life[p].around) == Some(stats))
  }

  /** The message of its life, and the life of its id, at which a worker made a report. */
  datatype Place = Place(incarnation: nat, message: nat)

  /** A worker reports in order, and an incarnation only after the earlier ones under its id. */
  predicate Before(p: Place, q: Place) {
    p.incarnation < q.incarnation || (p.incarnation == q.incarnation && p.message < q.message)
  }

  /** lives has the incarnations of each id; every report is made by one of them, at its place. */
  ghost predicate Reporting(hostname: string, modulus: int, lives: map<Key, seq<seq<I.Input>>>, reports: seq<Report>,
                            places: seq<Place>) {
    && |places| == |reports|
    && (forall i :: 0 <= i < |reports| ==>
        KeyOf(reports[i]) in lives && places[i].incarnation < |lives[KeyOf(reports[i])]|)
    && (forall i :: 0 <= i < |reports| ==>
          ReportedAt(hostname, modulus, lives[KeyOf(reports[i])][places[i].incarnation], places[i].message,
                     reports[i].stats))
    && (forall i, j :: 0 <= i < j < |reports| && KeyOf(reports[i]) == KeyOf(reports[j]) ==>
        Before(places[i], places[j]))
  }

  lemma AtMostTransitive(a: InetdiagerStats, b: InetdiagerStats, c: InetdiagerStats)
    requires AtMost(a, b) && AtMost(b, c)
    ensures AtMost(a, c)
  {
  }

  /** A report lies between the totals before and after the message that carries it. */
  lemma ReportBetween(hostname: string, modulus: int, life: seq<I.Input>, p: nat, stats: InetdiagerStats)
    requires ReportedAt(hostname, modulus, life, p, stats)
    ensures AtMost(I.Life(hostname, modulus, life[..p]).worker.totals, stats)
    ensures var after := I.Life(hostname, modulus, life[..p + 1]);
            after.Alive? ==> AtMost(stats, after.worker.totals)
  {
    var upTo := life[..p + 1];
    assert upTo[..|upTo| - 1] == life[..p] && upTo[p] == life[p];
    var before := I.Life(hostname, modulus, life[..p]);
    var turn := I.Turn(before.worker, hostname, life[p].epochTime, life[p].body, modulus, life[p].around);
    I.LifeStep(hostname, modulus, upTo);
    TurnAfterReport(before.worker, hostname, life[p], modulus);
    hide I.Life, I.Turn;
  }

  lemma TurnAfterReport(w: I.Worker, hostname: string, i: I.Input, modulus: int)
    requires I.FitsWorker(w)
    ensures var t := I.Turn(w, hostname, i.epochTime, i.body, modulus, i.around);
            var r := I.ReportOf(w.totals, i.body, i.around);
            && (r.Some? ==> AtMost(w.totals, r.value))
            && (r.Some? && t.Turned? ==> AtMost(r.value, t.worker.totals))
  {
    hide I.DecodeMessage, I.BuildProto, I.FitsDecoder;
  }

  /** Two reports of one worker never decrease. */
  lemma LaterReport(hostname: string, modulus: int, life: seq<I.Input>, p: nat, q: nat, a: InetdiagerStats,
                    b: InetdiagerStats)
    requires p < q && ReportedAt(hostname, modulus, life, p, a) && ReportedAt(hostname, modulus, life, q, b)
    ensures AtMost(a, b)
  {
    ReportBetween(hostname, modulus, life, p, a);
    ReportBetween(hostname, modulus, life, q, b);
    I.TotalsGrow(hostname, modulus, life[..q], p + 1);
    assert life[..q][..p + 1] == life[..p + 1];
    hide I.Life, AtMost;
    var x, y := I.Life(hostname, modulus, life[..p + 1]).worker.totals,
        I.Life(hostname, modulus, life[..q]).worker.totals;
    AtMostTransitive(a, x, y);
    AtMostTransitive(a, y, b);
  }

  lemma FirstReport(hostname: string, modulus: int, life: seq<I.Input>, p: nat, a: InetdiagerStats)
    requires ReportedAt(hostname, modulus, life, p, a)
    ensures AtMost(ZERO_STATS, a)
  {
    ReportBetween(hostname, modulus, life, p, a);
    I.TotalsGrow(hostname, modulus, life[..p], 0);
    assert life[..p][..0] == [];
    assert I.Life(hostname, modulus, []).worker.totals == ZERO_STATS;
    hide I.Life, AtMost;
    AtMostTransitive(ZERO_STATS, I.Life(hostname, modulus, life[..p]).worker.totals, a);
  }

  /** The index of a worker's latest report, or -1. */
  lemma {:induction false} LatestReport(reports: seq<Report>, k: Key) returns (i: int)
    ensures -1 <= i < |reports|
    ensures i >= 0 ==> KeyOf(reports[i]) == k && LastReport(reports, k) == reports[i].stats
    ensures i < 0 ==> LastReport(reports, k) == ZERO_STATS
    ensures forall j :: i < j < |reports| ==> KeyOf(reports[j]) != k
  {
    i := |reports| - 1;
    if reports != [] && KeyOf(reports[i]) != k {
      i := LatestReport(reports[..i], k);
    }
  }

  /** The report comes from a newer incarnation than every earlier report under its id, of which there are some. */
  predicate FirstAfterRestart(reports: seq<Report>, places: seq<Place>, i: nat)
    requires i < |reports| == |places|
  {
    && (exists j :: 0 <= j < i && KeyOf(reports[j]) == KeyOf(reports[i]))
    && (forall j :: 0 <= j < i && KeyOf(reports[j]) == KeyOf(reports[i]) ==>
        places[j].incarnation < places[i].incarnation)
  }

  /** The report is at least the last one under its id. */
  predicate NotSmaller(reports: seq<Report>, i: nat)
    requires i < |reports|
  {
    AtMost(LastReport(reports[..i], KeyOf(reports[i])), reports[i].stats)
  }

  /** Within an incarnation reports never decrease. */
  lemma OnlyRestartsDecrease(hostname: string, modulus: int, lives: map<Key, seq<seq<I.Input>>>, reports: seq<Report>,
                             places: seq<Place>, i: nat)
    requires Reporting(hostname, modulus, lives, reports, places) && i < |reports|
    ensures |places| == |reports| && (FirstAfterRestart(reports, places, i) || NotSmaller(reports, i))
  {
    hide AtMost, LastReport, ReportedAt;
    var k := KeyOf(reports[i]);
    var j := LatestReport(reports[..i], k);
    if j < 0 {
      FirstReport(hostname, modulus, lives[k][places[i].incarnation], places[i].message, reports[i].stats);
    } else {
      assert reports[..i][j] == reports[j];
      if places[j].incarnation == places[i].incarnation {
        LaterReport(hostname, modulus, lives[k][places[i].incarnation], places[j].message, places[i].message,
                    reports[j].stats, reports[i].stats);
      } else {
        forall l | 0 <= l < i && KeyOf(reports[l]) == k ensures places[l].incarnation < places[i].incarnation {
          assert reports[..i][l] == reports[l];
        }
      }
    }
  }

  /** The stater survives if and only if no restarted worker's first report falls below the last one under its id. */
  lemma {:induction false} SurvivesRestartsIff(c: Config, hostname: string, modulus: int,
                                               lives: map<Key, seq<seq<I.Input>>>, reports: seq<Report>,
                                               places: seq<Place>)
    requires Usable(c) && KnownFamilies(reports) && Reporting(hostname, modulus, lives, reports, places)
    ensures |places| == |reports|
    ensures FeedAll(c, reports).Some? <==>
      forall i: nat :: i < |reports| && FirstAfterRestart(reports, places, i) ==> NotSmaller(reports, i)
  {
    SurvivesIff(c, reports);
    NeverDecreasesIs(reports);
    forall i: nat | i < |reports| ensures |places| == |reports|
        && (FirstAfterRestart(reports, places, i) || NotSmaller(reports, i)) {
      OnlyRestartsDecrease(hostname, modulus, lives, reports, places, i);
    }
    hide FeedAll, NeverDecreases, FirstAfterRestart, NotSmaller, KnownFamilies, Usable;
  }

  lemma NeverDecreasesIs(reports: seq<Report>)
    ensures NeverDecreases(reports) <==> forall i: nat :: i < |reports| ==> NotSmaller(reports, i)
  {
    hide AtMost, LastReport;
    if NeverDecreases(reports) {
    } else {
      var i :| 0 <= i < |reports| && !AtMost(LastReport(reports[..i], KeyOf(reports[i])), reports[i].stats);
      assert !NotSmaller(reports, i);
    }
  }

  predicate Unrestarted(lives: map<Key, seq<seq<I.Input>>>) {
    forall k :: k in lives ==> |lives[k]| <= 1
  }

  /** Without restarts reports never decrease. */
  lemma UnrestartedNeverDecreases(hostname: string, modulus: int, lives: map<Key, seq<seq<I.Input>>>,
                                  reports: seq<Report>, places: seq<Place>)
    requires Unrestarted(lives) && Reporting(hostname, modulus, lives, reports, places)
    ensures NeverDecreases(reports)
  {
    forall i: nat | i < |reports| ensures NotSmaller(reports, i) {
      OnlyRestartsDecrease(hostname, modulus, lives, reports, places, i);
      hide NotSmaller, ReportedAt;
      assert KeyOf(reports[i]) in lives && places[i].incarnation == 0;
      assert !FirstAfterRestart(reports, places, i);
    }
    NeverDecreasesIs(reports);
  }

  // ---- Totals against the messages processed ----

  /** Non-empty messages in all lives under ids 0 to n - 1 of a family. */
  function MessagesOf(lives: map<Key, seq<seq<I.Input>>>, af: nat, n: nat): nat {
    if n == 0 then 0
    else MessagesOf(lives, af, n - 1) + if (af, n - 1) in lives then Sum(Counts(lives[(af, n - 1)])) else 0
  }

  lemma {:induction false} NonEmptyPrefix(inputs: seq<I.Input>, p: nat)
    requires p <= |inputs|
    ensures I.NonEmpty(inputs[..p]) <= I.NonEmpty(inputs)
  {
    if p == |inputs| {
      assert inputs[..p] == inputs;
    } else {
      NonEmptyPrefix(inputs[..|inputs| - 1], p);
      assert inputs[..|inputs| - 1][..p] == inputs[..p];
    }
  }

  lemma {:induction false} OneOfCounts(ls: seq<seq<I.Input>>, i: nat)
    requires i < |ls|
    ensures I.NonEmpty(ls[i]) <= Sum(Counts(ls))
  {
    hide I.NonEmpty, Sum;
    var n := |ls| - 1;
    SumAppend(Counts(ls[..n]), I.NonEmpty(ls[n]));
    if i < n { OneOfCounts(ls[..n], i); }
  }

  lemma ReportedCount(hostname: string, modulus: int, life: seq<I.Input>, p: nat, a: InetdiagerStats)
    requires modulus != 0 && ReportedAt(hostname, modulus, life, p, a)
    ensures a.msgCount <= I.NonEmpty(life)
  {
    I.LifeCounts(hostname, modulus, life[..p]);
    NonEmptyPrefix(life, p);
    hide I.Life, I.NonEmpty;
  }

  lemma {:induction false} ReportedAtMostProcessed(
      hostname: string, modulus: int, lives: map<Key, seq<seq<I.Input>>>, reports: seq<Report>, places: seq<Place>,
      af: nat, n: nat)
    requires modulus != 0 && Reporting(hostname, modulus, lives, reports, places)
    ensures SumMsgs(reports, af, n) <= MessagesOf(lives, af, n)
  {
    hide ReportedAt, I.NonEmpty, LastReport, Sum, Counts;
    if n > 0 {
      ReportedAtMostProcessed(hostname, modulus, lives, reports, places, af, n - 1);
      var k := (af, n - 1);
      var i := LatestReport(reports, k);
      if i >= 0 {
        var life := lives[k][places[i].incarnation];
        ReportedCount(hostname, modulus, life, places[i].message, reports[i].stats);
        OneOfCounts(lives[k], places[i].incarnation);
      }
    }
  }

  /** Statistics refinement: while the stater survives, each counter is its worker's last report, and a family's total
      is at most the non-empty messages its workers, in all their incarnations, have been given. */
  lemma StaterRefinesWorkers(
      c: Config, hostname: string, modulus: int, lives: map<Key, seq<seq<I.Input>>>, reports: seq<Report>,
      places: seq<Place>, n: nat)
    requires IdsBelow(reports, n) && modulus != 0 && Reporting(hostname, modulus, lives, reports, places)
    ensures Usable(c) && KnownFamilies(reports) && Unrestarted(lives) ==> FeedAll(c, reports).Some?
    ensures var r := FeedAll(c, reports);
            r.Some? ==>
              && (forall k :: Lookup(r.value.counters, k) == LastReport(reports, k))
              && (forall af :: af in {AF_INET, AF_INET6} ==> Of(r.value.msgsTotal, af) <= MessagesOf(lives, af, n))
              && r.value.totalInetdiagerMsgs <= MessagesOf(lives, AF_INET, n) + MessagesOf(lives, AF_INET6, n)
  {
    if Usable(c) && KnownFamilies(reports) && Unrestarted(lives) {
      UnrestartedNeverDecreases(hostname, modulus, lives, reports, places);
      SurvivesIff(c, reports);
    }
    TotalsAreSums(c, reports, n);
    ReportedAtMostProcessed(hostname, modulus, lives, reports, places, AF_INET, n);
    ReportedAtMostProcessed(hostname, modulus, lives, reports, places, AF_INET6, n);
    forall k ensures FeedAll(c, reports).Some? ==>
      Lookup(FeedAll(c, reports).value.counters, k) == LastReport(reports, k) {
      CountersAreLastReports(c, reports, k);
    }
    hide *;
  }

  // ---- The stater behind two pollers ----

  /** The ids of a family are the positions of its poller's workers, each with its one life. */
  ghost predicate OneLifeEach(lives: map<Key, seq<seq<I.Input>>>, af: nat, ls: seq<seq<I.Input>>) {
    && (forall id :: (af, id) in lives <==> 0 <= id < |ls|)
    && (forall id :: 0 <= id < |ls| ==> lives[(af, id)] == [ls[id]])
  }

  lemma CountsOfOne(l: seq<I.Input>)
    ensures Sum(Counts([l])) == I.NonEmpty(l)
  {
    hide I.NonEmpty;
    assert [l][..0] == [];
    assert Counts([l]) == [I.NonEmpty(l)];
    assert [I.NonEmpty(l)][1..] == [];
  }

  lemma {:induction false} MessagesOfPoller(lives: map<Key, seq<seq<I.Input>>>, af: nat, ls: seq<seq<I.Input>>, n: nat)
    requires OneLifeEach(lives, af, ls)
    ensures MessagesOf(lives, af, n) == Sum(Counts(if n <= |ls| then ls[..n] else ls))
  {
    hide I.NonEmpty;
    if n == 0 {
    } else if n <= |ls| {
      MessagesOfPoller(lives, af, ls, n - 1);
      CountsOfOne(ls[n - 1]);
      assert ls[..n][..n - 1] == ls[..n - 1];
      SumAppend(Counts(ls[..n - 1]), I.NonEmpty(ls[n - 1]));
      hide Sum;
    } else {
      MessagesOfPoller(lives, af, ls, n - 1);
      assert n - 1 == |ls| ==> ls[..n - 1] == ls;
      hide Sum, Counts;
    }
  }

  lemma MessagesOfAll(lives: map<Key, seq<seq<I.Input>>>, af: nat, ls: seq<seq<I.Input>>, n: nat)
    requires OneLifeEach(lives, af, ls) && n >= |ls|
    ensures MessagesOf(lives, af, n) == Sum(Counts(ls))
  {
    MessagesOfPoller(lives, af, ls, n);
    assert n == |ls| ==> ls[..n] == ls;
    hide Sum, Counts, MessagesOf;
  }

  lemma PollerBound(p: P.Config, s: P.State, start: nat -> nat, ls: seq<seq<I.Input>>,
                    lives: map<Key, seq<seq<I.Input>>>, af: nat, n: nat)
    requires Reachable(p, s) && !p.shutdownWorkers && LivesOf(start, s.workers, ls) && OneLifeEach(lives, af, ls)
    requires n >= p.inetdiagers
    ensures |ls| <= p.inetdiagers && MessagesOf(lives, af, n) == |P.Total(s.workers, NonEmptyProcessed)|
  {
    hide *;
    StartedOnce(p, s);
    LivesLength(start, s.workers, ls);
    MessagesOfAll(lives, af, ls, n);
    CountsAreProcessed(start, s.workers, ls);
  }

  /** Two pollers that keep their workers feed the stater: it survives, each family's total is at most the non-empty
      messages that poller's workers have processed, and the grand total at most both together. */
  lemma StaterBehindPollers(
      c: Config, hostname: string, start: nat -> nat,
      p4: P.Config, s4: P.State, ls4: seq<seq<I.Input>>, p6: P.Config, s6: P.State, ls6: seq<seq<I.Input>>,
      lives: map<Key, seq<seq<I.Input>>>, reports: seq<Report>, places: seq<Place>)
    requires Reachable(p4, s4) && !p4.shutdownWorkers && LivesOf(start, s4.workers, ls4)
    requires OneLifeEach(lives, AF_INET, ls4)
    requires Reachable(p6, s6) && !p6.shutdownWorkers && LivesOf(start, s6.workers, ls6)
    requires OneLifeEach(lives, AF_INET6, ls6)
    requires Usable(c) && p4.reportModulus != 0 && (forall k :: k in lives ==> k.0 in {AF_INET, AF_INET6})
    requires Reporting(hostname, p4.reportModulus, lives, reports, places)
    ensures var r, n4, n6 := FeedAll(c, reports), |P.Total(s4.workers, NonEmptyProcessed)|,
            |P.Total(s6.workers, NonEmptyProcessed)|;
            && r.Some? && Of(r.value.msgsTotal, AF_INET) <= n4 && Of(r.value.msgsTotal, AF_INET6) <= n6
            && r.value.totalInetdiagerMsgs <= n4 + n6
  {
    var n := p4.inetdiagers + p6.inetdiagers;
    PollerBound(p4, s4, start, ls4, lives, AF_INET, n);
    PollerBound(p6, s6, start, ls6, lives, AF_INET6, n);
    Registered(hostname, p4.reportModulus, ls4, ls6, lives, reports, places, n);
    hide *;
    StaterRefinesWorkers(c, hostname, p4.reportModulus, lives, reports, places, n);
    BothFamilies();
  }

  lemma BothFamilies()
    ensures AF_INET in {AF_INET, AF_INET6} && AF_INET6 in {AF_INET, AF_INET6}
  {
  }

  lemma Registered(hostname: string, modulus: int, ls4: seq<seq<I.Input>>, ls6: seq<seq<I.Input>>,
                   lives: map<Key, seq<seq<I.Input>>>, reports: seq<Report>, places: seq<Place>, n: nat)
    requires OneLifeEach(lives, AF_INET, ls4) && OneLifeEach(lives, AF_INET6, ls6) && |ls4| <= n && |ls6| <= n
    requires forall k :: k in lives ==> k.0 in {AF_INET, AF_INET6}
    requires Reporting(hostname, modulus, lives, reports, places)
    ensures KnownFamilies(reports) && IdsBelow(reports, n) && Unrestarted(lives)
  {
    hide ReportedAt;
    forall k | k in lives ensures |lives[k]| <= 1 && 0 <= k.1 < n {
      if k.0 == AF_INET {
        assert k == (AF_INET, k.1);
        assert lives[(AF_INET, k.1)] == [ls4[k.1]];
      } else {
        assert k == (AF_INET6, k.1);
        assert lives[(AF_INET6, k.1)] == [ls6[k.1]];
      }
    }
    forall i | 0 <= i < |reports| ensures reports[i].af in {AF_INET, AF_INET6} && 0 <= reports[i].id < n {
      assert KeyOf(reports[i]) in lives;
    }
  }
}
