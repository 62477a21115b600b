/** One netlinker, one inetdiager and ShutdownWorkers: a schedule of whole polls, and the restart
    that kills the stater. */
module Restart {
  import opened Misc
  import opened Bytes
  import opened Sampling
  import opened Stats
  import I = Inetdiager
  import opened Netlinker
  import opened Pipeline
  import opened Conservation
  import opened Termination
  import opened Workers
  import St = Stater
  import opened Reports

  /** Single workers, restarted after every poll. */
  predicate Single(c: Config) {
    c.netlinkers == 1 && c.inetdiagers == 1 && c.shutdownWorkers && c.timeouts && c.happyModulus != 0
  }

  /** What a packet with these sampled bodies and a DONE makes its netlinker do. */
  function ScriptFor(bodies: seq<seq<byte>>): seq<Action> {
    if bodies == [] then [Done] else [Send(bodies[0])] + ScriptFor(bodies[1..])
  }

  function Stamped(stamp: nat, bodies: seq<seq<byte>>): seq<Msg> {
    if bodies == [] then [] else [Msg(stamp, bodies[0])] + Stamped(stamp, bodies[1..])
  }

  ghost predicate AtTop(c: Config, s: State) {
    && Reachable(c, s) && s.crash == Alive && s.pc == LoopTop && !s.workersStarted
    && s.socket == [] && s.requests == s.loops && AllLeft(s.workers)
  }

  /** In the poll begun at `top`: its netlinker in this phase, its inetdiager idle after this work. */
  ghost predicate During(c: Config, top: State, s: State, pc: PollerPC, phase: NetlinkerPhase, work: seq<Msg>) {
    var g := |top.chans|;
    && Reachable(c, s) && s.crash == Alive && s.pc == pc && s.workersStarted && s.loops == top.loops
    && s.requests == top.requests + 1 && s.chans == top.chans + [Channel([], false)]
    && (phase != Receiving ==> s.socket == [])
    && s.workers == top.workers + [WorkerThread(g, Idle, work)]
    && s.netlinkers == [NetlinkerThread(g, top.loops, phase)]
  }

  lemma Step(c: Config, s: State, e: Event) returns (t: State)
    requires Reachable(c, s) && Enabled(c, s, e)
    ensures Reachable(c, t) && t == Exec(c, s, e)
  {
    hide *;
    t := Exec(c, s, e);
    Follow(c, s, e);
  }

  lemma Begin(c: Config, top: State, r: Reception) returns (t: State)
    requires Single(c) && AtTop(c, top) && MaxLoopsOrForEver(top.loops, c.maxLoops) && c.kernel(top.loops) == [r]
    ensures During(c, top, t, AwaitDone, Receiving, []) && t.socket == [r]
  {
    hide Reachable;
    t := Step(c, top, PollerStep);
    t := Step(c, t, PollerStep);
    t := Step(c, t, PollerStep);
    t := BeginNetlinkers(c, top, t, r);
  }

  lemma BeginNetlinkers(c: Config, top: State, s: State, r: Reception) returns (t: State)
    requires Single(c) && AtTop(c, top) && c.kernel(top.loops) == [r]
    requires Reachable(c, s) && s.crash == Alive && s.pc == SendRequest && s.workersStarted && s.loops == top.loops
    requires s.requests == top.requests && s.chans == top.chans + [Channel([], false)] && s.socket == []
    requires s.workers == top.workers + [WorkerThread(|top.chans|, Idle, [])]
    ensures During(c, top, t, AwaitDone, Receiving, []) && t.socket == [r]
  {
    hide Reachable;
    t := Step(c, s, PollerStep);
    t := Step(c, t, PollerStep);
    t := Step(c, t, PollerStep);
  }

  /** One message straight from the netlinker to the inetdiager, and through it. */
  lemma OneMessage(c: Config, top: State, s: State, script: seq<Action>, work: seq<Msg>) returns (t: State)
    requires During(c, top, s, AwaitDone, Acting(script), work) && script != [] && script[0].Send?
    requires !MessagePanics(c, script[0].body)
    ensures During(c, top, t, AwaitDone, Acting(script[1..]), work + [Msg(top.loops, script[0].body)])
  {
    hide Reachable, MessagePanics;
    var j := |top.workers|;
    t := Step(c, s, Handoff(0, j));
    t := Step(c, t, Process(j));
  }

  lemma {:induction false} AllMessages(c: Config, top: State, s: State, bodies: seq<seq<byte>>,
                                       work: seq<Msg>) returns (t: State)
    requires During(c, top, s, AwaitDone, Acting(ScriptFor(bodies)), work)
    requires forall i :: 0 <= i < |bodies| ==> !MessagePanics(c, bodies[i])
    ensures During(c, top, t, AwaitDone, Acting([Done]), work + Stamped(top.loops, bodies))
    decreases |bodies|
  {
    hide During, MessagePanics;
    t := s;
    if bodies == [] {
      assert work + [] == work;
    } else {
      var m := Msg(top.loops, bodies[0]);
      assert ScriptFor(bodies)[1..] == ScriptFor(bodies[1..]);
      t := OneMessage(c, top, s, ScriptFor(bodies), work);
      t := AllMessages(c, top, t, bodies[1..], work + [m]);
      assert (work + [m]) + Stamped(top.loops, bodies[1..]) == work + ([m] + Stamped(top.loops, bodies[1..]));
    }
  }

  lemma End(c: Config, top: State, s: State, work: seq<Msg>) returns (t: State)
    requires Single(c) && AtTop(c, top) && During(c, top, s, AwaitDone, Acting([Done]), work)
    ensures AtTop(c, t) && t.loops == top.loops + 1 && |t.chans| == |top.chans| + 1
    ensures t.workers == top.workers + [WorkerThread(|top.chans|, Left, work)]
  {
    hide Reachable;
    t := Step(c, s, TakeDone(0));
    t := Step(c, t, NextPacket(0));
    t := Step(c, t, Timeout(0));
    t := ShutDown(c, top, t, work);
  }

  lemma ShutDown(c: Config, top: State, s: State, work: seq<Msg>) returns (t: State)
    requires Single(c) && AtTop(c, top) && During(c, top, s, AwaitNetlinkers, Gone, work)
    ensures AtTop(c, t) && t.loops == top.loops + 1 && |t.chans| == |top.chans| + 1
    ensures t.workers == top.workers + [WorkerThread(|top.chans|, Left, work)]
  {
    hide Reachable;
    t := Step(c, s, PollerStep);
    t := Step(c, t, PollerStep);
    t := Step(c, t, Leave(|top.workers|));
    t := Step(c, t, PollerStep);
    t := Step(c, t, PollerStep);
  }

  lemma TakePacket(c: Config, top: State, s: State, r: Reception, script: seq<Action>) returns (t: State)
    requires During(c, top, s, AwaitDone, Receiving, []) && s.socket == [r] && Yields(c, r, script)
    ensures During(c, top, t, AwaitDone, Acting(script), [])
  {
    hide Reachable, Yields;
    t := Step(c, s, Receive(0, script));
  }

  /** A whole poll: the inetdiager started for it processes the reply and leaves. */
  lemma OnePoll(c: Config, top: State, r: Reception, bodies: seq<seq<byte>>) returns (t: State)
    requires Single(c) && AtTop(c, top) && MaxLoopsOrForEver(top.loops, c.maxLoops)
    requires c.kernel(top.loops) == [r] && Yields(c, r, ScriptFor(bodies))
    requires forall i :: 0 <= i < |bodies| ==> !MessagePanics(c, bodies[i])
    ensures AtTop(c, t) && t.loops == top.loops + 1 && |t.chans| == |top.chans| + 1
    ensures t.workers == top.workers + [WorkerThread(|top.chans|, Left, Stamped(top.loops, bodies))]
  {
    hide *;
    t := Begin(c, top, r);
    t := TakePacket(c, top, t, r, ScriptFor(bodies));
    t := AllMessages(c, top, t, bodies, []);
    assert [] + Stamped(top.loops, bodies) == Stamped(top.loops, bodies);
    t := End(c, top, t, Stamped(top.loops, bodies));
  }

  lemma InitAtTop(c: Config)
    ensures AtTop(c, INIT)
  {
    InitReachable(c);
    hide Reachable;
  }

  /** Two polls of a single inetdiager: two messages for its first incarnation, one for its second. */
  lemma TwoPolls(c: Config, r0: Reception, r1: Reception, body: seq<byte>) returns (s: State)
    requires Single(c) && MaxLoopsOrForEver(1, c.maxLoops) && !MessagePanics(c, body)
    requires c.kernel(0) == [r0] && Yields(c, r0, ScriptFor([body, body]))
    requires c.kernel(1) == [r1] && Yields(c, r1, ScriptFor([body]))
    ensures Reachable(c, s) && s.crash == Alive
    ensures s.workers == [WorkerThread(0, Left, [Msg(0, body), Msg(0, body)]), WorkerThread(1, Left, [Msg(1, body)])]
  {
    InitAtTop(c);
    hide Reachable, Yields, MessagePanics, ScriptFor;
    var t := OnePoll(c, INIT, r0, [body, body]);
    s := OnePoll(c, t, r1, [body]);
    StampedShort(0, body);
    StampedShort(1, body);
  }

  lemma StampedShort(stamp: nat, body: seq<byte>)
    ensures Stamped(stamp, [body]) == [Msg(stamp, body)]
    ensures Stamped(stamp, [body, body]) == [Msg(stamp, body), Msg(stamp, body)]
  {
    assert [body][1..] == [] && [body, body][1..] == [body];
  }

  // ---- What the stater makes of it ----

  lemma OneMessageLife(hostname: string, modulus: int, i: I.Input)
    requires modulus != 0 && i.body != [] && !I.BodyPanics(i.body)
    ensures var r := I.Life(hostname, modulus, [i]);
            r.Alive? && r.worker.totals.inSizeTotal == |i.body|
  {
    I.LifePanicsIff(hostname, modulus, [i]);
    assert [i][..0] == [];
    I.LifeStep(hostname, modulus, [i]);
    I.PanicIsTheBodys(I.ZERO_DECODER, i.body);
    hide I.DecodeMessage, I.BuildProto, I.FitsDecoder, I.BodyPanics, Selected;
  }

  /** A worker that reports on its second message, and its next incarnation that reports on its first. */
  lemma SmallerReport(hostname: string, modulus: int, quiet: I.Input, tick: I.Input, again: I.Input)
    returns (a: InetdiagerStats, b: InetdiagerStats)
    requires modulus != 0 && quiet.body == tick.body == again.body && tick.around.tick && again.around.tick
    requires quiet.body != [] && !I.BodyPanics(quiet.body)
    ensures ReportedAt(hostname, modulus, [quiet, tick], 1, a) && ReportedAt(hostname, modulus, [again], 0, b)
    ensures !AtMost(a, b) && AtMost(ZERO_STATS, a)
  {
    var first, second := [quiet, tick], [again];
    OneMessageLife(hostname, modulus, quiet);
    assert first[..1] == [quiet] && second[..0] == [];
    I.ZeroDecoderFits();
    hide I.Turn, I.DecodeMessage, I.BuildProto, I.FitsDecoder, I.BodyPanics, Selected;
    var w, v := I.Life(hostname, modulus, [quiet]).worker, I.Life(hostname, modulus, []).worker;
    a := I.ReportOf(w.totals, tick.body, tick.around).value;
    b := I.ReportOf(v.totals, again.body, again.around).value;
    assert a.inSizeTotal == 2 * |tick.body| && b.inSizeTotal == |tick.body|;
    FirstReport(hostname, modulus, first, 1, a);
  }

  lemma TwoLives(start: nat -> nat, ws: seq<WorkerThread>, quiet: I.Input, tick: I.Input, again: I.Input)
    requires ws == [WorkerThread(0, Left, [Msg(0, quiet.body), Msg(0, quiet.body)]),
                    WorkerThread(1, Left, [Msg(1, quiet.body)])]
    requires quiet.body == tick.body == again.body
    requires quiet.epochTime == tick.epochTime == start(0) && again.epochTime == start(1)
    ensures LivesOf(start, ws, [[quiet, tick], [again]])
  {
  }

  lemma TwoReports(hostname: string, modulus: int, quiet: I.Input, tick: I.Input, again: I.Input,
                   a: InetdiagerStats, b: InetdiagerStats)
    requires ReportedAt(hostname, modulus, [quiet, tick], 1, a) && ReportedAt(hostname, modulus, [again], 0, b)
    ensures Reporting(hostname, modulus, map[(AF_INET, 0) := [[quiet, tick], [again]]],
                      [St.Report(AF_INET, 0, a), St.Report(AF_INET, 0, b)], [Place(0, 1), Place(1, 0)])
  {
    hide ReportedAt;
  }

  /** ShutdownWorkers at work: in a reachable state of a poller the only inetdiager has processed two messages, was
      restarted and has processed one. If the statistics ticker fired on the last message of each life, the second
      report is smaller and the stater dies of it, for any message that does not panic. */
  lemma RestartKills(c: St.Config, p: Config, r0: Reception, r1: Reception, hostname: string, start: nat -> nat,
                     quiet: I.Input, tick: I.Input, again: I.Input)
    returns (s: State, a: InetdiagerStats, b: InetdiagerStats)
    requires St.Usable(c) && Single(p) && p.reportModulus != 0 && MaxLoopsOrForEver(1, p.maxLoops)
    requires quiet.body == tick.body == again.body && quiet.body != [] && !I.BodyPanics(quiet.body)
    requires quiet.epochTime == tick.epochTime == start(0) && again.epochTime == start(1)
    requires tick.around.tick && again.around.tick
    requires p.kernel(0) == [r0] && Yields(p, r0, ScriptFor([quiet.body, quiet.body]))
    requires p.kernel(1) == [r1] && Yields(p, r1, ScriptFor([quiet.body]))
    ensures Reachable(p, s) && s.crash == Alive && LivesOf(start, s.workers, [[quiet, tick], [again]])
    ensures var reports := [St.Report(AF_INET, 0, a), St.Report(AF_INET, 0, b)];
            && Reporting(hostname, p.reportModulus, map[(AF_INET, 0) := [[quiet, tick], [again]]], reports,
                         [Place(0, 1), Place(1, 0)])
            && !AtMost(a, b) && St.FeedAll(c, reports[..1]).Some? && St.FeedAll(c, reports).None?
  {
    assert !MessagePanics(p, quiet.body) by { hide Reachable, Yields, I.BodyPanics; }
    hide *;
    s := TwoPolls(p, r0, r1, quiet.body);
    a, b := SmallerReport(hostname, p.reportModulus, quiet, tick, again);
    TwoLives(start, s.workers, quiet, tick, again);
    TwoReports(hostname, p.reportModulus, quiet, tick, again, a, b);
    assert [St.Report(AF_INET, 0, a), St.Report(AF_INET, 0, b)][..1] == [St.Report(AF_INET, 0, a)];
    St.SmallerReportPanics(c, a, b);
  }
}
