/** Incarnations of the workers: without ShutdownWorkers there is one, started once; with it, one for each poll. */
module Incarnations {
  import opened Pipeline
  import opened Safety
  import opened Conservation

  predicate OneIncarnation(c: Config, s: State) {
    && |s.chans| <= 1 && |s.workers| <= c.inetdiagers && (s.chans == [] ==> s.workers == [])
    && (s.pc == LoopTop && !s.workersStarted ==> s.chans == [])
    && (s.pc.StartInetdiagers? ==> |s.workers| == s.pc.started)
    && (s.pc == AwaitTick ==> s.workersStarted)
    && s.pc != CloseChannel(false) && s.pc != AwaitInetdiagers(false)
  }

  predicate Incarnated(c: Config, s: State) {
    && (c.inetdiagers == 0 ==> s.workers == [])
    && (c.shutdownWorkers && (s.pc == LoopTop || s.pc == AwaitTick) ==> !s.workersStarted)
    && (!c.shutdownWorkers ==> OneIncarnation(c, s))
  }

  lemma PollerKeepsIncarnated(c: Config, s: State)
    requires ChannelsFit(s) && Incarnated(c, s) && PollerReady(s)
    ensures Incarnated(c, PollerNext(c, s))
  {
  }

  /** Only the poller starts workers and makes channels. */
  lemma OthersStartNothing(c: Config, s: State, e: Event)
    requires Enabled(c, s, e) && e != PollerStep
    ensures var t := Exec(c, s, e);
            && |t.workers| == |s.workers| && |t.chans| == |s.chans| && t.workersStarted == s.workersStarted
            && t.loops == s.loops
            && (t.pc == s.pc || (s.pc == AwaitDone && t.pc == AwaitNetlinkers))
  {
    hide Yields, Sends, MessagePanics;
  }

  lemma NextKeepsIncarnated(c: Config, s: State, t: State)
    requires Fits(c, s) && Incarnated(c, s) && Next(c, s, t)
    ensures Incarnated(c, t)
  {
    var e :| Enabled(c, s, e) && t == Exec(c, s, e);
    if e == PollerStep {
      PollerKeepsIncarnated(c, s);
    } else {
      OthersStartNothing(c, s, e);
      hide Enabled, Exec;
    }
  }

  lemma {:induction false} RunsAreIncarnated(c: Config, run: seq<State>)
    requires IsRun(c, run)
    ensures Incarnated(c, run[|run| - 1])
    decreases |run|
  {
    hide Next, Fits, Conserved;
    if |run| > 1 {
      var n := |run| - 1;
      RunPrefix(c, run);
      RunsAreIncarnated(c, run[..n]);
      RunsAreSafe(c, run[..n]);
      hide *;
      NextKeepsIncarnated(c, run[n - 1], run[n]);
    }
  }

  lemma ReachableIsIncarnated(c: Config, s: State)
    requires Reachable(c, s)
    ensures Incarnated(c, s)
  {
    hide Next, Incarnated;
    var run: seq<State> :| IsRun(c, run) && run[|run| - 1] == s;
    RunsAreIncarnated(c, run);
  }

  /** Without ShutdownWorkers at most one channel is ever made and no inetdiager is started twice. */
  lemma StartedOnce(c: Config, s: State)
    requires Reachable(c, s) && !c.shutdownWorkers
    ensures |s.chans| <= 1 && |s.workers| <= c.inetdiagers
  {
    hide Reachable;
    ReachableIsIncarnated(c, s);
  }
}
