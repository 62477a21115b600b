/** How far the workers can be behind the kernel. */
module Lag {
  import opened Misc
  import opened Pipeline
  import opened Safety
  import opened Conservation
  import opened Incarnations
  import opened Delivery
  import opened Unserved

  /** In any state the workers have processed part of what the kernel sent, each message at most once. */
  lemma ProcessedSoFar(c: Config, s: State)
    requires GoodKernel(c) && Reachable(c, s) && s.crash == Alive
    ensures Total(s.workers, Processed) <= Expected(c, s.requests)
    ensures s.requests > 0 ==> MaxLoopsOrForEver(s.requests - 1, c.maxLoops)
  {
    ReachableIsGood(c, s);
    LastRequestGoesOn(c, s);
    hide Reachable, GoodKernel, Fits, DoneFits, Total, Expected, ReplySends;
  }

  lemma LastRequestGoesOn(c: Config, s: State)
    requires Good(c, s) && s.crash == Alive
    ensures s.requests > 0 ==> MaxLoopsOrForEver(s.requests - 1, c.maxLoops)
  {
    hide Conserved, DoneFits, Delivered, ChannelsFit, WorkersFit, NetlinkersFit, ChannelsServed;
  }

  lemma {:induction false} HeldOnce(ws: seq<WorkerThread>)
    ensures |Total(ws, Held)| <= |ws|
  {
    if ws != [] {
      var n := |ws| - 1;
      HeldOnce(ws[..n]);
      assert |Held(ws[n])| <= 1;
    }
  }

  lemma OneChannel(chans: seq<Channel>, size: nat)
    requires |chans| <= 1 && forall g :: 0 <= g < |chans| ==> |chans[g].buf| <= size
    ensures |Total(chans, Queued)| <= size
  {
    if |chans| == 1 {
      assert chans[..0] == [];
      assert Total(chans, Queued) == Total(chans[..0], Queued) + Queued(chans[0]);
    }
  }

  /** Between polls a poller that keeps its workers has processed all but a channel's worth and one
      message per worker. */
  lemma LagAtTick(c: Config, s: State)
    requires GoodKernel(c) && Reachable(c, s) && s.crash == Alive && s.pc == AwaitTick && !c.shutdownWorkers
    ensures |Expected(c, s.requests)| <= |Total(s.workers, Processed)| + c.netlinkerChSize + c.inetdiagers
  {
    hide *;
    ReachableIsKept(c, s);
    StartedOnce(c, s);
    HeldOnce(s.workers);
    KeptRoom(c, s);
    OneChannel(s.chans, c.netlinkerChSize);
    AllReceivedAtTick(c, s);
    SizeOfParts(Total(s.netlinkers, Pending), Total(s.chans, Queued), Total(s.workers, Held),
                Total(s.workers, Processed), Expected(c, s.requests));
  }

  lemma KeptRoom(c: Config, s: State)
    requires Kept(c, s)
    ensures forall g :: 0 <= g < |s.chans| ==> |s.chans[g].buf| <= c.netlinkerChSize
  {
    hide Total, Expected;
  }

  /** Between polls nothing is left in the socket or in netlinkers. */
  lemma AllReceivedAtTick(c: Config, s: State)
    requires Good(c, s) && s.crash == Alive && s.pc == AwaitTick
    ensures Total(s.netlinkers, Pending) == multiset{}
    ensures Total(s.netlinkers, Pending) + Total(s.chans, Queued) + Total(s.workers, Held) + Total(s.workers, Processed)
         == Expected(c, s.requests)
  {
    assert AllGone(s.netlinkers) by {
      hide Conserved, DoneFits, Delivered, ChannelsFit, WorkersFit, CountsFit, ChannelsServed;
    }
    assert s.socket == [] by { hide Fits, Conserved, GoodReply, Delivered; }
    DeliveredDrained(c, s);
    hide Fits, DoneFits, Delivered, Expected;
    TotalEmpty(s.netlinkers, Pending);
    hide Total;
  }

  lemma SizeOfParts(p: multiset<Msg>, q: multiset<Msg>, h: multiset<Msg>, d: multiset<Msg>, all: multiset<Msg>)
    requires p == multiset{} && p + q + h + d == all
    ensures |all| == |q| + |h| + |d|
  {
  }
}
