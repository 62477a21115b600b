/** Deadlocks and termination: exactly when the program is stuck, and what brings every poll to its end. */
module Progress {
  import Bytes
  import opened Netlinker
  import opened Pipeline
  import opened Safety
  import opened Conservation
  import opened Delivery

  // ---- Stuck states ----

  /** No worker has anything to do. */
  predicate WorkersQuiet(s: State) {
    forall j :: 0 <= j < |s.workers| ==>
      s.workers[j].phase == Left
      || (s.workers[j].phase == Idle && s.workers[j].ch < |s.chans| && s.chans[s.workers[j].ch] == Channel([], false))
  }

  /** The netlinker stands before a full channel that no worker was ever started for. */
  predicate Blocked(c: Config, s: State, i: nat) {
    && Facing(s, i) && Head(s, i).Send?
    && (var g := s.netlinkers[i].ch; !s.chans[g].closed && |s.chans[g].buf| >= c.netlinkerChSize && !Served(s, g))
  }

  /** The netlinker waits for a packet that never comes, on a socket without a timeout. */
  predicate Starved(c: Config, s: State, i: nat) {
    i < |s.netlinkers| && s.netlinkers[i].phase == Receiving && s.socket == [] && !c.timeouts
  }

  /** The netlinker has timed out, or is held up for ever: by a DONE that is not taken, a channel that is not emptied,
      or a socket that stays empty. */
  predicate Over(c: Config, s: State, i: nat) {
    && i < |s.netlinkers|
    && (|| s.netlinkers[i].phase == Gone
        || (Facing(s, i) && Head(s, i) == Done && s.pc != AwaitDone)
        || Blocked(c, s, i)
        || Starved(c, s, i))
  }

  /** The poller waits for netlinkers that will never move, and no worker can help. */
  predicate Stuck(c: Config, s: State) {
    && WorkersQuiet(s) && (s.pc == AwaitDone || (s.pc == AwaitNetlinkers && !AllGone(s.netlinkers)))
    && forall i: nat :: i < |s.netlinkers| ==> Over(c, s, i)
  }

  lemma StuckCannotStep(c: Config, s: State, e: Event)
    requires Fits(c, s) && Stuck(c, s)
    ensures !Enabled(c, s, e)
  {
    hide Yields, Fits;
    if NetlinkerEvent(e) {
      var i := NetlinkerOf(e);
      if i < |s.netlinkers| { assert Over(c, s, i); }
    } else if e.Handoff? {
      assert Facing(s, e.i) ==> Over(c, s, e.i);
      assert HasWorker(s, e.j) ==> Served(s, s.workers[e.j].ch);
    }
  }

  /** A worker with something to do does it. */
  lemma WorkerCanStep(c: Config, s: State, j: nat)
    requires s.crash == Alive && HasWorker(s, j) && s.workers[j].phase != Left
    requires s.workers[j].phase == Idle ==> s.chans[s.workers[j].ch] != Channel([], false)
    ensures CanStep(c, s)
  {
    var ch := s.chans[s.workers[j].ch];
    var e := if s.workers[j].phase.Holding? then Process(j) else if ch.buf != [] then Dequeue(j) else Leave(j);
    assert Enabled(c, s, e);
  }

  /** A netlinker whose channel has room or a worker can have its message taken. */
  lemma SenderCanStep(c: Config, s: State, i: nat)
    requires Fits(c, s) && s.crash == Alive && Facing(s, i) && Head(s, i).Send? && !Blocked(c, s, i)
    ensures CanStep(c, s)
  {
    var g := s.netlinkers[i].ch;
    if s.chans[g].closed || |s.chans[g].buf| < c.netlinkerChSize {
      hide Fits, Served;
      assert Enabled(c, s, Enqueue(i));
    } else {
      var j := ServerOf(c, s, g);
      hide Fits;
      if s.workers[j].phase == Idle && s.chans[g] == Channel([], false) {
        assert Enabled(c, s, Handoff(i, j));
      } else {
        WorkerCanStep(c, s, j);
      }
    }
  }

  lemma ServerOf(c: Config, s: State, g: nat) returns (j: nat)
    requires Fits(c, s) && s.crash == Alive && g < |s.chans| && !s.chans[g].closed && Served(s, g)
    ensures j < |s.workers| && s.workers[j].ch == g && s.workers[j].phase != Left
  {
    j :| 0 <= j < |s.workers| && s.workers[j].ch == g;
  }

  lemma SomeScript(c: Config, r: Reception)
    ensures Yields(c, r, Acts(c, r))
  {
    hide SplitReceived;
    if r.Datagram? && Min(|r.bytes|, c.bufferSize) >= 16 {
      assert |Bytes.Zeros(c.bufferSize)| == c.bufferSize;
    }
  }

  lemma ReceiverCanStep(c: Config, s: State, i: nat)
    requires s.crash == Alive && Has(s, i) && s.netlinkers[i].phase == Receiving && !Starved(c, s, i)
    ensures CanStep(c, s)
  {
    hide Yields;
    if s.socket == [] {
      assert Enabled(c, s, Timeout(i));
    } else {
      SomeScript(c, s.socket[0]);
      assert Enabled(c, s, Receive(i, Acts(c, s.socket[0])));
    }
  }

  lemma NetlinkerCanStep(c: Config, s: State, i: nat)
    requires Fits(c, s) && s.crash == Alive && i < |s.netlinkers| && !Over(c, s, i)
    ensures CanStep(c, s)
  {
    assert Has(s, i);
    hide Fits, Yields, Blocked;
    if s.netlinkers[i].phase == Receiving {
      ReceiverCanStep(c, s, i);
    } else if s.netlinkers[i].phase == Acting([]) {
      assert Enabled(c, s, NextPacket(i));
    } else {
      assert Facing(s, i);
      match Head(s, i)
      case Send(_) => SenderCanStep(c, s, i);
      case Done => assert Enabled(c, s, TakeDone(i));
      case Panic => assert Enabled(c, s, NetlinkerPanic(i));
    }
  }

  lemma PollerCanStep(c: Config, s: State)
    requires s.crash == Alive && PollerReady(s)
    ensures CanStep(c, s)
  {
    assert Enabled(c, s, PollerStep);
  }

  /** Where it is not stuck, some thread can step. */
  lemma NotStuckCanStep(c: Config, s: State)
    requires Fits(c, s) && s.crash == Alive && s.pc != Finished && !Stuck(c, s)
    ensures CanStep(c, s)
  {
    hide CanStep, Over;
    if PollerReady(s) {
      PollerCanStep(c, s);
    } else if s.pc.AwaitInetdiagers? {
      var j :| 0 <= j < |s.workers| && s.workers[j].phase != Left;
      LeavingWorker(c, s, j);
    } else if !WorkersQuiet(s) {
      BusyWorker(c, s);
    } else {
      var i: nat :| i < |s.netlinkers| && !Over(c, s, i);
      NetlinkerCanStep(c, s, i);
    }
  }

  lemma LeavingWorker(c: Config, s: State, j: nat)
    requires Fits(c, s) && s.crash == Alive && s.pc.AwaitInetdiagers? && j < |s.workers| && s.workers[j].phase != Left
    ensures CanStep(c, s)
  {
    assert HasWorker(s, j) && s.chans[s.workers[j].ch].closed;
    hide Fits, CanStep;
    WorkerCanStep(c, s, j);
  }

  lemma BusyWorker(c: Config, s: State)
    requires Fits(c, s) && s.crash == Alive && !WorkersQuiet(s)
    ensures CanStep(c, s)
  {
    var j :| 0 <= j < |s.workers| && s.workers[j].phase != Left
             && !(s.workers[j].phase == Idle && s.workers[j].ch < |s.chans|
                  && s.chans[s.workers[j].ch] == Channel([], false));
    assert HasWorker(s, j);
    hide Fits, CanStep;
    WorkerCanStep(c, s, j);
  }

  /** Exactly the stuck states have no enabled step, whatever the kernel sends. */
  lemma StuckIff(c: Config, s: State)
    requires Reachable(c, s) && s.crash == Alive && s.pc != Finished
    ensures !CanStep(c, s) <==> Stuck(c, s)
  {
    ReachableIsSafe(c, s);
    hide Reachable, Fits, Stuck;
    if Stuck(c, s) {
      forall e ensures !Enabled(c, s, e) { StuckCannotStep(c, s, e); }
    } else {
      NotStuckCanStep(c, s);
    }
  }

  /** Until the poller has finished some thread can step, in every reachable state. */
  ghost predicate NeverHangs(c: Config) {
    forall s :: Reachable(c, s) && s.crash == Alive && s.pc != Finished ==> CanStep(c, s)
  }
}
