/** The poll protocol: one Poller, its Netlinkers and Inetdiagers, their channels and the kernel
    socket, step by step. */
module Pipeline {
  import opened Misc
  import opened Bytes
  import opened Netlinker
  import I = Inetdiager

  /** Command-line flags of one address family, and its environment: the kernel's reply to each request. */
  datatype Config = Config(
    netlinkers: nat, inetdiagers: nat, netlinkerChSize: nat, shutdownWorkers: bool, maxLoops: int,
    samplingModulus: int, reportModulus: int, happyModulus: int, bufferSize: nat,
    timeouts: bool,  // a receive on an empty socket ends at some time
    patient: bool,  // it never ends while there is something to receive
    kernel: nat -> seq<Reception>)

  /** stamp is the poll whose start time the message carries. */
  datatype Msg = Msg(stamp: nat, body: seq<byte>)

  datatype Channel = Channel(buf: seq<Msg>, closed: bool)

  /** A netlinker blocks in Recvfrom, or works off what its packet made it do, or has called wg.Done(). */
  datatype NetlinkerPhase = Receiving | Acting(script: seq<Action>) | Gone
  datatype NetlinkerThread = NetlinkerThread(ch: nat, stamp: nat, phase: NetlinkerPhase)

  datatype WorkerPhase = Idle | Holding(msg: Msg) | Left
  datatype WorkerThread = WorkerThread(ch: nat, phase: WorkerPhase, processed: seq<Msg>)

  datatype PollerPC =
    | LoopTop
    | StartInetdiagers(started: nat)
    | SendRequest
    | StartNetlinkers(started: nat)
    | AwaitDone
    | AwaitNetlinkers
    | CloseChannel(last: bool)
    | AwaitInetdiagers(last: bool)
    | AwaitTick
    | Finished

  /** A message and the position of the thread that handled it. */
  datatype Tagged = Tagged(thread: nat, msg: Msg)

  /** Messages in the order in which netlinkers picked them from packets and sent them, and inetdiagers took them. */
  datatype Trace = Trace(picked: seq<Tagged>, sent: seq<Tagged>, taken: seq<Tagged>)

  datatype Crash = Alive | Panicked | SendOnClosed | CloseOfClosed

  /** chans are all channels made so far; netlinkers are those of the current poll, workers those of all
      incarnations. requests, dones, selected and trace are history: requests sent, DONEs taken by the poller, messages
      picked by netlinkers, and in which order threads picked, sent and took them. */
  datatype State = State(
    pc: PollerPC, loops: nat, workersStarted: bool, chans: seq<Channel>,
    workers: seq<WorkerThread>, netlinkers: seq<NetlinkerThread>, socket: seq<Reception>,
    crash: Crash, requests: nat, dones: nat, selected: multiset<Msg>, trace: Trace)

  const INIT: State := State(LoopTop, 0, false, [], [], [], [], Alive, 0, 0, multiset{}, Trace([], [], []))

  datatype Event =
    | PollerStep
    | TakeDone(i: nat)
    | Receive(i: nat, script: seq<Action>)
    | Timeout(i: nat)
    | NextPacket(i: nat)
    | Enqueue(i: nat)
    | Handoff(i: nat, j: nat)
    | NetlinkerPanic(i: nat)
    | Dequeue(j: nat)
    | Process(j: nat)
    | Leave(j: nat)

  // ---- Helpers ----

  /** The scripts a netlinker may derive from what it receives; the stale part of its buffer is arbitrary. */
  ghost predicate Yields(c: Config, r: Reception, script: seq<Action>) {
    match r
    case Failure => script == []
    case Datagram(bytes) =>
      if Min(|bytes|, c.bufferSize) < 16 then script == []
      else
        exists buffer: seq<byte> ::
          |buffer| == c.bufferSize && script == SplitReceived(buffer, bytes, c.samplingModulus).actions
  }

  /** The scripts cover the netlinker as the source runs it: what it logs on a reception is one of them. */
  lemma ReceptionYields(c: Config, s: NetlinkerState, r: Reception) returns (script: seq<Action>)
    requires |s.buffer| == c.bufferSize
    ensures var t := AfterReception(s, r, c.samplingModulus);
            |t.buffer| == c.bufferSize && Yields(c, r, script) && t.log == s.log + script
  {
    hide SplitReceived;
    script := [];
    if r.Datagram? && Min(|r.bytes|, c.bufferSize) >= 16 {
      script := SplitReceived(s.buffer, r.bytes, c.samplingModulus).actions;
    }
  }

  predicate MessagePanics(c: Config, body: seq<byte>) {
    body != [] && (c.reportModulus == 0 || I.BodyPanics(body))
  }

  predicate AllGone(ns: seq<NetlinkerThread>) {
    forall i :: 0 <= i < |ns| ==> ns[i].phase == Gone
  }

  predicate AllLeft(ws: seq<WorkerThread>) {
    forall j :: 0 <= j < |ws| ==> ws[j].phase == Left
  }

  predicate Has(s: State, i: nat) {
    i < |s.netlinkers| && s.netlinkers[i].ch < |s.chans|
  }

  predicate HasWorker(s: State, j: nat) {
    j < |s.workers| && s.workers[j].ch < |s.chans|
  }

  /** Netlinker i stands before this action. */
  predicate Facing(s: State, i: nat) {
    Has(s, i) && s.netlinkers[i].phase.Acting? && s.netlinkers[i].phase.script != []
  }

  function Head(s: State, i: nat): Action
    requires Facing(s, i)
  {
    s.netlinkers[i].phase.script[0]
  }

  function SetNetlinker(s: State, i: nat, p: NetlinkerPhase): State
    requires i < |s.netlinkers|
  {
    s.(netlinkers := s.netlinkers[i := s.netlinkers[i].(phase := p)])
  }

  function Advance(s: State, i: nat): State
    requires Facing(s, i)
  {
    SetNetlinker(s, i, Acting(s.netlinkers[i].phase.script[1..]))
  }

  function SetWorker(s: State, j: nat, w: WorkerThread): State
    requires j < |s.workers|
  {
    s.(workers := s.workers[j := w])
  }

  function Sends(stamp: nat, script: seq<Action>): multiset<Msg> {
    if script == [] then multiset{}
    else (if script[0].Send? then multiset{Msg(stamp, script[0].body)} else multiset{}) + Sends(stamp, script[1..])
  }

  /** The messages of a script in the order in which they will be sent. */
  function Outgoing(stamp: nat, script: seq<Action>): seq<Msg> {
    if script == [] then []
    else (if script[0].Send? then [Msg(stamp, script[0].body)] else []) + Outgoing(stamp, script[1..])
  }

  function TagAll(thread: nat, msgs: seq<Msg>): (ts: seq<Tagged>)
    ensures |ts| == |msgs| && forall k :: 0 <= k < |msgs| ==> ts[k] == Tagged(thread, msgs[k])
  {
    seq(|msgs|, k requires 0 <= k < |msgs| => Tagged(thread, msgs[k]))
  }

  function Sent(t: Trace, i: nat, m: Msg): Trace {
    t.(sent := t.sent + [Tagged(i, m)])
  }

  function Taken(t: Trace, j: nat, m: Msg): Trace {
    t.(taken := t.taken + [Tagged(j, m)])
  }

  /** The channel held in the poller's variable. */
  function Newest(s: State): nat {
    if s.chans == [] then 0 else |s.chans| - 1
  }

  predicate Open(s: State) {
    s.chans != [] && !s.chans[Newest(s)].closed
  }

  // ---- The poller ----

  predicate PollerReady(s: State) {
    match s.pc
    case AwaitDone => false
    case AwaitNetlinkers => AllGone(s.netlinkers)
    case AwaitInetdiagers(_) => AllLeft(s.workers)
    case Finished => false
    case _ => true
  }

  function PollerNext(c: Config, s: State): State
    requires PollerReady(s)
  {
    match s.pc
    case LoopTop =>
      if MaxLoopsOrForEver(s.loops, c.maxLoops) then
        if c.happyModulus == 0 then s.(crash := Panicked)
        else if s.workersStarted then s.(pc := SendRequest)
        else s.(pc := StartInetdiagers(0), chans := s.chans + [Channel([], false)])
      else if s.workersStarted then s.(pc := CloseChannel(true))
      else s.(pc := Finished)
    case StartInetdiagers(n) =>
      if n < c.inetdiagers then
        s.(pc := StartInetdiagers(n + 1), workers := s.workers + [WorkerThread(Newest(s), Idle, [])])
      else s.(pc := SendRequest, workersStarted := true)
    case SendRequest =>
      s.(pc := StartNetlinkers(0), socket := s.socket + c.kernel(s.requests), requests := s.requests + 1,
         netlinkers := [])
    case StartNetlinkers(n) =>
      if n < c.netlinkers then
        s.(pc := StartNetlinkers(n + 1), netlinkers := s.netlinkers + [NetlinkerThread(Newest(s), s.loops, Receiving)])
      else s.(pc := AwaitDone)
    case AwaitNetlinkers => s.(pc := if c.shutdownWorkers then CloseChannel(false) else AwaitTick)
    case CloseChannel(last) =>
      if !Open(s) then s.(crash := CloseOfClosed)
      else s.(pc := AwaitInetdiagers(last), chans := s.chans[Newest(s) := s.chans[Newest(s)].(closed := true)])
    case AwaitInetdiagers(last) => s.(pc := if last then Finished else AwaitTick, workersStarted := false)
    case AwaitTick => s.(pc := LoopTop, loops := s.loops + 1)
  }

  // ---- Steps ----

  ghost predicate Enabled(c: Config, s: State, e: Event) {
    && s.crash == Alive
    && match e
       case PollerStep => PollerReady(s)
       case TakeDone(i) => s.pc == AwaitDone && Facing(s, i) && Head(s, i) == Done
       case Receive(i, script) =>
         Has(s, i) && s.netlinkers[i].phase == Receiving && s.socket != [] && Yields(c, s.socket[0], script)
       case Timeout(i) => Has(s, i) && s.netlinkers[i].phase == Receiving && c.timeouts
           && (c.patient ==> s.socket == [])
       case NextPacket(i) => Has(s, i) && s.netlinkers[i].phase == Acting([])
       case Enqueue(i) =>
         Facing(s, i) && Head(s, i).Send?
         && (var ch := s.chans[s.netlinkers[i].ch]; ch.closed || |ch.buf| < c.netlinkerChSize)
       case Handoff(i, j) =>
         Facing(s, i) && Head(s, i).Send? && HasWorker(s, j) && s.workers[j].phase == Idle
         && s.workers[j].ch == s.netlinkers[i].ch && s.chans[s.netlinkers[i].ch] == Channel([], false)
       case NetlinkerPanic(i) => Facing(s, i) && Head(s, i) == Panic
       case Dequeue(j) => HasWorker(s, j) && s.workers[j].phase == Idle && s.chans[s.workers[j].ch].buf != []
       case Process(j) => HasWorker(s, j) && s.workers[j].phase.Holding?
       case Leave(j) => HasWorker(s, j) && s.workers[j].phase == Idle && s.chans[s.workers[j].ch] == Channel([], true)
  }

  function Exec(c: Config, s: State, e: Event): State
    requires Enabled(c, s, e)
  {
    match e
    case PollerStep => PollerNext(c, s)
    case TakeDone(i) => Advance(s, i).(pc := AwaitNetlinkers, dones := s.dones + 1)
    case Receive(i, script) =>
      SetNetlinker(s, i, Acting(script))
      .(socket := s.socket[1..], selected := s.selected + Sends(s.netlinkers[i].stamp, script),
        trace := s.trace.(picked := s.trace.picked + TagAll(i, Outgoing(s.netlinkers[i].stamp, script))))
    case Timeout(i) => SetNetlinker(s, i, Gone)
    case NextPacket(i) => SetNetlinker(s, i, Receiving)
    case Enqueue(i) =>
      var g := s.netlinkers[i].ch;
      if s.chans[g].closed then s.(crash := SendOnClosed)
      else
        var m := Msg(s.netlinkers[i].stamp, Head(s, i).body);
        Advance(s, i).(chans := s.chans[g := s.chans[g].(buf := s.chans[g].buf + [m])], trace := Sent(s.trace, i, m))
    case Handoff(i, j) =>
      var m := Msg(s.netlinkers[i].stamp, Head(s, i).body);
      SetWorker(Advance(s, i), j, s.workers[j].(phase := Holding(m))).(trace := Taken(Sent(s.trace, i, m), j, m))
    case NetlinkerPanic(i) => s.(crash := Panicked)
    case Dequeue(j) =>
      var g := s.workers[j].ch;
      var b := s.chans[g].buf;
      SetWorker(s, j, s.workers[j].(phase := Holding(b[0])))
      .(chans := s.chans[g := s.chans[g].(buf := b[1..])], trace := Taken(s.trace, j, b[0]))
    case Process(j) =>
      var m := s.workers[j].phase.msg;
      if MessagePanics(c, m.body) then s.(crash := Panicked)
      else SetWorker(s, j, s.workers[j].(phase := Idle, processed := s.workers[j].processed + [m]))
    case Leave(j) => SetWorker(s, j, s.workers[j].(phase := Left))
  }

  ghost predicate Next(c: Config, s: State, t: State) {
    exists e :: Enabled(c, s, e) && t == Exec(c, s, e)
  }

  ghost predicate CanStep(c: Config, s: State) {
    exists e :: Enabled(c, s, e)
  }

  /** A finite run of the program. */
  ghost predicate IsRun(c: Config, run: seq<State>) {
    && run != [] && run[0] == INIT
    && forall k :: 0 <= k < |run| - 1 ==> Next(c, run[k], run[k + 1])
  }

  // ---- Totals over threads and channels ----

  function Total<T>(xs: seq<T>, f: T -> multiset<Msg>): multiset<Msg> {
    if xs == [] then multiset{} else Total(xs[..|xs| - 1], f) + f(xs[|xs| - 1])
  }

  lemma Shuffle(a: multiset<Msg>, b: multiset<Msg>, x: multiset<Msg>, y: multiset<Msg>, z: multiset<Msg>)
    requires a + x == b + y
    ensures a + z + x == b + z + y
  {
    assert a + z + x == (a + x) + z;
  }

  lemma {:induction false} TotalUpdate<T>(xs: seq<T>, f: T -> multiset<Msg>, i: nat, x: T)
    requires i < |xs|
    ensures Total(xs[i := x], f) + f(xs[i]) == Total(xs, f) + f(x)
  {
    var n := |xs| - 1;
    if i == n {
      assert xs[i := x][..n] == xs[..n];
      assert xs[i := x][n] == x;
    } else {
      TotalUpdate(xs[..n], f, i, x);
      assert xs[i := x][..n] == xs[..n][i := x];
      assert xs[i := x][n] == xs[n] && xs[..n][i] == xs[i];
      assert Total(xs[i := x], f) == Total(xs[..n][i := x], f) + f(xs[n]);
      assert Total(xs, f) == Total(xs[..n], f) + f(xs[n]);
      Shuffle(Total(xs[..n][i := x], f), Total(xs[..n], f), f(xs[i]), f(x), f(xs[n]));
    }
  }

  lemma TotalAppend<T>(xs: seq<T>, f: T -> multiset<Msg>, x: T)
    ensures Total(xs + [x], f) == Total(xs, f) + f(x)
  {
    assert (xs + [x])[..|xs|] == xs;
  }

  lemma {:induction false} TotalEmpty<T>(xs: seq<T>, f: T -> multiset<Msg>)
    requires forall i :: 0 <= i < |xs| ==> f(xs[i]) == multiset{}
    ensures Total(xs, f) == multiset{}
  {
    if xs != [] {
      var n := |xs| - 1;
      assert forall i :: 0 <= i < n ==> xs[..n][i] == xs[i];
      TotalEmpty(xs[..n], f);
    }
  }

  lemma {:induction false} TotalMember<T>(xs: seq<T>, f: T -> multiset<Msg>, i: nat)
    requires i < |xs|
    ensures f(xs[i]) <= Total(xs, f)
  {
    if i < |xs| - 1 {
      TotalMember(xs[..|xs| - 1], f, i);
    }
  }

  // ---- Where a selected message can be ----

  function Pending(n: NetlinkerThread): multiset<Msg> {
    if n.phase.Acting? then Sends(n.stamp, n.phase.script) else multiset{}
  }

  function Queued(ch: Channel): multiset<Msg> {
    multiset(ch.buf)
  }

  function Held(w: WorkerThread): multiset<Msg> {
    if w.phase.Holding? then multiset{w.phase.msg} else multiset{}
  }

  function Processed(w: WorkerThread): multiset<Msg> {
    multiset(w.processed)
  }
}
