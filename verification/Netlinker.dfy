/** Netlinker: receiving packets into a reused buffer and splitting them into netlink messages. */
module Netlinker {
  import opened Bytes
  import opened InetDiag
  import opened Reader
  import opened Sampling

  const NLMSG_NOOP: nat := 1
  const NLMSG_ERROR: nat := 2
  const NLMSG_DONE: nat := 3
  const NLMSG_OVERRUN: nat := 4
  const NLM_F_MULTI: nat := 2

  datatype TypeCheck = TypeCheck(complete: bool, done: bool, errorCount: nat)

  function CheckNetlinkMessageType(t: nat): TypeCheck {
    if t == NLMSG_NOOP || t == NLMSG_ERROR || t == NLMSG_OVERRUN then TypeCheck(true, false, 1)
    else if t == NLMSG_DONE then TypeCheck(true, true, 0)
    else TypeCheck(false, false, 0)
  }

  /** Types 1, 2, 3 and 4 end a packet; 3 alone is DONE, the others count one error. Every other type, 20 among
      them, goes on. */
  lemma MessageTypes(t: nat)
    ensures var c := CheckNetlinkMessageType(t);
            && (c.complete <==> t in {1, 2, 3, 4}) && (c.done <==> t == 3)
            && c.errorCount == if t in {1, 2, 4} then 1 else 0
  {
  }

  /** What the rest of the program sees of a netlinker: bodies sent on, DONE signalled, or the end of the process. */
  datatype Action = Send(body: seq<byte>) | Done | Panic

  // ---- One packet as a function of the unread buffer and the received bytes still unaccounted for ----

  datatype MessageStep =
    | End(actions: seq<Action>, errors: nat, remaining: int)
    | Go(actions: seq<Action>, errors: nat, bytesRead: nat, copyBytes: nat, rest: seq<byte>, remaining: int)

  /** The body of a multipart message. A read cut short by the end of the buffer delivers zeros, an
      empty one nothing. */
  function ReadMulti(n: nat, rest: seq<byte>, remaining: int, count: nat, m: int): MessageStep {
    if n > 0 && rest == [] then Go([], 0, 0, 0, [], remaining)
    else
      var body := if n <= |rest| then rest[..n] else Zeros(n);
      var rest1 := if n <= |rest| then rest[n..] else [];
      if m == 0 then End([Panic], 0, remaining - n)
      else if Selected(count, m) then Go([Send(body)], 0, n, n, rest1, remaining - n)
      else Go([], 0, n, 0, rest1, remaining - n)
  }

  /** One turn of the inner loop. A message with other flags is counted as an error and its body is not skipped. */
  function ReadMessage(rest: seq<byte>, remaining: int, count: nat, m: int): (r: MessageStep)
    ensures r.Go? ==> r.remaining < remaining && !Panicked(r.actions)
  {
    if |rest| < NLMSG_HDRLEN then End([], 0, remaining)
    else
      var h := DecodeNlMsgHdr(rest[..NLMSG_HDRLEN]);
      var check := CheckNetlinkMessageType(h.msgType);
      if check.complete then End(if check.done then [Done] else [], check.errorCount, remaining - NLMSG_HDRLEN)
      else if h.flags != NLM_F_MULTI then Go([], 1, 0, 0, rest[NLMSG_HDRLEN..], remaining - NLMSG_HDRLEN)
      else if h.length < NLMSG_HDRLEN then End([Panic], 0, remaining - NLMSG_HDRLEN)
      else ReadMulti(h.length - NLMSG_HDRLEN, rest[NLMSG_HDRLEN..], remaining - NLMSG_HDRLEN, count, m)
  }

  datatype Split = Split(actions: seq<Action>, msgs: nat, bytesRead: nat, copyBytes: nat, errors: nat, remaining: int)

  function SplitPacket(rest: seq<byte>, remaining: int, count: nat, m: int): Split
    decreases remaining + 16
  {
    if remaining < NLMSG_HDRLEN then Split([], 0, 0, 0, 0, remaining)
    else
      match ReadMessage(rest, remaining, count, m)
      case End(acts, e, left) => Split(acts, 0, 0, 0, e, left)
      case Go(acts, e, n, c, rest1, left) => Before(acts, n, c, e, SplitPacket(rest1, left, count + 1, m))
  }

  /** One more message in front of the rest of the packet. */
  function Before(acts: seq<Action>, n: nat, c: nat, e: nat, s: Split): Split {
    Split(acts + s.actions, 1 + s.msgs, n + s.bytesRead, c + s.copyBytes, e + s.errors, s.remaining)
  }

  predicate Panicked(acts: seq<Action>) {
    acts != [] && acts[|acts| - 1] == Panic
  }

  // ---- The netlinker as the source runs it ----

  /** What a call of Recvfrom on the shared socket yields: a datagram or an error that is not temporary. */
  datatype Reception = Datagram(bytes: seq<byte>) | Failure

  datatype Totals = Totals(
    packetsProcessed: nat, nastyContinue: nat, inSizeTotal: nat, msgCountTotal: nat,
    bytesReadTotal: nat, copyBytesTotal: nat, errorCount: nat)

  const ZERO_TOTALS: Totals := Totals(0, 0, 0, 0, 0, 0, 0)

  function Min(a: nat, b: nat): nat { if a <= b then a else b }

  /** The receive buffer after a datagram: its front is overwritten, what does not fit is lost, the tail is stale. */
  function Overwritten(buffer: seq<byte>, bytes: seq<byte>): (b: seq<byte>)
    ensures |b| == |buffer|
    ensures forall i :: 0 <= i < |buffer| ==> b[i] == if i < |bytes| then bytes[i] else buffer[i]
  {
    bytes[..Min(|bytes|, |buffer|)] + buffer[Min(|bytes|, |buffer|)..]
  }

  function SplitReceived(buffer: seq<byte>, bytes: seq<byte>, m: int): Split {
    SplitPacket(Overwritten(buffer, bytes), Min(|bytes|, |buffer|), 0, m)
  }

  function AddPacket(t: Totals, size: nat, s: Split): Totals {
    Totals(t.packetsProcessed + 1, t.nastyContinue, t.inSizeTotal + size, t.msgCountTotal + s.msgs,
           t.bytesReadTotal + s.bytesRead, t.copyBytesTotal + s.copyBytes, t.errorCount + s.errors)
  }

  datatype NetlinkerState = NetlinkerState(buffer: seq<byte>, totals: Totals, log: seq<Action>)

  function AfterReception(s: NetlinkerState, r: Reception, m: int): NetlinkerState {
    match r
    case Failure =>
      s.(totals := s.totals.(packetsProcessed := s.totals.packetsProcessed + 1,
                             nastyContinue := s.totals.nastyContinue + 1))
    case Datagram(bytes) =>
      var buffer, size := Overwritten(s.buffer, bytes), Min(|bytes|, |s.buffer|);
      if size < NLMSG_HDRLEN then
        NetlinkerState(buffer, s.totals.(packetsProcessed := s.totals.packetsProcessed + 1,
                                         nastyContinue := s.totals.nastyContinue + 1), s.log)
      else
        var split := SplitReceived(s.buffer, bytes, m);
        NetlinkerState(buffer, AddPacket(s.totals, size, split), s.log + split.actions)
  }

  /** The outer loop over everything received before the timeout that ends it. */
  function AfterAll(s: NetlinkerState, seen: seq<Reception>, m: int): NetlinkerState
    decreases |seen|
  {
    if seen == [] || Panicked(s.log) then s else AfterAll(AfterReception(s, seen[0], m), seen[1..], m)
  }

  /** What has been done and what is still to come make up the packet's split. */
  ghost predicate Consistent(s: Split, before: seq<Action>, start: Totals, size: nat, log: seq<Action>, t: Totals,
                             todo: Split) {
    && before + s.actions == log + todo.actions
    && t.inSizeTotal == start.inSizeTotal + size && t.nastyContinue == start.nastyContinue
    && t.packetsProcessed == start.packetsProcessed
    && t.msgCountTotal + todo.msgs == start.msgCountTotal + s.msgs
    && t.bytesReadTotal + todo.bytesRead == start.bytesReadTotal + s.bytesRead
    && t.copyBytesTotal + todo.copyBytes == start.copyBytesTotal + s.copyBytes
    && t.errorCount + todo.errors == start.errorCount + s.errors
  }

  ghost predicate Finished(s: Split, start: Totals, size: nat, t: Totals) {
    t.(packetsProcessed := t.packetsProcessed + 1) == AddPacket(start, size, s)
  }

  lemma NothingDoneYet(s: Split, before: seq<Action>, start: Totals, size: nat)
    ensures Consistent(s, before, start, size, before, start.(inSizeTotal := start.inSizeTotal + size), s)
    ensures NLMSG_HDRLEN == 16
  {
  }

  lemma NothingToCome(s: Split, before: seq<Action>, start: Totals, size: nat, log: seq<Action>, t: Totals,
                      rest: seq<byte>, remaining: int, count: nat, m: int)
    requires remaining < NLMSG_HDRLEN
    requires Consistent(s, before, start, size, log, t, SplitPacket(rest, remaining, count, m))
    ensures log == before + s.actions && Finished(s, start, size, t)
  {
  }

  lemma FinishedTotals(s: Split, start: Totals, size: nat, t: Totals)
    ensures Finished(s, start, size, t) ==> t.(packetsProcessed := t.packetsProcessed + 1) == AddPacket(start, size, s)
  {
  }

  lemma TurnKeepsConsistent(s: Split, before: seq<Action>, start: Totals, size: nat, log: seq<Action>, t: Totals,
                            rest: seq<byte>, remaining: int, count: nat, m: int)
    requires remaining >= NLMSG_HDRLEN && !Panicked(log)
    requires Consistent(s, before, start, size, log, t, SplitPacket(rest, remaining, count, m))
    ensures match ReadMessage(rest, remaining, count, m)
            case End(acts, e, _) =>
              log + acts == before + s.actions && Panicked(log + acts) == Panicked(acts)
              && Finished(s, start, size, t.(errorCount := t.errorCount + e))
            case Go(acts, e, n, c, rest1, left) =>
              left < remaining && !Panicked(log + acts)
              && Consistent(s, before, start, size, log + acts,
                            t.(errorCount := t.errorCount + e, msgCountTotal := t.msgCountTotal + 1,
                               bytesReadTotal := t.bytesReadTotal + n, copyBytesTotal := t.copyBytesTotal + c),
                            SplitPacket(rest1, left, count + 1, m))
  {
    hide ReadMessage;
    match ReadMessage(rest, remaining, count, m)
    case End(acts, _, _) =>
    case Go(acts, _, _, _, rest1, left) =>
      var todo := SplitPacket(rest1, left, count + 1, m);
      assert log + (acts + todo.actions) == (log + acts) + todo.actions;
  }

  class Netlinker {
    const samplingModulus: int
    const packetBuffer: array<byte>
    var totals: Totals
    var log: seq<Action>

    function State(): NetlinkerState
      reads this, packetBuffer
    {
      NetlinkerState(packetBuffer[..], totals, log)
    }

    constructor (samplingModulus: int, size: nat)
      ensures State() == NetlinkerState(Zeros(size), ZERO_TOTALS, [])
      ensures this.samplingModulus == samplingModulus && fresh(packetBuffer)
    {
      this.samplingModulus := samplingModulus;
      packetBuffer := new byte[size](i => 0);
      totals, log := ZERO_TOTALS, [];
      new;
      assert packetBuffer[..] == Zeros(size);
    }

    /** Recvfrom with a datagram: fills the front of the reused buffer in place. */
    method Receive(bytes: seq<byte>) returns (size: nat)
      modifies packetBuffer
      ensures size == Min(|bytes|, packetBuffer.Length)
      ensures packetBuffer[..] == Overwritten(old(packetBuffer[..]), bytes)
      ensures forall i :: 0 <= i < packetBuffer.Length ==>
        packetBuffer[i] == if i < |bytes| then bytes[i] else old(packetBuffer[i])
    {
      size := Min(|bytes|, packetBuffer.Length);
      for i := 0 to size
        invariant packetBuffer[..] == bytes[..i] + old(packetBuffer[..])[i..]
      {
        packetBuffer[i] := bytes[i];
      }
      ghost var after := packetBuffer[..];
      assert forall i :: 0 <= i < packetBuffer.Length ==> packetBuffer[i] == after[i];
    }

    /** The inner loop's body. `stop` covers every break that leaves the loop. */
    method OneMessage(rd: ByteReader, remaining: int, count: nat)
      returns (stop: bool, left: int)
      requires rd.Valid()
      modifies this, rd`pos
      ensures rd.Valid()
      ensures match ReadMessage(old(rd.Rest()), remaining, count, samplingModulus)
              case End(acts, e, r) =>
                stop && log == old(log) + acts
                && (!Panicked(acts) ==> left == r && totals == old(totals).(errorCount := old(totals).errorCount + e))
              case Go(acts, e, n, c, rest, r) =>
                !stop && left == r && rd.Rest() == rest && log == old(log) + acts
                && totals == old(totals).(errorCount := old(totals).errorCount + e,
                                          msgCountTotal := old(totals).msgCountTotal + 1,
                                          bytesReadTotal := old(totals).bytesReadTotal + n,
                                          copyBytesTotal := old(totals).copyBytesTotal + c)
    {
      hide DecodeNlMsgHdr, Selected;
      stop, left := false, remaining;
      var err, image := rd.ReadFull(NLMSG_HDRLEN);
      if err != NoError {
        return true, left;
      }
      var h := DecodeNlMsgHdr(image);
      left := remaining - NLMSG_HDRLEN;
      var check := CheckNetlinkMessageType(h.msgType);
      totals := totals.(errorCount := totals.errorCount + check.errorCount);
      if check.done {
        log := log + [Done];
      }
      if check.complete {
        return true, left;
      }
      if h.flags == NLM_F_MULTI {
        if h.length < NLMSG_HDRLEN {
          log := log + [Panic];
          return true, left;
        }
        stop, left := OneMulti(h.length - NLMSG_HDRLEN, rd, left, count);
        if stop {
          return;
        }
      } else {
        totals := totals.(errorCount := totals.errorCount + 1);
      }
      totals := totals.(msgCountTotal := totals.msgCountTotal + 1);
    }

    /** The NLM_F_MULTI case: read the body, count it, sample it. An empty read at the buffer's end leaves only
        the switch. */
    method OneMulti(n: nat, rd: ByteReader, remaining: int, count: nat) returns (stop: bool, left: int)
      requires rd.Valid()
      modifies this, rd`pos
      ensures rd.Valid()
      ensures match ReadMulti(n, old(rd.Rest()), remaining, count, samplingModulus)
              case End(acts, _, _) => stop && log == old(log) + acts
              case Go(acts, _, k, c, rest, r) =>
                !stop && left == r && rd.Rest() == rest && log == old(log) + acts
                && totals == old(totals).(bytesReadTotal := old(totals).bytesReadTotal + k,
                                          copyBytesTotal := old(totals).copyBytesTotal + c)
    {
      hide Selected, Zeros;
      stop, left := false, remaining;
      var body := Zeros(n);
      var err, got := rd.ReadFull(n);
      if err == EOF {
        return;
      }
      if err == NoError {
        body := got;
      }
      left := remaining - n;
      totals := totals.(bytesReadTotal := totals.bytesReadTotal + n);
      if samplingModulus == 0 {
        log := log + [Panic];
        return true, left;
      }
      if Selected(count, samplingModulus) {
        log := log + [Send(body)];
        totals := totals.(copyBytesTotal := totals.copyBytesTotal + n);
      }
    }

    /** One received packet. */
    method ProcessPacket(size: nat) returns (panicked: bool)
      requires NLMSG_HDRLEN <= size <= packetBuffer.Length && !Panicked(log)
      modifies this
      ensures var s := SplitPacket(packetBuffer[..], size, 0, samplingModulus);
              log == old(log) + s.actions && panicked == Panicked(log)
              && (!panicked ==> totals == AddPacket(old(totals), size, s))
    {
      hide *;
      ghost var before, start := log, totals;
      totals := totals.(inSizeTotal := totals.inSizeTotal + size);
      var data := packetBuffer[..];
      ghost var s := SplitPacket(data, size, 0, samplingModulus);
      var rd := new ByteReader(data);
      var remaining: int, count, stop := size, 0, false;
      NothingDoneYet(s, before, start, size);
      while !stop && remaining >= 16
        invariant rd.Valid() && fresh(rd) && packetBuffer[..] == data
        invariant !stop ==> !Panicked(log)
        invariant !stop ==> Consistent(s, before, start, size, log, totals,
                                       SplitPacket(rd.Rest(), remaining, count, samplingModulus))
        invariant stop ==> log == before + s.actions && (!Panicked(log) ==> Finished(s, start, size, totals))
        decreases if stop then 0 else 1, remaining
      {
        ghost var rest, left, k, soFar, t := rd.Rest(), remaining, count, log, totals;
        stop, remaining := OneMessage(rd, remaining, count);
        TurnKeepsConsistent(s, before, start, size, soFar, t, rest, left, k, samplingModulus);
        count := count + 1;
      }
      if !stop {
        NothingToCome(s, before, start, size, log, totals, rd.Rest(), remaining, count, samplingModulus);
      }
      panicked := Panicked(log);
      FinishedTotals(s, start, size, totals);
      totals := totals.(packetsProcessed := totals.packetsProcessed + 1);
    }

    /** The goroutine: receive until the timeout that follows `seen`. */
    method Run(seen: seq<Reception>) returns (panicked: bool)
      requires !Panicked(log)
      modifies this, packetBuffer
      ensures var s := AfterAll(old(State()), seen, samplingModulus);
              log == s.log && panicked == Panicked(log) && (!panicked ==> State() == s)
    {
      panicked := false;
      ghost var want := AfterAll(State(), seen, samplingModulus);
      hide SplitPacket;
      for i := 0 to |seen|
        invariant !panicked && !Panicked(log) && want == AfterAll(State(), seen[i..], samplingModulus)
      {
        match seen[i] {
          case Failure =>
            totals := totals.(packetsProcessed := totals.packetsProcessed + 1,
                              nastyContinue := totals.nastyContinue + 1);
          case Datagram(bytes) =>
            var size := Receive(bytes);
            if size < NLMSG_HDRLEN {
              totals := totals.(packetsProcessed := totals.packetsProcessed + 1,
                                nastyContinue := totals.nastyContinue + 1);
            } else {
              panicked := ProcessPacket(size);
              if panicked {
                return;
              }
            }
        }
      }
    }
  }
}
