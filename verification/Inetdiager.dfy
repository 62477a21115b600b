/** Inetdiager: decoding, reporting and counting of one worker, message after message. */
module Inetdiager {
  import opened Misc
  import opened Bytes
  import opened InetDiag
  import opened Reader
  import opened Attributes
  import opened Sampling
  import opened Stats

  // ---- Ports ----

  function SwapUint16(n: nat): (r: nat)
    ensures r < 0x1_0000
  {
    (n % 256) * 256 + (n / 256) % 256
  }

  lemma SwapInvolution(n: nat)
    requires n < 0x1_0000
    ensures SwapUint16(SwapUint16(n)) == n
  {
    var q, r := n / 256, n % 256;
    assert SwapUint16(n) == 256 * r + q;
    DivisionIsUnique(SwapUint16(n), 256, r, q);
  }

  /** Reading two bytes little-endian and swapping is reading them in network order. */
  lemma SwapReadsNetworkOrder(a: byte, b: byte)
    ensures SwapUint16(Value([a, b])) == 256 * a + b
  {
    assert Value([a, b]) == a + 256 * b by {
      assert [a, b][1..] == [b] && [b][1..] == [];
    }
    DivisionIsUnique(Value([a, b]), 256, b, a);
  }

  function SwapPorts(m: InetDiagMsg): InetDiagMsg {
    m.(sourcePort := SwapUint16(m.sourcePort), destinationPort := SwapUint16(m.destinationPort))
  }

  lemma SwapPortsFits(m: InetDiagMsg)
    requires FitsInetDiagMsg(m)
    ensures FitsInetDiagMsg(SwapPorts(m)) && SwapPorts(SwapPorts(m)) == m
  {
    Powers();
    var l, h, s := SOCKET_HEAD, Head(m), Head(SwapPorts(m));
    assert l[4] == 2 && l[5] == 2;
    assert h[4] < Pow256(l[4]) && h[5] < Pow256(l[5]);
    assert forall i :: 0 <= i < |l| && i != 4 && i != 5 ==> s[i] == h[i] && h[i] < Pow256(l[i]);
    assert s[4] < Pow256(l[4]) && s[5] < Pow256(l[5]);
    assert Tail(SwapPorts(m)) == Tail(m);
    SwapInvolution(m.sourcePort);
    SwapInvolution(m.destinationPort);
  }

  // ---- Decoding one message ----

  /** What a worker keeps between messages. The address slices alias hdr, so only their length persists (0: nil). */
  datatype Decoder = Decoder(hdr: InetDiagMsg, ipLen: nat, fields: Fields)

  const ZERO_DECODER: Decoder := Decoder(ZERO_INET_DIAG_MSG, 0, ZERO_FIELDS)

  ghost predicate FitsDecoder(d: Decoder) {
    |d.hdr.source| == 16 && |d.hdr.destination| == 16 && d.ipLen in {0, 4, 16} && FitsFields(d.fields)
  }

  lemma ZeroDecoderFits()
    ensures FitsDecoder(ZERO_DECODER)
  {
  }

  datatype MessageResult = MessagePanic | Message(decoder: Decoder, bytesRead: nat, padBufferSize: nat)

  function IpLength(family: nat, before: nat): nat {
    if family == AF_INET6 then 16 else if family == AF_INET then 4 else before
  }

  /** A message too short for its header keeps the previous header, whose ports are then swapped once more. */
  function ReadMessageHeader(hdr: InetDiagMsg, m: seq<byte>): InetDiagMsg {
    SwapPorts(if |m| >= INET_DIAG_MSG_LEN then DecodeInetDiagMsg(m[..INET_DIAG_MSG_LEN]) else hdr)
  }

  function AttributeBytes(m: seq<byte>): seq<byte> {
    if |m| >= INET_DIAG_MSG_LEN then m[INET_DIAG_MSG_LEN..] else []
  }

  function DecodeMessage(d: Decoder, m: seq<byte>): MessageResult {
    var hdr := ReadMessageHeader(d.hdr, m);
    match Attributes.Attributes(d.fields, Nlattr(0, 0), AttributeBytes(m))
    case Panic => MessagePanic
    case Stopped(f, _, n, pad) => Message(Decoder(hdr, IpLength(hdr.family, d.ipLen), f), INET_DIAG_MSG_LEN + n, pad)
  }

  /** Whether a non-empty message kills the decoder is a property of its bytes alone. */
  predicate BodyPanics(m: seq<byte>) {
    DecodeMessage(ZERO_DECODER, m).MessagePanic?
  }

  lemma PanicIsTheBodys(d: Decoder, m: seq<byte>)
    ensures DecodeMessage(d, m).MessagePanic? <==> BodyPanics(m)
  {
    ControlIgnoresFields(d.fields, ZERO_FIELDS, Nlattr(0, 0), AttributeBytes(m));
  }

  lemma DecodeMessageFits(d: Decoder, m: seq<byte>)
    requires FitsDecoder(d)
    ensures DecodeMessage(d, m).Message? ==> FitsDecoder(DecodeMessage(d, m).decoder)
  {
    AttributesFit(d.fields, Nlattr(0, 0), AttributeBytes(m));
  }

  // ---- The record ----

  datatype Congestion = UNKNOWN | CUBIC | BBR1

  const CUB: seq<byte> := [99, 117, 98]
  const BBR: seq<byte> := [98, 98, 114]

  function CongestionEnum(name: seq<byte>): Congestion {
    if name == CUB then CUBIC else if name == BBR then BBR1 else UNKNOWN
  }

  /** XtcpRecord. socket holds the trimmed addresses; tcpRest is Rto to SndbufLimited in struct order. */
  datatype XtcpRecord = XtcpRecord(
    hostname: string, epochTime: nat, socket: InetDiagMsg,
    tcpHead: seq<nat>, sendScale: nat, rcvScale: nat, deliveryRateAppLimited: nat, tcpRest: seq<nat>,
    congestionAlgorithm: Congestion, skMemInfo: seq<nat>, bbrInfo: Option<seq<nat>>,
    typeOfService: Option<nat>, trafficClass: Option<nat>, shutdownState: Option<nat>, classId: Option<nat>)

  function NonZero(v: nat): Option<nat> {
    if v != 0 then Some(v) else None
  }

  function BuildProto(hostname: string, epochTime: nat, d: Decoder): XtcpRecord
    requires FitsDecoder(d)
  {
    LayoutSizes();
    assert |Get(d.fields, INFO)| == 192 && |Get(d.fields, SKMEMINFO)| == 36 && |Get(d.fields, BBRINFO)| == 20;
    var tcp := Decode(TCP_INFO_415, d.fields.tcpinfo);
    var congestion := CongestionEnum(d.fields.congestionAlgorithm);
    XtcpRecord(
      hostname, epochTime, d.hdr.(source := d.hdr.source[..d.ipLen], destination := d.hdr.destination[..d.ipLen]),
      tcp[..6], tcp[6] / 16, tcp[6] % 16, tcp[7] % 2, tcp[8..],
      congestion, Decode(SK_MEM_INFO, d.fields.skmeminfo),
      if congestion == BBR1 then Some(Decode(BBR_INFO, d.fields.bbrinfo)) else None,
      NonZero(Value(d.fields.typeOfService)), NonZero(Value(d.fields.trafficClass)),
      NonZero(Value(d.fields.shutdownState)), NonZero(Value(d.fields.classID)))
  }

  // ---- One turn of the worker ----

  /** The outside world during one message: a ticker tick, a full stats channel, the result of the UDP write. */
  datatype Surroundings = Surroundings(tick: bool, statsFull: bool, udpBytes: nat, udpFails: bool)

  datatype Worker = Worker(decoder: Decoder, totals: InetdiagerStats)

  const ZERO_WORKER: Worker := Worker(ZERO_DECODER, ZERO_STATS)

  datatype TurnResult =
    | TurnPanic
    | Turned(worker: Worker, report: Option<InetdiagerStats>, sent: Option<XtcpRecord>)

  /** Bookkeeping before decoding: the input is counted, then a tick reports, and only then is a
      full channel counted. */
  function Received(t: InetdiagerStats, m: seq<byte>, s: Surroundings): InetdiagerStats {
    t.(inSizeTotal := t.inSizeTotal + |m|, statsBlocked := t.statsBlocked + if s.tick && s.statsFull then 1 else 0)
  }

  function ReportOf(t: InetdiagerStats, m: seq<byte>, s: Surroundings): Option<InetdiagerStats> {
    if s.tick then Some(t.(inSizeTotal := t.inSizeTotal + |m|)) else None
  }

  function CountedTotals(t: InetdiagerStats, n: nat, pad: nat, sent: bool, s: Surroundings): InetdiagerStats {
    t.(bytesReadTotal := t.bytesReadTotal + n, padBufferTotal := t.padBufferTotal + pad, msgCount := t.msgCount + 1,
       udpWritesTotal := t.udpWritesTotal + if sent then 1 else 0,
       udpBytesWrittenTotal := t.udpBytesWrittenTotal + if sent then s.udpBytes else 0,
       udpErrorsTotal := t.udpErrorsTotal + if sent && s.udpFails then 1 else 0)
  }

  ghost predicate FitsWorker(w: Worker) {
    FitsDecoder(w.decoder) && w.totals.msgCount >= 0
  }

  /** The decode loop on one message: the worker after it and the record sent, or a panic. */
  function Decoding(w: Worker, hostname: string, epochTime: nat, m: seq<byte>, modulus: int,
                    s: Surroundings): Option<(Worker, Option<XtcpRecord>)>
    requires FitsWorker(w)
  {
    if m == [] then Some((w, None))
    else
      match DecodeMessage(w.decoder, m)
      case MessagePanic => None
      case Message(d, n, pad) =>
        DecodeMessageFits(w.decoder, m);
        if modulus == 0 then None
        else
          var sent := Selected(w.totals.msgCount, modulus);
          Some((Worker(d, CountedTotals(w.totals, n, pad, sent, s)),
                if sent then Some(BuildProto(hostname, epochTime, d)) else None))
  }

  lemma DecodingNothing(w: Worker, hostname: string, epochTime: nat, modulus: int, s: Surroundings)
    requires FitsWorker(w)
    ensures Decoding(w, hostname, epochTime, [], modulus, s) == Some((w, None))
  {
  }

  lemma DecodingOnce(w: Worker, hostname: string, epochTime: nat, m: seq<byte>, modulus: int, s: Surroundings)
    requires FitsWorker(w) && m != []
    ensures var r := Decoding(w, hostname, epochTime, m, modulus, s);
            match DecodeMessage(w.decoder, m)
            case MessagePanic => r == None
            case Message(d, n, pad) =>
              FitsDecoder(d) && (modulus == 0 ==> r == None)
              && (modulus != 0 ==>
                    var sent := Selected(w.totals.msgCount, modulus);
                    r == Some((Worker(d, CountedTotals(w.totals, n, pad, sent, s)),
                               if sent then Some(BuildProto(hostname, epochTime, d)) else None)))
  {
    DecodeMessageFits(w.decoder, m);
    hide DecodeMessage, BuildProto, FitsDecoder, Selected, CountedTotals;
  }

  function Turn(w: Worker, hostname: string, epochTime: nat, m: seq<byte>, modulus: int, s: Surroundings): TurnResult
    requires FitsWorker(w)
  {
    match Decoding(w.(totals := Received(w.totals, m, s)), hostname, epochTime, m, modulus, s)
    case None => TurnPanic
    case Some(r) => Turned(r.0, ReportOf(w.totals, m, s), r.1)
  }

  class Inetdiager {
    const hostname: string
    const modulus: int
    const vars: SocketFields
    var inetdiagMsg: InetDiagMsg
    var ipLen: nat
    var totals: InetdiagerStats

    function State(): Worker
      reads this, vars
    {
      Worker(Decoder(inetdiagMsg, ipLen, vars.Contents()), totals)
    }

    ghost predicate Valid()
      reads this, vars
    {
      vars.Valid() && FitsWorker(State())
    }

    constructor (hostname: string, modulus: int)
      ensures Valid() && State() == ZERO_WORKER && this.hostname == hostname && this.modulus == modulus && fresh(vars)
    {
      this.hostname, this.modulus := hostname, modulus;
      vars := new SocketFields();
      inetdiagMsg, ipLen, totals := ZERO_INET_DIAG_MSG, 0, ZERO_STATS;
      new;
      vars.ContentsFit();
    }

    /** Header, ports, addresses and attributes. The reader is not empty, so the header read never meets EOF. */
    method DecodeBody(rd: ByteReader) returns (panicked: bool, complete: bool, bytesRead: nat, padBufferSize: nat)
      requires Valid() && rd.Valid() && rd.Rest() != []
      modifies this`inetdiagMsg, this`ipLen, vars, rd`pos
      ensures rd.Valid()
      ensures panicked <==> DecodeMessage(old(State()).decoder, old(rd.Rest())).MessagePanic?
      ensures !panicked ==>
        complete && Valid()
        && DecodeMessage(old(State()).decoder, old(rd.Rest())) == Message(State().decoder, bytesRead, padBufferSize)
    {
      ghost var d, m := State().decoder, rd.Rest();
      var err, image := rd.ReadFull(INET_DIAG_MSG_LEN);
      if err == NoError {
        inetdiagMsg := DecodeInetDiagMsg(image);
      }
      hide DecodeInetDiagMsg, Attributes.Attributes, FitsFields, SocketFields.Valid, SocketFields.Contents;
      inetdiagMsg := SwapPorts(inetdiagMsg);
      if inetdiagMsg.family == AF_INET6 {
        ipLen := 16;
      } else if inetdiagMsg.family == AF_INET {
        ipLen := 4;
      }
      assert rd.Rest() == AttributeBytes(m);
      panicked, complete, bytesRead, padBufferSize := vars.ProcessNetlinkAttributes(rd);
      bytesRead := INET_DIAG_MSG_LEN + bytesRead;
      if !panicked {
        vars.ContentsFit();
      }
    }

    /** The end of the decode loop's body: the selected messages become records, every message is counted. */
    method ReportAndCount(epochTime: nat, n: nat, pad: nat, s: Surroundings) returns (panicked: bool,
        sent: Option<XtcpRecord>)
      requires Valid()
      modifies this`totals
      ensures panicked <==> modulus == 0
      ensures !panicked ==>
        var selected := Selected(old(totals).msgCount, modulus);
        Valid() && State() == Worker(old(State()).decoder, CountedTotals(old(totals), n, pad, selected, s))
        && sent == if selected then Some(BuildProto(hostname, epochTime, State().decoder)) else None
    {
      panicked, sent := modulus == 0, None;
      if !panicked {
        var selected := Selected(totals.msgCount, modulus);
        if selected {
          sent := Some(BuildProto(hostname, epochTime, State().decoder));
        }
        totals := CountedTotals(totals, n, pad, selected, s);
      }
    }

    /** The decode loop. It runs once for a non-empty message, never for an empty one. */
    method DecodeLoop(m: seq<byte>, epochTime: nat, s: Surroundings) returns (panicked: bool, sent: Option<XtcpRecord>)
      requires Valid()
      modifies this, vars
      ensures panicked <==> Decoding(old(State()), hostname, epochTime, m, modulus, s).None?
      ensures !panicked ==>
        Valid() && Decoding(old(State()), hostname, epochTime, m, modulus, s) == Some((State(), sent))
    {
      ghost var w := State();
      DecodingNothing(w, hostname, epochTime, modulus, s);
      if m != [] { DecodingOnce(w, hostname, epochTime, m, modulus, s); }
      hide Decoding, DecodeMessage, BuildProto, FitsDecoder, SocketFields.Valid, SocketFields.Contents, Selected,
          CountedTotals;
      panicked, sent := false, None;
      var remaining: int, complete := |m|, false;
      var rd := new ByteReader(m);
      while !complete && remaining > 0
        invariant fresh(rd) && rd.Valid() && !panicked && Valid()
        invariant !complete ==> remaining == |m| && rd.Rest() == m && sent == None && State() == w
        invariant complete ==> Decoding(w, hostname, epochTime, m, modulus, s) == Some((State(), sent))
        decreases if complete then 0 else 1
      {
        var n: nat, pad: nat;
        panicked, complete, n, pad := DecodeBody(rd);
        if panicked {
          return;
        }
        remaining := remaining - n;
        panicked, sent := ReportAndCount(epochTime, n, pad, s);
        if panicked {
          return;
        }
      }
    }

    /** One iteration of the range over the channel. */
    method OnMessage(m: seq<byte>, epochTime: nat, s: Surroundings)
      returns (panicked: bool, report: Option<InetdiagerStats>, sent: Option<XtcpRecord>)
      requires Valid()
      modifies this, vars
      ensures panicked <==> Turn(old(State()), hostname, epochTime, m, modulus, s).TurnPanic?
      ensures !panicked ==>
        Valid() && Turn(old(State()), hostname, epochTime, m, modulus, s) == Turned(State(), report, sent)
    {
      hide Decoding, FitsDecoder, SocketFields.Valid, SocketFields.Contents;
      report := None;
      totals := totals.(inSizeTotal := totals.inSizeTotal + |m|);
      if s.tick {
        report := Some(totals);
        if s.statsFull {
          totals := totals.(statsBlocked := totals.statsBlocked + 1);
        }
      }
      panicked, sent := DecodeLoop(m, epochTime, s);
    }
  }

  // ---- A worker's life: one turn per message taken from its channel ----

  datatype Input = Input(epochTime: nat, body: seq<byte>, around: Surroundings)

  datatype LifeResult = LifePanic | Alive(worker: Worker, sent: seq<XtcpRecord>)

  function Life(hostname: string, modulus: int, inputs: seq<Input>): (r: LifeResult)
    ensures r.Alive? ==> FitsWorker(r.worker)
  {
    if inputs == [] then
      ZeroDecoderFits();
      Alive(ZERO_WORKER, [])
    else
      var n := |inputs| - 1;
      match Life(hostname, modulus, inputs[..n])
      case LifePanic => LifePanic
      case Alive(w, sent) =>
        match Turn(w, hostname, inputs[n].epochTime, inputs[n].body, modulus, inputs[n].around)
        case TurnPanic => LifePanic
        case Turned(w1, _, r) =>
          assert FitsWorker(w1) by {
            TurnFits(w, hostname, inputs[n].epochTime, inputs[n].body, modulus, inputs[n].around);
          }
          Alive(w1, if r.Some? then sent + [r.value] else sent)
  }

  lemma TurnFits(w: Worker, hostname: string, epochTime: nat, m: seq<byte>, modulus: int, s: Surroundings)
    requires FitsWorker(w)
    ensures var r := Turn(w, hostname, epochTime, m, modulus, s); r.Turned? ==> FitsWorker(r.worker)
  {
    DecodeMessageFits(w.decoder, m);
  }

  function NonEmpty(inputs: seq<Input>): nat {
    if inputs == [] then 0 else NonEmpty(inputs[..|inputs| - 1]) + if inputs[|inputs| - 1].body != [] then 1 else 0
  }

  /** inetdiagMsgCount counts the non-empty messages, and the records sent are the selected ones among them. */
  lemma {:induction false} LifeCounts(hostname: string, modulus: int, inputs: seq<Input>)
    requires modulus != 0
    ensures var r := Life(hostname, modulus, inputs);
            r.Alive? ==> r.worker.totals.msgCount == NonEmpty(inputs) && r.worker.totals.udpWritesTotal == |r.sent|
                         && |r.sent| == SelectedCount(NonEmpty(inputs), modulus)
  {
    hide DecodeMessage, BuildProto, FitsDecoder, Selected;
    if inputs != [] {
      LifeCounts(hostname, modulus, inputs[..|inputs| - 1]);
    }
  }

  /** A worker dies exactly on a non-empty message that is malformed, or that meets a zero report modulus. */
  lemma {:induction false} LifePanicsIff(hostname: string, modulus: int, inputs: seq<Input>)
    ensures Life(hostname, modulus, inputs).LifePanic?
      <==> exists i :: 0 <= i < |inputs| && inputs[i].body != [] && (modulus == 0 || BodyPanics(inputs[i].body))
  {
    hide DecodeMessage, BuildProto, FitsDecoder, BodyPanics, Selected;
    if inputs != [] {
      var n := |inputs| - 1;
      LifePanicsIff(hostname, modulus, inputs[..n]);
      if Life(hostname, modulus, inputs[..n]).Alive? {
        PanicIsTheBodys(Life(hostname, modulus, inputs[..n]).worker.decoder, inputs[n].body);
      }
      assert forall i :: 0 <= i < n ==> inputs[..n][i] == inputs[i];
    }
  }

  /** The counters of a living worker only grow, so a later report is never below an earlier one. */
  lemma {:induction false} TotalsGrow(hostname: string, modulus: int, inputs: seq<Input>, i: nat)
    requires i <= |inputs| && Life(hostname, modulus, inputs).Alive?
    ensures Life(hostname, modulus, inputs[..i]).Alive?
    ensures AtMost(Life(hostname, modulus, inputs[..i]).worker.totals, Life(hostname, modulus, inputs).worker.totals)
  {
    if i == |inputs| {
      assert inputs[..i] == inputs;
    } else {
      var n := |inputs| - 1;
      var before := Life(hostname, modulus, inputs[..n]);
      assert before.Alive?;
      hide Life, Turn;
      LifeStep(hostname, modulus, inputs);
      TurnGrows(before.worker, hostname, inputs[n], modulus);
      TotalsGrow(hostname, modulus, inputs[..n], i);
      assert inputs[..n][..i] == inputs[..i];
    }
  }

  lemma TurnGrows(w: Worker, hostname: string, i: Input, modulus: int)
    requires FitsWorker(w)
    ensures var t := Turn(w, hostname, i.epochTime, i.body, modulus, i.around);
            t.Turned? ==> AtMost(w.totals, t.worker.totals)
  {
    hide DecodeMessage, BuildProto, FitsDecoder, Selected;
  }

  // ---- The kernel side ----

  datatype KernelMessage = KernelMessage(hdr: InetDiagMsg, attrs: seq<Attr>)

  predicate WellFormedMessage(k: KernelMessage) {
    FitsInetDiagMsg(k.hdr) && AllWellFormed(k.attrs)
  }

  /** hdr has its ports as numbers; on the wire they are in network order. */
  function EncodeMessage(k: KernelMessage): seq<byte>
    requires WellFormedMessage(k)
  {
    EncodeInetDiagMsg(SwapPorts(k.hdr)) + EncodeAll(k.attrs)
  }

  /** A well-formed message replaces the header and overwrites the variables it carries. */
  lemma DecodeOfEncodeMessage(d: Decoder, k: KernelMessage)
    requires WellFormedMessage(k)
    ensures DecodeMessage(d, EncodeMessage(k))
      == Message(Decoder(k.hdr, IpLength(k.hdr.family, d.ipLen), StoreAll(d.fields, k.attrs)),
                 INET_DIAG_MSG_LEN + CountedAll(k.attrs), SkippedAll(k.attrs))
  {
    var m, wire := EncodeMessage(k), SwapPorts(k.hdr);
    SwapPortsFits(k.hdr);
    InetDiagMsgRoundTrip(wire);
    hide EncodeInetDiagMsg, DecodeInetDiagMsg, FitsInetDiagMsg;
    assert m[..INET_DIAG_MSG_LEN] == EncodeInetDiagMsg(wire);
    assert m[INET_DIAG_MSG_LEN..] == EncodeAll(k.attrs);
    RoundTripThen(d.fields, Nlattr(0, 0), k.attrs);
  }

  predicate AllMessages(ks: seq<KernelMessage>) {
    forall i :: 0 <= i < |ks| ==> WellFormedMessage(ks[i])
  }

  function AllAttrs(ks: seq<KernelMessage>): (attrs: seq<Attr>)
    requires AllMessages(ks)
    ensures AllWellFormed(attrs)
  {
    if ks == [] then []
    else
      assert WellFormedMessage(ks[|ks| - 1]);
      AllAttrs(ks[..|ks| - 1]) + ks[|ks| - 1].attrs
  }

  /** The inputs are the encodings of these messages, in order. */
  ghost predicate Carries(inputs: seq<Input>, ks: seq<KernelMessage>) {
    && |inputs| == |ks| && AllMessages(ks)
    && forall i :: 0 <= i < |ks| ==> inputs[i].body == EncodeMessage(ks[i])
  }

  /** Decoder history law: each variable is the last payload of its type in the whole history, or zero if there
      is none. */
  lemma HistoryLaw(hostname: string, modulus: int, inputs: seq<Input>, ks: seq<KernelMessage>, t: nat, last: int)
    requires modulus != 0 && Carries(inputs, ks) && Decoded(t)
    requires var attrs := AllAttrs(ks);
             -1 <= last < |attrs| && (last >= 0 ==> attrs[last].nlaType == t) && forall j :: last < j < |attrs| ==>
               attrs[j].nlaType != t
    ensures var r := Life(hostname, modulus, inputs);
            && r.Alive?
            && Get(r.worker.decoder.fields, t)
               == (if last >= 0 then Meaning(AllAttrs(ks)[last]) else Get(ZERO_FIELDS, t))
            && (ks != [] ==> r.worker.decoder.hdr == ks[|ks| - 1].hdr)
  {
    LifeSends(hostname, modulus, inputs, ks);
    DecoderAfterAll(ks);
    hide Life, StoreAll, DecoderAfter, Carries;
    LastWins(ZERO_FIELDS, AllAttrs(ks), t, last);
  }

  lemma {:induction false} DecoderAfterAll(ks: seq<KernelMessage>)
    requires AllMessages(ks)
    ensures var d := DecoderAfter(ks);
            d.fields == StoreAll(ZERO_FIELDS, AllAttrs(ks)) && (ks != [] ==> d.hdr == ks[|ks| - 1].hdr)
  {
    hide *;
    if ks != [] {
      var n := |ks| - 1;
      AllAttrsStep(ks);
      EncodingNotEmpty(ks[n]);
      DecoderAfterAll(ks[..n]);
      DecoderAfterLast(ks[..n], ks[n]);
      StoreAllConcat(ZERO_FIELDS, AllAttrs(ks[..n]), ks[n].attrs);
    } else {
      NoMessages();
      NoAttrs();
    }
  }

  lemma AllAttrsStep(ks: seq<KernelMessage>)
    requires AllMessages(ks) && ks != []
    ensures var n := |ks| - 1;
            && AllMessages(ks[..n]) && WellFormedMessage(ks[n]) && ks == ks[..n] + [ks[n]]
            && AllAttrs(ks) == AllAttrs(ks[..n]) + ks[n].attrs
  {
    hide *;
    MessagesPrefix(ks);
    AllAttrsIs(ks);
  }

  lemma MessagesPrefix(ks: seq<KernelMessage>)
    requires AllMessages(ks) && ks != []
    ensures var n := |ks| - 1;
            AllMessages(ks[..n]) && WellFormedMessage(ks[n]) && ks == ks[..n] + [ks[n]]
  {
    hide WellFormedMessage;
  }

  lemma AllAttrsIs(ks: seq<KernelMessage>)
    requires AllMessages(ks) && ks != [] && AllMessages(ks[..|ks| - 1])
    ensures AllAttrs(ks) == AllAttrs(ks[..|ks| - 1]) + ks[|ks| - 1].attrs
  {
    hide AllMessages, WellFormedMessage;
  }

  lemma NoAttrs()
    ensures AllMessages([]) && StoreAll(ZERO_FIELDS, AllAttrs([])) == ZERO_FIELDS
  {
  }

  lemma EncodingNotEmpty(k: KernelMessage)
    requires WellFormedMessage(k)
    ensures |EncodeMessage(k)| >= INET_DIAG_MSG_LEN && AllWellFormed(k.attrs)
  {
  }

  // ---- What a record depends on ----

  /** The attribute types BuildProto reads whatever the congestion algorithm. */
  const READ: set<nat> := {INFO, CONG, TOS, TCLASS, SKMEMINFO, SHUTDOWN, CLASS_ID}

  predicate Has(attrs: seq<Attr>, t: nat) {
    exists i :: 0 <= i < |attrs| && attrs[i].nlaType == t
  }

  /** Of the types a record is built from, the message carries only these. */
  predicate Within(k: KernelMessage, types: set<nat>) {
    forall t :: t in READ + {BBRINFO} && Has(k.attrs, t) ==> t in types
  }

  predicate AllWithin(ks: seq<KernelMessage>, types: set<nat>) {
    forall i :: 0 <= i < |ks| ==> Within(ks[i], types)
  }

  /** Of these types, the message brings everything its record is built from, BBRINFO only under bbr; its family
      is known. */
  predicate SelfContained(k: KernelMessage, types: set<nat>)
    requires WellFormedMessage(k)
  {
    && k.hdr.family in {AF_INET, AF_INET6}
    && (forall t :: t in READ * types ==> Has(k.attrs, t))
    && (CongestionEnum(StoreAll(ZERO_FIELDS, k.attrs).congestionAlgorithm) == BBR1 && BBRINFO in types ==>
        Has(k.attrs, BBRINFO))
  }

  /** The decoder after a history of well-formed messages. */
  function DecoderAfter(ks: seq<KernelMessage>): (d: Decoder)
    requires AllMessages(ks)
    ensures FitsDecoder(d)
  {
    if ks == [] then
      ZeroDecoderFits();
      ZERO_DECODER
    else
      var d, k := DecoderAfter(ks[..|ks| - 1]), ks[|ks| - 1];
      DecodeOfEncodeMessage(d, k);
      DecodeMessageFits(d, EncodeMessage(k));
      DecodeMessage(d, EncodeMessage(k)).decoder
  }

  function RecordAfter(hostname: string, now: nat, ks: seq<KernelMessage>, k: KernelMessage): XtcpRecord
    requires AllMessages(ks) && WellFormedMessage(k)
  {
    assert AllMessages(ks + [k]);
    BuildProto(hostname, now, DecoderAfter(ks + [k]))
  }

  lemma LastIndex(attrs: seq<Attr>, t: nat) returns (last: int)
    ensures -1 <= last < |attrs| && (last >= 0 <==> Has(attrs, t)) && (last >= 0 ==> attrs[last].nlaType == t)
    ensures forall j :: last < j < |attrs| ==> attrs[j].nlaType != t
  {
    last := |attrs| - 1;
    while last >= 0 && attrs[last].nlaType != t
      invariant -1 <= last < |attrs|
      invariant forall j :: last < j < |attrs| ==> attrs[j].nlaType != t
    {
      last := last - 1;
    }
  }

  /** A variable whose type the list carries is the same whatever it held before; the others keep what they held. */
  lemma CarriedOrKept(f: Fields, g: Fields, attrs: seq<Attr>, t: nat)
    requires AllWellFormed(attrs) && Decoded(t)
    ensures Has(attrs, t) ==> Get(StoreAll(f, attrs), t) == Get(StoreAll(g, attrs), t)
    ensures !Has(attrs, t) ==> Get(StoreAll(f, attrs), t) == Get(f, t)
  {
    var last := LastIndex(attrs, t);
    LastWins(f, attrs, t, last);
    LastWins(g, attrs, t, last);
  }

  lemma DecoderAfterLast(ks: seq<KernelMessage>, k: KernelMessage)
    requires AllMessages(ks) && WellFormedMessage(k)
    ensures var d := DecoderAfter(ks);
            AllMessages(ks + [k]) && DecoderAfter(ks + [k])
                == Decoder(k.hdr, IpLength(k.hdr.family, d.ipLen), StoreAll(d.fields, k.attrs))
  {
    hide WellFormedMessage, EncodeMessage, DecodeMessage;
    assert (ks + [k])[..|ks + [k]| - 1] == ks;
    DecodeOfEncodeMessage(DecoderAfter(ks), k);
  }

  /** A variable whose type no message of the history carries is still zero. */
  lemma {:induction false} UncarriedIsZero(ks: seq<KernelMessage>, types: set<nat>, t: nat)
    requires AllMessages(ks) && AllWithin(ks, types) && t in READ + {BBRINFO} && t !in types
    ensures Get(DecoderAfter(ks).fields, t) == Get(ZERO_FIELDS, t)
  {
    if ks == [] {
      NoMessages();
    } else {
      var n := |ks| - 1;
      assert AllMessages(ks[..n]) && WellFormedMessage(ks[n]) && Within(ks[n], types) && ks == ks[..n] + [ks[n]];
      assert AllWithin(ks[..n], types) && Decoded(t) && AllWellFormed(ks[n].attrs);
      UncarriedIsZero(ks[..n], types, t);
      DecoderAfterLast(ks[..n], ks[n]);
      assert !Has(ks[n].attrs, t);
      hide *;
      CarriedOrKept(DecoderAfter(ks[..n]).fields, ZERO_FIELDS, ks[n].attrs, t);
    }
  }

  predicate ZeroOutside(f: Fields, types: set<nat>) {
    forall t :: t in READ + {BBRINFO} && t !in types ==> Get(f, t) == Get(ZERO_FIELDS, t)
  }

  lemma HistoryZeroOutside(ks: seq<KernelMessage>, types: set<nat>)
    requires AllMessages(ks) && AllWithin(ks, types)
    ensures ZeroOutside(DecoderAfter(ks).fields, types)
  {
    hide DecoderAfter, AllMessages, AllWithin;
    forall t | t in READ + {BBRINFO} && t !in types ensures Get(DecoderAfter(ks).fields, t) == Get(ZERO_FIELDS, t) {
      UncarriedIsZero(ks, types, t);
    }
  }

  /** A self-contained message gives the same record after any two histories of these types. */
  lemma SelfContainedRecord(hostname: string, now: nat, ks: seq<KernelMessage>, js: seq<KernelMessage>,
                            k: KernelMessage, types: set<nat>)
    requires AllMessages(ks) && AllMessages(js) && AllWithin(ks, types) && AllWithin(js, types)
    requires WellFormedMessage(k) && SelfContained(k, types)
    ensures RecordAfter(hostname, now, ks, k) == RecordAfter(hostname, now, js, k)
  {
    hide *;
    DecoderAfterLast(ks, k);
    DecoderAfterLast(js, k);
    HistoryZeroOutside(ks, types);
    HistoryZeroOutside(js, types);
    SameVariables(DecoderAfter(ks).fields, DecoderAfter(js).fields, k, types);
    RecordAfterIs(hostname, now, ks, k);
    RecordAfterIs(hostname, now, js, k);
    SameRecord(hostname, now, DecoderAfter(ks + [k]), DecoderAfter(js + [k]), k.hdr.family, DecoderAfter(ks).ipLen,
               DecoderAfter(js).ipLen);
  }

  /** Nothing is carried over from ks to k's record: what k lacks, no earlier message has. */
  predicate Covers(ks: seq<KernelMessage>, k: KernelMessage)
    requires WellFormedMessage(k)
  {
    && k.hdr.family in {AF_INET, AF_INET6}
    && (forall t :: t in READ ==> Has(k.attrs, t) || forall i :: 0 <= i < |ks| ==> !Has(ks[i].attrs, t))
    && (CongestionEnum(StoreAll(ZERO_FIELDS, k.attrs).congestionAlgorithm) == BBR1 ==>
          Has(k.attrs, BBRINFO) || forall i :: 0 <= i < |ks| ==> !Has(ks[i].attrs, BBRINFO))
  }

  /** A record depends on its history only through types its own message lacks and an earlier one has. */
  lemma CoveredRecord(hostname: string, now: nat, ks: seq<KernelMessage>, k: KernelMessage)
    requires AllMessages(ks) && WellFormedMessage(k) && Covers(ks, k)
    ensures AllMessages([]) && RecordAfter(hostname, now, ks, k) == RecordAfter(hostname, now, [], k)
  {
    var types := TypesOf(ks);
    hide *;
    TypesCover(ks, k);
    NoMessages();
    NoneWithin(types);
    SelfContainedRecord(hostname, now, ks, [], k, types);
  }

  /** The types a record reads that some message carries. */
  function TypesOf(ks: seq<KernelMessage>): set<nat> {
    set t | t in READ + {BBRINFO} && exists i :: 0 <= i < |ks| && Has(ks[i].attrs, t)
  }

  lemma TypesCover(ks: seq<KernelMessage>, k: KernelMessage)
    requires WellFormedMessage(k) && Covers(ks, k)
    ensures AllWithin(ks, TypesOf(ks)) && SelfContained(k, TypesOf(ks))
  {
    hide StoreAll, WellFormedMessage, Has;
  }

  lemma RecordAfterIs(hostname: string, now: nat, ks: seq<KernelMessage>, k: KernelMessage)
    requires AllMessages(ks) && WellFormedMessage(k)
    ensures AllMessages(ks + [k])
    ensures RecordAfter(hostname, now, ks, k) == BuildProto(hostname, now, DecoderAfter(ks + [k]))
  {
  }

  lemma SameVariables(f: Fields, g: Fields, k: KernelMessage, types: set<nat>)
    requires WellFormedMessage(k) && SelfContained(k, types) && ZeroOutside(f, types) && ZeroOutside(g, types)
    ensures k.hdr.family in {AF_INET, AF_INET6} && AllWellFormed(k.attrs)
    ensures var f1, g1 := StoreAll(f, k.attrs), StoreAll(g, k.attrs);
            (forall t :: t in READ ==> Get(f1, t) == Get(g1, t))
            && (CongestionEnum(f1.congestionAlgorithm) == BBR1 ==> f1.bbrinfo == g1.bbrinfo)
  {
    KnownTypes();
    assert AllWellFormed(k.attrs);
    hide StoreAll, WellFormedMessage, AllWellFormed;
    forall t | t in READ ensures Get(StoreAll(f, k.attrs), t) == Get(StoreAll(g, k.attrs), t) {
      SameVariable(f, g, k.attrs, types, t);
    }
    SameVariable(f, ZERO_FIELDS, k.attrs, types, CONG);
    var f1, g1, z1 := StoreAll(f, k.attrs), StoreAll(g, k.attrs), StoreAll(ZERO_FIELDS, k.attrs);
    assert f1.congestionAlgorithm == z1.congestionAlgorithm;
    if CongestionEnum(f1.congestionAlgorithm) == BBR1 {
      SameVariable(f, g, k.attrs, types, BBRINFO);
    }
  }

  lemma KnownTypes()
    ensures CONG in READ && BBRINFO in READ + {BBRINFO} && forall t :: t in READ + {BBRINFO} ==> Decoded(t)
  {
  }

  lemma SameVariable(f: Fields, g: Fields, attrs: seq<Attr>, types: set<nat>, t: nat)
    requires AllWellFormed(attrs) && ZeroOutside(f, types) && ZeroOutside(g, types) && t in READ + {BBRINFO}
    requires t in types ==> Has(attrs, t)
    ensures Get(StoreAll(f, attrs), t) == Get(StoreAll(g, attrs), t)
  {
    KnownTypes();
    hide StoreAll, AllWellFormed, Has, Get;
    CarriedOrKept(f, g, attrs, t);
    CarriedOrKept(g, f, attrs, t);
  }

  lemma SameRecord(hostname: string, now: nat, d: Decoder, e: Decoder, family: nat, before: nat, other: nat)
    requires FitsDecoder(d) && FitsDecoder(e) && d.hdr == e.hdr && family in {AF_INET, AF_INET6}
    requires d.ipLen == IpLength(family, before) && e.ipLen == IpLength(family, other)
    requires forall t :: t in READ ==> Get(d.fields, t) == Get(e.fields, t)
    requires CongestionEnum(d.fields.congestionAlgorithm) == BBR1 ==> d.fields.bbrinfo == e.fields.bbrinfo
    ensures BuildProto(hostname, now, d) == BuildProto(hostname, now, e)
  {
    assert INFO in READ && CONG in READ && TOS in READ && TCLASS in READ && SKMEMINFO in READ && SHUTDOWN in READ
           && CLASS_ID in READ;
    assert Get(d.fields, INFO) == Get(e.fields, INFO);
    assert Get(d.fields, CONG) == Get(e.fields, CONG);
    assert Get(d.fields, TOS) == Get(e.fields, TOS);
    assert Get(d.fields, TCLASS) == Get(e.fields, TCLASS);
    assert Get(d.fields, SKMEMINFO) == Get(e.fields, SKMEMINFO);
    assert Get(d.fields, SHUTDOWN) == Get(e.fields, SHUTDOWN);
    assert Get(d.fields, CLASS_ID) == Get(e.fields, CLASS_ID);
  }

  // A message that misses one of these leaks an earlier socket's value: one earlier message is enough to show it.

  function OneAttr(family: nat, a: Attr): KernelMessage {
    KernelMessage(ZERO_INET_DIAG_MSG.(family := family), [a])
  }

  /** An attribute of the type whose meaning starts with a byte that is not zero. */
  function Marker(t: nat): Attr {
    if t == CONG then Attr(CONG, CUB, Zeros(1))
    else Attr(t, [1] + Zeros(if SizeOf(t) > 0 then SizeOf(t) - 1 else 0), if SizeOf(t) == 1 then Zeros(3) else [])
  }

  lemma MarkerIsWellFormed(t: nat, family: nat)
    requires (t in READ || t == BBRINFO) && family < 256
    ensures WellFormed(Marker(t)) && WellFormedMessage(OneAttr(family, Marker(t)))
    ensures Meaning(Marker(t)) == if t == CONG then CUB else [1] + Zeros(SizeOf(t) - 1)
  {
    ZeroHeaderFits(family);
    hide FitsInetDiagMsg;
    assert t != CONG ==> Meaning(Marker(t)) == [1] + Zeros(SizeOf(t) - 1);
    assert t == CONG ==> Meaning(Marker(t)) == CUB;
  }

  lemma ZeroHeaderFits(family: nat)
    requires family < 256
    ensures FitsInetDiagMsg(ZERO_INET_DIAG_MSG.(family := family))
  {
    Powers();
    var m := ZERO_INET_DIAG_MSG.(family := family);
    assert SOCKET_HEAD[0] == 1;
    assert forall i :: 1 <= i < 6 ==> Head(m)[i] == 0;
    assert forall i :: 0 <= i < 7 ==> Tail(m)[i] == 0;
  }

  /** The decoder after one marker: every variable but the marked one is still zero. */
  lemma AfterMarker(t: nat, family: nat)
    requires (t in READ || t == BBRINFO) && family < 256
    ensures WellFormedMessage(OneAttr(family, Marker(t)))
    ensures var d := DecoderAfter([OneAttr(family, Marker(t))]);
            d.ipLen == IpLength(family, 0) && d.fields == Put(ZERO_FIELDS, t, Meaning(Marker(t)))
  {
    MarkerIsWellFormed(t, family);
    var k := OneAttr(family, Marker(t));
    DecoderAfterLast([], k);
    assert [] + [k] == [k];
    assert k.attrs == [Marker(t)] && k.attrs[1..] == [];
  }

  lemma DifferentSockets(hostname: string, now: nat, d: Decoder, e: Decoder)
    requires FitsDecoder(d) && FitsDecoder(e) && d.ipLen != e.ipLen
    ensures BuildProto(hostname, now, d) != BuildProto(hostname, now, e)
  {
    assert |BuildProto(hostname, now, d).socket.source| == d.ipLen
           && |BuildProto(hostname, now, e).socket.source| == e.ipLen;
  }

  lemma FirstField(l: Layout, rest: seq<byte>)
    requires l != [] && l[0] > 0 && Size(l) == 1 + |rest|
    ensures Decode(l, [1 as byte] + rest)[0] != Decode(l, [0 as byte] + rest)[0]
  {
    var b, c := ([1 as byte] + rest)[..l[0]], ([0 as byte] + rest)[..l[0]];
    hide Size, Fits;
    assert b[0] == 1 && c[0] == 0;
    assert b[1..] == c[1..];
    assert Value(b) == 1 + 256 * Value(b[1..]) && Value(c) == 256 * Value(c[1..]);
  }

  lemma {:induction false} ZeroOrMarked(n: nat)
    requires n > 0
    ensures Zeros(n) == [0 as byte] + Zeros(n - 1)
    ensures Value(Zeros(n)) == 0
    ensures Value([1] + Zeros(n - 1)) == 1
  {
    assert Zeros(n)[1..] == Zeros(n - 1) && ([1] + Zeros(n - 1))[1..] == Zeros(n - 1);
    if n > 1 { ZeroOrMarked(n - 1); }
  }

  lemma RecordStructs(hostname: string, now: nat, d: Decoder)
    requires FitsDecoder(d)
    ensures Size(TCP_INFO_415) == |d.fields.tcpinfo| == 192 && Size(SK_MEM_INFO) == |d.fields.skmeminfo| == 36
    ensures Size(BBR_INFO) == |d.fields.bbrinfo| == 20
    ensures TCP_INFO_415 != [] && TCP_INFO_415[0] == 1 && SK_MEM_INFO != [] && SK_MEM_INFO[0] == 4 && BBR_INFO != []
    ensures BBR_INFO[0] == 4
    ensures var r := BuildProto(hostname, now, d);
            && |r.tcpHead| == 6 && r.tcpHead[0] == Decode(TCP_INFO_415, d.fields.tcpinfo)[0]
            && r.skMemInfo == Decode(SK_MEM_INFO, d.fields.skmeminfo)
            && (CongestionEnum(d.fields.congestionAlgorithm) == BBR1 ==>
                r.bbrInfo == Some(Decode(BBR_INFO, d.fields.bbrinfo)))
  {
    LayoutSizes();
    assert |Get(d.fields, INFO)| == 192 && |Get(d.fields, SKMEMINFO)| == 36 && |Get(d.fields, BBRINFO)| == 20;
  }

  lemma RecordScalars(hostname: string, now: nat, d: Decoder)
    requires FitsDecoder(d)
    ensures var r := BuildProto(hostname, now, d);
            && r.congestionAlgorithm == CongestionEnum(d.fields.congestionAlgorithm)
            && r.typeOfService == NonZero(Value(d.fields.typeOfService))
            && r.trafficClass == NonZero(Value(d.fields.trafficClass))
            && r.shutdownState == NonZero(Value(d.fields.shutdownState))
            && r.classId == NonZero(Value(d.fields.classID))
  {
  }

  lemma DifferentInfo(hostname: string, now: nat, d: Decoder, e: Decoder)
    requires FitsDecoder(d) && FitsDecoder(e)
    requires d.fields.tcpinfo == [0 as byte] + Zeros(191) && e.fields.tcpinfo == [1 as byte] + Zeros(191)
    ensures BuildProto(hostname, now, d) != BuildProto(hostname, now, e)
  {
    RecordStructs(hostname, now, d);
    RecordStructs(hostname, now, e);
    hide *;
    FirstField(TCP_INFO_415, Zeros(191));
  }

  lemma DifferentSkMemInfo(hostname: string, now: nat, d: Decoder, e: Decoder)
    requires FitsDecoder(d) && FitsDecoder(e)
    requires d.fields.skmeminfo == [0 as byte] + Zeros(35) && e.fields.skmeminfo == [1 as byte] + Zeros(35)
    ensures BuildProto(hostname, now, d) != BuildProto(hostname, now, e)
  {
    RecordStructs(hostname, now, d);
    RecordStructs(hostname, now, e);
    hide *;
    FirstField(SK_MEM_INFO, Zeros(35));
  }

  lemma DifferentBbrInfo(hostname: string, now: nat, d: Decoder, e: Decoder)
    requires FitsDecoder(d) && FitsDecoder(e)
    requires CongestionEnum(d.fields.congestionAlgorithm) == CongestionEnum(e.fields.congestionAlgorithm) == BBR1
    requires d.fields.bbrinfo == [0 as byte] + Zeros(19) && e.fields.bbrinfo == [1 as byte] + Zeros(19)
    ensures BuildProto(hostname, now, d) != BuildProto(hostname, now, e)
  {
    RecordStructs(hostname, now, d);
    RecordStructs(hostname, now, e);
    hide *;
    FirstField(BBR_INFO, Zeros(19));
  }

  lemma DifferentScalar(hostname: string, now: nat, d: Decoder, e: Decoder, t: nat)
    requires FitsDecoder(d) && FitsDecoder(e) && t in {CONG, TOS, TCLASS, SHUTDOWN, CLASS_ID}
    requires t == CONG ==> Get(d.fields, t) == [] && Get(e.fields, t) == CUB
    requires t != CONG ==> Value(Get(d.fields, t)) == 0 && Value(Get(e.fields, t)) == 1
    ensures BuildProto(hostname, now, d) != BuildProto(hostname, now, e)
  {
    RecordScalars(hostname, now, d);
    RecordScalars(hostname, now, e);
    hide BuildProto, FitsDecoder, Value;
    assert CongestionEnum([]) == UNKNOWN && CongestionEnum(CUB) == CUBIC;
  }

  /** One variable zero in d and marked in e is visible in the record (bbrinfo only under bbr). */
  lemma DifferentVariable(hostname: string, now: nat, d: Decoder, e: Decoder, t: nat)
    requires FitsDecoder(d) && FitsDecoder(e) && (t in READ || t == BBRINFO)
    requires t == BBRINFO ==>
      CongestionEnum(d.fields.congestionAlgorithm) == CongestionEnum(e.fields.congestionAlgorithm) == BBR1
    requires Get(d.fields, t) == if t == CONG then [] else Zeros(SizeOf(t))
    requires Get(e.fields, t) == if t == CONG then CUB else [1] + Zeros(SizeOf(t) - 1)
    ensures BuildProto(hostname, now, d) != BuildProto(hostname, now, e)
  {
    hide BuildProto, FitsDecoder, Value, CongestionEnum, Zeros;
    if t != CONG { ZeroOrMarked(SizeOf(t)); }
    if t == INFO {
      DifferentInfo(hostname, now, d, e);
    } else if t == SKMEMINFO {
      DifferentSkMemInfo(hostname, now, d, e);
    } else if t == BBRINFO {
      DifferentBbrInfo(hostname, now, d, e);
    } else {
      DifferentScalar(hostname, now, d, e, t);
    }
  }

  /** A message that is not self-contained: some earlier message of these types changes its record. */
  lemma LeakWitness(hostname: string, now: nat, k: KernelMessage, types: set<nat>) returns (j: KernelMessage)
    requires WellFormedMessage(k) && !SelfContained(k, types)
    ensures AllMessages([j]) && AllMessages([]) && Within(j, types)
    ensures RecordAfter(hostname, now, [], k) != RecordAfter(hostname, now, [j], k)
  {
    if k.hdr.family !in {AF_INET, AF_INET6} {
      j := FamilyOnly(AF_INET);
      hide *;
      FamilyLeaks(hostname, now, k, types);
    } else {
      var t := MissingType(k, types);
      j := OneAttr(0, Marker(t));
      assert Within(j, types) by { hide WellFormedMessage; assert j.attrs == [Marker(t)] && Marker(t).nlaType == t; }
      hide *;
      WitnessLeaks(hostname, now, k, t);
    }
  }

  /** A type the record reads, that the message lacks and an earlier one may have. */
  lemma MissingType(k: KernelMessage, types: set<nat>) returns (t: nat)
    requires WellFormedMessage(k) && !SelfContained(k, types) && k.hdr.family in {AF_INET, AF_INET6}
    ensures (t in READ || t == BBRINFO) && t in types && !Has(k.attrs, t)
    ensures t == BBRINFO ==>
      Has(k.attrs, CONG) && CongestionEnum(StoreAll(ZERO_FIELDS, k.attrs).congestionAlgorithm) == BBR1
  {
    t := BBRINFO;
    if exists u :: u in READ * types && !Has(k.attrs, u) {
      t :| t in READ * types && !Has(k.attrs, t);
    } else {
      CarriedOrKept(ZERO_FIELDS, ZERO_FIELDS, k.attrs, CONG);
    }
  }

  /** A message that names a family and nothing else. */
  function FamilyOnly(family: nat): KernelMessage {
    KernelMessage(ZERO_INET_DIAG_MSG.(family := family), [])
  }

  lemma FamilyOnlyFits(types: set<nat>)
    ensures WellFormedMessage(FamilyOnly(AF_INET)) && Within(FamilyOnly(AF_INET), types)
    ensures FamilyOnly(AF_INET).hdr.family == AF_INET
  {
    ZeroHeaderFits(AF_INET);
    hide FitsInetDiagMsg;
  }

  lemma FamilyLeaks(hostname: string, now: nat, k: KernelMessage, types: set<nat>)
    requires WellFormedMessage(k) && k.hdr.family !in {AF_INET, AF_INET6}
    ensures var j := FamilyOnly(AF_INET);
            && AllMessages([j]) && AllMessages([]) && Within(j, types)
            && RecordAfter(hostname, now, [], k) != RecordAfter(hostname, now, [j], k)
  {
    IpLengths(k.hdr.family);
    hide *;
    var j := FamilyOnly(AF_INET);
    FamilyOnlyFits(types);
    assert [] + [j] == [j];
    NoMessages();
    OneMessage(j);
    DecoderAfterLast([], j);
    AfterOneMore(hostname, now, [], k);
    AfterOneMore(hostname, now, [j], k);
    DifferentSockets(hostname, now, DecoderAfter([] + [k]), DecoderAfter([j] + [k]));
  }

  lemma WitnessLeaks(hostname: string, now: nat, k: KernelMessage, t: nat)
    requires WellFormedMessage(k) && (t in READ || t == BBRINFO) && !Has(k.attrs, t)
    requires t == BBRINFO ==>
      Has(k.attrs, CONG) && CongestionEnum(StoreAll(ZERO_FIELDS, k.attrs).congestionAlgorithm) == BBR1
    ensures AllMessages([OneAttr(0, Marker(t))]) && AllMessages([])
    ensures RecordAfter(hostname, now, [], k) != RecordAfter(hostname, now, [OneAttr(0, Marker(t))], k)
  {
    hide *;
    var j := OneAttr(0, Marker(t));
    MarkerIsWellFormed(t, 0);
    AfterMarker(t, 0);
    NoMessages();
    OneMessage(j);
    AfterOneMore(hostname, now, [], k);
    AfterOneMore(hostname, now, [j], k);
    MissingVariable(hostname, now, k, t, DecoderAfter([] + [k]), DecoderAfter([j] + [k]));
  }

  lemma OneMessage(k: KernelMessage)
    requires WellFormedMessage(k)
    ensures AllMessages([k])
  {
  }

  lemma IpLengths(family: nat)
    ensures IpLength(AF_INET, 0) == 4
    ensures family !in {AF_INET, AF_INET6} ==> IpLength(family, 0) == 0 && IpLength(family, 4) == 4
  {
  }

  lemma MissingVariable(hostname: string, now: nat, k: KernelMessage, t: nat, d: Decoder, e: Decoder)
    requires WellFormedMessage(k) && FitsDecoder(d) && FitsDecoder(e)
    requires t in READ || t == BBRINFO
    requires t == BBRINFO ==>
      Has(k.attrs, CONG) && CongestionEnum(StoreAll(ZERO_FIELDS, k.attrs).congestionAlgorithm) == BBR1
    requires !Has(k.attrs, t) && WellFormed(Marker(t))
    requires d.fields == StoreAll(ZERO_FIELDS, k.attrs)
    requires e.fields == StoreAll(Put(ZERO_FIELDS, t, Meaning(Marker(t))), k.attrs)
    ensures BuildProto(hostname, now, d) != BuildProto(hostname, now, e)
  {
    hide BuildProto, FitsDecoder, StoreAll, WellFormedMessage, AllWellFormed, WellFormed, Meaning, Marker, Has;
    MarkerIsWellFormed(t, 0);
    EncodingNotEmpty(k);
    KnownTypes();
    var g := Put(ZERO_FIELDS, t, Meaning(Marker(t)));
    CarriedOrKept(ZERO_FIELDS, g, k.attrs, t);
    CarriedOrKept(g, ZERO_FIELDS, k.attrs, t);
    CarriedOrKept(g, ZERO_FIELDS, k.attrs, CONG);
    DifferentVariable(hostname, now, d, e, t);
  }

  lemma AfterOneMore(hostname: string, now: nat, ks: seq<KernelMessage>, k: KernelMessage)
    requires AllMessages(ks) && WellFormedMessage(k)
    ensures AllMessages(ks + [k])
    ensures RecordAfter(hostname, now, ks, k) == BuildProto(hostname, now, DecoderAfter(ks + [k]))
    ensures var d := DecoderAfter(ks);
            DecoderAfter(ks + [k]) == Decoder(k.hdr, IpLength(k.hdr.family, d.ipLen), StoreAll(d.fields, k.attrs))
  {
    DecoderAfterLast(ks, k);
  }

  /** Among histories of these types, a record is free of earlier messages if and only if its own
      message is self-contained. */
  lemma RecordIndependentIff(hostname: string, now: nat, k: KernelMessage, types: set<nat>)
    requires WellFormedMessage(k)
    ensures SelfContained(k, types) <==>
      forall ks: seq<KernelMessage> :: AllMessages(ks) && AllWithin(ks, types) ==>
        RecordAfter(hostname, now, ks, k) == RecordAfter(hostname, now, [], k)
  {
    hide *;
    NoMessages();
    NoneWithin(types);
    if SelfContained(k, types) {
      forall ks: seq<KernelMessage> | AllMessages(ks) && AllWithin(ks, types)
        ensures RecordAfter(hostname, now, ks, k) == RecordAfter(hostname, now, [], k)
      {
        SelfContainedRecord(hostname, now, ks, [], k, types);
      }
    } else {
      var j := LeakWitness(hostname, now, k, types);
      OneWithin(j, types);
    }
  }

  lemma NoneWithin(types: set<nat>)
    ensures AllWithin([], types)
  {
  }

  lemma OneWithin(k: KernelMessage, types: set<nat>)
    requires Within(k, types)
    ensures AllWithin([k], types)
  {
  }

  lemma NoMessages()
    ensures AllMessages([]) && DecoderAfter([]).ipLen == 0 && DecoderAfter([]).fields == ZERO_FIELDS
  {
  }

  // ---- What a worker sends ----

  /** The records of the selected messages, each built from the history up to it and stamped with
      its own poll's time. */
  function Records(hostname: string, modulus: int, inputs: seq<Input>, ks: seq<KernelMessage>): seq<XtcpRecord>
    requires modulus != 0 && |inputs| == |ks| && AllMessages(ks)
  {
    if ks == [] then []
    else
      var n := |ks| - 1;
      Records(hostname, modulus, inputs[..n], ks[..n])
      + if Selected(n, modulus) then [RecordAfter(hostname, inputs[n].epochTime, ks[..n], ks[n])] else []
  }

  lemma {:induction false} LifeSends(hostname: string, modulus: int, inputs: seq<Input>, ks: seq<KernelMessage>)
    requires modulus != 0 && Carries(inputs, ks)
    ensures var r := Life(hostname, modulus, inputs);
            && r.Alive? && r.worker.decoder == DecoderAfter(ks) && r.worker.totals.msgCount == |ks|
            && r.sent == Records(hostname, modulus, inputs, ks)
  {
    hide *;
    if ks == [] {
      NothingSent(hostname, modulus, inputs, ks);
    } else {
      var n := |ks| - 1;
      CarriesPrefix(inputs, ks);
      LifeSends(hostname, modulus, inputs[..n], ks[..n]);
      RecordsStep(hostname, modulus, inputs, ks);
      LifeStep(hostname, modulus, inputs);
      var w := Life(hostname, modulus, inputs[..n]).worker;
      LastTurn(w, hostname, modulus, inputs[n], ks[n]);
      DecodeOfEncodeMessage(w.decoder, ks[n]);
      DecoderAfterLast(ks[..n], ks[n]);
      RecordAfterIs(hostname, inputs[n].epochTime, ks[..n], ks[n]);
    }
  }

  lemma NothingSent(hostname: string, modulus: int, inputs: seq<Input>, ks: seq<KernelMessage>)
    requires modulus != 0 && Carries(inputs, ks) && ks == []
    ensures var r := Life(hostname, modulus, inputs);
            && r.Alive? && r.worker.decoder == DecoderAfter(ks) && r.worker.totals.msgCount == 0 && r.sent == []
            && AllMessages(ks) && |inputs| == 0 && Records(hostname, modulus, inputs, ks) == []
  {
  }

  lemma CarriesPrefix(inputs: seq<Input>, ks: seq<KernelMessage>)
    requires Carries(inputs, ks) && ks != []
    ensures var n := |ks| - 1;
            && |inputs| == n + 1 && Carries(inputs[..n], ks[..n]) && AllMessages(ks[..n]) && WellFormedMessage(ks[n])
            && inputs[n].body == EncodeMessage(ks[n]) && ks == ks[..n] + [ks[n]]
  {
  }

  lemma RecordsStep(hostname: string, modulus: int, inputs: seq<Input>, ks: seq<KernelMessage>)
    requires modulus != 0 && |inputs| == |ks| && AllMessages(ks) && ks != []
    ensures var n := |ks| - 1;
            AllMessages(ks[..n]) && WellFormedMessage(ks[n]) && Records(hostname, modulus, inputs, ks)
            == Records(hostname, modulus, inputs[..n], ks[..n])
               + if Selected(n, modulus) then [RecordAfter(hostname, inputs[n].epochTime, ks[..n], ks[n])] else []
  {
  }

  lemma LifeStep(hostname: string, modulus: int, inputs: seq<Input>)
    requires inputs != [] && Life(hostname, modulus, inputs[..|inputs| - 1]).Alive?
    ensures var n := |inputs| - 1;
            var p, i := Life(hostname, modulus, inputs[..n]), inputs[n];
            var t := Turn(p.worker, hostname, i.epochTime, i.body, modulus, i.around);
            (t.TurnPanic? ==> Life(hostname, modulus, inputs).LifePanic?)
            && (t.Turned? ==>
                  Life(hostname, modulus, inputs)
                  == Alive(t.worker, if t.sent.Some? then p.sent + [t.sent.value] else p.sent))
  {
  }

  lemma LastTurn(w: Worker, hostname: string, modulus: int, i: Input, k: KernelMessage)
    requires FitsWorker(w) && modulus != 0 && WellFormedMessage(k) && i.body == EncodeMessage(k)
    ensures var r := Turn(w, hostname, i.epochTime, i.body, modulus, i.around);
            && r.Turned? && r.worker.decoder == DecodeMessage(w.decoder, i.body).decoder
            && FitsDecoder(r.worker.decoder) && r.worker.totals.msgCount == w.totals.msgCount + 1
            && r.sent == if Selected(w.totals.msgCount, modulus) then
              Some(BuildProto(hostname, i.epochTime, r.worker.decoder)) else None
  {
    EncodingNotEmpty(k);
    DecodeOfEncodeMessage(w.decoder, k);
    DecodeMessageFits(w.decoder, i.body);
    hide DecodeMessage, BuildProto, FitsDecoder, EncodeMessage;
  }
}
