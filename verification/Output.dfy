/** From the sockets the kernel dumps to the records sent: every run of the program gives the same output. */
module Output {
  import opened Misc
  import opened Bytes
  import opened Sampling
  import opened Netlinker
  import opened Framing
  import A = Attributes
  import I = Inetdiager
  import opened Pipeline
  import opened Conservation
  import opened Delivery
  import opened Termination
  import opened Incarnations
  import opened Lag
  import opened Liveness
  import opened Workers
  import opened Dumps

  type Record = I.XtcpRecord

  // ---- The intended output ----

  /** One record for every sampled socket of a dump, built from that socket alone. */
  function DumpRecords(hostname: string, now: nat, items: seq<Item>, count: nat, m: int): multiset<Record>
    requires m != 0 && WellFormedItems(items)
  {
    if items == [] then multiset{}
    else
      (if Selected(count, m) then multiset{I.RecordAfter(hostname, now, [], items[0].msg)} else multiset{})
      + DumpRecords(hostname, now, items[1..], count + 1, m)
  }

  function ReplyRecords(c: Config, hostname: string, now: nat, ds: seq<Dump>): multiset<Record>
    requires c.samplingModulus != 0 && forall i :: 0 <= i < |ds| ==> WellFormedDump(c, ds[i])
  {
    if ds == [] then multiset{}
    else
      assert WellFormedDump(c, ds[0]);
      DumpRecords(hostname, now, ds[0].items, 0, c.samplingModulus) + ReplyRecords(c, hostname, now, ds[1..])
  }

  /** The records of the first n polls, each with the start time of its own poll. */
  ghost function AllRecords(c: Config, hostname: string, start: nat -> nat, dumps: nat -> seq<Dump>,
                            n: nat): multiset<Record>
    requires c.samplingModulus != 0 && Answers(c, dumps) && (n > 0 ==> MaxLoopsOrForEver(n - 1, c.maxLoops))
  {
    if n == 0 then multiset{}
    else AllRecords(c, hostname, start, dumps, n - 1) + ReplyRecords(c, hostname, start(n - 1), dumps(n - 1))
  }

  /** The guard `>` lets a limited poller go round maxLoops + 1 times. */
  function PollCount(c: Config): (n: nat)
    requires c.maxLoops != 0
    ensures n > 0 ==> MaxLoopsOrForEver(n - 1, c.maxLoops)
    ensures !MaxLoopsOrForEver(n, c.maxLoops)
  {
    if c.maxLoops < 0 then 0 else c.maxLoops + 1
  }

  // ---- Messages handled alone ----

  /** What a fresh inetdiager that reports everything makes of this one message. */
  function Solo(hostname: string, start: nat -> nat, m: Msg): multiset<Record> {
    I.ZeroDecoderFits();
    I.DecodeMessageFits(I.ZERO_DECODER, m.body);
    match I.DecodeMessage(I.ZERO_DECODER, m.body)
    case MessagePanic => multiset{}
    case Message(d, _, _) => multiset{I.BuildProto(hostname, start(m.stamp), d)}
  }

  function SoloAll(hostname: string, start: nat -> nat, msgs: seq<Msg>): multiset<Record> {
    if msgs == [] then multiset{}
        else SoloAll(hostname, start, msgs[..|msgs| - 1]) + Solo(hostname, start, msgs[|msgs| - 1])
  }

  lemma {:induction false} SoloConcat(hostname: string, start: nat -> nat, a: seq<Msg>, b: seq<Msg>)
    ensures SoloAll(hostname, start, a + b) == SoloAll(hostname, start, a) + SoloAll(hostname, start, b)
  {
    hide Solo;
    if b == [] {
      assert a + b == a;
    } else {
      var n := |b| - 1;
      SoloConcat(hostname, start, a, b[..n]);
      assert (a + b)[..|a + b| - 1] == a + b[..n];
      assert (a + b)[|a + b| - 1] == b[n];
    }
  }

  lemma SoloOne(hostname: string, start: nat -> nat, m: Msg)
    ensures SoloAll(hostname, start, [m]) == Solo(hostname, start, m)
  {
    assert [m][..0] == [];
    hide Solo;
  }

  /** The order in which messages are handled does not matter. */
  lemma {:induction false} SoloPermutes(hostname: string, start: nat -> nat, a: seq<Msg>, b: seq<Msg>)
    requires multiset(a) == multiset(b)
    ensures SoloAll(hostname, start, a) == SoloAll(hostname, start, b)
    decreases |a|
  {
    if a == [] {
      assert |b| == |multiset(b)| == 0;
    } else {
      var n := |a| - 1;
      var x := a[n];
      assert a == a[..n] + [x];
      assert x in multiset(b);
      var i :| 0 <= i < |b| && b[i] == x;
      var l, r := b[..i], b[i + 1..];
      assert b == l + [x] + r;
      RemoveOne(a[..n], l, r, x);
      SoloPermutes(hostname, start, a[..n], l + r);
      hide Solo;
      SoloMiddle(hostname, start, l, x, r);
    }
  }

  lemma SoloMiddle(hostname: string, start: nat -> nat, l: seq<Msg>, x: Msg, r: seq<Msg>)
    ensures SoloAll(hostname, start, l + [x] + r) == SoloAll(hostname, start, l + r) + Solo(hostname, start, x)
  {
    SoloConcat(hostname, start, l, r);
    SoloConcat(hostname, start, l, [x]);
    SoloConcat(hostname, start, l + [x], r);
    SoloOne(hostname, start, x);
    hide Solo, SoloAll;
  }

  lemma RemoveOne(a: seq<Msg>, l: seq<Msg>, r: seq<Msg>, x: Msg)
    requires multiset(a + [x]) == multiset(l + [x] + r)
    ensures multiset(a) == multiset(l + r)
  {
    assert multiset(a) == multiset(a + [x]) - multiset{x};
    assert multiset(l + r) == multiset(l + [x] + r) - multiset{x};
  }

  lemma SoloOfEncoded(hostname: string, start: nat -> nat, m: Msg, k: I.KernelMessage)
    requires I.WellFormedMessage(k) && m.body == I.EncodeMessage(k)
    ensures Solo(hostname, start, m) == multiset{I.RecordAfter(hostname, start(m.stamp), [], k)}
    ensures !I.BodyPanics(m.body) && m.body != []
  {
    hide I.BuildProto, I.WellFormedMessage, I.EncodeMessage, I.DecodeMessage, I.FitsDecoder;
    I.EncodingNotEmpty(k);
    I.NoMessages();
    I.DecoderAfterLast([], k);
    I.RecordAfterIs(hostname, start(m.stamp), [], k);
    I.DecodeOfEncodeMessage(I.ZERO_DECODER, k);
  }

  // ---- The messages of the dumps ----

  /** A socket of a poller whose kernel sends only these types, and all of them with every socket
      (BBRINFO under bbr). */
  predicate UniformItem(x: Item, types: set<nat>) {
    WellFormedItem(x) && I.SelfContained(x.msg, types) && I.Within(x.msg, types)
  }

  predicate UniformReply(ds: seq<Dump>, types: set<nat>) {
    forall i, j :: 0 <= i < |ds| && 0 <= j < |ds[i].items| ==> UniformItem(ds[i].items[j], types)
  }

  /** No socket of any reply lacks a type that a record reads and another socket has: an AF_INET kernel without TCLASS
      is uniform. */
  ghost predicate Uniform(c: Config, dumps: nat -> seq<Dump>, types: set<nat>) {
    forall k: nat :: MaxLoopsOrForEver(k, c.maxLoops) ==> UniformReply(dumps(k), types)
  }

  /** What an AF_INET kernel sends: every type a record reads but TCLASS, BBRINFO at least under bbr. */
  lemma Ipv4IsUniform(x: Item)
    requires WellFormedItem(x) && x.msg.hdr.family == AF_INET
    requires forall t :: t in I.READ ==> (I.Has(x.msg.attrs, t) <==> t != A.TCLASS)
    requires I.CongestionEnum(A.StoreAll(A.ZERO_FIELDS, x.msg.attrs).congestionAlgorithm) == I.BBR1 ==>
      I.Has(x.msg.attrs, A.BBRINFO)
    ensures UniformItem(x, I.READ - {A.TCLASS} + {A.BBRINFO})
  {
    hide A.StoreAll, I.WellFormedMessage, I.Has;
  }

  /** The message is this socket. */
  predicate Encodes(body: seq<byte>, k: I.KernelMessage, types: set<nat>) {
    I.WellFormedMessage(k) && I.SelfContained(k, types) && I.Within(k, types) && body == I.EncodeMessage(k)
  }

  ghost predicate Encoded(body: seq<byte>, types: set<nat>) {
    exists k :: Encodes(body, k, types)
  }

  ghost function Socket(body: seq<byte>, types: set<nat>): (k: I.KernelMessage)
    requires Encoded(body, types)
    ensures Encodes(body, k, types)
  {
    var k :| Encodes(body, k, types);
    k
  }

  lemma {:induction false} SampledItem(items: seq<Item>, count: nat, m: int, a: Action) returns (j: nat)
    requires m != 0 && WellFormedItems(items) && a in Sampled(MessagesOf(items), count, m)
    ensures j < |items| && WellFormedItem(items[j]) && a == Send(MessageOf(items[j]).body)
  {
    hide Selected, WellFormedItem;
    var tail := Sampled(MessagesOf(items[1..]), count + 1, m);
    assert MessagesOf(items)[1..] == MessagesOf(items[1..]);
    j := 0;
    if a in tail {
      var i := SampledItem(items[1..], count + 1, m, a);
      j := i + 1;
    }
  }

  /** Every message of a poll's reply is a socket of its dumps. */
  lemma ReplyItem(c: Config, ds: seq<Dump>, rs: seq<Reception>, i: nat, a: Action) returns (j: nat)
    requires c.samplingModulus != 0 && WellFormedReply(c, ds) && Carrying(c, ds, rs) && i < |rs|
    requires a in Acts(c, rs[i]) && a.Send?
    ensures i < |ds| && j < |ds[i].items| && WellFormedItem(ds[i].items[j]) && a.body == MessageOf(ds[i].items[j]).body
  {
    hide Determined, Acts, EncodePacket, PacketOf, WellFormedPacket, WellFormedItems, WellFormedItem, MessageOf,
        MessagesOf, Sampled;
    DumpDetermined(c, ds[i]);
    j := SampledItem(ds[i].items, 0, c.samplingModulus, a);
  }

  lemma ItemIsHarmless(c: Config, x: Item)
    requires WellFormedItem(x) && c.reportModulus != 0
    ensures !MessagePanics(c, MessageOf(x).body)
  {
    hide I.WellFormedMessage, I.EncodeMessage, I.BodyPanics;
    SoloOfEncoded("", n => n, Msg(0, MessageOf(x).body), x.msg);
  }

  lemma AnswersAreHarmless(c: Config, dumps: nat -> seq<Dump>)
    requires c.samplingModulus != 0 && c.reportModulus != 0 && c.happyModulus != 0 && Answers(c, dumps)
    ensures Harmless(c)
  {
    hide WellFormedReply, Carrying, Acts, MessagePanics, WellFormedItem, MessageOf;
    forall k: nat, i: nat | MaxLoopsOrForEver(k, c.maxLoops)
        && i < |c.kernel(k)| ensures HarmlessScript(c, Acts(c, c.kernel(k)[i])) {
      var script := Acts(c, c.kernel(k)[i]);
      forall l | 0 <= l < |script| && script[l].Send? ensures !MessagePanics(c, script[l].body) {
        var j := ReplyItem(c, dumps(k), c.kernel(k), i, script[l]);
        ItemIsHarmless(c, dumps(k)[i].items[j]);
      }
    }
  }

  lemma UniformEncoded(x: Item, types: set<nat>)
    requires UniformItem(x, types)
    ensures Encoded(MessageOf(x).body, types)
  {
    hide I.WellFormedMessage, I.SelfContained, I.Within, I.EncodeMessage;
    assert Encodes(MessageOf(x).body, x.msg, types);
  }

  lemma ExpectedEncoded(c: Config, dumps: nat -> seq<Dump>, types: set<nat>, n: nat, m: Msg)
    requires c.samplingModulus != 0 && Answers(c, dumps) && Uniform(c, dumps, types)
    requires m in Expected(c, n) && (n > 0 ==> MaxLoopsOrForEver(n - 1, c.maxLoops))
    ensures Encoded(m.body, types)
  {
    hide WellFormedReply, Carrying, Acts, Encoded, Sends, ReplySends, Expected, UniformItem, MessageOf;
    ExpectedMember(c, n, m);
    var k, rs := m.stamp, c.kernel(m.stamp);
    RepliedMember(c, k, rs, m);
    var i: nat :| i < |rs| && m in Sends(k, Acts(c, rs[i]));
    SentMember(k, Acts(c, rs[i]), m);
    var j := ReplyItem(c, dumps(k), rs, i, Send(m.body));
    assert UniformReply(dumps(k), types);
    UniformEncoded(dumps(k)[i].items[j], types);
  }

  // ---- Messages and the records they become ----

  /** Handled alone, these messages become these records. */
  ghost predicate Become(hostname: string, start: nat -> nat, ms: multiset<Msg>, rs: multiset<Record>) {
    exists msgs: seq<Msg> :: multiset(msgs) == ms && SoloAll(hostname, start, msgs) == rs
  }

  lemma BecomeNothing(hostname: string, start: nat -> nat)
    ensures Become(hostname, start, multiset{}, multiset{})
  {
    var none: seq<Msg> := [];
    assert multiset(none) == multiset{} && SoloAll(hostname, start, none) == multiset{};
  }

  lemma BecomeOne(hostname: string, start: nat -> nat, m: Msg)
    ensures Become(hostname, start, multiset{m}, Solo(hostname, start, m))
  {
    hide Solo;
    SoloOne(hostname, start, m);
    assert multiset([m]) == multiset{m};
  }

  lemma BecomeBoth(hostname: string, start: nat -> nat, ms: multiset<Msg>, rs: multiset<Record>, ns: multiset<Msg>,
                   qs: multiset<Record>)
    requires Become(hostname, start, ms, rs) && Become(hostname, start, ns, qs)
    ensures Become(hostname, start, ms + ns, rs + qs)
  {
    hide SoloAll;
    var a: seq<Msg> :| multiset(a) == ms && SoloAll(hostname, start, a) == rs;
    var b: seq<Msg> :| multiset(b) == ns && SoloAll(hostname, start, b) == qs;
    SoloConcat(hostname, start, a, b);
    assert multiset(a + b) == ms + ns;
  }

  /** The records are determined by the messages. */
  lemma BecomeUnique(hostname: string, start: nat -> nat, ms: multiset<Msg>, rs: multiset<Record>, qs: multiset<Record>)
    requires Become(hostname, start, ms, rs) && Become(hostname, start, ms, qs)
    ensures rs == qs
  {
    hide SoloAll;
    var a: seq<Msg> :| multiset(a) == ms && SoloAll(hostname, start, a) == rs;
    var b: seq<Msg> :| multiset(b) == ms && SoloAll(hostname, start, b) == qs;
    SoloPermutes(hostname, start, a, b);
  }

  // ---- What the kernel sent ----

  lemma ItemBecomes(hostname: string, start: nat -> nat, stamp: nat, x: Item)
    requires WellFormedItem(x)
    ensures Become(hostname, start, multiset{Msg(stamp, MessageOf(x).body)},
                   multiset{I.RecordAfter(hostname, start(stamp), [], x.msg)})
  {
    hide I.WellFormedMessage, I.EncodeMessage, Become, Solo;
    var m := Msg(stamp, MessageOf(x).body);
    SoloOfEncoded(hostname, start, m, x.msg);
    BecomeOne(hostname, start, m);
  }

  lemma {:induction false} SendsConcat(stamp: nat, a: seq<Action>, b: seq<Action>)
    ensures Sends(stamp, a + b) == Sends(stamp, a) + Sends(stamp, b)
  {
    if a == [] {
      assert a + b == b;
    } else {
      assert (a + b)[1..] == a[1..] + b && (a + b)[0] == a[0];
      SendsStep(stamp, a + b);
      SendsStep(stamp, a);
      hide Sends;
      SendsConcat(stamp, a[1..], b);
    }
  }

  lemma SendsOne(stamp: nat, body: seq<byte>)
    ensures Sends(stamp, [Send(body)]) == multiset{Msg(stamp, body)}
    ensures Sends(stamp, [Done]) == Sends(stamp, []) == multiset{}
  {
    assert [Send(body)][1..] == [] && [Done][1..] == [];
  }

  lemma FirstBecomes(hostname: string, start: nat -> nat, stamp: nat, x: Item, selected: bool)
    requires WellFormedItem(x)
    ensures Become(hostname, start, Sends(stamp, if selected then [Send(MessageOf(x).body)] else []),
                   if selected then multiset{I.RecordAfter(hostname, start(stamp), [], x.msg)} else multiset{})
  {
    BecomeNothing(hostname, start);
    SendsOne(stamp, MessageOf(x).body);
    ItemBecomes(hostname, start, stamp, x);
    hide *;
  }

  lemma {:induction false} ItemsBecome(hostname: string, start: nat -> nat, stamp: nat, items: seq<Item>, count: nat,
                                       m: int)
    requires m != 0 && WellFormedItems(items)
    ensures Become(hostname, start, Sends(stamp, Sampled(MessagesOf(items), count, m)),
                   DumpRecords(hostname, start(stamp), items, count, m))
    decreases items
  {
    if items == [] {
      BecomeNothing(hostname, start);
      hide Selected, Become;
      SendsOne(stamp, []);
    } else {
      var x := items[0];
      var first := if Selected(count, m) then [Send(MessageOf(x).body)] else [];
      var later := Sampled(MessagesOf(items[1..]), count + 1, m);
      var record := if Selected(count, m) then multiset{I.RecordAfter(hostname, start(stamp), [], x.msg)}
          else multiset{};
      hide Selected, Sends, WellFormedItem, Become;
      ItemsBecome(hostname, start, stamp, items[1..], count + 1, m);
      SampledStepItems(items, count, m);
      FirstBecomes(hostname, start, stamp, x, Selected(count, m));
      SendsConcat(stamp, first, later);
      assert DumpRecords(hostname, start(stamp), items, count, m) == record
             + DumpRecords(hostname, start(stamp), items[1..], count + 1, m);
      hide Sampled, MessagesOf, MessageOf, DumpRecords;
      BecomeBoth(hostname, start, Sends(stamp, first), record, Sends(stamp, later),
                 DumpRecords(hostname, start(stamp), items[1..], count + 1, m));
    }
  }

  lemma ScriptBecomes(c: Config, hostname: string, start: nat -> nat, stamp: nat, d: Dump)
    requires c.samplingModulus != 0 && WellFormedItems(d.items)
    ensures Become(hostname, start, Sends(stamp, ScriptOf(c, d)),
                   DumpRecords(hostname, start(stamp), d.items, 0, c.samplingModulus))
  {
    ItemsBecome(hostname, start, stamp, d.items, 0, c.samplingModulus);
    hide Sends, Sampled, MessagesOf, Become, DumpRecords;
    var sends := Sampled(MessagesOf(d.items), 0, c.samplingModulus);
    SendsConcat(stamp, sends, [Done]);
    SendsConcat(stamp, sends, []);
    SendsOne(stamp, []);
    assert Sends(stamp, sends) + multiset{} == Sends(stamp, sends);
  }

  lemma {:induction false} ReplyBecomes(c: Config, hostname: string, start: nat -> nat, stamp: nat, ds: seq<Dump>,
                                        rs: seq<Reception>)
    requires c.samplingModulus != 0 && |rs| == |ds|
    requires forall i :: 0 <= i < |ds| ==> WellFormedDump(c, ds[i]) && rs[i] == Datagram(EncodePacket(PacketOf(ds[i])))
    ensures Become(hostname, start, ReplySends(c, stamp, rs), ReplyRecords(c, hostname, start(stamp), ds))
    decreases |ds|
  {
    BecomeNothing(hostname, start);
    hide Sends, Acts, EncodePacket, WellFormedPacket, PacketOf, WellFormedItems, ScriptOf, Become, DumpRecords;
    if ds != [] {
      assert WellFormedDump(c, ds[0]);
      ReplyBecomes(c, hostname, start, stamp, ds[1..], rs[1..]);
      DumpDetermined(c, ds[0]);
      ScriptBecomes(c, hostname, start, stamp, ds[0]);
      BecomeBoth(hostname, start,
                 Sends(stamp, Acts(c, rs[0])), DumpRecords(hostname, start(stamp), ds[0].items, 0, c.samplingModulus),
                 ReplySends(c, stamp, rs[1..]), ReplyRecords(c, hostname, start(stamp), ds[1..]));
    }
  }

  lemma {:induction false} ExpectedBecomes(c: Config, hostname: string, start: nat -> nat, dumps: nat -> seq<Dump>,
                                           n: nat)
    requires c.samplingModulus != 0 && Answers(c, dumps) && (n > 0 ==> MaxLoopsOrForEver(n - 1, c.maxLoops))
    ensures Become(hostname, start, Expected(c, n), AllRecords(c, hostname, start, dumps, n))
  {
    BecomeNothing(hostname, start);
    hide ReplySends, ReplyRecords, WellFormedDump, Become;
    if n > 0 {
      ExpectedBecomes(c, hostname, start, dumps, n - 1);
      assert WellFormedReply(c, dumps(n - 1)) && Carrying(c, dumps(n - 1), c.kernel(n - 1));
      ReplyBecomes(c, hostname, start, n - 1, dumps(n - 1), c.kernel(n - 1));
      BecomeBoth(hostname, start,
                 Expected(c, n - 1), AllRecords(c, hostname, start, dumps, n - 1),
                 ReplySends(c, n - 1, c.kernel(n - 1)), ReplyRecords(c, hostname, start(n - 1), dumps(n - 1)));
    }
  }

  // ---- What the workers sent ----

  function SentOf(hostname: string, modulus: int, life: seq<I.Input>): multiset<Record> {
    var r := I.Life(hostname, modulus, life);
    if r.Alive? then multiset(r.sent) else multiset{}
  }

  /** All records sent by these inetdiagers. */
  function SentBy(hostname: string, modulus: int, lives: seq<seq<I.Input>>): multiset<Record> {
    if lives == [] then multiset{}
    else SentBy(hostname, modulus, lives[..|lives| - 1]) + SentOf(hostname, modulus, lives[|lives| - 1])
  }

  ghost predicate AllEncoded(msgs: seq<Msg>, types: set<nat>) {
    forall i :: 0 <= i < |msgs| ==> Encoded(msgs[i].body, types)
  }

  lemma {:induction false} Sockets(msgs: seq<Msg>, types: set<nat>) returns (ks: seq<I.KernelMessage>)
    requires AllEncoded(msgs, types)
    ensures |ks| == |msgs| && forall i :: 0 <= i < |ks| ==> Encodes(msgs[i].body, ks[i], types)
  {
    hide Encodes, Encoded;
    ks := [];
    if msgs != [] {
      var n := |msgs| - 1;
      var earlier := Sockets(msgs[..n], types);
      ks := earlier + [Socket(msgs[n].body, types)];
    }
  }

  /** The inputs carry these sockets under the messages' stamps. */
  ghost predicate Working(start: nat -> nat, msgs: seq<Msg>, inputs: seq<I.Input>, ks: seq<I.KernelMessage>,
                          types: set<nat>) {
    && I.Carries(inputs, ks) && |msgs| == |ks|
    && (forall i :: 0 <= i < |ks| ==> Encodes(msgs[i].body, ks[i], types))
    && (forall i :: 0 <= i < |ks| ==> inputs[i].epochTime == start(msgs[i].stamp))
  }

  lemma WorkingPrefix(start: nat -> nat, msgs: seq<Msg>, inputs: seq<I.Input>, ks: seq<I.KernelMessage>,
                      types: set<nat>)
    requires Working(start, msgs, inputs, ks, types) && ks != []
    ensures var n := |ks| - 1;
            && |msgs| == |inputs| == n + 1 && I.AllMessages(ks)
            && Working(start, msgs[..n], inputs[..n], ks[..n], types)
            && Encodes(msgs[n].body, ks[n], types) && I.AllWithin(ks[..n], types)
            && inputs[n].epochTime == start(msgs[n].stamp)
  {
    I.CarriesPrefix(inputs, ks);
    assert I.AllMessages(ks);
    hide I.Carries, I.AllMessages, Encodes;
  }

  /** Every record of a worker that reports everything is the one its message alone would give. */
  lemma {:induction false} RecordsAreSolo(hostname: string, start: nat -> nat, msgs: seq<Msg>, inputs: seq<I.Input>,
                                          ks: seq<I.KernelMessage>, types: set<nat>)
    requires Working(start, msgs, inputs, ks, types)
    ensures |inputs| == |ks| && I.AllMessages(ks)
    ensures multiset(I.Records(hostname, 1, inputs, ks)) == SoloAll(hostname, start, msgs)
    decreases |ks|
  {
    hide I.Records, I.RecordAfter, I.AllMessages, I.WellFormedMessage, Encodes, Solo, Selected;
    if ks != [] {
      var n := |ks| - 1;
      WorkingPrefix(start, msgs, inputs, ks, types);
      hide Working;
      RecordsAreSolo(hostname, start, msgs[..n], inputs[..n], ks[..n], types);
      LastRecord(hostname, start, msgs[n], inputs, ks, types);
      hide SoloAll;
      SoloLast(hostname, start, msgs);
    } else {
      NoRecords(hostname, 1, inputs);
    }
  }

  lemma SoloLast(hostname: string, start: nat -> nat, msgs: seq<Msg>)
    requires msgs != []
    ensures var n := |msgs| - 1;
            SoloAll(hostname, start, msgs) == SoloAll(hostname, start, msgs[..n]) + Solo(hostname, start, msgs[n])
  {
    hide Solo;
  }

  lemma LastRecord(hostname: string, start: nat -> nat, m: Msg, inputs: seq<I.Input>, ks: seq<I.KernelMessage>,
                   types: set<nat>)
    requires |inputs| == |ks| && ks != [] && I.AllMessages(ks)
    requires I.AllWithin(ks[..|ks| - 1], types) && Encodes(m.body, ks[|ks| - 1], types)
    requires inputs[|ks| - 1].epochTime == start(m.stamp)
    ensures var n := |ks| - 1;
            && I.AllMessages(ks[..n])
            && multiset(I.Records(hostname, 1, inputs, ks))
               == multiset(I.Records(hostname, 1, inputs[..n], ks[..n])) + Solo(hostname, start, m)
  {
    hide *;
    var n := |ks| - 1;
    AlwaysSelected(n);
    I.RecordsStep(hostname, 1, inputs, ks);
    LastIsSolo(hostname, start, m, inputs[n].epochTime, ks[..n], ks[n], types);
    OneMore(I.Records(hostname, 1, inputs[..n], ks[..n]), I.RecordAfter(hostname, inputs[n].epochTime, ks[..n], ks[n]));
  }

  lemma AlwaysSelected(n: nat)
    ensures Selected(n, 1)
  {
  }

  lemma OneMore(before: seq<Record>, last: Record)
    ensures multiset(before + [last]) == multiset(before) + multiset{last}
  {
  }

  lemma LastIsSolo(hostname: string, start: nat -> nat, m: Msg, now: nat, ks: seq<I.KernelMessage>, k: I.KernelMessage,
                   types: set<nat>)
    requires I.AllMessages(ks) && I.AllWithin(ks, types) && Encodes(m.body, k, types) && now == start(m.stamp)
    ensures multiset{I.RecordAfter(hostname, now, ks, k)} == Solo(hostname, start, m)
  {
    hide I.AllMessages, I.AllWithin, I.Within, I.WellFormedMessage, I.SelfContained, I.EncodeMessage, I.RecordAfter,
        Solo;
    I.NoMessages();
    I.NoneWithin(types);
    SoloOfEncoded(hostname, start, m, k);
    I.SelfContainedRecord(hostname, now, ks, [], k, types);
  }

  lemma LifeBecomes(hostname: string, start: nat -> nat, w: WorkerThread, inputs: seq<I.Input>, types: set<nat>)
    requires LifeOf(start, w, inputs) && AllEncoded(w.processed, types)
    ensures Become(hostname, start, Processed(w), SentOf(hostname, 1, inputs))
  {
    var ks := Sockets(w.processed, types);
    SocketsWork(start, w, inputs, ks, types);
    hide I.AllMessages, I.Carries, I.Life, Working, LifeOf, AllEncoded, SoloAll;
    I.LifeSends(hostname, 1, inputs, ks);
    RecordsAreSolo(hostname, start, w.processed, inputs, ks, types);
  }

  lemma SocketsWork(start: nat -> nat, w: WorkerThread, inputs: seq<I.Input>, ks: seq<I.KernelMessage>, types: set<nat>)
    requires LifeOf(start, w, inputs) && |ks| == |w.processed| && forall i :: 0 <= i < |ks| ==>
      Encodes(w.processed[i].body, ks[i], types)
    ensures Working(start, w.processed, inputs, ks, types) && I.Carries(inputs, ks)
  {
    hide I.EncodeMessage, I.SelfContained, I.Within, I.WellFormedMessage;
  }

  lemma {:induction false} LivesBecome(hostname: string, start: nat -> nat, ws: seq<WorkerThread>,
                                       lives: seq<seq<I.Input>>, types: set<nat>)
    requires LivesOf(start, ws, lives) && forall j :: 0 <= j < |ws| ==> AllEncoded(ws[j].processed, types)
    ensures Become(hostname, start, Total(ws, Processed), SentBy(hostname, 1, lives))
    decreases |ws|
  {
    BecomeNothing(hostname, start);
    hide LifeOf, AllEncoded, SentOf, Become, Processed;
    if ws != [] {
      var n := |ws| - 1;
      assert LifeOf(start, ws[n], lives[n]);
      LivesBecome(hostname, start, ws[..n], lives[..n], types);
      LifeBecomes(hostname, start, ws[n], lives[n], types);
      BecomeBoth(hostname, start, Total(ws[..n], Processed), SentBy(hostname, 1, lives[..n]), Processed(ws[n]),
                 SentOf(hostname, 1, lives[n]));
    }
  }

  lemma ProcessedMember(ws: seq<WorkerThread>, j: nat, k: nat)
    requires j < |ws| && k < |ws[j].processed|
    ensures ws[j].processed[k] in Total(ws, Processed)
  {
    TotalMember(ws, Processed, j);
    hide Total;
    assert ws[j].processed[k] in Processed(ws[j]);
  }

  // ---- Report modulus ----

  /** A report modulus leaves records out and changes none. */
  lemma {:induction false} FewerRecords(hostname: string, modulus: int, inputs: seq<I.Input>, ks: seq<I.KernelMessage>)
    requires modulus != 0 && |inputs| == |ks| && I.AllMessages(ks)
    ensures multiset(I.Records(hostname, modulus, inputs, ks)) <= multiset(I.Records(hostname, 1, inputs, ks))
    decreases |ks|
  {
    if ks != [] {
      var n := |ks| - 1;
      I.RecordsStep(hostname, modulus, inputs, ks);
      I.RecordsStep(hostname, 1, inputs, ks);
      AlwaysSelected(n);
      hide *;
      FewerRecords(hostname, modulus, inputs[..n], ks[..n]);
      OneMore(I.Records(hostname, modulus, inputs[..n], ks[..n]),
              I.RecordAfter(hostname, inputs[n].epochTime, ks[..n], ks[n]));
      OneMore(I.Records(hostname, 1, inputs[..n], ks[..n]),
              I.RecordAfter(hostname, inputs[n].epochTime, ks[..n], ks[n]));
    } else {
      NoRecords(hostname, modulus, inputs);
    }
  }

  lemma NoRecords(hostname: string, modulus: int, inputs: seq<I.Input>)
    requires modulus != 0 && inputs == []
    ensures I.Records(hostname, modulus, inputs, []) == []
  {
  }

  lemma LifeSendsFewer(hostname: string, modulus: int, start: nat -> nat, w: WorkerThread, inputs: seq<I.Input>,
                       types: set<nat>)
    requires modulus != 0 && LifeOf(start, w, inputs) && AllEncoded(w.processed, types)
    ensures I.Life(hostname, modulus, inputs).Alive? && SentOf(hostname, modulus, inputs) <= SentOf(hostname, 1, inputs)
  {
    var ks := Sockets(w.processed, types);
    SocketsWork(start, w, inputs, ks, types);
    hide I.AllMessages, I.Life, Working, LifeOf, AllEncoded;
    I.LifeSends(hostname, modulus, inputs, ks);
    I.LifeSends(hostname, 1, inputs, ks);
    FewerRecords(hostname, modulus, inputs, ks);
  }

  lemma {:induction false} LivesSendFewer(
      hostname: string, modulus: int, start: nat -> nat, ws: seq<WorkerThread>, lives: seq<seq<I.Input>>,
      types: set<nat>)
    requires modulus != 0 && LivesOf(start, ws, lives) && forall j :: 0 <= j < |ws| ==>
      AllEncoded(ws[j].processed, types)
    ensures SentBy(hostname, modulus, lives) <= SentBy(hostname, 1, lives)
    ensures forall j :: 0 <= j < |lives| ==> I.Life(hostname, modulus, lives[j]).Alive?
    decreases |ws|
  {
    hide LifeOf, AllEncoded, SentOf, I.Life;
    if ws != [] {
      var n := |ws| - 1;
      assert LifeOf(start, ws[n], lives[n]);
      LivesSendFewer(hostname, modulus, start, ws[..n], lives[..n], types);
      LifeSendsFewer(hostname, modulus, start, ws[n], lives[n], types);
      forall j | 0 <= j < |lives| ensures I.Life(hostname, modulus, lives[j]).Alive? {
        if j < n { assert lives[..n][j] == lives[j]; }
      }
    }
  }

  /** The records sent are counted by udpWritesTotal. */
  lemma {:induction false} SentCounted(hostname: string, modulus: int, lives: seq<seq<I.Input>>)
    requires modulus != 0 && forall j :: 0 <= j < |lives| ==> I.Life(hostname, modulus, lives[j]).Alive?
    ensures |SentBy(hostname, modulus, lives)| == Writes(hostname, modulus, lives)
  {
    hide I.Life;
    if lives != [] {
      var n := |lives| - 1;
      assert forall j :: 0 <= j < n ==> lives[..n][j] == lives[j];
      SentCounted(hostname, modulus, lives[..n]);
      I.LifeCounts(hostname, modulus, lives[n]);
    }
  }

  /** Of the records all messages would give, the workers send a number fixed within one per worker. */
  lemma SentBounded(hostname: string, modulus: int, start: nat -> nat, ws: seq<WorkerThread>, lives: seq<seq<I.Input>>,
                    types: set<nat>)
    requires modulus >= 1 && LivesOf(start, ws, lives) && forall j :: 0 <= j < |ws| ==>
      AllEncoded(ws[j].processed, types)
    ensures WithinBound(|SentBy(hostname, 1, lives)|, |ws|, |SentBy(hostname, modulus, lives)|, modulus)
  {
    hide *;
    LivesSendFewer(hostname, modulus, start, ws, lives, types);
    LivesSendFewer(hostname, 1, start, ws, lives, types);
    SentCounted(hostname, modulus, lives);
    SentCounted(hostname, 1, lives);
    WritesAreSelected(hostname, modulus, lives);
    WritesAreSelected(hostname, 1, lives);
    SelectedTotalBounds(Counts(lives), 1);
    LivesLength(start, ws, lives);
    BoundOf(Counts(lives), Sum(Counts(lives)), |ws|, Writes(hostname, modulus, lives), modulus);
  }

  // ---- Part of the messages ----

  lemma {:induction false} BecomeSome(hostname: string, start: nat -> nat,
                                      ms: multiset<Msg>) returns (rs: multiset<Record>)
    ensures Become(hostname, start, ms, rs)
    decreases |ms|
  {
    hide Become, Solo;
    if ms == multiset{} {
      rs := multiset{};
      BecomeNothing(hostname, start);
    } else {
      var m :| m in ms;
      var qs := BecomeSome(hostname, start, ms - multiset{m});
      rs := qs + Solo(hostname, start, m);
      BecomeOne(hostname, start, m);
      BecomeBoth(hostname, start, ms - multiset{m}, qs, multiset{m}, Solo(hostname, start, m));
      assert ms - multiset{m} + multiset{m} == ms;
    }
  }

  /** A part of the messages becomes a part of the records. */
  lemma BecomePart(hostname: string, start: nat -> nat, ms: multiset<Msg>, rs: multiset<Record>, ns: multiset<Msg>,
                   qs: multiset<Record>)
    requires Become(hostname, start, ms, rs) && Become(hostname, start, ns, qs) && ms <= ns
    ensures rs <= qs
  {
    hide Become;
    var rest := ns - ms;
    assert ms + rest == ns;
    var ts := BecomeSome(hostname, start, rest);
    BecomeBoth(hostname, start, ms, rs, rest, ts);
    BecomeUnique(hostname, start, ns, qs, rs + ts);
  }

  lemma {:induction false} SoloAllSize(hostname: string, start: nat -> nat, msgs: seq<Msg>, types: set<nat>)
    requires AllEncoded(msgs, types)
    ensures |SoloAll(hostname, start, msgs)| == |msgs|
  {
    if msgs != [] {
      var n := |msgs| - 1;
      assert Encoded(msgs[n].body, types);
      SoloSize(hostname, start, msgs[n], types);
      hide Solo, Encoded;
      SoloAllSize(hostname, start, msgs[..n], types);
    }
  }

  lemma SoloSize(hostname: string, start: nat -> nat, m: Msg, types: set<nat>)
    requires Encoded(m.body, types)
    ensures |Solo(hostname, start, m)| == 1
  {
    hide I.WellFormedMessage, I.SelfContained, I.Within, I.EncodeMessage, I.RecordAfter, I.BodyPanics, Solo;
    SoloOfEncoded(hostname, start, m, Socket(m.body, types));
  }

  /** Sockets become one record each. */
  lemma BecomeSize(hostname: string, start: nat -> nat, ms: multiset<Msg>, rs: multiset<Record>, types: set<nat>)
    requires Become(hostname, start, ms, rs) && forall m :: m in ms ==> Encoded(m.body, types)
    ensures |rs| == |ms|
  {
    hide SoloAll, Encoded;
    var msgs: seq<Msg> :| multiset(msgs) == ms && SoloAll(hostname, start, msgs) == rs;
    forall i | 0 <= i < |msgs| ensures Encoded(msgs[i].body, types) { assert msgs[i] in multiset(msgs); }
    SoloAllSize(hostname, start, msgs, types);
  }

  // ---- End to end ----

  /** Whatever their number and interleaving, these workers have sent records that the sampled sockets of the first n
      polls give alone, no socket twice, each with its poll's time. Of those they have worked on they sent as many as
      the report modulus allows, all of them for modulus 1; at most `lag` sockets have not been worked on. */
  ghost predicate SendsTheDumps(c: Config, hostname: string, start: nat -> nat, dumps: nat -> seq<Dump>,
                                ws: seq<WorkerThread>, n: nat, lag: int)
    requires c.samplingModulus != 0 && Answers(c, dumps) && (n > 0 ==> MaxLoopsOrForEver(n - 1, c.maxLoops))
  {
    forall lives :: LivesOf(start, ws, lives) ==>
      var sent, worked, all :=
        SentBy(hostname, c.reportModulus, lives), SentBy(hostname, 1, lives), AllRecords(c, hostname, start, dumps, n);
      && sent <= worked <= all && |all| <= |worked| + lag
      && (c.reportModulus == 1 ==> sent == worked)
      && (c.reportModulus >= 1 ==> WithinBound(|worked|, |ws|, |sent|, c.reportModulus))
  }

  /** What workers have sent who have processed part of what the first n polls expect. */
  lemma ProcessedOutput(c: Config, hostname: string, start: nat -> nat, dumps: nat -> seq<Dump>, types: set<nat>,
                        ws: seq<WorkerThread>, n: nat)
    requires c.samplingModulus != 0 && c.reportModulus != 0 && Answers(c, dumps) && Uniform(c, dumps, types)
    requires n > 0 ==> MaxLoopsOrForEver(n - 1, c.maxLoops)
    requires Total(ws, Processed) <= Expected(c, n)
    ensures SendsTheDumps(c, hostname, start, dumps, ws, n, |Expected(c, n)| - |Total(ws, Processed)|)
  {
    hide LivesOf, SentBy, AllRecords, WithinBound, Answers, Uniform, Total, Expected, MaxLoopsOrForEver;
    forall lives | LivesOf(start, ws, lives)
      ensures var sent, worked, all :=
                SentBy(hostname, c.reportModulus, lives), SentBy(hostname, 1, lives),
                    AllRecords(c, hostname, start, dumps, n);
              && sent <= worked <= all && |all| <= |worked| + |Expected(c, n)| - |Total(ws, Processed)|
              && (c.reportModulus == 1 ==> sent == worked)
              && (c.reportModulus >= 1 ==> WithinBound(|worked|, |ws|, |sent|, c.reportModulus))
    {
      LivesOutput(c, hostname, start, dumps, types, ws, lives, n);
    }
  }

  lemma LivesOutput(c: Config, hostname: string, start: nat -> nat, dumps: nat -> seq<Dump>, types: set<nat>,
                    ws: seq<WorkerThread>, lives: seq<seq<I.Input>>, n: nat)
    requires c.samplingModulus != 0 && c.reportModulus != 0 && Answers(c, dumps) && Uniform(c, dumps, types)
    requires n > 0 ==> MaxLoopsOrForEver(n - 1, c.maxLoops)
    requires Total(ws, Processed) <= Expected(c, n) && LivesOf(start, ws, lives)
    ensures var sent, worked, all :=
              SentBy(hostname, c.reportModulus, lives), SentBy(hostname, 1, lives),
                  AllRecords(c, hostname, start, dumps, n);
            && sent <= worked <= all && |all| == |worked| + |Expected(c, n)| - |Total(ws, Processed)|
            && (c.reportModulus == 1 ==> sent == worked)
            && (c.reportModulus >= 1 ==> WithinBound(|worked|, |ws|, |sent|, c.reportModulus))
  {
    hide *;
    var worked, all := SentBy(hostname, 1, lives), AllRecords(c, hostname, start, dumps, n);
    forall m | m in Expected(c, n) ensures Encoded(m.body, types) { ExpectedEncoded(c, dumps, types, n, m); }
    forall j | 0 <= j < |ws| ensures AllEncoded(ws[j].processed, types) { AllAreEncoded(c, dumps, types, ws, j, n); }
    LivesBecome(hostname, start, ws, lives, types);
    ExpectedBecomes(c, hostname, start, dumps, n);
    BecomePart(hostname, start, Total(ws, Processed), worked, Expected(c, n), all);
    BecomeSize(hostname, start, Total(ws, Processed), worked, types);
    BecomeSize(hostname, start, Expected(c, n), all, types);
    LivesSendFewer(hostname, c.reportModulus, start, ws, lives, types);
    if c.reportModulus >= 1 { SentBounded(hostname, c.reportModulus, start, ws, lives, types); }
  }

  lemma AllAreEncoded(c: Config, dumps: nat -> seq<Dump>, types: set<nat>, ws: seq<WorkerThread>, j: nat, n: nat)
    requires c.samplingModulus != 0 && Answers(c, dumps) && Uniform(c, dumps, types)
    requires n > 0 ==> MaxLoopsOrForEver(n - 1, c.maxLoops)
    requires Total(ws, Processed) <= Expected(c, n) && j < |ws|
    ensures AllEncoded(ws[j].processed, types)
  {
    hide Encoded, Total, Expected, Answers, Uniform;
    forall k | 0 <= k < |ws[j].processed| ensures Encoded(ws[j].processed[k].body, types) {
      ProcessedMember(ws, j, k);
      ExpectedEncoded(c, dumps, types, n, ws[j].processed[k]);
    }
  }

  lemma MoreLag(c: Config, hostname: string, start: nat -> nat, dumps: nat -> seq<Dump>, ws: seq<WorkerThread>, n: nat,
                lag: int, more: int)
    requires c.samplingModulus != 0 && Answers(c, dumps) && (n > 0 ==> MaxLoopsOrForEver(n - 1, c.maxLoops))
    requires SendsTheDumps(c, hostname, start, dumps, ws, n, lag) && lag <= more
    ensures SendsTheDumps(c, hostname, start, dumps, ws, n, more)
  {
    hide LivesOf, SentBy, AllRecords, WithinBound, Answers;
  }

  /** At any moment of any run, limited or endless, everything sent so far is right. */
  lemma OutputSoFar(c: Config, hostname: string, start: nat -> nat, dumps: nat -> seq<Dump>, types: set<nat>, s: State)
    requires Answers(c, dumps) && Uniform(c, dumps, types) && c.samplingModulus != 0 && c.reportModulus != 0
    requires Reachable(c, s) && s.crash == Alive
    ensures s.requests > 0 ==> MaxLoopsOrForEver(s.requests - 1, c.maxLoops)
    ensures SendsTheDumps(c, hostname, start, dumps, s.workers, s.requests,
                          |Expected(c, s.requests)| - |Total(s.workers, Processed)|)
  {
    hide *;
    AnswersAreGood(c, dumps);
    ProcessedSoFar(c, s);
    ProcessedOutput(c, hostname, start, dumps, types, s.workers, s.requests);
  }

  /** What the end of a poll may leave to the next: nothing when workers are shut down, else a channel's worth and one
      message per inetdiager. */
  function LagAllowed(c: Config): nat {
    if c.shutdownWorkers then 0 else c.netlinkerChSize + c.inetdiagers
  }

  /** At the end of a poll the workers are behind the kernel by no more than that. */
  lemma OutputAtTick(c: Config, hostname: string, start: nat -> nat, dumps: nat -> seq<Dump>, types: set<nat>, s: State)
    requires Answers(c, dumps) && Uniform(c, dumps, types) && c.samplingModulus != 0 && c.reportModulus != 0
    requires Reachable(c, s) && s.crash == Alive && s.pc == AwaitTick && c.inetdiagers > 0
    ensures s.requests > 0 ==> MaxLoopsOrForEver(s.requests - 1, c.maxLoops)
    ensures SendsTheDumps(c, hostname, start, dumps, s.workers, s.requests, LagAllowed(c))
  {
    hide *;
    AnswersAreGood(c, dumps);
    OutputSoFar(c, hostname, start, dumps, types, s);
    LagIsAllowed(c, s);
    MoreLag(c, hostname, start, dumps, s.workers, s.requests,
            |Expected(c, s.requests)| - |Total(s.workers, Processed)|, LagAllowed(c));
  }

  lemma LagIsAllowed(c: Config, s: State)
    requires GoodKernel(c) && Reachable(c, s) && s.crash == Alive && s.pc == AwaitTick && c.inetdiagers > 0
    ensures |Expected(c, s.requests)| - |Total(s.workers, Processed)| <= LagAllowed(c)
  {
    hide GoodKernel, Reachable, Total, Expected;
    if c.shutdownWorkers {
      ReachableIsIncarnated(c, s);
      DeliveredAtShutdown(c, s);
    } else {
      LagAtTick(c, s);
    }
  }

  /** End to end, for limited and endless pollers: every maximal run ends every poll, and by then the workers have sent
      the records of the dumps so far, up to the lag allowed. */
  lemma OutputIsTheDumps(c: Config, hostname: string, start: nat -> nat, dumps: nat -> seq<Dump>, types: set<nat>,
                         run: nat -> State, k: nat)
    returns (n: nat)
    requires Answers(c, dumps) && Uniform(c, dumps, types)
    requires c.samplingModulus != 0 && c.reportModulus != 0 && c.happyModulus != 0
    requires c.timeouts && c.patient && c.netlinkers > 0 && c.inetdiagers > 0
    requires IsMaximalRun(c, run) && MaxLoopsOrForEver(k, c.maxLoops)
    ensures run(n).pc == AwaitTick && run(n).loops == k && run(n).crash == Alive
    ensures SendsTheDumps(c, hostname, start, dumps, run(n).workers, k + 1, LagAllowed(c))
  {
    hide *;
    AnswersAreGood(c, dumps);
    AnswersAreHarmless(c, dumps);
    n := EveryPollCompletes(c, run, k);
    EveryStateReachable(c, run, n);
    TickIs(run(n), run(n + 1));
    OutputAtTick(c, hostname, start, dumps, types, run(n));
  }

  lemma TickIs(s: State, t: State)
    requires Tick(s, t)
    ensures s.pc == AwaitTick
  {
  }

  /** A poller with a loop limit finishes in every maximal run, and then no record is outstanding. */
  lemma FinalOutput(c: Config, hostname: string, start: nat -> nat, dumps: nat -> seq<Dump>, types: set<nat>,
                    run: nat -> State)
    returns (n: nat)
    requires Answers(c, dumps) && Uniform(c, dumps, types)
    requires c.samplingModulus != 0 && c.reportModulus != 0 && c.happyModulus != 0
    requires c.timeouts && c.patient && c.netlinkers > 0 && c.inetdiagers > 0
    requires IsMaximalRun(c, run) && c.maxLoops != 0
    ensures run(n).pc == Finished && run(n).crash == Alive
    ensures SendsTheDumps(c, hostname, start, dumps, run(n).workers, PollCount(c), 0)
  {
    hide *;
    var polls := PollCount(c);
    PollCountIs(c);
    AnswersAreGood(c, dumps);
    AnswersAreHarmless(c, dumps);
    n := EveryRunDelivers(c, run);
    ProcessedOutput(c, hostname, start, dumps, types, run(n).workers, polls);
  }

  lemma PollCountIs(c: Config)
    requires c.maxLoops != 0
    ensures PollCount(c) == if c.maxLoops < 0 then 0 else c.maxLoops + 1
  {
  }
}
