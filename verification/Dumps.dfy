/** Dumps of sockets as the kernel frames them, and what netlinkers make of them. */
module Dumps {
  import opened Misc
  import opened Bytes
  import opened Sampling
  import opened Netlinker
  import opened Framing
  import I = Inetdiager
  import opened Pipeline
  import opened Delivery
  import Progress

  // ---- The kernel's dumps ----

  /** One socket in a dump: the netlink header fields the program ignores, and the inet_diag message. */
  datatype Item = Item(msgType: nat, sequence: nat, pid: nat, msg: I.KernelMessage)

  datatype Dump = Dump(items: seq<Item>, dones: seq<DoneMessage>)

  predicate WellFormedItem(x: Item) {
    I.WellFormedMessage(x.msg)
  }

  predicate WellFormedItems(items: seq<Item>) {
    forall i :: 0 <= i < |items| ==> WellFormedItem(items[i])
  }

  function MessageOf(x: Item): NetlinkMessage
    requires WellFormedItem(x)
  {
    NetlinkMessage(x.msgType, x.sequence, x.pid, I.EncodeMessage(x.msg))
  }

  function MessagesOf(items: seq<Item>): (msgs: seq<NetlinkMessage>)
    requires WellFormedItems(items)
    ensures |msgs| == |items|
  {
    if items == [] then [] else [MessageOf(items[0])] + MessagesOf(items[1..])
  }

  function PacketOf(d: Dump): Packet
    requires WellFormedItems(d.items)
  {
    Packet(MessagesOf(d.items), d.dones)
  }

  /** A packet the kernel may send: it frames, and it fits the receive buffer. */
  predicate WellFormedDump(c: Config, d: Dump) {
    && WellFormedItems(d.items) && WellFormedPacket(PacketOf(d)) && |EncodePacket(PacketOf(d))| <= c.bufferSize
  }

  /** The reply to one request: DONE ends its last packet and no other. */
  predicate WellFormedReply(c: Config, ds: seq<Dump>) {
    && ds != [] && (forall i :: 0 <= i < |ds| ==> WellFormedDump(c, ds[i]))
    && (forall i :: 0 <= i < |ds| ==> (ds[i].dones != [] <==> i == |ds| - 1))
  }

  ghost predicate Answers(c: Config, dumps: nat -> seq<Dump>) {
    forall k: nat :: MaxLoopsOrForEver(k, c.maxLoops) ==>
      WellFormedReply(c, dumps(k)) && Carrying(c, dumps(k), c.kernel(k))
  }

  ghost predicate Carrying(c: Config, ds: seq<Dump>, rs: seq<Reception>)
    requires WellFormedReply(c, ds)
  {
    |rs| == |ds| && forall i :: 0 <= i < |ds| ==>
      WellFormedDump(c, ds[i]) && rs[i] == Datagram(EncodePacket(PacketOf(ds[i])))
  }

  // ---- What a netlinker makes of a dump ----

  function ScriptOf(c: Config, d: Dump): seq<Action>
    requires c.samplingModulus != 0 && WellFormedItems(d.items)
  {
    Sampled(MessagesOf(d.items), 0, c.samplingModulus) + (if d.dones == [] then [] else [Done])
  }

  lemma EmptyPacket(p: Packet)
    requires |EncodePacket(p)| < 16
    ensures p.msgs == [] && p.dones == []
  {
  }

  lemma DumpYields(c: Config, d: Dump, script: seq<Action>)
    requires c.samplingModulus != 0 && WellFormedDump(c, d)
    requires Yields(c, Datagram(EncodePacket(PacketOf(d))), script)
    ensures script == ScriptOf(c, d)
  {
    var p := PacketOf(d);
    var bytes := EncodePacket(p);
    hide EncodePacket, WellFormedPacket, SplitReceived, Sampled;
    if |bytes| < 16 {
      EmptyPacket(p);
      assert Sampled([], 0, c.samplingModulus) == [] by { NothingSampled(c.samplingModulus); }
    } else {
      var buffer: seq<byte> :| |buffer| == c.bufferSize
          && script == SplitReceived(buffer, bytes, c.samplingModulus).actions;
      PacketFraming(buffer, p, c.samplingModulus);
    }
  }

  lemma NothingSampled(m: int)
    requires m != 0
    ensures Sampled([], 0, m) == []
  {
  }

  lemma DumpDetermined(c: Config, d: Dump)
    requires c.samplingModulus != 0 && WellFormedDump(c, d)
    ensures var r := Datagram(EncodePacket(PacketOf(d))); Determined(c, r) && Acts(c, r) == ScriptOf(c, d)
  {
    var r := Datagram(EncodePacket(PacketOf(d)));
    Progress.SomeScript(c, r);
    hide *;
    hide Acts;
    DumpYields(c, d, Acts(c, r));
    AllYields(c, d, r);
  }

  lemma AllYields(c: Config, d: Dump, r: Reception)
    requires c.samplingModulus != 0 && WellFormedDump(c, d) && r == Datagram(EncodePacket(PacketOf(d)))
    requires Acts(c, r) == ScriptOf(c, d)
    ensures Determined(c, r)
  {
    hide Yields, Acts, ScriptOf, WellFormedDump;
    forall script | Yields(c, r, script) ensures script == Acts(c, r) { DumpYields(c, d, script); }
  }

  lemma SampledStepItems(items: seq<Item>, count: nat, m: int)
    requires m != 0 && WellFormedItems(items) && items != []
    ensures Sampled(MessagesOf(items), count, m)
      == (if Selected(count, m) then [Send(MessageOf(items[0]).body)] else [])
          + Sampled(MessagesOf(items[1..]), count + 1, m)
  {
    hide Selected, WellFormedItem;
    assert MessagesOf(items)[1..] == MessagesOf(items[1..]);
  }

  lemma ScriptShape(c: Config, d: Dump)
    requires c.samplingModulus != 0 && WellFormedItems(d.items)
    ensures if d.dones == [] then Clean(ScriptOf(c, d)) else Ending(ScriptOf(c, d))
  {
    var sends := Sampled(MessagesOf(d.items), 0, c.samplingModulus);
    SampledOnlySends(MessagesOf(d.items), 0, c.samplingModulus);
    assert Clean(sends);
    hide Sampled, Clean, MessagesOf;
    assert sends + [] == sends && (sends + [Done])[..|sends|] == sends;
  }

  /** Framed dumps make a well-behaved kernel. */
  lemma AnswersAreGood(c: Config, dumps: nat -> seq<Dump>)
    requires c.samplingModulus != 0 && Answers(c, dumps)
    ensures GoodKernel(c)
  {
    hide WellFormedReply, GoodReply, Carrying;
    forall k: nat | MaxLoopsOrForEver(k, c.maxLoops) ensures GoodReply(c, c.kernel(k)) {
      ReplyIsGood(c, dumps(k), c.kernel(k));
    }
  }

  lemma ReplyIsGood(c: Config, ds: seq<Dump>, rs: seq<Reception>)
    requires c.samplingModulus != 0 && WellFormedReply(c, ds) && Carrying(c, ds, rs)
    ensures GoodReply(c, rs)
  {
    hide Determined, Acts, Clean, Ending, ScriptOf, EncodePacket, PacketOf, WellFormedPacket, WellFormedItems;
    forall i | 0 <= i < |rs|
      ensures Determined(c, rs[i]) && if i < |rs| - 1 then Clean(Acts(c, rs[i])) else Ending(Acts(c, rs[i]))
    {
      DumpDetermined(c, ds[i]);
      ScriptShape(c, ds[i]);
    }
  }
}
