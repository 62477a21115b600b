/** What a worker's eight counters and its reports add up to, over any life. */
module Counters {
  import opened Misc
  import opened Bytes
  import opened InetDiag
  import opened Attributes
  import opened Inetdiager
  import opened Sampling
  import opened Stats
  import MessageBytes

  /** What one input adds: 72 bytes and what the attribute loop counts for a message that is not empty, a write for a
      selected one, and a blocked report for a tick that meets a full channel. */
  function Share(i: Input, selected: bool): InetdiagerStats {
    var blocked := if i.around.tick && i.around.statsFull then 1 else 0;
    if i.body == [] then InetdiagerStats(0, 0, 0, 0, 0, 0, 0, blocked)
    else
      var r := Attributes.Attributes(ZERO_FIELDS, Nlattr(0, 0), if |i.body| < 72 then [] else i.body[72..]);
      var n, pad := if r.Stopped? then 72 + r.bytesRead else 0, if r.Stopped? then r.padBufferSize else 0;
      InetdiagerStats(|i.body|, 1, n, pad, if selected then 1 else 0, if selected then i.around.udpBytes else 0,
                      if selected && i.around.udpFails then 1 else 0, blocked)
  }

  /** The sum over a life. The k-th message that is not empty is selected when k passes the modulus. */
  function Shares(modulus: int, inputs: seq<Input>): InetdiagerStats
    requires modulus != 0
  {
    if inputs == [] then ZERO_STATS
    else
      var n := |inputs| - 1;
      Add(Shares(modulus, inputs[..n]), Share(inputs[n], Selected(NonEmpty(inputs[..n]), modulus)))
  }

  /** One turn adds exactly its share, and a tick reports the totals before it with the input's size already in. */
  lemma TurnAdds(w: Worker, hostname: string, modulus: int, i: Input)
    requires FitsWorker(w) && modulus != 0
    ensures var t := Turn(w, hostname, i.epochTime, i.body, modulus, i.around);
            t.Turned? ==>
              && t.worker.totals == Add(w.totals, Share(i, Selected(w.totals.msgCount, modulus)))
              && t.report == (if i.around.tick then Some(w.totals.(inSizeTotal := w.totals.inSizeTotal + |i.body|))
                              else None)
  {
    var m := i.body;
    if m != [] {
      SizesAreTheBodys(w.decoder, m);
      var w1 := w.(totals := Received(w.totals, m, i.around));
      DecodingOnce(w1, hostname, i.epochTime, m, modulus, i.around);
    }
    hide DecodeMessage, BuildProto, FitsDecoder, Selected, Attributes.Attributes;
  }

  lemma SizesAreTheBodys(d: Decoder, m: seq<byte>)
    ensures var r := Attributes.Attributes(ZERO_FIELDS, Nlattr(0, 0), if |m| < 72 then [] else m[72..]);
            var got := DecodeMessage(d, m);
            got.Message? ==>
              r.Stopped? && got.bytesRead == 72 + r.bytesRead && got.padBufferSize == r.padBufferSize
  {
    ControlIgnoresFields(d.fields, ZERO_FIELDS, Nlattr(0, 0), if |m| < 72 then [] else m[72..]);
    hide Attributes.Attributes, ReadMessageHeader;
  }

  /** Every counter of a living worker, whatever it was given. */
  lemma {:induction false} LifeTotals(hostname: string, modulus: int, inputs: seq<Input>)
    requires modulus != 0 && Life(hostname, modulus, inputs).Alive?
    ensures Life(hostname, modulus, inputs).worker.totals == Shares(modulus, inputs)
  {
    hide *;
    if inputs == [] {
      NoShares(hostname, modulus);
    } else {
      var n := |inputs| - 1;
      AliveBefore(hostname, modulus, inputs);
      LifeTotals(hostname, modulus, inputs[..n]);
      LifeCounts(hostname, modulus, inputs[..n]);
      LifeStep(hostname, modulus, inputs);
      TurnAdds(Life(hostname, modulus, inputs[..n]).worker, hostname, modulus, inputs[n]);
      SharesStep(modulus, inputs);
    }
  }

  lemma NoShares(hostname: string, modulus: int)
    requires modulus != 0
    ensures var r := Life(hostname, modulus, []); r.Alive? && r.worker.totals == ZERO_STATS == Shares(modulus, [])
  {
  }

  lemma AliveBefore(hostname: string, modulus: int, inputs: seq<Input>)
    requires inputs != [] && Life(hostname, modulus, inputs).Alive?
    ensures var p := Life(hostname, modulus, inputs[..|inputs| - 1]); p.Alive? && FitsWorker(p.worker)
  {
    hide Turn, FitsWorker;
  }

  lemma SharesStep(modulus: int, inputs: seq<Input>)
    requires modulus != 0 && inputs != []
    ensures var n := |inputs| - 1;
            Shares(modulus, inputs)
            == Add(Shares(modulus, inputs[..n]), Share(inputs[n], Selected(NonEmpty(inputs[..n]), modulus)))
  {
    hide Share, NonEmpty, Selected;
  }

  /** The report of turn n: nothing without a tick, else the sum over the inputs before it, with its own size. */
  lemma ReportIs(hostname: string, modulus: int, inputs: seq<Input>, n: nat)
    requires modulus != 0 && n < |inputs| && Life(hostname, modulus, inputs[..n + 1]).Alive?
    ensures var before := Life(hostname, modulus, inputs[..n]);
            before.Alive?
            && (var i, sum := inputs[n], Shares(modulus, inputs[..n]);
                var t := Turn(before.worker, hostname, i.epochTime, i.body, modulus, i.around);
                && t.Turned?
                && (t.report.Some? <==> i.around.tick)
                && (t.report.Some? ==> t.report.value == sum.(inSizeTotal := sum.inSizeTotal + |i.body|)))
  {
    hide *;
    assert inputs[..n + 1][..n] == inputs[..n];
    AliveBefore(hostname, modulus, inputs[..n + 1]);
    LifeStep(hostname, modulus, inputs[..n + 1]);
    LifeTotals(hostname, modulus, inputs[..n]);
    TurnAdds(Life(hostname, modulus, inputs[..n]).worker, hostname, modulus, inputs[n]);
  }

  /** A kernel message adds 72 bytes and its attributes' counts. */
  lemma KernelShare(i: Input, k: KernelMessage, selected: bool)
    requires WellFormedMessage(k) && i.body == EncodeMessage(k)
    ensures var a, s := i.around, Share(i, selected);
            && s.inSizeTotal == 72 + |EncodeAll(k.attrs)| && s.msgCount == 1
            && s.bytesReadTotal == 72 + CountedAll(k.attrs) && s.padBufferTotal == SkippedAll(k.attrs)
            && s.udpWritesTotal == (if selected then 1 else 0)
            && s.udpBytesWrittenTotal == (if selected then a.udpBytes else 0)
            && s.udpErrorsTotal == (if selected && a.udpFails then 1 else 0)
            && s.statsBlocked == (if a.tick && a.statsFull then 1 else 0)
  {
    MessageBytes.BodyOfMessage(k);
    RoundTripThen(ZERO_FIELDS, Nlattr(0, 0), k.attrs);
    hide EncodeMessage, EncodeAll, Attributes.Attributes, StoreAll, WellFormedMessage;
  }

  /** Bytes read and padding over a life of kernel messages. */
  function ReadBytes(ks: seq<KernelMessage>): nat {
    if ks == [] then 0 else ReadBytes(ks[..|ks| - 1]) + 72 + CountedAll(ks[|ks| - 1].attrs)
  }

  function Padding(ks: seq<KernelMessage>): nat {
    if ks == [] then 0 else Padding(ks[..|ks| - 1]) + SkippedAll(ks[|ks| - 1].attrs)
  }

  function InBytes(inputs: seq<Input>): nat {
    if inputs == [] then 0 else InBytes(inputs[..|inputs| - 1]) + |inputs[|inputs| - 1].body|
  }

  function BlockedReports(inputs: seq<Input>): nat {
    if inputs == [] then 0
    else
      var a := inputs[|inputs| - 1].around;
      BlockedReports(inputs[..|inputs| - 1]) + if a.tick && a.statsFull then 1 else 0
  }

  /** Bytes of the selected messages' writes. */
  function WrittenBytes(modulus: int, inputs: seq<Input>): nat
    requires modulus != 0
  {
    if inputs == [] then 0
    else
      var n := |inputs| - 1;
      WrittenBytes(modulus, inputs[..n]) + if Selected(n, modulus) then inputs[n].around.udpBytes else 0
  }

  function FailedWrites(modulus: int, inputs: seq<Input>): nat
    requires modulus != 0
  {
    if inputs == [] then 0
    else
      var n := |inputs| - 1;
      FailedWrites(modulus, inputs[..n]) + if Selected(n, modulus) && inputs[n].around.udpFails then 1 else 0
  }

  /** The eight counters after a life of kernel messages, each a sum of its own. */
  lemma {:induction false} KernelTotals(hostname: string, modulus: int, inputs: seq<Input>, ks: seq<KernelMessage>)
    requires modulus != 0 && Carries(inputs, ks)
    ensures var r := Life(hostname, modulus, inputs);
            r.Alive?
            && r.worker.totals
               == InetdiagerStats(InBytes(inputs), |ks|, ReadBytes(ks), Padding(ks), SelectedCount(|ks|, modulus),
                                  WrittenBytes(modulus, inputs), FailedWrites(modulus, inputs), BlockedReports(inputs))
  {
    hide *;
    if ks == [] {
      NoTotals(modulus, inputs, ks);
      NoShares(hostname, modulus);
      NothingSent(hostname, modulus, inputs, ks);
    } else {
      var n := |ks| - 1;
      CarriesPrefix(inputs, ks);
      KernelTotals(hostname, modulus, inputs[..n], ks[..n]);
      LifeSends(hostname, modulus, inputs, ks);
      LifeStep(hostname, modulus, inputs);
      TurnAdds(Life(hostname, modulus, inputs[..n]).worker, hostname, modulus, inputs[n]);
      var selected := Selected(n, modulus);
      KernelShare(inputs[n], ks[n], selected);
      MessageBytes.BodyOfMessage(ks[n]);
      SumsStep(modulus, inputs, ks);
      AddIs(Life(hostname, modulus, inputs[..n]).worker.totals, Share(inputs[n], selected));
    }
  }

  lemma AddIs(a: InetdiagerStats, b: InetdiagerStats)
    ensures var s := Add(a, b);
            && s.inSizeTotal == a.inSizeTotal + b.inSizeTotal && s.msgCount == a.msgCount + b.msgCount
            && s.bytesReadTotal == a.bytesReadTotal + b.bytesReadTotal
            && s.padBufferTotal == a.padBufferTotal + b.padBufferTotal
            && s.udpWritesTotal == a.udpWritesTotal + b.udpWritesTotal
            && s.udpBytesWrittenTotal == a.udpBytesWrittenTotal + b.udpBytesWrittenTotal
            && s.udpErrorsTotal == a.udpErrorsTotal + b.udpErrorsTotal
            && s.statsBlocked == a.statsBlocked + b.statsBlocked
  {
  }

  lemma NoTotals(modulus: int, inputs: seq<Input>, ks: seq<KernelMessage>)
    requires modulus != 0 && ks == [] && Carries(inputs, ks)
    ensures InBytes(inputs) == ReadBytes(ks) == Padding(ks) == WrittenBytes(modulus, inputs) == 0
    ensures FailedWrites(modulus, inputs) == BlockedReports(inputs) == SelectedCount(|ks|, modulus) == 0
    ensures inputs == [] && ZERO_STATS == InetdiagerStats(0, 0, 0, 0, 0, 0, 0, 0)
  {
  }

  lemma SumsStep(modulus: int, inputs: seq<Input>, ks: seq<KernelMessage>)
    requires modulus != 0 && |inputs| == |ks| > 0
    ensures var n := |ks| - 1;
            var p, a, selected := inputs[..n], inputs[n].around, Selected(n, modulus);
            && InBytes(inputs) == InBytes(p) + |inputs[n].body|
            && ReadBytes(ks) == ReadBytes(ks[..n]) + 72 + CountedAll(ks[n].attrs)
            && Padding(ks) == Padding(ks[..n]) + SkippedAll(ks[n].attrs)
            && BlockedReports(inputs) == BlockedReports(p) + (if a.tick && a.statsFull then 1 else 0)
            && WrittenBytes(modulus, inputs) == WrittenBytes(modulus, p) + (if selected then a.udpBytes else 0)
            && FailedWrites(modulus, inputs) == FailedWrites(modulus, p) + (if selected && a.udpFails then 1 else 0)
            && SelectedCount(|ks|, modulus) == SelectedCount(n, modulus) + (if selected then 1 else 0)
  {
    hide Selected, CountedAll, SkippedAll;
  }
}
