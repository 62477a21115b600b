/** One inet_diag message byte by byte: what a worker keeps of it, and what its record says about the socket. */
module MessageBytes {
  import opened Bytes
  import opened InetDiag
  import opened Attributes
  import opened Inetdiager
  import Wire
  import RecordMeaning

  /** The header of a message of at least 72 bytes. Ports are big-endian, everything else little-endian. */
  lemma HeaderOnWire(hdr: InetDiagMsg, m: seq<byte>)
    requires |m| >= 72
    ensures ReadMessageHeader(hdr, m)
         == InetDiagMsg(m[0], m[1], m[2], m[3], 256 * m[4] as nat + m[5] as nat, 256 * m[6] as nat + m[7] as nat,
                        m[8..24], m[24..40], Value(m[40..44]), Value(m[44..52]), Value(m[52..56]), Value(m[56..60]),
                        Value(m[60..64]), Value(m[64..68]), Value(m[68..72]))
  {
    Wire.InetDiagMsgOnWire(m[..72]);
    FrontSlices(m);
    PortOnWire(m[4..6]);
    PortOnWire(m[6..8]);
    hide DecodeInetDiagMsg, Value, SwapUint16;
  }

  lemma PortOnWire(b: seq<byte>)
    requires |b| == 2
    ensures SwapUint16(Value(b)) == 256 * b[0] as nat + b[1] as nat
  {
    assert b == [b[0], b[1]];
    SwapReadsNetworkOrder(b[0], b[1]);
  }

  lemma FrontSlices(m: seq<byte>)
    requires |m| >= 72
    ensures var b := m[..72];
            && b[4..6] == m[4..6] && b[6..8] == m[6..8] && b[8..24] == m[8..24] && b[24..40] == m[24..40]
            && b[40..44] == m[40..44] && b[44..52] == m[44..52] && b[52..56] == m[52..56] && b[56..60] == m[56..60]
            && b[60..64] == m[60..64] && b[64..68] == m[64..68] && b[68..72] == m[68..72]
  {
  }

  /** A message of at least 72 bytes that does not panic: header, address length, and attributes from byte 72 on. */
  lemma DecodedOnWire(d: Decoder, m: seq<byte>)
    requires |m| >= 72
    ensures var r, a := DecodeMessage(d, m), Attributes.Attributes(d.fields, Nlattr(0, 0), m[72..]);
            && (r.MessagePanic? <==> a.Panic?)
            && (r.Message? ==>
                  && r.decoder.hdr
                     == InetDiagMsg(m[0], m[1], m[2], m[3],
                                    256 * m[4] as nat + m[5] as nat, 256 * m[6] as nat + m[7] as nat,
                                    m[8..24], m[24..40], Value(m[40..44]), Value(m[44..52]), Value(m[52..56]),
                                    Value(m[56..60]), Value(m[60..64]), Value(m[64..68]), Value(m[68..72]))
                  && r.decoder.ipLen == (if m[0] == 2 then 4 else if m[0] == 10 then 16 else d.ipLen)
                  && r.decoder.fields == a.fields && r.bytesRead == 72 + a.bytesRead
                  && r.padBufferSize == a.padBufferSize)
  {
    HeaderOnWire(d.hdr, m);
    hide ReadMessageHeader, Value, Attributes.Attributes;
  }

  /** A shorter message: no field is read, but the ports of the previous header change their byte order once more,
      and the 72 bytes are counted all the same. */
  lemma ShortOnWire(d: Decoder, m: seq<byte>, a: byte, b: byte, c: byte, e: byte)
    requires |m| < 72
    requires d.hdr.sourcePort == 256 * a as nat + b as nat && d.hdr.destinationPort == 256 * c as nat + e as nat
    ensures DecodeMessage(d, m)
         == Message(Decoder(d.hdr.(sourcePort := a as nat + 256 * b as nat,
                                   destinationPort := c as nat + 256 * e as nat),
                            if d.hdr.family == 2 then 4 else if d.hdr.family == 10 then 16 else d.ipLen, d.fields),
                    72, 0)
  {
    DivisionIsUnique(d.hdr.sourcePort, 256, a, b);
    DivisionIsUnique(d.hdr.destinationPort, 256, c, e);
    hide Value;
  }

  /** The record of a message whose first byte names a family: the socket's bytes, addresses cut to the family's
      length, whatever the worker has seen before. */
  lemma RecordOnWire(w: Worker, hostname: string, now: nat, m: seq<byte>, modulus: int, s: Surroundings)
    requires FitsWorker(w) && |m| >= 72 && m[0] in {2, 10}
    ensures var t := Turn(w, hostname, now, m, modulus, s);
            t.Turned? && t.sent.Some? ==>
              var r, n := t.sent.value, if m[0] == 2 then 4 else 16;
              && r.hostname == hostname && r.epochTime == now
              && r.socket
                 == InetDiagMsg(m[0], m[1], m[2], m[3],
                                256 * m[4] as nat + m[5] as nat, 256 * m[6] as nat + m[7] as nat,
                                m[8..8 + n], m[24..24 + n], Value(m[40..44]), Value(m[44..52]), Value(m[52..56]),
                                Value(m[56..60]), Value(m[60..64]), Value(m[64..68]), Value(m[68..72]))
  {
    hide *;
    RecordOfTurn(w, hostname, now, m, modulus, s);
    var d := DecodeMessage(w.decoder, m);
    if d.Message? {
      DecodedOnWire(w.decoder, m);
      DecodeMessageFits(w.decoder, m);
      RecordMeaning.SocketOfRecord(hostname, now, d.decoder);
      AddressSlices(m);
    }
  }

  lemma RecordOfTurn(w: Worker, hostname: string, now: nat, m: seq<byte>, modulus: int, s: Surroundings)
    requires FitsWorker(w) && m != []
    ensures FitsDecoder(w.decoder)
    ensures var t, d := Turn(w, hostname, now, m, modulus, s), DecodeMessage(w.decoder, m);
            t.Turned? && t.sent.Some? ==>
              d.Message? && FitsDecoder(d.decoder) && t.sent.value == BuildProto(hostname, now, d.decoder)
  {
    DecodeMessageFits(w.decoder, m);
    hide DecodeMessage, BuildProto, FitsDecoder, CountedTotals;
  }

  lemma AddressSlices(m: seq<byte>)
    requires |m| >= 72
    ensures m[8..24][..4] == m[8..12] && m[24..40][..4] == m[24..28]
    ensures m[8..24][..16] == m[8..24] && m[24..40][..16] == m[24..40]
  {
  }

  /** A kernel message on the wire: ports in network order in bytes 4 to 7, addresses in 8 to 39, then the rest of the
      header, and the attributes from byte 72 on. */
  lemma EncodedOnWire(k: KernelMessage)
    requires WellFormedMessage(k)
    ensures var m := EncodeMessage(k);
            && |m| >= 72 && m[72..] == EncodeAll(k.attrs)
            && k.hdr
               == InetDiagMsg(m[0], m[1], m[2], m[3], 256 * m[4] as nat + m[5] as nat, 256 * m[6] as nat + m[7] as nat,
                              m[8..24], m[24..40], Value(m[40..44]), Value(m[44..52]), Value(m[52..56]),
                              Value(m[56..60]), Value(m[60..64]), Value(m[64..68]), Value(m[68..72]))
  {
    hide *;
    BodyOfMessage(k);
    HeaderOnWire(ZERO_INET_DIAG_MSG, EncodeMessage(k));
    HeaderOfMessage(k);
  }

  lemma BodyOfMessage(k: KernelMessage)
    requires WellFormedMessage(k)
    ensures var m := EncodeMessage(k);
            && |m| == 72 + |EncodeAll(k.attrs)| && m[72..] == EncodeAll(k.attrs) && AllWellFormed(k.attrs)
  {
    hide EncodeAll, EncodeInetDiagMsg;
  }

  lemma HeaderOfMessage(k: KernelMessage)
    requires WellFormedMessage(k)
    ensures ReadMessageHeader(ZERO_INET_DIAG_MSG, EncodeMessage(k)) == k.hdr
  {
    DecodeOfEncodeMessage(ZERO_DECODER, k);
    hide EncodeMessage, Attributes.Attributes, StoreAll, ReadMessageHeader;
  }
}
