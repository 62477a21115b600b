# xtcp: decoding, framing and the poll protocol

xtcp polls the Linux kernel for TCP socket diagnostics. Per address family a `Poller` sends netlink dump requests, N
`Netlinker`s receive and split the replies, M `Inetdiager`s decode each message and send records, and staters turn the
workers' running totals into counters. This project models that pipeline in Dafny and proves what it computes, for every
input and every interleaving. Check it with `dafny verify dfyconfig.toml`.

The model follows the code's own form. Loops that advance a reader, buffers filled in place and goroutines that keep
variables are classes and methods (`SocketFields`, `Inetdiager`, `Netlinker`, `InetdiagerStater`,
`BuildNetlinkSockDiagRequest`); each is proved equal to a function of its old state, and the lemmas are about those
functions. The concurrent part is a state machine: `Pipeline.State` holds the poller's program counter, all channels ever
made, all workers, the netlinkers of the current poll and the kernel socket; `Pipeline.Event` lists the steps.

| module | content |
|---|---|
| Misc, Bytes, InetDiag, Wire, Reader | little-endian values, struct layouts and their images byte by byte, the byte reader of `binary.Read` |
| Attributes, AttributeBytes | the attribute loop, its encoder, round trip, forward compatibility, accounting, panics; the loop byte by byte, lists cut short |
| Inetdiager, MessageBytes, RecordMeaning, Counters | one worker: decoding, report selection, history; a message byte by byte, what a record says, what the counters sum up to |
| Netlinker, Framing, Throughput | receive loop, splitter, packets and their encoder, stale bytes, counters of a whole run |
| Sampling, Stats, Stater, Reports | the 1-in-m selection, worker totals, the stater, and the two joined |
| Requests | the request blob, patched in place before each poll |
| Pipeline, Safety, Conservation, Incarnations | the protocol, its invariants, no message lost or doubled, how often workers start |
| Order, KernelOrder, OrderedOutput | first in, first out; the kernel's order through a single worker, and its records |
| Delivery, Progress, Termination, Liveness | one dump in flight, stuck states, a measure, what maximal runs achieve |
| Unserved, Deadlock, Lag | pollers without inetdiagers, when exactly a poll can hang, how far workers lag behind the kernel |
| Workers, Restart, Dumps, Output | pipeline workers as inetdiagers, the restart that kills the stater, the kernel's dumps, and the output of every run |

## What the proofs found

Where the code and its description part, the model follows the code.

- `bytesRead` gains an attribute's payload only when bytes were skipped after it. `Attributes.ByteAccounting` states the
  exact shortfall and when it is zero; docs/stats_and_perf.md:54 and :60 show it as `in` exceeding `read`.
- A worker's variables survive from message to message, so a record can show an earlier socket's values.
  `Inetdiager.RecordIndependentIff` gives, for any set of attribute types a kernel sends, the exact condition for a record
  to be free of them, with a one-message leak for every other message. IPv4 sockets never carry TCLASS; as long as no
  message of the same worker does, that is no leak (`Inetdiager.CoveredRecord`, `Output.Ipv4IsUniform`).
- The splitter reads the whole receive buffer, not the received bytes. `Framing.StaleIndependentIff` says exactly which
  inputs make leftovers of earlier packets visible: a sampled message whose length runs past the received bytes and not
  past the buffer. Well-formed packets never do.
- `MaxLoopsOrForEver` compares with `>`, so a limit of m > 0 allows m + 1 polls; its comment says `<`.
- The poller waits for DONE without a timeout, and then for netlinkers that leave only on one.
  `Deadlock.DeadlockFreeIff` says, given well-formed replies, exactly which pollers cannot hang. With a receive timeout
  (`-timeout` above 0) they need a netlinker, timeouts only after the reply has been drained, and an inetdiager or a
  channel with room for everything that stays in it. With `-timeout 0`, documented as no timeout, every run hangs in its
  first poll (`Deadlock.NoTimeoutHangs`), save when a message of that poll kills a worker. `Progress.StuckIff` lists the
  stuck states of the model for any kernel, any timeout flag and any numbers of threads.
- A zero `HappyPollerReportModulus` panics the poller before its first request (pkg/poller/poller.go:137), so results
  that promise a living program assume it is not zero.
- Prometheus counters panic on a negative addition. With `ShutdownWorkers` new workers report from zero under old ids.
  `Reports.SurvivesRestartsIff`: the stater lives exactly as long as no restarted worker's first report falls below the
  last one under its id; `Restart.RestartKills` reaches a state in which it does.

## Model

| member | source | states |
|---|---|---|
| Bytes.ValueTruncates | pkg/xtcpnl/xtcpnl.go:103-109 | storing v in w bytes keeps exactly v modulo 256^w |
| Bytes.DecodeOfEncode | pkg/inetdiag/inetdiag.go:260-330 | any struct layout: reading what was written gives the field values back |
| Bytes.EncodeOfDecode | pkg/inetdiag/inetdiag.go:260-330 | reading a struct loses no byte of its image |
| Wire.FourByteValue | pkg/xtcpnl/xtcpnl.go:103-109 | a four-byte value has its least significant byte first |
| InetDiag.LayoutSizes | pkg/inetdiag/inetdiag.go:17-366 | the structs have the kernel's sizes: 16, 72, 4, 16, 192, 232, 36 and 20 bytes |
| InetDiag.InetDiagMsgRoundTrip | pkg/inetdiag/inetdiag.go:55-83 | every inet_diag_msg survives its 72-byte image |
| Wire.InetDiagMsgOnWire | pkg/inetdiag/inetdiag.go:55-83 | which bytes of the 72 each field of an inet_diag_msg is, before the port swap |
| Wire.TcpInfoOnWire | pkg/inetdiag/inetdiag.go:260-321 | which bytes of the 192 each of the 46 TCP_INFO values is |
| Reader.ByteReader.ReadFull | pkg/inetdiager/inetdiager.go:341-353 | full read, EOF on nothing left, unexpected EOF on a partial read, and what each does to the cursor |
| Inetdiager.SwapReadsNetworkOrder | pkg/inetdiager/inetdiager.go:38-40 | a little-endian read followed by the swap is a read in network order |
| Attributes.SocketFields.BinaryRead | pkg/inetdiager/inetdiager.go:53-91 | completes the message exactly when too few bytes are left, and reports the full size either way |
| Attributes.SocketFields.OneAttribute | pkg/inetdiager/inetdiager.go:331-601 | one turn of the loop does what Step says: header, switch, surplus and alignment skip, partial reads included |
| AttributeBytes.TurnOnWire | pkg/inetdiager/inetdiager.go:331-601 | one turn over any bytes that hold a header, with literal types and sizes: variable, next cursor, both counts, the stop at type 0, at a short payload and at a short skip, the panic |
| Attributes.SocketFields.ProcessNetlinkAttributes | pkg/inetdiager/inetdiager.go:324-604 | for every byte string the loop ends complete or panics; variables, cursor and both counts are those of Attributes |
| Attributes.AttributeRoundTrip | pkg/inetdiager/inetdiager.go:324-604 | decoding any well-formed list consumes every byte and leaves in each variable the last attribute of its type, or its old value |
| AttributeBytes.CutList | pkg/inetdiager/inetdiager.go:331-601 | a list cut at any byte inside an attribute: what is kept, when a CONG variable turns to zeros, and what is counted |
| Attributes.ForwardCompatible | pkg/inetdiager/inetdiager.go:553-596 | any surplus tail on a known payload, anywhere in a list, changes no variable |
| Attributes.TcpInfo54ReadAs415 | pkg/inetdiag/inetdiag.go:184-258 | a TCPInfo54 payload read as TCPInfo415 gives its first 46 fields |
| Attributes.CursorMovesAligned | pkg/inetdiager/inetdiager.go:553-596 | reading an attribute after any list moves the cursor by exactly NlaLen rounded up to 4, from one multiple of 4 to the next |
| Attributes.ByteAccounting | pkg/inetdiager/inetdiager.go:573-596 | cursor advance is bytesRead plus the payloads that needed no skip; equal exactly when there are none |
| Attributes.PanicIff | pkg/inetdiager/inetdiager.go:430-440 | among framed lists exactly those with a CONG payload under 3 bytes panic |
| Attributes.PanicNeedsShortCong | pkg/inetdiager/inetdiager.go:430-440 | on arbitrary bytes a panic means four consecutive bytes reading as a CONG header with NlaLen below 7 |
| Attributes.ControlIgnoresFields | pkg/inetdiager/inetdiager.go:331-361 | panics, counts and cursor never depend on the variables written |
| Inetdiager.Inetdiager.DecodeBody | pkg/inetdiager/inetdiager.go:733-796 | header, port swap, address length, attributes: the worker's variables become those of DecodeMessage; a short header keeps the old one |
| MessageBytes.DecodedOnWire | pkg/inetdiager/inetdiager.go:733-796 | the header a worker keeps, byte by byte: ports big-endian in bytes 4 to 7, the rest little-endian, addresses of 4 or 16 bytes by the first byte, attributes from byte 72 on |
| MessageBytes.ShortOnWire | pkg/inetdiager/inetdiager.go:733-761 | a message under 72 bytes reads nothing, swaps the ports of the previous header once more and counts 72 bytes |
| Inetdiager.Inetdiager.DecodeLoop | pkg/inetdiager/inetdiager.go:732-850 | runs its body once for a non-empty message and never for an empty one |
| Inetdiager.Inetdiager.OnMessage | pkg/inetdiager/inetdiager.go:683-850 | one message as Turn says: counters, the ticker's report, the record sent, or a panic |
| Inetdiager.LifeCounts | pkg/inetdiager/inetdiager.go:798-848 | inetdiagMsgCount counts the non-empty messages, udpWritesTotal the records, a fixed function of that count |
| Inetdiager.LifePanicsIff | pkg/inetdiager/inetdiager.go:683-850 | a worker dies exactly on a non-empty message that is malformed or meets a zero modulus |
| Inetdiager.TotalsGrow | pkg/inetdiager/inetdiager.go:683-850 | no counter of a living worker ever decreases |
| Counters.LifeTotals | pkg/inetdiager/inetdiager.go:683-850 | after any life all eight counters are the sum of one share per input |
| Counters.KernelTotals | pkg/inetdiager/inetdiager.go:683-850 | over kernel messages: bytes read are 72 plus the counted attribute bytes of each, padding the skipped bytes, UDP bytes and errors those of the selected messages, blocked reports the ticks that met a full channel |
| Counters.ReportIs | pkg/inetdiager/inetdiager.go:698-730 | a tick reports the sums over all earlier inputs, with its own size and without its own blocking |
| Inetdiager.DecodeOfEncodeMessage | pkg/inetdiager/inetdiager.go:733-796 | a kernel message decodes to its own header and attributes, from any earlier decoder state |
| MessageBytes.EncodedOnWire | pkg/inetdiager/inetdiager.go:751-760 | the messages of the model on the wire: ports in network order, addresses in bytes 8 to 39, attributes from byte 72 on |
| Inetdiager.HistoryLaw | pkg/inetdiager/inetdiager.go:646-663 | after any history each variable is the last payload of its type in that worker's whole history, zero if there is none; the header is the last one |
| Inetdiager.SelfContainedRecord | pkg/inetdiager/inetdiager.go:102-322 | among messages of any set of types, one with a known family and all of those types the record reads gives the same record after any two histories |
| Inetdiager.CoveredRecord | pkg/inetdiager/inetdiager.go:102-322 | a record depends on its history only through types its own message lacks and an earlier message has |
| Inetdiager.LeakWitness | pkg/inetdiager/inetdiager.go:646-663 | every other message has an earlier message of those types that changes its record |
| Inetdiager.RecordIndependentIff | pkg/inetdiager/inetdiager.go:102-322 | among histories of any set of types, records are independent of earlier messages if and only if the message is self-contained for that set |
| Inetdiager.LifeSends | pkg/inetdiager/inetdiager.go:798-848 | a worker sends the selected messages' records in order, each built from its history and its own poll's time |
| RecordMeaning.RecordTellsSocket | pkg/inetdiager/inetdiager.go:143-173 | host, time stamp, header and addresses cut to 4 or 16 bytes are the kernel's, whatever came before |
| MessageBytes.RecordOnWire | pkg/inetdiager/inetdiager.go:143-173 | the same for any bytes a worker sends a record of: each socket field is named bytes of the message, whatever the worker saw before |
| RecordMeaning.RecordTellsTcpInfo | pkg/inetdiager/inetdiager.go:174-235 | each TCP_INFO value of a record is named bytes of the last attribute 2 of the history, zeros if there is none, with the packed bytes split |
| RecordMeaning.RecordTellsSkMemInfo | pkg/inetdiager/inetdiager.go:237-247 | the nine values are the words of the last attribute 7 |
| RecordMeaning.RecordTellsCongestion | pkg/inetdiager/inetdiager.go:130-134 | the enum is CUBIC exactly when the last CONG begins with "cub", BBR1 exactly for "bbr", otherwise and without any CONG UNKNOWN |
| RecordMeaning.RecordTellsBbrInfo | pkg/inetdiager/inetdiager.go:260-268 | BBR values, the words of the last attribute 16, are in the record if and only if the last CONG begins with "bbr" |
| RecordMeaning.RecordTellsScalars | pkg/inetdiager/inetdiager.go:272-299 | TOS, traffic class, shutdown state and class id are those of the last attributes 5, 6, 8 and 17, present exactly when not zero |
| Sampling.SelectedCountClosedForm | pkg/inetdiager/inetdiager.go:799-799 | of n candidates (n + m - 2) div m pass the modulus test |
| Sampling.SelectedIff | pkg/netlinker/netlinker.go:259-259 | which candidates pass, for any modulus but zero: its sign does not matter, 1 takes all, -1 none |
| Sampling.SelectedTotalBounds | pkg/netlinker/netlinker.go:259-259 | several counters of N candidates in all select within one per counter of N / m; all when m is 1 |
| Netlinker.Netlinker.Receive | pkg/netlinker/netlinker.go:146-146 | a datagram overwrites the buffer's front byte for byte, its excess is lost, the tail stays |
| Netlinker.MessageTypes | pkg/netlinker/netlinker.go:44-82 | types 1 to 4 and no others end a packet; 3 is DONE, the others are errors |
| Netlinker.Netlinker.OneMessage | pkg/netlinker/netlinker.go:182-316 | one turn of the inner loop: header, type check, flags, body, sampling, counters, as ReadMessage says |
| Framing.MessageOnWire | pkg/netlinker/netlinker.go:182-316 | the same byte by byte with literal types, flags and offsets: body, sampling, counters, and a body the buffer cuts short |
| Netlinker.Netlinker.ProcessPacket | pkg/netlinker/netlinker.go:174-317 | one packet: emitted bodies, DONE, panic and counters are those of SplitPacket |
| Netlinker.Netlinker.Run | pkg/netlinker/netlinker.go:142-320 | the receive loop over everything up to the timeout |
| Framing.PacketFraming | pkg/netlinker/netlinker.go:174-317 | a well-formed packet gives its sampled bodies in order and DONE exactly when it ends with DONE, else no byte remains; counters exact |
| Framing.MessagesThen | pkg/netlinker/netlinker.go:182-316 | well-formed messages are taken off the front of any bytes, and the rest is split as it would be alone |
| Framing.CutOffPacket | pkg/netlinker/netlinker.go:205-217 | NOOP, ERROR or OVERRUN ends a packet with one error, and nothing behind it is looked at, a DONE included |
| Framing.NotMultipart | pkg/netlinker/netlinker.go:307-315 | a message without NLM_F_MULTI counts as message and error, and its body is read as the next header |
| Framing.ReceivedBytes | pkg/netlinker/netlinker.go:174-257 | a packet's bytes are its bodies, 16 per message, and the DONE |
| Framing.SamplingBound | pkg/netlinker/netlinker.go:182-259 | N messages in P packets at modulus m send S with N - P <= m S <= N + P (m - 2) |
| Framing.StaleIndependentIff | pkg/netlinker/netlinker.go:177-177 | the split ignores what lies behind the received bytes if and only if no sampled body overruns them |
| Framing.WellFormedIgnoresStale | pkg/netlinker/netlinker.go:177-257 | two buffers holding the same well-formed packet are split alike, counters included |
| Framing.SplitInBuffer | pkg/netlinker/netlinker.go:146-177 | a datagram is split with the leftovers behind it, one too long for the buffer only as far as it fits |
| Throughput.AnyRunCounts | pkg/netlinker/netlinker.go:142-175 | whatever is received: packets, useless receptions and bytes counted over a whole run |
| Throughput.BufferHolds | pkg/netlinker/netlinker.go:142-177 | what the reused buffer holds after any run: at each place the byte of the last datagram that reached it |
| Throughput.RunOfPackets | pkg/netlinker/netlinker.go:142-320 | log and every counter of a whole run over well-formed packets, from any buffer contents |
| Throughput.NetlinkerThroughput | pkg/netlinker/netlinker.go:142-320 | a run accounts for every received byte, copies exactly what it sends, and samples within the bound |
| Stater.InetdiagerStater.OnReport | pkg/inetdiagerstater/inetdiagerstater.go:260-331 | one report: the whole new state, or a panic, as Feed says |
| Stater.CountersAreLastReports | pkg/inetdiagerstater/inetdiagerstater.go:268-307 | each worker's counters equal that worker's last report |
| Stater.TotalsAreSums | pkg/inetdiagerstater/inetdiagerstater.go:303-307 | family totals are the sums of the last reports, grand totals the sums over both families |
| Stater.SurvivesIff | pkg/inetdiagerstater/inetdiagerstater.go:276-304 | the stater lives exactly as long as no worker's report falls below its previous one |
| Stater.SurvivesAnyIff | pkg/inetdiagerstater/inetdiagerstater.go:260-331 | the same for any flags and families: every report also needs family 2 or 10, inetdiagers to divide by, and a console modulus |
| Stater.LoopsAreReports | pkg/inetdiagerstater/inetdiagerstater.go:252-320 | the loop counters count the reports, over all and per family, and a statsd line goes out at every multiple of the family's inetdiagers |
| Reports.UnrestartedNeverDecreases | pkg/inetdiager/inetdiager.go:698-730 | reports of workers that are not restarted never decrease |
| Reports.SurvivesRestartsIff | pkg/poller/poller.go:192-195 | over any incarnations of each id the stater survives if and only if no restarted worker's first report is below the last one under its id |
| Restart.RestartKills | pkg/inetdiagerstater/inetdiagerstater.go:276-304 | a reachable state of a poller with ShutdownWorkers and two lives of its inetdiager, for any message that does not panic, whose second report is smaller and kills the stater |
| Reports.StaterRefinesWorkers | pkg/inetdiagerstater/inetdiagerstater.go:260-331 | while the stater survives, and always without restarts, it counts each worker's last report and never more messages than all incarnations were given |
| Reports.StaterBehindPollers | pkg/inetdiagerstater/inetdiagerstater.go:260-331 | behind two pollers that keep their workers the stater survives, and its family and grand totals are at most the messages processed in the pipelines |
| Requests.BuildNetlinkSockDiagRequest | pkg/xtcpnl/xtcpnl.go:88-180 | ten stores spell the request: every field at its literal offset with its literal constant, zeros behind |
| Requests.ParseOfEncode | pkg/xtcpnl/xtcpnl.go:88-180 | the request parses back to its fields, whatever follows it |
| Requests.SendRequests | pkg/poller/poller.go:117-167 | patching bytes 8 to 12 in place sends, for each poll, 128 bytes with the built fields and the poll's own sequence number, at their literal offsets |
| Requests.RequestParses | pkg/poller/poller.go:166-166 | request k parses to length 72, type 20, flags 0x301, pid 0, the family, protocol 6, ext 0xFF, states 2 and sequence (NlmsgSeq + k) mod 2^32 |
| Requests.SequencesCollideIff | pkg/poller/poller.go:166-166 | two polls share a sequence number exactly when their distance is a multiple of 2^32 |
| Requests.LimitedRunDistinctIff | pkg/misc/misc.go:50-59 | all requests of a run limited to m > 0 loops have distinct sequence numbers if and only if m < 2^32 |
| Pipeline.ReceptionYields | pkg/netlinker/netlinker.go:142-320 | the protocol's receive step covers what the netlinker class does with any buffer contents |
| Safety.ExecKeepsFits | pkg/poller/poller.go:135-232 | every step keeps the structural invariant: channels, workers, netlinkers and counts fit the poller's position |
| Conservation.ExecConserves | pkg/netlinker/netlinker.go:259-298 | every step keeps each selected message in exactly one place |
| Conservation.ExactlyOnce | pkg/netlinker/netlinker.go:259-298 | in every reachable state: selected = unsent + queued + held + processed, as multisets, for any kernel |
| Order.MessagesKeepOrder | pkg/netlinker/netlinker.go:262-298 | in every reachable state, for any kernel and numbers of threads: each netlinker sends in the order it picked, channels are first in first out, each inetdiager works in the order it took |
| KernelOrder.PickedInKernelOrder | pkg/netlinker/netlinker.go:142-320 | with well-formed replies the netlinkers together pick the sampled messages in the kernel's order |
| KernelOrder.SingleOrder | pkg/inetdiager/inetdiager.go:683-683 | with one netlinker and one inetdiager: worked on, held, queued and unsent messages, in this order, are the ones picked, and with the unread replies the kernel's |
| OrderedOutput.SingleSends | pkg/inetdiager/inetdiager.go:798-848 | at any moment a kept single worker has sent, at any report modulus, the records of a front of the kernel's sampled sockets, each built from the ones before it |
| OrderedOutput.SingleFinalOutput | pkg/poller/poller.go:229-232 | at the end its output is exactly that function of all dumps |
| Conservation.ChannelLifeCycle | pkg/poller/poller.go:145-195 | no send on a closed channel, no second close, workersStarted tracks the open channel, old workers leave before the next incarnation |
| Conservation.ShutdownProcessesAll | pkg/poller/poller.go:30-43 | once cleanWorkerShutdown has returned everything selected has been processed exactly once |
| Incarnations.StartedOnce | pkg/poller/poller.go:145-159 | without ShutdownWorkers at most one channel is made and no inetdiager starts twice |
| Delivery.OneDumpInFlight | pkg/poller/poller.go:166-188 | when a request goes out every earlier DONE has been taken, no netlinker lives and no reply is left over |
| Delivery.DeliveredAtShutdown | pkg/poller/poller.go:30-43 | whenever cleanWorkerShutdown has returned the workers have processed what the kernel sent so far, each message once, stamped with the poll it answers |
| Delivery.EverythingDelivered | pkg/poller/poller.go:135-232 | at the end that holds of maxLoops + 1 requests and as many DONEs, none for a negative limit |
| Progress.StuckIff | pkg/poller/poller.go:177-188 | for any kernel, timeout flag and numbers of threads, no step is enabled exactly when the poller waits and every netlinker has left or is held up by an untaken DONE, a full channel that is not emptied, or an empty socket without timeout |
| Termination.StepDescends | pkg/poller/poller.go:135-232 | a lexicographic measure falls with every step except the tick of an endless poller |
| Termination.NextTick | pkg/poller/poller.go:135-225 | from any point of a maximal run the poll ends, or everything stops, after finitely many steps |
| Termination.RunEnds | pkg/poller/poller.go:135-232 | with a loop limit every maximal run stops, whatever the kernel sends |
| Liveness.ReachableIsAlive | pkg/inetdiager/inetdiager.go:683-850 | with well-formed replies and no zero modulus no thread panics in any interleaving |
| Unserved.NeedsRoom | pkg/netlinker/netlinker.go:262-298 | without inetdiagers, a poller that never hangs has channel room for every poll's backlog |
| Unserved.RoomLeft | pkg/netlinker/netlinker.go:262-298 | with that room no netlinker is ever blocked |
| Liveness.DeadlockFree | pkg/poller/poller.go:166-195 | with well-formed replies, a receive timeout that is patient, a netlinker, and a worker or room, some thread can step until the poller has finished |
| Deadlock.FirstPollCanHang | pkg/netlinker/netlinker.go:148-154 | with impatient timeouts or no netlinker, a reachable state has every netlinker gone and the poller waiting for DONE for ever |
| Deadlock.NoTimeoutHangs | pkg/xtcpnl/xtcpnl.go:61-78 | with a zero timeout flag every maximal run hangs in its first poll, unless a message of that poll kills a worker |
| Deadlock.LethalNeverHangs | pkg/netlinker/netlinker.go:142-154 | with a zero timeout flag and such a message the program panics before it can hang |
| Deadlock.DeadlockFreeIff | pkg/poller/poller.go:166-195 | no poll can hang if and only if there is a netlinker and, with a timeout, it is patient and there is a worker or room; without one, the first poll panics (or the poller panics at once) |
| Liveness.EveryRunDelivers | pkg/poller/poller.go:135-232 | with a patient receive timeout every maximal run of a limited poller finishes with every message of every reply processed once |
| Liveness.EveryPollCompletes | pkg/poller/poller.go:135-225 | with a patient receive timeout every maximal run of any poller, limited or endless, completes each poll k within its limit |
| Lag.ProcessedSoFar | pkg/poller/poller.go:135-232 | in any state the processed messages are part of what the kernel sent, each at most once |
| Lag.LagAtTick | pkg/poller/poller.go:188-225 | between polls a poller that keeps its workers has processed all but a channel's worth and one message per inetdiager |
| Workers.WorkersLive | pkg/inetdiager/inetdiager.go:683-850 | the inetdiager behind every worker of a reachable state is alive after what it has processed |
| Workers.ReportBound | pkg/inetdiager/inetdiager.go:798-848 | over any schedule N processed messages and W worker incarnations give T records with N - W <= m T <= N + W (m - 2); T = N when m is 1 |
| Dumps.DumpDetermined | pkg/netlinker/netlinker.go:174-317 | a framed dump makes any netlinker do the same, whatever its buffer held |
| Dumps.AnswersAreGood | pkg/netlinker/netlinker.go:174-317 | replies of framed dumps with one closing DONE satisfy the assumptions on the kernel, whatever attributes they carry |
| Output.RecordsAreSolo | pkg/inetdiager/inetdiager.go:798-848 | whatever uniform sockets a worker has seen before, its records are those each message alone would give |
| Output.Ipv4IsUniform | pkg/inetdiager/inetdiager.go:445-456 | IPv4 sockets, which carry every type a record reads but TCLASS, are uniform |
| Output.OutputSoFar | pkg/inetdiager/inetdiager.go:798-848 | at any moment of any run, limited or endless, the records sent are those of distinct sampled sockets alone, as many of the processed ones as the report modulus allows |
| Output.OutputIsTheDumps | pkg/poller/poller.go:52-237 | with a patient receive timeout every maximal run of any poller ends every poll, and by then has sent the records of the dumps so far, up to a channel's worth and one socket per inetdiager, or none when workers are shut down |
| Output.FinalOutput | pkg/poller/poller.go:229-232 | with a loop limit every maximal run finishes, and every sampled socket of every poll has been worked on; with report modulus 1 exactly one record for each has been sent |

## Left out

- Sockets and system calls: a request appends the kernel's reply to a FIFO socket; a UDP send is a counter step with a chosen result.
- Protobuf marshalling, JSON and NSQ: a record is a datatype.
- Time: ticks and, with a timeout flag above zero, timeouts are steps that may happen, an interrupted receive counting as a timeout; a poll's start time is a number per poll; the split into seconds and nanoseconds, the sleep of the IPv6 poller and the warnings about long polls are not modelled.
- The counters `outBlocked`, `longestBlockedDuration` and the poller's durations: they depend on wall-clock races.
- Prometheus and statsd output formats, `pollerstater`, `netlinkerstater`, `xtcpstater`: easier variants of the stater modelled. Channels to the staters never block the protocol: the staters are taken to be running, so with `ShutdownWorkers` the results on the protocol hold up to the panic of Restart.RestartKills.
- Counter widths: Go's 64-bit ints and float64 counters are unbounded integers; the 16- and 32-bit wire fields and the 32-bit sequence number are modelled exactly.
- Flags outside their meaning: thread and channel counts are natural numbers, so a negative `netlinkerChSize`, which panics `make`, is not covered, nor a `frequency` or `inetdiagerStatsRatio` that is not positive, which panics `NewTicker`, nor a negative timeout, which the kernel refuses at start.
- Flags that only steer console output, except the moduli whose zero panics the poller or the stater; hostname lookup, the command line, `disabler`, profiling and everything under `tools/`.
- Pipeline.PollerNext: the poll loop is a program counter machine and not a method, because its steps interleave with the threads it starts; the part that changes a buffer in place is the method SendRequests. Threads step on values, one step per channel or socket operation; the classes are tied to it by ReceptionYields and WorkersLive. Wait groups are the condition that all threads counted have left.
- Pipeline.Yields: the unread part of a netlinker's buffer is arbitrary at every packet, which allows more than its true leftovers.
- Delivery.EverythingDelivered: replies whose DONE is missing, doubled or not last are covered by ExactlyOnce, StuckIff and RunEnds only.
- Output.OutputIsTheDumps, as OutputSoFar and FinalOutput: dumps must be uniform, that is no socket lacks a type a record reads and another socket has; otherwise records leak as RecordIndependentIff says. Which sockets a report modulus above 1 leaves out depends on the schedule, save for a single worker (OrderedOutput.SingleSends).
- RecordMeaning.RecordTellsTcpInfo: says how the code splits the packed bytes, and claims no agreement with the kernel's bit-field order.
- Requests.BuildNetlinkSockDiagRequest: requires room for the 24 bytes stored; the poller always asks for 128, less would be a slice panic.
