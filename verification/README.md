# Verified model of the AIDA firewall

AIDA filters packets in an XDP program and closes a loop around it: telemetry
records of the packets become flows, flows become feature vectors, a tree
ensemble flags some of them, and a controller blocks their sources in the
kernel for five minutes. This project models that loop in Dafny, from the bytes
of a packet to the table the kernel looks its source up in, and proves what
holds over whole runs of it.

| file | what it models |
|---|---|
| `Words.dfy`, `Cursor.dfy`, `Parsers.dfy`, `Ipv6.dfy`, `Frames.dfy` | machine words, the packet cursor, the header parsers, and serialised frames as their inverse |
| `TokenBucket.dfy` | the bucket arithmetic both limiters share |
| `Kernel.dfy`, `Firewall.dfy`, `KernelRuns.dfy` | the pipeline as functions, the XDP program over its maps, and properties of whole runs |
| `WireVerdicts.dfy` | which serialised frames are dropped, for which reason, and what telemetry says of them, in the sender's terms |
| `Reputation.dfy` | the longest-prefix-match table |
| `Telemetry.dfy` | the 24-byte record, its layout and its decoder |
| `Flows.dfy`, `FlowStatistics.dfy`, `Ports.dfy` | flow keys and shards, streaming statistics, the capped port histogram and its entropy |
| `MapSums.dfy`, `Aggregation.dfy`, `Tables.dfy`, `Aggregator.dfy`, `ReadLoop.dfy` | the aggregator: its critical sections as functions, and the object that runs them |
| `Interleavings.dfy`, `FlushRaces.dfy`, `Histories.dfy` | every interleaving of those sections: what is conserved, when a racing flush loses ports, and what shards, snapshot and features are in terms of the packets that came in |
| `Classifier.dfy`, `Detection.dfy` | feature projection, the three trees, the verdict; and which traffic is flagged, under which label, and which never is |
| `Feedback.dfy` | block registry, safe networks, kernel map calls, janitor |
| `Channels.dfy`, `Shutdown.dfy` | goroutines and channels of the daemon as a step system |
| `ClosedLoop.dfy`, `Delivery.dfy` | the user-space pipeline end to end and back into the kernel: every block is justified, and every flagged flow is delivered and leads to one |

Code that works by updating things is modelled as classes and loops (cursor,
parsers, XDP program, accumulators, trackers, aggregator, classifier loop,
controller, janitor), each method proved against a function on values; the
theorems are about those functions. What the environment decides is an
argument: clocks, evictions from the rate table, failing map calls, room in the
ring buffer, the floating-point functions (`log2`, `exp2`, `sqrt`, the sigmoid),
which goroutine moves next. Words of the kernel code are range types, so every
addition stored in one carries a proof that it does not wrap.

## What the code does where one might expect otherwise

- A blocked source is not blocked for fragments: they leave the pipeline before
  the blacklist and are dropped only when the source has run out of tokens
  (`KernelRuns.BlockedSourcesAreDropped` gives the exact condition).
- Registry and kernel map do not agree in every run. They part exactly when a
  put fails for an address whose expired entry is still in the kernel, when the
  controller puts a /32 that somebody else owns, or when somebody else, such as
  an operator at the command line, blocks or unblocks a /32 that has a record
  (`Feedback.RegistryMatchesKernel`). An entry lost by a failed put is removed by
  no sweep; only a later successful alert tracks it again
  (`Feedback.FailedRefreshOrphansTheBlock`).
- The shard of a flow does not depend on the lower endpoint's port, because
  only the low four bits of the hash are used
  (`Flows.ShardIgnoresLowerPort`).
- A flush that races with `Ingest` can emit a flow without its ports. It does so
  exactly when a packet opens a flow in a shard still to be taken after the port
  shard of its source was snapped without that source, or when a port shard is
  snapped while the first packet of a live flow, routed there, is between the two
  sections of `Ingest` (`FlushRaces.EveryFlowFoundIffNeverSpoiled`); both happen
  from a new aggregator (`FlushRaces.LateOpeningMisses`,
  `FlushRaces.PendingRecordMisses`). A packet that comes in during a flush before
  its source's port shard is snapped does find its ports.
- The shard of a source is the last four bits of its address, because the
  multiplier is one modulo 16 (`Flows.SourceShardIsTheLastNibble`).
- The ratio is forward over reverse, so a one-way barrage is seen as one only when
  it comes from the lower endpoint (`Detection.SynBarrageIsFlagged`,
  `Detection.BarrageIsFlagged`); from the higher one its ratio is zero and, unless
  its source touches many ports, it is benign
  (`Detection.BarrageFromHigherIsBenign`).
- The volumetric tree flags nothing on its own and no verdict carries its label
  (`Detection.VolumeAloneIsBenign`, `Detection.NeverLabelledVolumetric`); it only
  decides for flows that just make another tree fire (`Detection.VolumeDecides`).
- The pipeline order is that of `kernel-space/src/main.rs`, not the repository's
  README.

## Model

| member | source | states |
|---|---|---|
| KernelRuns.DryRunParity | kernel-space/src/main.rs:55-112 | For any traffic from one state, dry-run and enforcement find the same reasons and leave the same rate and log buckets, record the same new events with WouldDrop for Drop, dry-run drops nothing, and enforcement drops exactly what dry-run reports |
| KernelRuns.PassBound | kernel-space/src/main.rs:162-221 | After any history, the packets of one source (fragments included) passed in a window number at most 20000 per slot (one, plus one per eviction), plus one per failed insert, plus the started 100 us intervals of the window |
| KernelRuns.PassedWithinAllowance | kernel-space/src/filters/rate_limiter.rs:10-36 | What a source can still get through is bounded by its tokens and the whole intervals since its bucket's clock |
| KernelRuns.ChargedSlotsOnly | kernel-space/src/main.rs:195-218 | A packet changes only its own source's bucket, and one dropped by an earlier check costs no token |
| KernelRuns.EventsAreBounded | kernel-space/src/main.rs:98-109 | Over any run the events emitted number at most the log bucket's tokens plus the whole intervals since its clock |
| KernelRuns.LogBurstIsExact | kernel-space/src/main.rs:31-52 | With everything logged, a burst at one moment leaves exactly as many events as the log bucket has ready: its tokens plus one per whole 100 us, at most 1000 |
| KernelRuns.BurstIsExact | kernel-space/src/filters/rate_limiter.rs:10-36 | A burst of one source at one moment gets through exactly as many packets as its bucket has ready: its tokens plus one per whole 100 us, at most 20000, and 20000 for a new source |
| KernelRuns.HeldTokensPass | kernel-space/src/filters/rate_limiter.rs:10-36 | Whatever the timing, a source whose slot is left alone gets through at least as many packets as it holds tokens |
| KernelRuns.BlockedSourcesAreDropped | kernel-space/src/main.rs:161-206 | An IPv4 packet from inside a stored prefix is dropped iff it is no fragment or its source is out of tokens; BlacklistHit is the reason iff the source is inside a stored prefix and the earlier rules are met |
| KernelRuns.SeenSourceIsOnTheWire | kernel-space/src/main.rs:148-193 | For every IPv4 packet, however its headers continue, the source the pipeline sees is the wire source, loaded in host order, and only its transport header can still be bad |
| KernelRuns.AppendedBytesAreNotSeen | kernel-space/src/main.rs:139-193 | Bytes behind completely parsed headers change nothing the pipeline sees |
| KernelRuns.AppendedBytesChangeNothing | kernel-space/src/main.rs:123-235 | They change neither the verdict nor any state |
| KernelRuns.LoopbackIsTheFirstByte | kernel-space/src/filters/rfc_invariants.rs:19-21 | The loopback exemption holds iff the first address byte on the wire is 127 |
| KernelRuns.RepliesAreNeverGated | kernel-space/src/filters/port_gate.rs:27-60 | No port policy changes what happens to ACK-carrying TCP or to UDP for ephemeral ports |
| XdpFirewall.Firewall.Process | kernel-space/src/main.rs:123-147 | The program over its maps computes the state and the verdict of the pipeline functions, for every packet and environment |
| XdpFirewall.Firewall.ProcessIpv4 | kernel-space/src/main.rs:148-222 | The IPv4 branch, fragments first, does what the filters prescribe from the cursor's position, and leaves the cursor behind the last header of a completely parsed packet |
| XdpFirewall.Firewall.EmitAndReturn | kernel-space/src/main.rs:55-112 | Verdict, log bucket and event list after the dry-run override, the threshold and the log limiter |
| XdpFirewall.Firewall.CheckRateLimit | kernel-space/src/filters/rate_limiter.rs:10-36 | The bucket after one draw and whether it was granted, with no wrap of the 64-bit addition |
| XdpFirewall.Firewall.CheckLogRateLimit | kernel-space/src/main.rs:31-52 | The same for the log bucket |
| WireVerdicts.FrameVerdicts | kernel-space/src/main.rs:170-222 | Which serialised frames each reason names, as conditions on the sender's address bytes, flag byte and ports, and that a frame is dropped iff it is a land, null, SYN-FIN or Xmas packet, its source is listed, it opens a connection or sends a datagram to a gated port, or its source has no token |
| WireVerdicts.OrdinarySegmentsPass | kernel-space/src/filters/rfc_invariants.rs:44-69 | SYN, SYN-ACK, ACK, PSH-ACK, FIN-ACK, RST and RST-ACK segments between different hosts pass, except a SYN to a gated port, if the source is not listed and has a token |
| WireVerdicts.UnparseableLinks | kernel-space/src/main.rs:139-147 | For any bytes, the link layer or the ARP header is the reason iff none has been serialised there; everything else that is not IPv4 passes |
| WireVerdicts.UnparseableDatagrams | kernel-space/src/main.rs:148-193 | An IPv4 packet is dropped for its network or transport header iff none has been serialised there; fragments need no transport header |
| WireVerdicts.EventsTellTheFrame | kernel-space/src/main.rs:96-112 | The record decoded from a frame's event has the sender's address bytes, ports, protocol and flags, the arrival time, action 1, 2 or 5 iff the packet was dropped, passes or would have been dropped, and the reason's code |
| WireVerdicts.EventsTellTheFragment | kernel-space/src/main.rs:157-167 | The same for a fragment, with ports and flags zero |
| WireVerdicts.EventsLeft | kernel-space/src/main.rs:79-112 | An arrival leaves one event iff the level lets its reason through, the log bucket has a token and the ring buffer has room, and none otherwise |
| TokenBucket.TokensAreConserved | kernel-space/src/filters/rate_limiter.rs:14-27 | Tokens held plus granted plus spilled at the cap equal tokens at the start plus earned, and the cap is never exceeded |
| TokenBucket.EarningIsTwoSided | kernel-space/src/filters/rate_limiter.rs:14-20 | Tokens R earned over a stretch satisfy R*100000 <= clock advance < 2*R*100000 whenever R > 0 |
| TokenBucket.GrantsAreBounded | kernel-space/src/filters/rate_limiter.rs:14-27 | A stretch is granted at most its starting tokens plus the whole intervals since the bucket's clock |
| TokenBucket.HeldTokensAreGranted | kernel-space/src/filters/rate_limiter.rs:22-27 | Tokens held are granted whatever the timing |
| TokenBucket.SpacedDrawsAreAllGranted | kernel-space/src/filters/rate_limiter.rs:14-27 | Draws at least 100 us apart are all granted |
| PacketCursor.Cursor.Read | kernel-space/src/cursor.rs:28-39 | A read yields exactly the next bytes of the packet or fails without moving, and no address sum wraps |
| PacketCursor.Cursor.Advance | kernel-space/src/cursor.rs:44-51 | A skip moves by exactly its length or fails without moving |
| Parsers.ParseEthernet | kernel-space/src/parsers/ethernet.rs:26-44 | The bounded tag loop finds the type behind at most two tags and leaves the cursor behind it |
| Parsers.ParseIpv4 | kernel-space/src/parsers/ipv4.rs:28-54 | The IPv4 header with its options, at any offset |
| Parsers.ParseTcp | kernel-space/src/parsers/tcp.rs:25-47 | The TCP header with its options, at any offset |
| Parsers.ParseUdp | kernel-space/src/parsers/udp.rs:20-33 | The UDP header, lengths under eight refused |
| Parsers.ParseArp | kernel-space/src/parsers/arp.rs:15-34 | The ARP header for Ethernet and IPv4 only, with its 20 address bytes |
| Frames.FrameRoundTrip | kernel-space/src/main.rs:139-193 | Parsing a serialised frame with 0-2 tags, any IP and TCP options and any payload gives back exactly the fields encoded, and the headers end at 14 + 4 per tag + the IP header + the transport header, where the payload starts |
| Frames.FragmentRoundTrip | kernel-space/src/main.rs:157-167 | A serialised fragment is seen as one whatever it carries |
| Frames.EthernetRoundTrip | kernel-space/src/parsers/ethernet.rs:26-44 | Addresses and type come back, and the next header starts at 14 + 4 per tag |
| Frames.Ipv4RoundTrip | kernel-space/src/parsers/ipv4.rs:28-54 | All fields used come back, and the next header starts behind the options |
| Frames.TcpRoundTrip | kernel-space/src/parsers/tcp.rs:25-47 | Ports, flags and data offset come back, and the cursor is behind the options |
| Frames.EthernetIffEncoded | kernel-space/src/parsers/ethernet.rs:26-44 | The Ethernet parser succeeds iff the packet starts with a serialised header with at most two tags |
| Frames.Ipv4IffEncoded | kernel-space/src/parsers/ipv4.rs:28-54 | The IPv4 parser succeeds at an offset iff a header has been serialised there |
| Frames.TcpIffEncoded | kernel-space/src/parsers/tcp.rs:25-47 | So does the TCP parser |
| Frames.UdpIffEncoded | kernel-space/src/parsers/udp.rs:20-33 | So does the UDP parser |
| Frames.ArpIffEthernetIpv4 | kernel-space/src/parsers/arp.rs:15-34 | The ARP parser succeeds iff the header is one for Ethernet and IPv4 and its 28 bytes are there |
| Ipv6Parser.ParseIpv6 | kernel-space/src/parsers/ipv6.rs:29-58 | The bounded extension loop reads the header and at most four extension headers |
| Ipv6Parser.WalkOfEncodedChain | kernel-space/src/parsers/ipv6.rs:33-50 | Walking a serialised chain skips exactly its first four headers, or all of a shorter one |
| Ipv6Parser.WalkStaysInside | kernel-space/src/parsers/ipv6.rs:33-50 | A walk stays in the packet, moves in eight-byte units, and stops early only at a protocol that is no extension |
| Reputation.LookupIsLongestMatch | kernel-space/src/main.rs:200-206 | The lookup gives the value of the longest stored prefix around an address, and fails iff there is none |
| Reputation.BlockedIffInsideAStoredPrefix | user-space/pkg/engine/map_manager.go:107-119 | With only the block value ever written, a source is blocked iff some stored prefix is around it |
| Reputation.NodeIgnoresHostBits | user-space/pkg/types/contracts.go:313-325 | Clearing the host bits of a key leaves its node unchanged; two keys name one node iff same length and same network; the node covers exactly the addresses of that network |
| Reputation.SameTopIsSameBlock | user-space/pkg/types/contracts.go:301-325 | Addresses share a prefix iff one lies in the block of the other: from its network address on, as many addresses as the host bits allow |
| Reputation.BlockSizes | user-space/pkg/types/contracts.go:301-325 | Which is all addresses for a /0, 2^24 for a /8, 256 for a /24, one for a /32 |
| Telemetry.DecodeOfKernelBytes | user-space/pkg/types/contracts.go:217-233 | Decoding undoes the kernel's layout field by field, addresses coming out in network order |
| Telemetry.PacketMeta.UnmarshalBinary | user-space/pkg/types/contracts.go:217-233 | The receiver holds the decoded frame, or is untouched when the frame is too short |
| Flows.SameKeyIffSameConversation | user-space/pkg/aggregator/flow.go:92-97 | Two packets share a key iff same protocol and same or swapped endpoints, with equal direction bits iff not swapped |
| Flows.KeyIsOrdered | user-space/pkg/aggregator/flow.go:92-97 | A key's first end is the lower one by address and then port, its two ends are the packet's, and the direction bit holds iff the packet comes from the first end |
| Flows.ShardIgnoresLowerPort | user-space/pkg/aggregator/flow.go:101-104 | The lower endpoint's port never influences the shard |
| Flows.ShardIsFromLowNibbles | user-space/pkg/aggregator/flow.go:101-104 | The shard is the exclusive or of the last four bits of lower address, seven times higher address, higher port and protocol |
| Flows.HigherPortSpreads | user-space/pkg/aggregator/flow.go:101-104 | All else equal, two flows share a shard iff their higher ports agree in the last four bits |
| Flows.SourceShardIsTheLastNibble | user-space/pkg/aggregator/flow.go:106-108 | A source's port shard is the last four bits of its address |
| FlowStatistics.FlowAccumulator.Observe | user-space/pkg/aggregator/flow.go:130-163 | One packet updates the accumulator in place as the value function says |
| FlowStatistics.StdDevIsTwoPass | user-space/pkg/aggregator/flow.go:165-174 | After any packets the reported deviation is the root of the two-pass variance of the sampled gaps once there are 30 of them, and the neutral value before; the negative-variance guard never fires |
| FlowStatistics.StreamingIsTwoPass | user-space/pkg/aggregator/flow.go:154-162 | After any packets the streaming mean times the sample count is the sum of the sampled gaps, and the streaming sum of squares is the sum of squared deviations from that mean, never negative |
| FlowStatistics.CountersCount | user-space/pkg/aggregator/flow.go:131-152 | The counters equal the counts of their packets in the history, and the flow is named after its first packet |
| FlowStatistics.ForwardIsFromTheLowerEnd | user-space/pkg/aggregator/flow.go:139-143 | Forward packets are those whose source address and port are the key's lower end, reverse packets all others |
| FlowStatistics.FlagCountersCountBits | user-space/pkg/aggregator/flow.go:145-152 | The SYN and ACK-or-PSH counters count the TCP packets with bit 1, and with bit 3 or 4, of the flag byte |
| FlowStatistics.GapsTelescope | user-space/pkg/aggregator/flow.go:154-162 | Over non-decreasing non-zero times the gaps sum to last minus first |
| Ports.PortTracker.Observe | user-space/pkg/aggregator/flow.go:189-200 | One port is booked in place, under itself or under the overflow port |
| Ports.PortTracker.EntropyBits | user-space/pkg/aggregator/flow.go:202-216 | The entropy computed in any key order is the sum over all ports |
| Ports.CappedIsMerged | user-space/pkg/aggregator/flow.go:189-200 | Below 2^32 observations the tracker is the exact histogram of the history with untracked ports merged, in at most 257 cells, and exact with at most 256 distinct ports |
| Ports.CellsOfCapped | user-space/pkg/aggregator/flow.go:189-200 | A tracked port has its exact multiplicity; the overflow cell holds its own and all untracked ones |
| Ports.CellsSumToTotal | user-space/pkg/aggregator/flow.go:189-200 | The cells sum to the total, which is the number of observations |
| Ports.CellsAreBounded | user-space/pkg/aggregator/flow.go:189-200 | A tracker has at most 257 cells, the 257th being port 65535, and is uncapped with at most 256 distinct ports |
| Ports.CappedEntropyIsAtMostExact | user-space/pkg/aggregator/flow.go:202-216 | For increasing log2 the tracker's entropy is at most that of the exact histogram, and equal with at most 256 ports |
| Ports.EvenEntropy | user-space/pkg/aggregator/flow.go:202-216 | A source that touches each of at most 256 ports equally often has entropy minus log2 of the share of one |
| Aggregation.ShardedTableIsOneMap | user-space/pkg/aggregator/flow.go:300-316 | Entering a packet changes the entry of its key only, keys live only in their own shard, caps hold, and a packet is refused iff its key is new and its shard full |
| FlowAggregator.Aggregator.Ingest | user-space/pkg/aggregator/flow.go:300-327 | The object's two sections compute the value-level ingest |
| FlowAggregator.Aggregator.Flush | user-space/pkg/aggregator/flow.go:347-406 | Every live flow is offered once, in some order, with its first source's ports; what fits is queued, the rest counted; all shards are empty afterwards |
| ReadLoop.Run | user-space/pkg/engine/daemon.go:132-155 | The loop ingests every frame long enough, up to the first closing or cancelled read, never a stale record |
| ReadLoop.TransientReadsAreSkipped | user-space/pkg/engine/daemon.go:132-152 | A read error without cancellation, or a short frame, changes nothing about the frames ingested |
| ReadLoop.OnlyClosingStops | user-space/pkg/engine/daemon.go:132-146 | Nothing behind a closed buffer or a cancelled read is ingested, and everything before is |
| ReadLoop.FramesInOrder | user-space/pkg/engine/daemon.go:147-155 | Frames are handed on in order, each once |
| Interleavings.AllSchedulesConserve | user-space/pkg/aggregator/flow.go:300-406 | Under every interleaving: packets entered = refused + live + taken + flushed; admitted minus recorded = packets between the two sections; flushed flows = sent + dropped |
| Interleavings.StartIsConserved | user-space/pkg/aggregator/flow.go:268-278 | A new aggregator starts conserved and sharded |
| Interleavings.TrackersStayInStep | user-space/pkg/aggregator/flow.go:300-379 | With flush atomic and no window of 2^32 packets, over any run of any length: tracker totals sum to packet counts, every tracked source is an end of a live flow, and every live flow's first source is tracked |
| Interleavings.FlushedFlowsFindTheirPorts | user-space/pkg/aggregator/flow.go:355-379 | With flush atomic each flow a flush emits finds its first source in the snapshot |
| Interleavings.TrackersAtMostTwicePerFlow | user-space/pkg/aggregator/flow.go:318-326 | There are at most twice as many tracked sources as live flows |
| Interleavings.LiveFlowsAreBounded | user-space/pkg/aggregator/flow.go:307-313 | At most 262144 flows are live at once |
| FlushRaces.EveryFlowFoundIffNeverSpoiled | user-space/pkg/aggregator/flow.go:300-406 | Over any schedule of ingests and racing flushes that ends between flushes, every emitted flow found its first source in the snapshot iff no step opened a flow too late and no port shard was snapped while the first source of a live flow was untracked |
| FlushRaces.FoundUnlessSpoiled | user-space/pkg/aggregator/flow.go:300-406 | The same at any moment, also in the middle of a flush: all found so far and no flow doomed iff never spoiled |
| FlushRaces.LateOpeningMisses | user-space/pkg/aggregator/flow.go:355-379 | From a new aggregator, any packet ingested between the snapshot and the taking of its flow shard is emitted with entropy zero |
| FlushRaces.PendingRecordMisses | user-space/pkg/aggregator/flow.go:315-379 | So is any packet whose second section is still to come when the flush runs |
| Histories.FlowsAreTheirPackets | user-space/pkg/aggregator/flow.go:300-373 | Under every interleaving a live flow is the statistics of the packets admitted for its key since its shard was last taken, absent iff there are none; a taken flow is those of the packets before that |
| Histories.TrackersAreTheirPorts | user-space/pkg/aggregator/flow.go:318-366 | Under every interleaving a live tracker is the capped histogram of the ports recorded for its source since its shard was last snapped, and the snapshot that of the ports before that |
| Histories.LogsAreComplete | user-space/pkg/aggregator/flow.go:300-373 | Those stretches, put together, are all packets admitted for the key and all ports recorded for the source, in order: every packet belongs to exactly one window |
| Histories.EmittedFeaturesAreThoseOfTheWindow | user-space/pkg/aggregator/flow.go:375-398 | Whatever raced, emitted features are those of the packets of one window by two-pass definitions, with the entropy of the ports of its first source |
| Histories.EmittedDirections | user-space/pkg/aggregator/flow.go:388-393 | Under every interleaving an emitted flow's forward count is that of its packets from the lower end, and its ratio times the reverse count is the forward count, or the ratio is the packet count when nothing came back |
| Histories.PortsBalance | user-space/pkg/aggregator/flow.go:318-366 | Under every interleaving live tracker totals, snapshot totals, totals already discarded and 2^32 per wrapped total sum to the ports recorded, and no total wraps before the 2^32nd |
| Classifier.Classify | user-space/pkg/inference/trees.go:198-225 | The loop yields the sigmoid of the summed scores, malicious iff above 0.85, labelled with the first best-scoring tree iff malicious |
| Classifier.CappingNeverFlags | user-space/pkg/inference/trees.go:138-152 | A flow flagged with the capped tracker of a source is also flagged with its exact histogram |
| Classifier.FallbackNeverFlags | user-space/pkg/inference/trees.go:71-94 | A reported flow flagged with the one-direction fallback is also flagged with the raw ratio |
| Classifier.SmallFlowsAreBenign | user-space/pkg/inference/trees.go:118-168 | A reported flow of at most 30 packets scores at most -1.5 and is benign |
| Classifier.TotalRisesWithEntropy | user-space/pkg/inference/trees.go:138-152 | The total score never falls with entropy |
| Classifier.TotalRisesWithRatio | user-space/pkg/inference/trees.go:118-133 | The total score never falls with the ratio |
| Detection.TotalFallsWithDeviation | user-space/pkg/inference/trees.go:118-168 | The total score never rises with the deviation |
| Detection.RatioSeen | user-space/pkg/inference/trees.go:71-94 | The flood tree sees SYNs per ACK-or-PSH segment exactly for one-sided TCP with five such segments, and the raw ratio otherwise |
| Detection.FloodSlopes | user-space/pkg/inference/trees.go:118-133 | The flood score at its corner, and what 50 more of ratio and a millisecond of deviation change |
| Detection.OtherSlopes | user-space/pkg/inference/trees.go:138-168 | Half a point per bit of entropy up to six, a point per 500 packets up to 2000, a point for a small deviation |
| Detection.SynBarrageIsFlagged | user-space/pkg/inference/trees.go:118-133 | At least 200 bare SYNs one way from the lower end with deviation below 500 us are flagged as a SYN flood, whenever the sigmoid of 3.35 exceeds the threshold |
| Detection.BarrageIsFlagged | user-space/pkg/inference/trees.go:118-133 | So are as many packets of any other protocol |
| Detection.BarrageFromHigherIsBenign | user-space/pkg/inference/trees.go:118-133 | The same traffic from the higher end is benign at entropy below three bits |
| Detection.OneSidedSessionIsBenign | user-space/pkg/inference/trees.go:54-94 | One-sided TCP with at most seven SYNs per ACK-or-PSH segment is benign at entropy below three bits |
| Detection.SteadyHasNoDeviation | user-space/pkg/aggregator/flow.go:154-174 | At least 31 packets at equal distances have the deviation of variance zero |
| Detection.ScanIsFlagged | user-space/pkg/inference/trees.go:138-152 | At least 700 packets, at most ten per port, at six bits of entropy or more are flagged, as a port scan when the deviation is at least 2 ms |
| Detection.EvenScanIsFlagged | user-space/pkg/inference/trees.go:138-152 | A flow of 700 to 1280 packets is flagged if its source has spread its packets evenly over 128 to 256 ports |
| Detection.VolumeDecides | user-space/pkg/inference/trees.go:158-168 | A flow that makes only the flood tree fire is flagged from 1500 packets on and benign below 200 |
| Detection.VolumeAloneIsBenign | user-space/pkg/inference/trees.go:154-168 | A flagged flow makes the flood tree or the scan tree fire, whatever its volume |
| Detection.NeverLabelledVolumetric | user-space/pkg/inference/trees.go:198-225 | A flagged flow is never labelled as a volumetric anomaly |
| Feedback.MapManager.BlockIP | user-space/pkg/engine/map_manager.go:107-119 | The put's effect on the kernel table, and none when it fails |
| Feedback.MapManager.UnblockIP | user-space/pkg/engine/map_manager.go:130-144 | The delete's effect; an absent key is success |
| Feedback.EntryCoversTarget | user-space/pkg/types/contracts.go:301-325 | The trie entry of a target is around exactly the addresses of its block, or its one address; a target has an entry iff it is IPv4 with at most 32 mask bits |
| Feedback.FeedbackController.IsSafeNetwork | user-space/pkg/engine/feedback.go:236-245 | A network is returned iff some registered one contains the address, and it does |
| Feedback.SafeNetworksAreBlocks | user-space/pkg/engine/feedback.go:236-245 | A network contains exactly the addresses of its block |
| Feedback.FeedbackController.Handle | user-space/pkg/engine/feedback.go:268-316 | Registry and kernel table after one alert, with the put succeeding or failing |
| Feedback.FeedbackController.RunJanitor | user-space/pkg/engine/feedback.go:322-356 | Registry and kernel table after a sweep in any order, with any removals failing |
| Feedback.NewControllerAgrees | user-space/pkg/engine/feedback.go:214-221 | A new controller agrees with whatever the kernel already holds |
| Feedback.RegistryMatchesKernel | user-space/pkg/engine/feedback.go:268-356 | Over any run, any failures and any edits of the table by others, the kernel table is the others' entries plus one host entry per record after every step iff no put fails on a recorded address, no alert puts a /32 of somebody else, and nobody else edits a /32 that has a record |
| Feedback.StepKeepsAgreement | user-space/pkg/engine/feedback.go:287-309 | One step, of the controller or of somebody else, keeps that agreement iff it is none of these three |
| Feedback.FailedRefreshOrphansTheBlock | user-space/pkg/engine/feedback.go:290-309 | From an empty registry, a put followed after its expiry by a failing put of the same address leaves a kernel entry without a record that no sweep removes |
| Feedback.SweepRemovesExpired | user-space/pkg/engine/feedback.go:322-348 | After a sweep the expired records left are exactly those whose removal failed |
| Feedback.BlocksLiveTheirLifetime | user-space/pkg/engine/feedback.go:287-348 | With a rising clock, the controller's successful puts of one address are at least the lifetime apart and it removes no block until more than the lifetime after its put |
| Feedback.BlocksAreKeptThenTakenBack | user-space/pkg/engine/feedback.go:287-348 | A block stays, record and kernel entry, through every alert and sweep of its first five minutes; the first later sweep removes both unless the removal fails, and then neither |
| Feedback.LiveBlocksAreLeftAlone | user-space/pkg/engine/feedback.go:289-293 | Over any run that ends before a block expires, with any alerts, failures, sweeps and edits by others, its record is unchanged |
| Shutdown.EveryScheduleIsOrderly | user-space/pkg/engine/daemon.go:86-121 | In every schedule each channel is closed once, by its only sender, after its last send |
| Shutdown.NobodyIsStuck | user-space/pkg/engine/daemon.go:93-121 | After cancellation the aggregator and the controller can always progress, inference waits only for a live aggregator, and some live goroutine can progress while any is live |
| Shutdown.ShutdownFinishes | user-space/pkg/aggregator/flow.go:331-345 | Every run after cancellation, ticks and janitor sweeps included, in which neither of the two selecting goroutines passes a pending cancellation over forever reaches a moment at which all three have finished and both channels are closed |
| ClosedLoop.EveryBlockIsJustified | user-space/pkg/engine/feedback.go:275-316 | In every run of the whole pipeline, for each address put there was an emission of a flagged flow whose packets, at least 31, started with one from that address; the run brought in at least 31 packets of that flow key; and the address was in no safe network when handled |
| ClosedLoop.BlocksSurviveExactCounting | user-space/pkg/inference/trees.go:138-152 | The flow that led to a block would also be flagged with the exact histogram of the ports recorded for its source, up to 2^32 of them |
| Delivery.ChannelIsFifo | user-space/pkg/aggregator/flow.go:399-403 | Under every interleaving the vectors received followed by those queued are, in order, those emitted while fewer than 4096 were queued |
| Delivery.AlertsAreDelivered | user-space/pkg/engine/daemon.go:93-113 | In every run the sources of the flagged vectors received are, in order, those the controller has taken up, those in the alert channel and the one inference holds |
| Delivery.NoFlaggedFlowIsLost | user-space/pkg/engine/daemon.go:93-121 | So a flagged vector that was queued is still queued, or its source is with inference, in the channel or taken up |
| Delivery.AlertsAreSentOn | user-space/pkg/engine/daemon.go:103-112 | Inference keeps an alert to itself only while 1024 are waiting |
| Delivery.ControllerRunsOnAlerts | user-space/pkg/engine/feedback.go:249-266 | In every run the controller has run exactly on the alerts taken up, in order, and the sweeps |
| Delivery.AlertsBecomeBlocks | user-space/pkg/engine/feedback.go:275-298 | In every run, taking up an alert for an address in no safe network and under no live block, with a working put, leaves its /32 in the kernel and a record of five minutes |
| Delivery.PutsReachTheKernel | user-space/pkg/engine/feedback.go:294-311 | Every put on record was made by such a step, and its entry and record were there right after it |
| Delivery.FlaggedFlowIsBlocked | user-space/pkg/engine/daemon.go:93-121 | In every run, a flagged vector next in line leads in three steps to a block, after which the enforcing kernel drops whatever its source sends, fragments apart |
| ClosedLoop.AddressesSurviveTheLoop | user-space/pkg/aggregator/flow.go:236-238 | The four source bytes of any IPv4 packet the kernel reports come back out of event, decoder, flow, feature vector and block key, and the entry made covers exactly that source |
| ClosedLoop.BlockedTargetsAreDropped | user-space/pkg/engine/map_manager.go:107-119 | After blocking any target the enforcing kernel passes an IPv4 packet from an address it covers iff it is a fragment whose source has tokens |
| ClosedLoop.BlockingTouchesNobodyElse | user-space/pkg/engine/map_manager.go:107-119 | For every packet from outside the target, verdict and state are as without the block |
| ClosedLoop.ControllerOnlyBlocks | user-space/pkg/engine/map_manager.go:113-114 | No alert, no sweep and no block or unblock by others ever leaves anything but block values in the kernel table |

## Left out

- Loading, pinning, netlink and resolver discovery, XDP inspection, the command line and terminal output: I/O; the safe-network list is an arbitrary input.
- The LPM trie, the LRU per-CPU hash and the ring buffer inside the kernel: only what their calls can do, with eviction, failure and missing room chosen by the environment.
- Several CPUs: one CPU's slot of each rate entry, and no races on the shared log bucket.
- IEEE rounding: statistics and scores are real numbers, and the transcendental functions are parameters with their laws stated in `Classifier.Lawful`.
- Text forms of addresses: alerts and block targets carry the address Go's parser would deliver; the registry is keyed by that address.
- Wall-clock window bounds in the feature vector, and the hooks and log lines of the controller: they influence no decision.
- 64-bit packet counters are natural numbers: no window sees 2^64 packets. The 32-bit port counters do wrap in the model.
- `Process`, `Ingest` and the parsers are split into helper methods at the source's own branches; the locks become the granularity of the steps in `Interleavings.dfy`.
- The increment of the refused-packet counter happens just after the shard's lock is released; it is one step with the refusal here.
- SetPortStatus, BlockPort, the config getters and setters, MonitorEvents, severity text and colours: thin wrappers.
- PacketCursor.Cursor.Read: takes the packet to lie at least 4 KiB below the top of the address space, which the kernel guarantees.
- FlowAggregator.Aggregator.Flush: one call with nobody ingesting or receiving meanwhile, because an object's method cannot be interrupted here; racing flushes, step by step, are the subject of `Interleavings.dfy`, `FlushRaces.dfy` and `Histories.dfy`.
- ReadLoop.Run: no flush runs during the loop, for the same reason.
