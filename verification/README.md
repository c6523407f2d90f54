# A verified model of the game-traffic booster

The system moves a game's UDP traffic over relays. A Windows client selects packets with a compiled
WinDivert filter, wraps them in a 10-byte PLG header, sends them over one or two paths and injects the
answers as raw IPv4 packets. A relay keeps a session per token, forwards payloads from a socket of that
session, and sends the game server's responses back. A Python API sells plans, limits request rates and
admits sessions. These Dafny files model that behaviour and prove what holds of it for all inputs and
over all runs. `dafny verify dfyconfig.toml` checks everything.

| part | files |
|---|---|
| filter compiler | `Text`, `Bits`, `FilterLanguage` (tokenizer, parser and evaluator of the target language), `FilterBuilder` |
| raw packets and checksums | `OnesComplement`, `PacketBuilder` |
| wire format | `PlgProtocol`, `Net` |
| relay | `RelayTables` (operations as values), `RelayServer` (a class whose methods run to their end), `RelaySteps` (every interleaving), and over its runs `RelayIsolation`, `RelayPorts`, `RelayCapacity`, `RelayTargets`, `RelayAccounting` |
| multipath client | `Dedup`, `UdpProxy` (the steps of each task), `ProxyRuns`, `ProxyTraffic`, `ProxyNumbers` and `ProxyOrder` (every interleaving of the tasks), `Downstream`, which composes them with the relay, and `Injection` (the WinDivert client's receive threads) |
| billing | `Pricing`, `Billing` (a class over the tables), `BillingCalls` (single operations), `BillingRuns` |
| rate limit and sessions | `RateLimit`, `SessionAdmission`, `SessionRuns` |

The source's loops and objects are methods and classes here, each tied by its `ensures` to functions on
values; the theorems are about those functions. A run is a sequence of events, and `Exec` gives the state
after it, if every event of it can happen.

## What the proofs show about the code

Where a promise of the source fails, a lemma gives the failing case and another says exactly when the
promise holds.

- A registration inserts its session and then enters its port, and other tasks can act between the two
  (`relay/src/session.rs:105-106`). An entry of the port table then belongs to nothing exactly when a
  session is inserted over one whose port is entered, or a port is entered whose session is gone or on
  another port, unless a removal is about to drop that entry (`StrayPortExactly`,
  `OverlapLeavesStrayPort`, `RemovalLeavesStrayPort`).
- For the same reason token isolation can fail: the listener of one token can send what it receives to the
  client of another (`HijackedReply`). A live listener's port is taken from it exactly when a port is
  entered on which another token's listener lives, or a listener is spawned on a port entered for another
  token (`PinBrokenExactly`). A run has no such step exactly if every listener's port leads to its token
  or nowhere all the time (`NeverHijackedExactly`); isolation holds in every such run (`TokenIsolation`),
  and a port that leads elsewhere is three steps from a reply under the wrong token
  (`BrokenPinMisdirects`). It holds in particular if no removal, replacement or spawn of a token falls
  between the two insertions of its registration (`UndisturbedIsolation`); keeping out removals alone is
  not enough (`SpawnHijacks`). Without any condition, a reply goes where a packet of the token it carries
  came from (`RepliesConsistent`).
- Overlap also exceeds `max_sessions`, by at most one less than the number of registrations in flight, and
  that bound is reached. A step passes the limit exactly when it inserts a session for a token without one
  into a full table (`CapacityOvershoot`, `OverlapReachesBound`, `LimitPassedExactly`).
- The comment at `relay/src/session.rs:113-114` says that unregistering ends the response listener. The
  listener holds the socket too, so it outlives its session (`ListenerOutlivesSession`). It ends exactly
  when a datagram finds no entry for its port or no session for the entry, or receiving fails
  (`ListenerEndsExactly`); until then it sends nothing (`NextDatagramEndsListener`).
- An allow-list of CIDR blocks, the form that the client's filter compiler takes, cannot be used by the
  relay, which parses and compares entries as single addresses. A pair of lists can make the relay forward
  exactly when its first entry reads as an address and a port is listed, or some entry is the printed form
  of an IPv4 address (`ForwardsExactly`, `CidrOnlyForwardsNothing`).
- The proxy takes a sequence number and sends the packet in two steps, so packets can overtake each other
  (`Overtaking`), but only a keepalive and a packet of another kind (`RunNumbers`). Each path carries its
  packets in the order of their numbers exactly if no step sends a number while the other task holds a
  smaller one for that path (`OrderLostExactly`, `OrderedExactly`).
- The relay numbers every response 0 and the proxy drops numbers it has seen, so the game gets at most
  one response, and exactly when it gets that one is stated too (`AtMostOneResponseDelivered`,
  `ResponseDeliveredExactly`). The relay never answers a keepalive, so no round-trip time is ever measured.
  The WinDivert client keeps one set of numbers per path, so with a backup two responses can be injected,
  and the same one twice (`OneResponseInjectedPerPath`, `BothPathsInject`).
- The duplicate of a packet, however many others arrive in between, is dropped exactly if the set is not
  wiped from the first copy on to the second: if what it held before, with the packet and all numbers in
  between, is at most 10000 (`DuplicateDropped`).
- The total length field is right exactly for payloads up to 65507 bytes (`BuildUdpResponse`).
- The rate limiter counts instants, not requests: any number of requests at one instant pass
  (`SameInstantPasses`). A decision differs from a count of the requests exactly when the instants in the
  window are within the limit and, with the repeats, exceed it (`DecisionExactly`). No window holds more
  admitted requests than the limit exactly if no attempt is admitted that finds the limit used up in its
  window (`BoundedExactly`).
- A trial takes time from a subscription with more than a week left (`OnlyTrialsShorten`). A discount
  raises the price exactly when it is a fixed one that is negative enough (`DiscountBounds`).
- `find_backup_node` raises exactly when there are two equally good backups, so a multipath start fails
  with three nodes in three locations (`BackupFoundExactly`, `AmbiguousMeansAChoice`, `ThreeLocationsRaise`).
- A session that an administrator stops is unregistered on no relay, and one that its user stops is
  unregistered on just the relays where it was registered exactly if its nodes still have those addresses
  between them (`StoppedWhereStarted`), so whenever no node was edited in between (`StopUndoesStart`).

## Model

| member | source | states |
|---|---|---|
| FilterBuilder.BuildWindivertFilter | client/src-tauri/src/filter_builder.rs:74-130 | Succeeds exactly when both lists are nonempty and every text can be read. Then it is the printed filter of the ranges read; it parses whichever of `and` and `or` binds tighter, and passes exactly the outbound UDP packets to a listed block on a listed port. Otherwise it reports the first unreadable text, addresses before ports. |
| FilterBuilder.FilterSelectsRanges | client/src-tauri/src/filter_builder.rs:113-129 | The combined text of any ranges means the conjunction of "in some address range" and "in some port range", under both bindings. |
| FilterLanguage.ChainParses | client/src-tauri/src/filter_builder.rs:117-129 | A chain of atoms with one operator parses to the same tree under both bindings. |
| FilterLanguage.ChainMeaning | client/src-tauri/src/filter_builder.rs:117-129 | Such a chain means all, or some, of its operands. |
| FilterBuilder.TokenizeClause | client/src-tauri/src/filter_builder.rs:89-96 | The printed clause of a range is read back token by token. |
| FilterBuilder.ComparisonText | client/src-tauri/src/filter_builder.rs:89-96 | The printed test of a field: its name, the relation and the value. |
| FilterBuilder.ClauseText | client/src-tauri/src/filter_builder.rs:89-96 | A range is printed as one test of the field, or as two in parentheses. |
| FilterBuilder.FilterIsPrinted | client/src-tauri/src/filter_builder.rs:113-129 | The filter is printed as the two keywords and the two groups of clauses, joined by " and ", a group of several by " or " in parentheses. |
| FilterBuilder.BuildIpClauses | client/src-tauri/src/filter_builder.rs:85-97 | The loop gives the clauses of all blocks in order, or the error of the first bad one. |
| FilterBuilder.BuildPortClauses | client/src-tauri/src/filter_builder.rs:99-111 | The loop gives the clauses of all port ranges in order, or the error of the first bad one. |
| FilterBuilder.CidrToIpRange | client/src-tauri/src/filter_builder.rs:9-35 | Reads exactly the blocks and single addresses, and gives an ordered range of addresses. |
| FilterBuilder.CidrRangeIsBlock | client/src-tauri/src/filter_builder.rs:20-29 | The masked range holds exactly the addresses that share the prefix (section 3.1 of RFC 4632). |
| FilterBuilder.ReadShownBlock | client/src-tauri/src/filter_builder.rs:9-35 | A block's printed form reads back as that block, and an address alone as a block of one. |
| FilterBuilder.CidrErrors | client/src-tauri/src/filter_builder.rs:11-18 | Which error a text gives that is no block: an unreadable address first, then an unreadable prefix length, then one above 32. |
| FilterBuilder.ParseShownPortRange | client/src-tauri/src/filter_builder.rs:38-59 | A printed port range, with any white space around its numbers, reads back exactly when its ends are in order, else its order is the error; a number alone is a range of one. |
| FilterBuilder.PortRangeErrors | client/src-tauri/src/filter_builder.rs:40-56 | Which part is reported when a port cannot be read, the start of a range first. |
| Text.ParseShownIpv4 | client/src-tauri/src/filter_builder.rs:11-11 | A printed address reads back as itself. |
| Text.ParseIpv4Exactly | client/src-tauri/src/filter_builder.rs:11-11 | A text is read as an address exactly if it is its printed form. |
| Text.ShownOctets | client/src-tauri/src/filter_builder.rs:29-29 | The printed form of an address is its four octets in decimal between dots, most significant first. |
| Text.AsciiWhitespace | client/src-tauri/src/filter_builder.rs:41-55 | Blanks, tabs and line ends are trimmed, and no printable character of ASCII is. |
| Text.ParseUnsignedExactly | client/src-tauri/src/filter_builder.rs:12-14 | A text is read as a number exactly if it is its digits, with any zeros and at most one plus sign in front, and the type can hold it. |
| PacketBuilder.BuildUdpResponse | client/src-tauri/src/packet_builder.rs:14-62 | For every address, port and payload the header verifies and the UDP checksum field is not 0. The UDP segment verifies and the UDP length is right for payloads up to 65507 bytes, and the total length is right exactly for those. Version, service class, identification, flags, TTL and protocol are the fixed ones. The capture parser reads all arguments back. |
| PacketBuilder.BuildHeader | client/src-tauri/src/packet_builder.rs:27-41 | The 20 bytes have the given fields (section 3.1 of RFC 791) and their one's-complement sum is 0xFFFF. |
| PacketBuilder.BuildSegment | client/src-tauri/src/packet_builder.rs:44-59 | The segment has the given ports, length and payload, its checksum is not 0, and with the pseudo-header it sums to 0xFFFF. |
| PacketBuilder.ComputeIpChecksum | client/src-tauri/src/packet_builder.rs:65-88 | The loops compute the complement of the word-by-word one's-complement sum of all words but the checksum. |
| PacketBuilder.ComputeUdpChecksum | client/src-tauri/src/packet_builder.rs:91-130 | The same over pseudo-header and segment, odd lengths included, with 0 sent as 0xFFFF. |
| PacketBuilder.SumPseudoHeader | client/src-tauri/src/packet_builder.rs:94-100 | The six additions give the sum of the pseudo-header's words, without carry out of the accumulator. |
| PacketBuilder.AccumulateWords | client/src-tauri/src/packet_builder.rs:68-81 | The loop adds, modulo 2^32, every big-endian word but the skipped one. |
| PacketBuilder.SumDoesNotWrap | client/src-tauri/src/packet_builder.rs:92-117 | The u32 accumulator holds the sum of the words of any 2^16 bytes, after a pseudo-header or not. |
| PacketBuilder.PseudoHeaderWords | client/src-tauri/src/packet_builder.rs:94-100 | The pseudo-header is both addresses, the protocol 17 and the length (RFC 768). |
| OnesComplement.WordsAreBytePairs | client/src-tauri/src/packet_builder.rs:74-78 | The words summed are the pairs of bytes, a last odd byte with zero. |
| PacketBuilder.VerifiesExactly | client/src-tauri/src/packet_builder.rs:83-87 | Words verify exactly if they are not all zero and their sum is divisible by 65535. |
| PacketBuilder.Fold | client/src-tauri/src/packet_builder.rs:83-85 | The folding loop ends with all carries folded in. |
| OnesComplement.DeferredCarries | client/src-tauri/src/packet_builder.rs:66-85 | Adding first and folding the carries at the end is the same as carrying around at every word, and both give the representative in 1..65535 modulo 65535 of a nonzero sum (section 2 of RFC 1071). |
| OnesComplement.ComplementVerifies | client/src-tauri/src/packet_builder.rs:123-129 | A nonzero sum and its complement, or 0xFFFF for a complement of 0, sum to 0xFFFF. |
| PacketBuilder.CapturedParts | client/src-tauri/src/windivert.rs:156-184 | The capture thread's parser splits a header without options and a segment into their fields. |
| PacketBuilder.CapturedExactly | client/src-tauri/src/windivert.rs:156-184 | The parser's result for any bytes, options in the header included. |
| PlgProtocol.Encode | client/src-tauri/src/protocol.rs:68-76 | The bytes pushed are the wire form of the packet. |
| PlgProtocol.WireLayout | client/src-tauri/src/protocol.rs:68-76 | Token and number with the most significant byte first, flags, path, and the payload from the eleventh byte on. |
| PlgProtocol.KindBits | client/src-tauri/src/protocol.rs:12-14 | Bits 0, 1 and 2 of the flags are duplicate, keepalive and control. |
| PlgProtocol.ParseWire | relay/src/protocol.rs:29-57 | Each end reads back what either end wrote. |
| PlgProtocol.WireParse | client/src-tauri/src/protocol.rs:79-97 | A datagram parses exactly when it holds a header, and is the wire form of the packet it parses to. |
| PlgProtocol.MultipathKeepsKind | client/src-tauri/src/protocol.rs:61-65 | Marking as a duplicate sets that flag and the path, and changes neither the kind nor anything else. |
| PlgProtocol.ControlTargetRoundTrip | relay/src/forwarder.rs:193-202 | The relay reads the very target that the client's control packet names. |
| PlgProtocol.ControlPayloadExactly | relay/src/forwarder.rs:193-202 | A control payload is read exactly if it is a printed IPv4 address, a colon, and a text that reads as the port. |
| RelayServer.Relay.constructor | relay/src/session.rs:39-47 | The relay starts without sessions, tables inverse and counters balanced. |
| RelayServer.Relay.Register | relay/src/session.rs:54-111 | At capacity nothing changes, even for a registered token. Below it the old session goes, also when binding fails, and the new one takes its place, with the lists and port given, the default target and all counts 0; the limit holds, the tables stay inverse and the gauge is the number of sessions. |
| RelayServer.Relay.Unregister | relay/src/session.rs:115-123 | Removes the token from both tables and nothing else. |
| RelayServer.Relay.CleanupStale | relay/src/session.rs:158-180 | Removes exactly the sessions idle longer than the timeout from both tables, leaves all else, and returns their number. |
| RelayServer.Relay.UnregisterAll | relay/src/session.rs:170-173 | The loop removes the collected tokens from both tables and counts them. |
| RelayTables.CleanupIsIdempotent | relay/src/session.rs:158-168 | At the same instant a second cleanup finds nothing. |
| RelayTables.StaleExactly | relay/src/session.rs:158-168 | After any packets, a cleanup takes a session exactly if its last packet, or its registration if none came, is older than the timeout. |
| RelayTables.RemoveKeepsInverse | relay/src/session.rs:116-118 | Removal keeps the two tables inverse. |
| RelayTables.InsertKeepsInverse | relay/src/session.rs:105-106 | Insertion of a new token on a new port keeps the two tables inverse. |
| RelayServer.Relay.ClientPacket | relay/src/forwarder.rs:30-112 | One iteration changes at most the packet's session, sends what its verdict says, moves the counters that this names, and keeps them balanced. |
| RelayServer.Relay.Account | relay/src/forwarder.rs:34-111 | Each verdict moves its own counters, and each packet is counted exactly once. |
| RelayTables.ClassifyFrame | relay/src/forwarder.rs:44-95 | A packet changes at most its own session: address and time are the packet's, one packet and its bytes are counted, and token, port and lists stay. |
| RelayTables.VerdictExactly | relay/src/forwarder.rs:32-98 | What becomes of any datagram, byte by byte: too short, unknown, keepalive before control, and else the bytes after the header to the session's target from its own port. |
| RelayTables.ClassifyKeepsTargets | relay/src/forwarder.rs:69-103 | Targets stay within the allow-lists, and what is forwarded goes to such a target. |
| RelayServer.Relay.Response | relay/src/forwarder.rs:132-187 | The listener ends exactly when its port is in no table entry; otherwise it counts the response in the port's session and sends it, unless the client's address is the placeholder, to that address as a packet with the token, number 0 and the very bytes received. |
| RelaySteps.UnbrokenRemoval | relay/src/session.rs:115-123 | Uninterrupted, the two steps of a removal do what the atomic operation does. |
| RelaySteps.UnbrokenClearing | relay/src/session.rs:61-67 | At capacity a registration changes nothing; below it, its steps up to the binding do, uninterrupted, what the atomic removal of the token does, and nothing else but remember the request. |
| RelaySteps.FailedBinding | relay/src/session.rs:70-84 | When binding fails nothing remains of the registration. |
| RelaySteps.UnbrokenRegistration | relay/src/session.rs:87-107 | Uninterrupted, the two insertions insert what the atomic operation inserts, leave the tables inverse and hand the token to the spawning of its listener, and change nothing else. |
| RelaySteps.RunKeepsSockets | relay/src/session.rs:66-123 | In every interleaving a session is stored under its own token, and no two sessions and no session and removal in progress have one port. |
| RelayIsolation.RepliesConsistent | relay/src/forwarder.rs:142-178 | In every interleaving a reply goes to an address from which a packet of the token it carries came. |
| RelayIsolation.ReplyGoesToRecordedClient | relay/src/forwarder.rs:152-178 | A step sends at most one reply, under the token that the listener looked up, to the address recorded for it at that moment. |
| RelayIsolation.PinBrokenExactly | relay/src/session.rs:105-106 | Of all steps, exactly two kinds make a live listener's port lead to another token: entering a port on which another token's listener lives, and spawning on a port entered for another token. |
| RelayIsolation.TokenIsolation | relay/src/forwarder.rs:124-187 | In every run without such a step, what the listener of a token sends carries that token and goes where a packet of it came from; a live listener's port leads to its token or nowhere. |
| RelayIsolation.NeverHijackedExactly | relay/src/session.rs:105-106 | A run has no such step exactly if in all its states every live listener's port leads to its token or nowhere. |
| RelayIsolation.BrokenPinMisdirects | relay/src/forwarder.rs:142-178 | From any state where a listener's port leads to another token with a session, listener and client loop idle, three steps send a reply of that listener under that token. |
| RelayIsolation.UndisturbedIsolation | relay/src/session.rs:69-111 | So it is in every run in which no step removes, replaces or spawns for a token between the two insertions of its registration. |
| RelayIsolation.HijackedReply | relay/src/session.rs:105-118 | A run with a removal between the insertions, after which the listener of one token answers the client of another. |
| RelayIsolation.SpawnHijacks | relay/src/api.rs:129-138 | A run without a removal whose next step spawns a listener on a port entered for another token. |
| RelayPorts.StrayPortExactly | relay/src/session.rs:105-118 | Of all steps, exactly these leave a port entry that belongs to nothing: an insertion over a session whose port is entered, and entering a port whose session is gone or elsewhere and that no removal is about to drop. |
| RelayPorts.UndisturbedStrays | relay/src/session.rs:105-106 | Among undisturbed registrations only the insertion over a live session does. |
| RelayPorts.OverlapLeavesStrayPort | relay/src/session.rs:61-107 | A run of two overlapping registrations of one token that ends with such an entry. |
| RelayPorts.RemovalLeavesStrayPort | relay/src/session.rs:105-118 | A run with a removal between the two insertions that ends with such an entry and no session. |
| RelayPorts.ListenerEndsExactly | relay/src/forwarder.rs:132-156 | A listener ends at a step exactly if it finds no entry for its port, finds the session of the entry gone, or fails to receive. |
| RelayPorts.ListenerOutlivesSession | relay/src/session.rs:113-118 | A run after which both tables are empty and the listener, orphaned, still holds its socket. |
| RelayPorts.NextDatagramEndsListener | relay/src/forwarder.rs:142-149 | A listener idle on a port that is not entered and about to be entered by no registration sends nothing in any run until its next datagram, and that ends it. |
| RelayCapacity.CapacityOvershoot | relay/src/session.rs:61-107 | With at most k registrations in flight, sessions and registrations past the check together stay within `max_sessions - 1 + k`. |
| RelayCapacity.OverlapReachesBound | relay/src/session.rs:61-107 | For every limit and every k for which there are ports, a run with at most k in flight ends with `max_sessions - 1 + k` sessions. |
| RelayCapacity.LimitPassedExactly | relay/src/session.rs:61-105 | From within the limit, a step passes it exactly if it inserts a session for a token without one into a full table. |
| RelayTargets.ForwardTargetSafety | relay/src/session.rs:86-105 | In every run each session's target, and each datagram sent upstream, has an address that some entry of the session's allow-list spells. |
| RelayTargets.OnlyUsableForward | relay/src/forwarder.rs:69-103 | In every run only sessions whose lists can be used have a target or forward anything. |
| RelayTargets.ForwardsExactly | relay/src/forwarder.rs:69-103 | Some run that registers only these lists sends upstream exactly if the first entry reads as an address and a port is listed, or some entry is the printed form of an IPv4 address. |
| RelayTargets.CidrOnlyForwardsNothing | relay/src/forwarder.rs:69-103 | A relay whose sessions list only CIDR blocks sends nothing upstream in any run. |
| RelayTables.CidrListAllowsNothing | relay/src/forwarder.rs:72-73 | No address is the reading of a CIDR block, so a list of blocks allows no target. |
| RelayTables.NewTargetAllowed | relay/src/session.rs:184-189 | The default target is the first entry's address, so it is in the list. |
| Net.ParseIpExactly | relay/src/session.rs:184-189 | A text is read as an IPv4 address exactly if it is its printed form, and as an IPv6 address exactly if that parser reads it. |
| RelayAccounting.PacketAccounting | relay/src/forwarder.rs:30-112 | In every run, received = dropped + unknown sessions + keepalives + accepted controls + upstream sends (+ one under way), forwarded = upstream sends + responses, and the packets counted in live and removed sessions are those that matched a session. |
| RelayAccounting.CountersExactly | relay/src/forwarder.rs:30-112 | Which counters each step moves, by verdict. |
| RelayAccounting.SessionCountsExactly | relay/src/forwarder.rs:53-160 | What each step does to a session that stays: its client's packets set address and time and are counted in, responses are counted out with a header of ten bytes, even to a placeholder, and nothing else changes it. |
| Dedup.BoundedDedup | client/src-tauri/src/udp_proxy.rs:227-238 | In every run the set has at most 10000 numbers, the accepted ones are blocks of 10001 distinct numbers and a distinct rest as large as the set, and none is accepted more than once per wipe and once more. |
| Dedup.DroppedExactly | client/src-tauri/src/udp_proxy.rs:289-299 | A number is dropped exactly when it was accepted since the last wipe. |
| Dedup.DuplicateDropped | client/src-tauri/src/udp_proxy.rs:227-238 | The duplicate of a new number is dropped, whatever arrives in between, exactly if the set is not wiped meanwhile, which is exactly if what it held with all those numbers stays within the limit. |
| UdpProxy.Proxy.AdvanceGame | client/src-tauri/src/udp_proxy.rs:158-181 | Each step of the send task: take a number, send to the primary, send the marked copy to the backup, count. What runs of these steps send is stated by the rows of `ProxyTraffic`. |
| UdpProxy.Proxy.AdvanceKeepalive | client/src-tauri/src/udp_proxy.rs:337-361 | Each step of the keepalive task: take a number, remember it for the primary, send, and forget those older than a minute. |
| UdpProxy.Proxy.AdvanceReceive | client/src-tauri/src/udp_proxy.rs:216-251 | Each step of a receive task: give a round-trip time, drop a duplicate or accept, look for the game's address, hand over, count. |
| ProxyTraffic.RunIsWellFormed | client/src-tauri/src/udp_proxy.rs:110-177 | In every interleaving the first packets are the control packets with the target, one to each relay, and all others carry the token and are unmarked data on the primary path, marked data on the backup path, or empty keepalives. |
| ProxyTraffic.GameIsCarried | client/src-tauri/src/udp_proxy.rs:156-166 | In every interleaving the data packets on the primary path carry exactly the payloads of the game's datagrams, in order, but for the one in hand. |
| ProxyTraffic.SentIsCounted | client/src-tauri/src/udp_proxy.rs:179-181 | Packets and bytes sent are those of the game's datagrams, but for the one in work. |
| ProxyTraffic.KeepalivesOnSchedule | client/src-tauri/src/udp_proxy.rs:336-362 | Each cycle of the keepalive task sends one keepalive to the primary relay and, with a backup, one there; no other task sends any. |
| ProxyTraffic.RoundTripExactly | client/src-tauri/src/udp_proxy.rs:218-223 | What each step does to a number: remembered when its keepalive is due, forgotten by its answer, which gives the time since then, or after a minute; else unchanged. |
| ProxyTraffic.MeasuredExactly | client/src-tauri/src/udp_proxy.rs:217-225 | In every run only an answer on the primary path to a remembered keepalive changes the round-trip time. |
| ProxyTraffic.ArrivalExactly | client/src-tauri/src/udp_proxy.rs:215-225 | What becomes of any datagram of a relay, byte by byte and path by path. |
| ProxyTraffic.DeliveredHasArrived | client/src-tauri/src/udp_proxy.rs:240-243 | All that the game gets came in a relay's datagram, without its header, and goes to an address it sent from. |
| ProxyTraffic.GoesToLatest | client/src-tauri/src/udp_proxy.rs:157-157 | An accepted payload goes to the address of the game's last datagram, if there is one, and is lost else. |
| ProxyTraffic.ReceivedIsCounted | client/src-tauri/src/udp_proxy.rs:247-249 | Packets and bytes received are those handed over, but for those not counted yet. |
| ProxyTraffic.DuplicatesReported | client/src-tauri/src/udp_proxy.rs:250-250 | The reported duplicates are brought up to date exactly when a packet is counted. |
| ProxyRuns.RunDeduplicates | client/src-tauri/src/udp_proxy.rs:207-323 | In every interleaving of the tasks' steps the shared set is the bounded set of `Dedup`, and every packet it does not accept is counted as a duplicate. |
| ProxyRuns.RunAccounts | client/src-tauri/src/udp_proxy.rs:226-313 | In every interleaving, for each payload and in all, the packets accepted are those handed over, those in flight (at most one in each receive task) and those lost. |
| ProxyRuns.LostExactly | client/src-tauri/src/udp_proxy.rs:240-241 | A step loses a packet exactly if it looks for the game's address before the game's first datagram. |
| ProxyRuns.DeliveredExactly | client/src-tauri/src/udp_proxy.rs:240-251 | From its first datagram on the game gets exactly the packets accepted since and those in flight then, but for those in flight now; before it gets nothing. |
| ProxyNumbers.RunNumbers | client/src-tauri/src/udp_proxy.rs:110-182 | Until the counter wraps, the numbers on each path are distinct, and those of keepalives and of all other packets each increase. |
| ProxyNumbers.Overtaking | client/src-tauri/src/udp_proxy.rs:343-346 | A run in which a datagram with the next number is sent before a keepalive on the same path. |
| ProxyOrder.OrderLostExactly | client/src-tauri/src/udp_proxy.rs:156-177 | A step loses the order, of the numbers sent on each path and those still held for it, exactly if it sends a number while the other task holds a smaller one for that path. |
| ProxyOrder.LostOrderStays | client/src-tauri/src/udp_proxy.rs:110-182 | An order that is lost on a path stays lost. |
| ProxyOrder.OrderedExactly | client/src-tauri/src/udp_proxy.rs:342-357 | Until the counter wraps, with no number held, both paths carry increasing numbers exactly if no step of the run has overtaken. |
| ProxyNumbers.RunMirrors | client/src-tauri/src/udp_proxy.rs:163-177 | In every interleaving the backup path's data packets are exactly the marked copies of the primary's, each after its original, but for a copy still to be sent; without a backup nothing goes there. |
| Downstream.AtMostOneResponseDelivered | relay/src/forwarder.rs:167-176 | For any runs of relays and client, one response is accepted and all others count as duplicates; the game gets that one unless it is in flight or lost; the set is never wiped and no round-trip time is measured. |
| Downstream.ResponseDeliveredExactly | relay/src/forwarder.rs:167-176 | With all datagrams handled, the game got a response exactly if there was one and, at the game's first datagram, none had been accepted or it was in flight. |
| Downstream.RepliesCarryResponses | relay/src/forwarder.rs:167-176 | In every run of a relay each reply carries the bytes of some datagram of the game server. |
| Downstream.GameGetsServersBytes | relay/src/forwarder.rs:167-176 | For any runs of relays and client, all that the game gets is byte for byte what the game server sent to a relay. |
| Downstream.GamesBytesAreForwarded | relay/src/forwarder.rs:87-103 | Each data packet of the proxy, on either path, is forwarded byte for byte by a relay that knows the session and has a target. |
| Injection.ReceiveThread.Receive | client/src-tauri/src/windivert.rs:315-373 | A new number that is no keepalive and finds a connection is injected as a packet from the game server to the local application, and nothing else is. |
| Injection.PathsAreSeparate | client/src-tauri/src/windivert.rs:403-435 | In every run the set of each thread is the bounded set of its own path, and it injects at most what that accepts. |
| Injection.OneResponseInjectedPerPath | client/src-tauri/src/windivert.rs:333-353 | When all arrivals are responses, each thread injects the first on its path if that finds a connection, and no other. |
| Injection.BothPathsInject | client/src-tauri/src/windivert.rs:394-454 | The same response over both paths is injected twice. |
| RateLimit.AdmittedBeyondLimit | api/app/utils/rate_limit.py:56-67 | On a clock that does not go back, the requests of a key admitted in any half-open window have at most `max_requests` different instants; all beyond are repeats. |
| RateLimit.SlidingWindow | api/app/utils/rate_limit.py:56-67 | While the clock advances, any half-open window holds at most `max_requests` admitted requests of a key. |
| RateLimit.KeyRuns | api/app/utils/rate_limit.py:46-63 | In every run of requests of any paths and clients, a key's stored set and admissions are those of the run of its own attempts. |
| RateLimit.KeyWindow | api/app/utils/rate_limit.py:30-71 | In every such run, at most the limit of the requests checked under one key pass in any window, on a clock that advances for them. |
| RateLimit.SameInstantPasses | api/app/utils/rate_limit.py:57-57 | Any number of requests at one instant pass under any limit. |
| RateLimit.DecisionExactly | api/app/utils/rate_limit.py:56-63 | A decision counts the instants in the window over the full log, rejected attempts included, whatever has expired; it differs from a count of requests exactly if the instants are within the limit and with the repeats exceed it. |
| RateLimit.SameInstantSameDecision | api/app/utils/rate_limit.py:57-63 | A further attempt at one instant gets the decision of the one before. |
| RateLimit.BoundedExactly | api/app/utils/rate_limit.py:56-67 | In a run on a clock that does not go back, no window holds more admitted requests than the limit exactly if no attempt was admitted that found as many admitted in its window and the instants there within the limit. |
| RateLimit.KeyHasOneRule | api/app/utils/rate_limit.py:10-12 | Requests that share a key share their limit, 5 in 60 seconds for the three paths of authentication and 100 for all else. |
| RateLimit.KeySharedExactly | api/app/utils/rate_limit.py:47-52 | Two requests share a key exactly if they come from one client and go to one path of authentication, or both to other paths. |
| RateLimit.OwnRequestsDecide | api/app/utils/rate_limit.py:46-65 | In every run the decision on a request is the one that the requests of its own client and budget alone would give. |
| RateLimit.RateLimiter.Call | api/app/utils/rate_limit.py:30-71 | Other traffic, the health check and a failing Redis let the request pass with all keys unchanged; otherwise only the client's key for that path changes, and the count decides. |
| Pricing.PaidTimeClosedForm | api/app/services/billing_service.py:61-67 | Crediting one payment after the other gives the maximum of (first expiry + all time) and, over i, (time of payment i + all time from i on). |
| Pricing.NoPaidTimeLost | api/app/services/billing_service.py:61-67 | The expiry moves by at least all the time paid for, and by exactly that while the subscription is live. |
| Pricing.HalfEvenIsNearest | api/app/services/billing_service.py:103-103 | Rounding gives the one nearest whole number, with halves to even. |
| Pricing.DiscountBounds | api/app/services/billing_service.py:96-103 | A discounted price is at least 1, and above the original exactly for a negative enough fixed discount. |
| Pricing.DiscountRounds | api/app/services/billing_service.py:96-103 | The discounted price is the price less the fixed discount or, if that is 0 or missing, less the percentage, rounded to the nearest rouble with halves to even, but at least 1; without either it is the price. |
| Pricing.PlanTable | api/app/services/billing_service.py:17-46 | The plans that are sold, with their prices and days. |
| Billing.BillingService.CreatePaymentLink | api/app/services/billing_service.py:119-150 | Adds one pending payment at the plan's price, or at the discounted one with the code applied, whose use it counts; or refuses the plan and changes nothing. |
| Billing.BillingService.ProcessWebhook | api/app/services/billing_service.py:159-216 | Completes the pending payment that a comment beginning with the tag names: the payment, its subscription, and its user's tier and expiry, all spelled out; or changes nothing. |
| Billing.BillingService.ActivateTrial | api/app/services/billing_service.py:219-242 | Fails exactly if the user has had a trial; else gives the tier and seven days from now, and marks the user. |
| Billing.BillingService.CancelSubscription | api/app/services/billing_service.py:245-265 | Marks the subscription that expires last and changes nothing else, or fails when there is none. |
| BillingCalls.SecondDeliveryIgnored | api/app/services/billing_service.py:177-182 | Delivering a webhook again changes no table. |
| BillingCalls.CommentNamesPayment | api/app/services/billing_service.py:167-175 | The comment that a purchase prints names its payment. |
| BillingCalls.TagsRemoved | api/app/services/billing_service.py:171-171 | All tags are removed, wherever they are, and nothing else is. |
| BillingCalls.CommentNames | api/app/services/billing_service.py:167-175 | A comment names a payment if it begins with the tag and the rest, without tags and white space around, is the printed identifier; one that does not begin with the tag names none. |
| BillingCalls.WebhookChangesExactly | api/app/services/billing_service.py:167-182 | A webhook changes the tables exactly if its comment begins with the tag and names a pending payment. |
| BillingCalls.ListedExactly | api/app/services/billing_service.py:89-92 | A text of names between commas, with white space around them, lists just these plans. |
| BillingCalls.AppliedExactly | api/app/services/billing_service.py:70-93 | A purchase applies a code exactly if it is not empty and, in capitals, is stored, active, within its time, below its limit and for the plan. |
| BillingCalls.PaidPurchaseIsCredited | api/app/services/billing_service.py:138-214 | A purchase paid for with its printed comment is completed, and its user gets the plan and its time; the tables after it are spelled out. |
| BillingCalls.CheckedPriceIsCharged | api/app/services/billing_service.py:106-136 | The price shown for a code is the price then asked, and none is shown exactly if the purchase fails or applies no code. |
| BillingCalls.OnlyTrialsShorten | api/app/services/billing_service.py:219-238 | A trial lowers an expiry exactly when more than a week was left; a webhook never does. |
| BillingRuns.StepRunsOperation | api/app/services/billing_service.py:119-265 | The steps of the runs are the operations, and the log is that of the changes of an expiry. |
| BillingRuns.CreditedExactlyOnce | api/app/services/billing_service.py:181-212 | In every run of purchases, webhooks, trials and cancellations a payment is completed exactly if it was credited, and then once, for its user and plan; completed payments and bought subscriptions are in bijection. |
| BillingRuns.CompletedIsFinal | api/app/services/billing_service.py:181-182 | A completed payment never changes again. |
| BillingRuns.RunExpiryClosedForm | api/app/services/billing_service.py:193-212 | In every run without a trial of the user, the stored expiry is the closed form of the credits given. |
| BillingRuns.SubscriptionSpans | api/app/services/billing_service.py:194-208 | In every run a bought subscription starts at the first clock reading of its webhook and ends at the expiry that all credits and trials up to then give. |
| BillingRuns.OneTrial | api/app/services/billing_service.py:220-236 | In every run each user gets at most one trial, and none who has had one; the mark is set exactly for those. |
| BillingRuns.TierFollowsLast | api/app/services/billing_service.py:211-237 | In every run a user's tier is "trial" after a trial, the plan after a payment, whichever was last. |
| BillingRuns.PromoUsesAccounted | api/app/services/billing_service.py:87-136 | In every run the uses of a code grow by the number of payments that carry it and never pass a limit they were within. |
| BillingRuns.RunPriced | api/app/services/billing_service.py:125-146 | In every run each payment asks its plan's price, or that with the discount of its code. |
| BillingRuns.AmountsBounded | api/app/services/billing_service.py:96-103 | Each amount is at least 1, and at most the plan's price unless its code has a negative fixed discount. |
| SessionAdmission.OneOrNone | api/app/services/session_service.py:49-49 | No row gives nothing, one row gives that row, and more raise. |
| SessionAdmission.BackupFoundExactly | api/app/services/node_service.py:10-35 | Raises exactly when the choice is ambiguous, finds nothing exactly when no other node is active, and else finds the only good backup. |
| SessionAdmission.AmbiguousMeansAChoice | api/app/services/node_service.py:15-35 | The choice is ambiguous exactly when two different nodes are good backups. |
| SessionAdmission.ThreeLocationsRaise | api/app/services/node_service.py:24-24 | A concrete set of three nodes for which the search raises. |
| SessionAdmission.SessionService.StartSession | api/app/services/session_service.py:19-97 | Adds the admitted row, field by field, and registers the token at the address of the node and, if there is one, at that of the backup; or changes and calls nothing. |
| SessionAdmission.SessionService.StopSession | api/app/services/session_service.py:100-142 | Ends an active session of that user, now, and calls the relays of its nodes; or changes and calls nothing. |
| SessionRuns.OneActiveSession | api/app/services/session_service.py:42-51 | In every run, with administrators stopping sessions and editing games and nodes, the sessions of each user begin and finish in turn, so the query for an existing one never raises. |
| SessionRuns.StartOutcome | api/app/services/session_service.py:26-76 | Which of the four errors a start raises in a reachable state, each exactly when; a failed start adds no row. |
| SessionRuns.StopOutcome | api/app/services/session_service.py:105-119 | Exactly when a stop ends a session, and that it changes nothing but that row's status and end. |
| SessionRuns.EditsTouchNoSession | api/app/services/session_service.py:26-38 | An edit of games or nodes is what later starts find, and changes no session. |
| SessionRuns.AdmittedSession | api/app/services/session_service.py:26-73 | A new row is for that user, game, node and token, from now on; it is on several paths exactly if that was asked for and another node is active, and its backup is then a good one. |
| SessionRuns.RunIsSound | api/app/services/session_service.py:64-73 | In every run `multipath_enabled` holds exactly for rows with a backup, which is another stored node, and a row has an end exactly if it is stopped. |
| SessionRuns.StoppedWhereStarted | api/app/services/session_service.py:121-140 | A session that its user stops is unregistered once for each of its nodes, under its token, and on just the relays where it was registered exactly if its nodes still have those addresses between them; one that an administrator stops is unregistered nowhere. |
| SessionRuns.StopUndoesStart | api/app/services/session_service.py:78-140 | If no node is edited from a start to its user's stop, whatever else happens, the start registered the token once on each node of its row, and the stop unregisters it on just these. |

## Left out

- Sockets, threads, WinDivert handles, HTTP and scheduling: arrivals, send results and bound ports come with the events; a send error that the source only logs has no event of its own.
- Injection.ReceiveThread: statistics and keepalive times of the threads are left out, and nothing ever enters the latter. The `connections` and `reverse_map` tables are left out, since "first entry" is an arbitrary choice; the route comes with the arrival. The capture thread's sends are not modelled beyond its header parser.
- UdpProxy.Proxy: a step is one access to shared state or one datagram; the removal of an answered keepalive and the time computed from it are one, as their lock is held throughout. Round-trip times are whole milliseconds; runs begin after a start whose sends succeeded.
- RelaySteps.Exec: counters are read between steps only. The periodic cleanup is a series of removals; a step may remove any token.
- RelayServer.Relay.Register: the API's list of port texts arrives as numbers; entries that are no port are dropped before.
- PacketBuilder.BuildUdpResponse: a debug build panics where the u16 lengths overflow; the model wraps as a release build does. The `Vec` capacity is not modelled.
- Net.ParseIp: the library's IPv6 parser is a parameter, of which only is used that its texts have a colon and no slash.
- FilterBuilder.CidrToIpRange: errors carry the offending text but not the library's message.
- FilterLanguage.Parse: models the part of WinDivert's language that the builder emits; the driver's own compiler is not part of this model.
- u64 and gauge counters are unbounded; the u32 sequence counter wraps as in the source.
- Billing.Config: `str.upper` and the UUID functions are parameters; `UuidLaws` says what is assumed of them where it is needed. Webhook comments are texts. The stored `donatepay_comment` column is left out: it is set before the identifier is assigned, so only the comment of the payment page names the payment.
- Billing.BillingService: handlers are serial transactions and edits by administrators are not events; currency, page URL and the webhook's unused signature check are left out.
- RateLimit.RateLimiter: Redis and the API share one clock, and the pipeline is atomic.
- SessionAdmission.SessionService: a relay call is recorded, not its success; a node's address stands for its IP address and API port. The token is a parameter, and tokens of two sessions may be equal as in the source.
- Authentication, API keys, signatures, admin CRUD, listings, configuration, metrics text, the web pages and infrastructure scripts: no invariant of the kind proved here.
