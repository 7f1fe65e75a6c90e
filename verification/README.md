# Verified model of mtr-rs

mtr-rs traces a network path. A client (`mtr-core`) runs a probing engine and talks, over a line
protocol (`mtr-proto`), to a privileged helper (`mtr-packet`) that builds probe packets, parses what
routers send back and matches it to outstanding probes. This project models all three parts in Dafny
and proves what they promise.

**The engine.** `EngineSpec.dfy` gives the state machine of `engine.rs` as a function of state, event,
time and random draws; `Engine.dfy` is the engine as an object with hop objects and a slot array, updated
in place, and its methods do to the object exactly what the function does to its view. `EngineJournal.dfy`
puts an observer beside it that sees only the events going in and the commands coming out and keeps an
unbounded journal of every probe since the last reset. `EveryRunAgrees` says that after any run at all
the slot table, the history rings and the counters are what the journal says. `EngineTheorems.dfy` draws
the consequences for tokens, histories, loss and statistics; `EngineSchedule.dfy` is about when the engine
acts, which hop it probes and why a run with a cycle count ends.
`EngineDisplay.dfy` has the observer also note who answered and what failed: `EveryRunShows` says that each
hop shows that and nothing else, so a reply is seen on the hop it belongs to. `EngineBatch.dfy` says when a
batch ends, how its probes are spaced and what each setting changes, in terms of hops and time alone.
`Hop.dfy`, `History.dfy` and `Stats.dfy` are the objects a hop consists of; `Jitter.dfy` is about the
jitter figures.

**The helper.** `Construct.dfy` builds packets, `Deconstruct.dfy` parses messages, and `ProbeIdentity.dfy`
closes the circle: build, let a router quote, parse, match, and the same probe comes back, exactly when no
fixed port shadows it; and conversely whatever is matched was named by the message, for all bytes. `ProbeTable.dfy`, `UnixBackend.dfy` and `Helper.dfy` are the table edited by
`swap_remove` and what walks over it; `CommandBuffer.dfy` is the bounded input buffer against a
byte-at-a-time automaton. `Turns.dfy` says what one turn of the main loop does to the world and what follows
for whole runs: replies plus live probes account for every command, and every live probe is one that was
sent, with its bytes on record. `Serve.dfy` is the loop, which logs its turns and does exactly that.

**The protocol.** `Decimal.dfy` and `Tokenizer.dfy` are numbers and words; `Requests.dfy`, `Responses.dfy`
and `Mpls.dfy` encode and parse, `RequestRoundTrip.dfy` and `ResponseRoundTrip.dfy` prove that nothing is
lost; `Cdecode.dfy` is the helper's own decoder with C semantics and `DecodersAgree.dfy` says when it and
the strict parser agree. `EndToEnd.dfy` joins the two sides: what the engine asks for is what the helper
does, and what the helper reports is what the hop shows.

Conventions: instants are reals (engine) or whole microseconds (probe table). Random numbers, the clock,
socket outcomes and bytes read are parameters. IP address text is a parameter (`IpText`) whose only
assumed property is that reading inverts showing and that the text is one word. Where the source has a
loop or updates something, the model has a method with a loop or a class; each is proved equal to a
function, and the lemmas are about that function.

## Findings

Each of these is a place where the code does less than its surroundings suggest; the exact condition is
proved.

- A UDP probe with fixed ports is not found again when a fixed port equals the sequence number of another
  live probe (`match_udp` tries only the first of three candidate numbers). `QuotedProbeIsFoundIff` gives
  the condition, `LowPortsAreNotShadowed` says that fixed ports below 33434 are safe, and
  `FixedPortCanShadow` is the instance that fails.
- `find_by_sequence` names the right probe exactly when no earlier table entry was drawn a multiple of
  32102 draws away (`LookupIsRightIff`); `OutlivingTheWindowMisroutes` is the instance that fails.
- The strict parser accepts a `local-port` below 1024 that the helper's decoder refuses; this is the only
  difference on lines both can see (`DecodersAgreeOnLines`). A `timeout` above 2^31 - 1 is taken by both
  but wraps to a negative number in the decoder (`DecodeOfEncode`).
- `ssd` is not always the true sum of squared deviations, because each running mean is truncated.
  `SsdIdentity` states the exact error and `SsdIsExactIff` the exact condition for there to be none; exact
  means are sufficient (`SsdIsExact`) and not necessary (`TruncationCanCancel`), and `TruncationShows` is an
  instance that differs.

## Model

| member | source | states |
|---|---|---|
| Engines.Engine.constructor | crates/mtr-core/src/engine.rs:96-123 | a new engine is in the initial state, its 256 hops and 65536 slots unshared |
| Engines.Engine.Handle | crates/mtr-core/src/engine.rs:185-196 | an event changes the object as the state machine changes its view, and returns the same commands |
| Engines.Engine.Tick | crates/mtr-core/src/engine.rs:210-243 | finished, paused, grace, pacing, cycle count, batch step: in this order, each as specified |
| Engines.Engine.SendBatch | crates/mtr-core/src/engine.rs:253-310 | one hop probed unless cached, then the batch ends or advances; whole new state and commands |
| Engines.Engine.ScanBatch | crates/mtr-core/src/engine.rs:283-296 | the scan stops at the first earlier hop that shows the target and counts the unanswered hops before it |
| Engines.Engine.EndBatch | crates/mtr-core/src/engine.rs:296-309 | when the batch ends, with how many hosts, and where the next one starts |
| Engines.Engine.ChooseProbe | crates/mtr-core/src/engine.rs:256-273 | packet size and bit pattern are chosen at the start of a batch only |
| Engines.Engine.SendQuery | crates/mtr-core/src/engine.rs:313-347 | token taken and advanced, hop counted, slot written, and one command whose parameters come from the settings |
| Engines.Engine.OnProbe | crates/mtr-core/src/engine.rs:350-420 | replies, timeouts and failures by token; everything else, and everything while paused, ignored |
| Engines.Engine.RecordProbeFailure | crates/mtr-core/src/engine.rs:424-431 | a terminal failure closes the token and pins the error on its hop, once |
| Engines.Engine.OnAction | crates/mtr-core/src/engine.rs:433-467 | every user action, with the whole new state |
| Engines.Engine.Reset | crates/mtr-core/src/engine.rs:470-479 | all hops as new, no token in flight, batch back at the first hop, token counter kept |
| Engines.Engine.EndTransit | crates/mtr-core/src/engine.rs:246-250 | only the in-flight counter of every hop changes |
| Engines.Engine.MaxHop | crates/mtr-core/src/engine.rs:163-176 | the displayed path ends at the first hop that shows the target or an error, otherwise one past the last that answered, within max_ttl |
| Engines.Engine.DisplayRange | crates/mtr-core/src/engine.rs:179-183 | the range starts at the first hop, never runs backwards, and contains every answering hop up to the end of the path |
| EngineJournal.HandleAgrees | crates/mtr-core/src/engine.rs:185-196 | one event of any kind keeps slot table, rings and counters in agreement with the journal of what went in and out |
| EngineJournal.EveryRunAgrees | crates/mtr-core/src/engine.rs:95-480 | after every run from every configuration the engine agrees with the journal |
| EngineJournal.SendAgrees | crates/mtr-core/src/engine.rs:313-347 | sending enters one open probe in the journal and keeps agreement |
| EngineJournal.AnswerAgrees | crates/mtr-core/src/engine.rs:350-431 | any answer under any token settles at most the latest probe under it and keeps agreement |
| EngineTheorems.InFlightTokensDiffer | crates/mtr-core/src/engine.rs:319-324 | two tokens in flight never name the same probe of the same hop |
| EngineTheorems.InFlightIff | crates/mtr-core/src/engine.rs:369-375 | a token is in flight iff a probe was sent under it since the reset, is the latest under it, and is not finally answered |
| EngineTheorems.StrayAnswerIsIgnored | crates/mtr-core/src/engine.rs:351-373 | duplicate, stale, unknown and paused answers change nothing and cause nothing |
| EngineTheorems.ReplySettlesOneEntry | crates/mtr-core/src/engine.rs:363-401 | an accepted reply settles exactly the log entry of the probe last sent under its token; one hop, one slot |
| EngineTheorems.RttsAreFinal | crates/mtr-core/src/engine.rs:369-408 | over any run without a reset, an entry that became a round-trip time never changes again |
| EngineTheorems.RepliesNeverExceedSends | crates/mtr-core/src/stats.rs:29-93 | returned plus transit never exceeds xmit; returned is the number of answered entries, xmit the length of the log |
| EngineTheorems.LossIsAlwaysMeaningful | crates/mtr-core/src/stats.rs:80-91 | in every reachable state dropped is non-negative and loss within 0 .. 100000 |
| EngineTheorems.HopStatisticsAreCoherent | crates/mtr-core/src/stats.rs:37-77 | in every run a hop's figures are coherent with exactly the RTTs heard for it since the reset |
| EngineTheorems.TokensCycle | crates/mtr-core/src/engine.rs:314-318 | over any run tokens are handed out in order from 33000 and wrap after 32536, whatever happens in between |
| EngineDisplay.HandleShown | crates/mtr-core/src/engine.rs:185-196 | one event of any kind keeps every hop showing what an observer noted: address, labels, error, flags, last time heard, responders |
| EngineDisplay.EveryRunShows | crates/mtr-core/src/hop.rs:98-166 | after every run from every configuration each hop shows the sender of its last reply that may be shown, the labels of the reply that changed it, the error of its last answer, and its responders with their first and last times and counts |
| EngineDisplay.ReplyShowsItsSender | crates/mtr-core/src/engine.rs:376-401 | after an accepted reply the hop shows the sender unless that is the target before its due TTL; labels taken iff the address changed; error iff no-route-host |
| EngineDisplay.RespondersAfterReply | crates/mtr-core/src/hop.rs:110-131 | a reply enters its sender once, with its labels and time, or updates its last time, RTT and count |
| EngineDisplay.ResolveIffNew | crates/mtr-core/src/engine.rs:386-401 | a name is asked for iff the sender was never heard at that hop and is remembered now |
| EngineDisplay.AnswerWritesOneEntry | crates/mtr-core/src/engine.rs:363-431 | the history entry of the answered probe becomes RTT, word and labels, or lost; all other entries stay |
| EngineBatch.BatchEndsIff | crates/mtr-core/src/engine.rs:282-309 | a batch ends iff the last TTL is reached, an earlier hop shows the target at or past the due TTL, or from the due TTL on this hop shows it or more than max_unknown hops scanned are silent; with how many hosts, and where the next hop is |
| EngineBatch.SilentPathIsGivenUp | crates/mtr-core/src/engine.rs:298-303 | six silent hops end a batch that allows five, far from the last TTL |
| EngineBatch.UnknownIsASet | crates/mtr-core/src/engine.rs:283-296 | the count of the scan is the size of the set of silent hops |
| EngineBatch.GapsMakeAnInterval | crates/mtr-core/src/engine.rs:234-236 | as many gaps between probes as the batch has hosts make up one interval |
| EngineBatch.CachedHopIsSkippedIff | crates/mtr-core/src/engine.rs:274-281 | a hop is passed over iff the cache is on, the hop is up and answered within the cache time |
| EngineBatch.BatchHasOneSize | crates/mtr-core/src/engine.rs:256-273 | size and pattern are chosen with the first hop of a batch and kept for the rest |
| EngineBatch.GraceStartsIff | crates/mtr-core/src/engine.rs:226-230 | the grace period starts iff the cycles are done and the run is not interactive or is forced to end |
| EngineBatch.WakeIsAnnounced | crates/mtr-core/src/engine.rs:185-208 | every event ends with the one announcement of when to wake, which is the end of grace, the next send or at once, and none when finished or paused |
| EngineBatch.FirstTickProbes | crates/mtr-core/src/engine.rs:96-123 | the first tick of a new engine probes the first hop of the range under token 33000 and touches no other hop |
| EngineBatch.TtlRangeStaysProper | crates/mtr-core/src/engine.rs:433-467 | no action makes the TTL range improper; a TTL out of range becomes the nearest bound |
| EngineBatch.SettingsChangeThemselves | crates/mtr-core/src/engine.rs:433-467 | each setting changes itself and nothing else |
| EngineBatch.PauseAndRangeChangeThemselves | crates/mtr-core/src/engine.rs:433-467 | pausing and resuming touch nothing else; a first TTL moves the batch at most forward to the new first hop |
| EngineBatch.ResetForgetsOnlyProbes | crates/mtr-core/src/engine.rs:433-480 | a reset, or a change of protocol, forgets probes and answers; tokens, cycles, timing, pause and other settings stay |
| EngineSchedule.AtMostOneProbe | crates/mtr-core/src/engine.rs:185-196 | an event sends at most one probe, only a tick does, to the batch hop, with TTL batch_at + 1 |
| EngineSchedule.DrawnProbeIsInRange | crates/mtr-core/src/engine.rs:258-272 | a random packet size lies from 28 up to below the size asked for, a random pattern from -511 to -256; fixed ones are used as given |
| EngineSchedule.DrawDecidesSize | crates/mtr-core/src/engine.rs:258-266 | the random size is 28 plus what the draw leaves when divided by the width of the range |
| EngineSchedule.EarlyTickIsIdleIff | crates/mtr-core/src/engine.rs:198-224 | a tick before the announced wake-up is idle iff the wake-up is a deadline |
| EngineSchedule.EarlyTickIsIdle | crates/mtr-core/src/engine.rs:198-224 | with a clock that does not run backwards an early tick changes nothing |
| EngineSchedule.DueTickProgresses | crates/mtr-core/src/engine.rs:198-237 | a tick at or after the announced wake-up always makes progress: the run finishes, grace starts, the batch advances or ends |
| EngineSchedule.DestinationStopsTheBatch | crates/mtr-core/src/engine.rs:282-309 | once hop t shows the destination, one batch step brings batch_at to at most t |
| EngineSchedule.BatchStaysWithinDestination | crates/mtr-core/src/engine.rs:282-309 | and it stays there over ticks, answers and user actions in any order, while hop t shows the destination when a tick comes and the first TTL stays at or before t |
| EngineSchedule.ReportRunsEnd | crates/mtr-core/src/engine.rs:210-310 | a report run of N cycles is finished after N * (max_ttl - first_ttl + 1) + 2 due ticks; then the first hop was probed exactly N times, no hop more, counts never rise along the path, and the end was announced exactly once |
| EngineSchedule.PlayAllAdvances | crates/mtr-core/src/engine.rs:210-310 | every due tick uses up at least one of the ticks left, answers use up none |
| EngineSchedule.FinishedIsAnnounced | crates/mtr-core/src/engine.rs:239-243 | the event that finishes the run announces it once, no other event does, and a finished run stays finished |
| Hops.Hop.RecordSend | crates/mtr-core/src/hop.rs:98-106 | counters, up flag and history after a send; the new send counter is returned |
| Hops.Hop.RecordReply | crates/mtr-core/src/hop.rs:110-142 | responder, address, error, statistics and history after a reply; tells whether the responder is new and kept |
| Hops.Hop.RecordNoReply | crates/mtr-core/src/hop.rs:144-149 | a timeout marks the history entry and nothing else |
| Hops.Hop.RecordSendError | crates/mtr-core/src/hop.rs:156-161 | error pinned, transit cleared, entry lost, send count kept |
| Hops.Hop.Reset | crates/mtr-core/src/hop.rs:164-166 | back to a new hop |
| Hops.ResponderIsCounted | crates/mtr-core/src/hop.rs:110-131 | responders stay distinct and at most 128; every reply is counted once unless the table is full of others |
| Histories.History.PushSent | crates/mtr-core/src/history.rs:54-70 | a push appends, evicts the oldest when full and moves the base |
| Histories.History.RecordOutcome | crates/mtr-core/src/history.rs:72-98 | an outcome changes the entry of its send counter if it is still there |
| Histories.PushIsLogPush | crates/mtr-core/src/history.rs:54-70 | pushing onto the ring is pushing onto the unbounded log it is the window of |
| Histories.OutcomeIsLogOutcome | crates/mtr-core/src/history.rs:72-98 | settling in the ring is settling in the log, evicted entries included |
| Stats.RttStats.RecordReply | crates/mtr-core/src/stats.rs:37-77 | the sequence of in-place updates is one step of the fold |
| Stats.RttStats.Loss | crates/mtr-core/src/stats.rs:80-87 | over the reals the formula is the exact truncated quotient |
| Stats.MeanForms | crates/mtr-core/src/stats.rs:59-63 | the incremental mean is the truncated quotient of the running total |
| Stats.StatisticsAreCoherent | crates/mtr-core/src/stats.rs:37-77 | best and worst are the extremes, the mean lies between, jitters are bounded by the spread, jinta by 16 jworst, ssd never falls |
| Stats.JitterEstimatorFits | crates/mtr-core/src/stats.rs:70-76 | below 2^27 microseconds no intermediate value of the jitter estimator leaves 32 bits |
| Jitter.WorstJitterIsTheGreatest | crates/mtr-core/src/stats.rs:38-58 | the worst jitter is one of the jitters between neighbouring RTTs and none is greater |
| Jitter.JitterMeanErrorBound | crates/mtr-core/src/stats.rs:66-68 | the running jitter mean stays within n of the true mean of the jitters, in both directions, for every series |
| Jitter.EstimatorKeepsFifteenSixteenths | crates/mtr-core/src/stats.rs:69-70 | the interarrival estimate keeps fifteen sixteenths of its value and adds the jitter, up to rounding |
| Stats.MeanErrorBound | crates/mtr-core/src/stats.rs:59-63 | the truncated mean never exceeds the true one and lags it by at most (n - 1) / 2 |
| Stats.SsdIdentity | crates/mtr-core/src/stats.rs:59-65 | the one-pass ssd is the two-pass sum less an exact drift |
| Stats.SsdIsExactIff | crates/mtr-core/src/stats.rs:59-65 | ssd is the true sum of squared deviations iff what truncation took from the squared sum is n times what it took from the updates |
| Stats.SsdIsExact | crates/mtr-core/src/stats.rs:59-65 | with no truncation ssd is the true sum of squared deviations |
| Stats.TruncationShows | crates/mtr-core/src/stats.rs:59-65 | a series for which truncation makes ssd differ |
| Stats.TruncationCanCancel | crates/mtr-core/src/stats.rs:59-65 | a series with a truncated mean for which ssd is exact all the same |
| Stats.LossIsAPercentage | crates/mtr-core/src/stats.rs:80-91 | dropped lies within 0 .. xmit, loss within 0 .. 100000, and loss is total iff nothing came back |
| Construct.Checksum | crates/mtr-packet/src/backend/unix/construct.rs:27-40 | the loop sums, the folding loop ends and keeps the one's-complement residue |
| Construct.FoldKeepsResidue | crates/mtr-packet/src/backend/unix/construct.rs:34-38 | one fold shrinks the sum, keeps it non-zero and keeps its residue |
| Construct.StoredChecksumVerifies | crates/mtr-packet/src/backend/unix/construct.rs:74-83 | a packet with its checksum stored in its zeroed field has checksum 0 (RFC 1071) |
| Construct.PacketSize | crates/mtr-packet/src/backend/unix/construct.rs:43-70 | the size computed step by step is the larger of request and headers, IPv6 header taken off again |
| Construct.GrantedSizesFitBuilders | crates/mtr-packet/src/backend/unix/construct.rs:43-70 | every granted size keeps the builders in bounds |
| Construct.SizeGrantedIff | crates/mtr-packet/src/backend/unix/construct.rs:43-70 | a size is granted iff the version is 4 or 6 and the request fits 9000 bytes, and is the request or, if that is too small, exactly the headers |
| Construct.IcmpEcho | crates/mtr-packet/src/backend/unix/construct.rs:74-83 | header fields in their places over the untouched payload, IPv4 message verifies |
| Construct.UdpDatagram | crates/mtr-packet/src/backend/unix/construct.rs:159-180 | ports and length in their places; pseudo-header and datagram verify in both modes; with checksum-as-sequence the field still carries the sequence |
| Construct.UdpSourcePortFromPid | crates/mtr-packet/src/backend/unix/construct.rs:86-92 | the one unprivileged port congruent to the low half of the pid modulo 64512, so that half itself when it is unprivileged |
| Construct.PseudoHeaderSum | crates/mtr-packet/src/backend/unix/construct.rs:135-154 | both families' pseudo-headers add up to addresses, protocol number and length |
| ProbeIdentity.BuildDatagram | crates/mtr-packet/src/backend/unix/datagram.rs:33-67 | the buffer carries the probe's identity, verifies, is filled with the bit pattern, and the ports chosen become the probe's own |
| ProbeIdentity.QuotedProbeIsFoundIff | crates/mtr-packet/src/backend/unix/deconstruct.rs:135-339 | a uniquely numbered probe quoted by any router is found with the right word iff no fixed port shadows it |
| ProbeIdentity.QuotedHeadersParse | crates/mtr-packet/src/backend/unix/deconstruct.rs:135-234 | quoted IP headers of any length are read back exactly |
| ProbeIdentity.UdpMatches | crates/mtr-packet/src/backend/unix/deconstruct.rs:321-339 | matching by ports and checksum finds the probe iff it is not shadowed, in all three placements |
| ProbeIdentity.LowPortsAreNotShadowed | crates/mtr-packet/src/backend/unix/construct.rs:103-131 | fixed ports below 33434 shadow nothing |
| ProbeIdentity.FixedPortCanShadow | crates/mtr-packet/src/backend/unix/deconstruct.rs:321-339 | a UDP probe sent to a port that is another live probe's sequence is never found by any quotation |
| ProbeIdentity.WordFromWire | crates/mtr-packet/src/backend/unix/deconstruct.rs:199-218 | the result word from the type and code bytes of an error message |
| ProbeIdentity.EchoReplyIsFound | crates/mtr-packet/src/backend/unix/deconstruct.rs:271-290 | our own echo request, answered, is found and reported as a reply |
| ProbeIdentity.MatchedEntryIsNamed | crates/mtr-packet/src/backend/unix/deconstruct.rs:271-339 | the converse of finding: whatever entry is matched, the message names it, by our ICMP identifier and its number, by its UDP addresses, ports and number, or by its stream port; and no earlier entry has its number |
| ProbeIdentity.ForeignMessageIsIgnored | crates/mtr-packet/src/backend/unix/deconstruct.rs:271-339 | a message that names no entry is matched to none |
| ProbeIdentity.OtherProcessesEchoIsIgnored | crates/mtr-packet/src/backend/unix/deconstruct.rs:283-294 | an echo reply with our number and another identifier is not ours |
| ProbeIdentity.MatchedBytesNameTheirProbe | crates/mtr-packet/src/backend/unix/deconstruct.rs:135-339 | for all bytes: a matched message is an echo reply with our identifier and the entry's number, or an error that quotes a whole IP packet with the entry's identity |
| ProbeIdentity.ParsedQuotationIsWhole | crates/mtr-packet/src/backend/unix/deconstruct.rs:135-234 | a message with a readable quotation is an error type, eight bytes, a whole IP header and at least eight bytes of transport |
| ProbeIdentity.OuterHeaderIsSkipped | crates/mtr-packet/src/backend/unix/deconstruct.rs:238-248 | an outer IPv4 header of any length is skipped exactly |
| ProbeIdentity.OuterHeaderMustBeIcmp | crates/mtr-packet/src/backend/unix/deconstruct.rs:238-248 | a message with an outer header is parsed only if that header is a whole IPv4 header that says ICMP |
| ProbeIdentity.QuotationCarriesLabels | crates/mtr-packet/src/backend/unix/deconstruct.rs:95-128 | labels after a 128-byte quotation and foreign objects are the first eight encoded |
| Deconstruct.DecodeMpls | crates/mtr-packet/src/backend/unix/deconstruct.rs:95-128 | the walk ends on all bytes, stays in bounds and yields the labels of the object chain |
| Deconstruct.WalksToMpls | crates/mtr-packet/src/backend/unix/deconstruct.rs:95-128 | any chain of foreign objects, then an MPLS object: the first eight entries come back |
| Deconstruct.LabelsOnlyFromChains | crates/mtr-packet/src/backend/unix/deconstruct.rs:95-128 | the converse: labels come only from an extension of version 2 with a chain of whole foreign objects and then a whole MPLS object, and are that object's |
| Deconstruct.LabelsRoundTrip | crates/mtr-packet/src/backend/unix/deconstruct.rs:112-124 | encoded label stacks decode to themselves; a truncated last entry is not read |
| Deconstruct.LabelRoundTrip | crates/mtr-packet/src/backend/unix/deconstruct.rs:112-124 | one entry's bit fields survive (RFC 3032 section 2.1) |
| ProbeTables.ProbeTable.NextSequence | crates/mtr-packet/src/probe_table.rs:59-63 | the k-th draw is 33434 + k mod 32102 |
| ProbeTables.ProbeTable.Alloc | crates/mtr-packet/src/probe_table.rs:67-85 | a full table takes no probe and draws no number; otherwise one probe is appended |
| ProbeTables.ProbeTable.Remove | crates/mtr-packet/src/probe_table.rs:88-90 | the last entry moves into the hole |
| ProbeTables.ProbeTable.FindBySequence | crates/mtr-packet/src/probe_table.rs:93-95 | the first live probe with the number, or none |
| ProbeTables.ProbeTable.Expire | crates/mtr-packet/src/probe_table.rs:98-111 | exactly the overdue probes leave, one no-reply each, despite the swaps |
| ProbeTables.ProbeTable.NextTimeout | crates/mtr-packet/src/probe_table.rs:114-119 | the time to the earliest deadline, never negative |
| ProbeTables.DrawsCollideIff | crates/mtr-packet/src/probe_table.rs:59-63 | two draws share a number iff they are a multiple of 32102 apart |
| ProbeTables.LookupIsRightIff | crates/mtr-packet/src/probe_table.rs:93-95 | a lookup names the right probe iff no earlier entry is a multiple of 32102 draws away |
| ProbeTables.FindsTheVeryProbe | crates/mtr-packet/src/probe_table.rs:59-95 | within the last 32102 draws numbers are unique and every lookup is right |
| ProbeTables.OutlivingTheWindowMisroutes | crates/mtr-packet/src/probe_table.rs:59-95 | outside the window a lookup can name the wrong probe |
| ProbeTables.KeptSwapRemove | crates/mtr-packet/src/probe_table.rs:88-90 | a swap removal takes exactly one entry out of any filtered view of the table |
| UnixBackend.Respond | crates/mtr-packet/src/backend/unix/mod.rs:201-224 | the probe leaves the table and its token gets one reply, which names the sender, the word, the labels and the time since the probe left |
| UnixBackend.ProbeReplyAnswers | crates/mtr-packet/src/backend/unix/mod.rs:201-224 | the reply has the probe's token, the word, the sender and the labels, and departure plus the time it gives is the time of arrival, as long as that fits 32 bits |
| UnixBackend.RttIsTimePassed | crates/mtr-packet/src/probe_table.rs:133-135 | elapsed microseconds exactly within 32 bits, zero for a clock that ran backwards, the greatest value beyond |
| UnixBackend.Deliver | crates/mtr-packet/src/backend/unix/mod.rs:226-240 | a message answers the probe it matches, with its own sender and labels, or is dropped |
| UnixBackend.CheckStreams | crates/mtr-packet/src/backend/unix/mod.rs:176-199 | every stream probe inspected once, exactly the completed ones answered and gone, all others untouched |
| UnixBackend.StreamsAreAnswered | crates/mtr-packet/src/backend/unix/mod.rs:176-199 | every stream probe heard of is told what its socket said, as a reply from its destination or the word of its error; every other entry is kept |
| UnixBackend.AnswersConserveTokens | crates/mtr-packet/src/backend/unix/mod.rs:176-199 | every token is either still in the table or answered once |
| UnixBackend.StartStream | crates/mtr-packet/src/backend/unix/mod.rs:128-174 | no source port tried twice, at most 32101 attempts, the first attempt not meeting a taken port decides, only one entry changed, port equals sequence on success |
| CommandBuffers.CommandBuffer.TakeLines | crates/mtr-packet/src/command.rs:40-51 | all terminated lines, then overflow iff 4095 bytes remain |
| CommandBuffers.CallIsRun | crates/mtr-packet/src/command.rs:29-51 | one read and one call yield what the byte-at-a-time automaton yields |
| CommandBuffers.FragmentationIsInvisible | crates/mtr-packet/src/command.rs:29-51 | however the stream is cut into reads, events and leftover are the automaton's, and space remains |
| CommandBuffers.LineOrOverflow | crates/mtr-packet/src/command.rs:29-51 | a line of up to 4094 bytes comes through whole; the 4095th byte of a longer one discards it, once, and reading starts afresh |
| Helpers.Helper.SendProbe | crates/mtr-packet/src/command.rs:118-181 | the reply for every refusal and every failed send, a refused stream connection included, with the table put back; otherwise one entry added that holds what was resolved and whose bytes carry its identity |
| Helpers.Helper.DispatchLine | crates/mtr-packet/src/command.rs:86-116 | the one reply each line calls for, or one more live probe with its launch on record; tokens add up |
| Helpers.Helper.SupportWords | crates/mtr-packet/src/command.rs:69-83 | the answer to each feature question in terms of what the helper can do |
| Helpers.Helper.AnnouncesWhatItAccepts | crates/mtr-packet/src/command.rs:69-150 | a decodable request is refused for its family iff that family's feature is answered no, for its protocol iff that one's is, and then for lack of room iff 10240 probes are live |
| Helpers.Helper.FailedSendIsReported | crates/mtr-packet/src/command.rs:153-180 | a refused stream is a reply from the destination after the time that passed; every other failure is the word of its error |
| Helpers.Helper.Launch | crates/mtr-packet/src/backend/unix/mod.rs:259-289 | how sending ends, in every case; on success addresses, ports, departure and bytes; all other entries unchanged |
| Helpers.Helper.SendSucceedsIff | crates/mtr-packet/src/backend/unix/mod.rs:128-289 | sending succeeds iff address and size are valid and the system sends, or opens a stream after nothing but taken ports; otherwise the error is the system's, or an invalid argument |
| Serve.WriteBlocking | crates/mtr-packet/src/lib.rs:66-80 | nothing lost or sent twice; how much gets out and how it ends |
| Serve.AttemptWritesWhatFits | crates/mtr-packet/src/lib.rs:66-80 | as much gets out as the attempts can take up to the first hard failure; if that is not all, it is for such a failure or for lack of further attempts |
| Serve.WriteReplies | crates/mtr-packet/src/lib.rs:135-170 | replies in order up to the first that fails, partial writes included; after a fatal error the rest is tried all the same |
| Serve.WhatGetsOut | crates/mtr-packet/src/lib.rs:135-170 | the text is each reply in order as far as its attempts go; writing ends early only at a reply that did not get out, and only a stubborn writer goes past one that failed for good |
| Serve.Receive | crates/mtr-packet/src/backend/unix/mod.rs:297-325 | every arrival matched and answered in order, then every completed stream unless an error was fatal; no token lost |
| Serve.TakeTurn | crates/mtr-packet/src/lib.rs:131-165 | the turn's log: what was received, which bytes were taken, what expired, the result of each line, and whether the turn ends the loop |
| Serve.Serve | crates/mtr-packet/src/lib.rs:99-176 | the log of a valid run that stops at the first turn that ends it, for the reason that turn gives, and the text the client gets; replies plus live probes equal the tokens of the lines and overflows consumed; on normal exit each was answered once and written |
| Serve.TurnEndsFor | crates/mtr-packet/src/lib.rs:131-176 | the cause of each way a turn can end, and what going on or ending well implies: every reply written, flushed, no fatal error |
| Turns.TurnAccounts | crates/mtr-packet/src/lib.rs:131-165 | one turn: replies plus live probes after it are the live probes before it plus what the automaton makes of the bytes read |
| Turns.RepliesNameSenders | crates/mtr-packet/src/backend/unix/mod.rs:201-240 | every reply to the messages of a turn speaks of one of them, in their order: its sender, its kind, its labels, and the time since a live probe left |
| Turns.ForeignArrivalsAreIgnored | crates/mtr-packet/src/backend/unix/mod.rs:226-240 | messages that name no live probe change nothing and are not answered |
| Turns.StreamsAreHeardEveryTurn | crates/mtr-packet/src/backend/unix/mod.rs:297-325 | unless an error was fatal, each stream probe is answered with what its socket said or kept |
| Turns.StoppedTurnOnlyReceives | crates/mtr-packet/src/lib.rs:131-165 | a turn ended by a fatal error or a broken read answers what arrived, reads nothing and dispatches nothing |
| Turns.FullTurnReadsAndSweeps | crates/mtr-packet/src/lib.rs:131-165 | every other turn reads what there is up to 4095 bytes with those held, closes at end of input only, keeps exactly the probes that are not overdue, and replies in the order of its phases |
| Turns.RunAccounts | crates/mtr-packet/src/lib.rs:99-176 | the same law after every run of any length |
| Turns.LiveProbesWereLaunched | crates/mtr-packet/src/lib.rs:99-176 | after every run each live probe is, unaltered, one that was launched, and its bytes carry its identity |
| Turns.LiveProbeIsFoundIff | crates/mtr-packet/src/backend/unix/deconstruct.rs:271-339 | after every run a uniquely numbered live probe quoted by a router is found iff no fixed port shadows it |
| Decimal.StrtolFull | crates/mtr-proto/src/cdecode.rs:62-87 | the saturating loop is the clamp of the literal's value, for any number of digits |
| Decimal.StrtolReadsPrinted | crates/mtr-proto/src/cdecode.rs:62-92 | a printed number is read back, by all three readers within their ranges |
| Decimal.PrintNatRoundTrip | crates/mtr-proto/src/request.rs:172-226 | decimal text denotes the number printed |
| Tokenizer.TokenizeLineText | crates/mtr-proto/src/tokenize.rs:37-72 | a line of words tokenizes to its token, name and arguments |
| Tokenizer.TokenizeGivesWords | crates/mtr-proto/src/tokenize.rs:54-72 | whatever tokenizes consists of words |
| Tokenizer.TokenizesIff | crates/mtr-proto/src/tokenize.rs:54-72 | a line is accepted as token, name and arguments iff it consists of exactly those words, at most 16 pairs, with a readable token |
| Tokenizer.SpacingIsInvisible | crates/mtr-proto/src/tokenize.rs:30-57 | any of the six blanks in any number before, between and after the words makes no difference |
| Tokenizer.TokenIsLeadingNumber | crates/mtr-proto/src/tokenize.rs:37-51 | the token is the number its word starts with kept to 32 bits, 0 without one, refused beyond 64 bits |
| Tokenizer.WordsOfUnwords | crates/mtr-proto/src/tokenize.rs:54-57 | splitting inverts joining with blanks |
| Requests.Encode | crates/mtr-proto/src/request.rs:172-226 | the string built piece by piece is the joined list of present fields |
| Requests.ParseProbeParams | crates/mtr-proto/src/request.rs:250-331 | the loops over the arguments compute the last valid value of each field or the first error in the parser's order |
| Requests.ReadNum | crates/mtr-proto/src/request.rs:157-167 | one pass: last occurrence wins, first bad occurrence is the error |
| RequestRoundTrip.ParseOfEncode | crates/mtr-proto/src/request.rs:172-331 | parse inverts encode on every well-formed request |
| RequestRoundTrip.ParsedIsEncodable | crates/mtr-proto/src/request.rs:229-331 | whatever is accepted is a well-formed request |
| RequestRoundTrip.ReencodeIsStable | crates/mtr-proto/src/request.rs:172-331 | re-encoding and re-parsing an accepted line gives the same request |
| Cdecode.DecodeSendProbe | crates/mtr-proto/src/cdecode.rs:100-133 | the loop is the fold over the arguments, stopping at the first error |
| DecodersAgree.DecodersAgreeOnLines | crates/mtr-proto/src/cdecode.rs:89-133 | on every line the strict parser accepts, the decoder succeeds iff local ports are at least 1024, and then both say the same |
| DecodersAgree.DecodeOfEncode | crates/mtr-proto/src/cdecode.rs:34-133 | over the wire the helper gets exactly the client's values and its own defaults |
| DecodersAgree.DecodesIff | crates/mtr-proto/src/cdecode.rs:100-133 | when the decoder succeeds, for arguments the strict parser accepts |
| Mpls.FormatMplsList | crates/mtr-proto/src/mpls.rs:54-68 | the string pushed together is the comma-joined list |
| Mpls.ParseMplsList | crates/mtr-proto/src/mpls.rs:22-51 | the loop reads groups of four until eight labels are complete; a bad field before that refuses the whole list |
| Mpls.ParseOfFormat | crates/mtr-proto/src/mpls.rs:22-68 | parsing inverts formatting for one to eight labels, and the list is one word |
| Mpls.AtMostEightLabels | crates/mtr-proto/src/mpls.rs:22-51 | never more than eight labels |
| Mpls.GarbageAfterEightIsIgnored | crates/mtr-proto/src/mpls.rs:22-51 | nothing behind the eighth label is looked at |
| Mpls.NumbersNarrow | crates/mtr-proto/src/mpls.rs:22-51 | any four 64-bit numbers make a label: 32 bits, 8 bits, a flag, 8 bits |
| Mpls.IncompleteGroup | crates/mtr-proto/src/mpls.rs:22-51 | up to three numbers left over are dropped, a field among them that is no number refuses the list |
| Responses.EncodeResponse | crates/mtr-proto/src/response.rs:169-196 | the string built piece by piece is the joined list of fields |
| ResponseRoundTrip.ParseOfEncodeResponse | crates/mtr-proto/src/response.rs:142-237 | parse inverts encode for every reply the helper can send, both forms of no-route-host included |
| ResponseRoundTrip.ReencodeResponseIsStable | crates/mtr-proto/src/response.rs:142-237 | every accepted reply line is one the helper could send, and survives re-encoding |
| Responses.RepetitionIsIgnored | crates/mtr-proto/src/response.rs:142-237 | of arguments with one name the first is read |
| Responses.NamesAreKnown | crates/mtr-proto/src/response.rs:199-237 | a name is unknown iff it is none of the eighteen words; no-route-host is a failure to send iff no address comes with it |
| Responses.AnswerIsReadIff | crates/mtr-proto/src/response.rs:142-166 | an answer is read iff the first address of its family reads and the time is a 32-bit number; labels that cannot be read count as none |
| Responses.OthersAreRead | crates/mtr-proto/src/response.rs:199-237 | only a feature's answer needs its argument; an unreadable reason or error number counts as none |
| EndToEnd.HelperReadsWhatEngineAsked | crates/mtr-core/src/engine.rs:313-347 | for every probe the engine asks for, the line written is decoded by the helper into exactly target, source, device, protocol, ports, type of service, mark, TTL, size, pattern and timeout as configured; only a local port below 1024 is refused |
| EndToEnd.FeatureQuestionIsAnswered | crates/mtr-packet/src/command.rs:69-100 | a feature question, encoded and parsed by either side, is answered with what the helper can do |
| EndToEnd.RefusalsOnTheWire | crates/mtr-packet/src/command.rs:86-116 | the text for a line that is no command, an unknown command, an overlong line and a question without a feature |
| EndToEnd.TurnedDownOnTheWire | crates/mtr-packet/src/command.rs:118-150 | the text for a request that does not decode, names a family or protocol the helper lacks, or finds the table full, in this order; and when there is none |
| EndToEnd.FailedSendReachesTheHop | crates/mtr-packet/src/backend/mod.rs:40-59 | the word of each error on the wire, and its effect when read: four of them show on the hop and end the probe, the others change nothing |
| EndToEnd.AnswerOnTheWire | crates/mtr-proto/src/response.rs:169-196 | the text of an answer: word, sender under the key of its family, time, labels |
| EndToEnd.AnswerReachesTheHop | crates/mtr-core/src/engine.rs:363-401 | what the helper reports about a probe, written, read and handled, shows the sender on the probe's hop, with the word's error and the time between departure and arrival as its last RTT |

## Left out

- Floating point: `f64` is `real`, so rounding of means, loss and pacing is not modelled; `gmean` and
  `stdev` (powers and roots) are absent.
- Stats.RttStats.Loss: is exact over the reals; in `f64` the original can be one less, as with 83 of 125
  returned, where it gives 33599 and the quotient is 33600.
- EngineSchedule.EarlyTickIsIdleIff: also covers clocks that run backwards, which the original's monotonic
  instants exclude; for those that do not, EarlyTickIsIdle says that an early tick changes nothing.
- Counter widths: `xmit`, `num_ping`, history sequence numbers and responder counts are unbounded; the
  `i32` and `u32` they live in would overflow after 2^31 probes. Negating a packet size of `i32::MIN` is not
  modelled.
- EngineTheorems.HopStatisticsAreCoherent: requires RTTs below 2^31 microseconds, because a larger `u32`
  becomes negative in the `as i32` cast; the engine model performs the cast, so journal agreement and
  the loss theorem need no such bound.
- Random numbers: a draw is any natural number reduced as the original reduces it; the generator itself is
  not modelled.
- IP address text and UTF-8: printing and parsing of addresses is a parameter with an inverse law; input
  bytes are taken as characters one to one.
- Sockets, `poll`, the error queue, socket options and privileges: replaced by what they report. Which
  sockets `receive` drains, and how queued errors become messages, is not modelled. The kernel's own UDP
  header on unprivileged sockets is taken to carry the same ports.
- Errno numbers: only the ones the code distinguishes have names; ECONNREFUSED is 111 as on Linux.
- Serve.Serve: runs over a finite script of turns; the blocking wait between turns is not modelled, and a
  partial line at end of input is dropped as in the original. Replies are written straight to the client;
  the buffering of standard output is one flag per turn that says whether the flush succeeded.
- Serve.WriteBlocking: works over a finite list of outcomes; with an endless `WouldBlock` the original never
  returns, and the model reports that the client blocks.
- UDP checksum 0 is sent as 0, as the code does; RFC 768's replacement by all ones is absent from both.
- EngineSchedule.ReportRunsEnd: covers runs without user actions, no cache and a proper TTL range;
  interactive runs need not end.
- The TUI, report formats, options and configuration files, name resolution and caches, and the
  asynchronous driver: presentation and plumbing around the parts above.
