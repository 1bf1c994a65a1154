# FluxGuard: what the two halves guarantee

FluxGuard protects a host with two programs that share only a set of eBPF maps. The packet
filter (`src/fluxguard_kern.c`) decides on every packet: a global Shields-Up bucket, then the
allowlist, the protocol filter, a per-source packet counter, the blacklist, and a token bucket
per source, whose exhaustion puts the source on the blacklist. The brain
(`src/fluxguard_brain.py`) polls the blacklist, turns each entry into a block with a deadline,
takes it down when the deadline has passed, and keeps the table of deadlines in a checkpoint
file. Metrics go out as Prometheus text, which the dashboard reads back.

This project models both programs, their supporting algorithms, and every interleaving of the
two, and proves what they guarantee over whole runs.

## How it is laid out

| file | what it holds |
|---|---|
| Words | 64- and 32-bit words with wrap-around, and the facts about wrapping the rest needs |
| TokenBucket, GlobalGate | the two refill algorithms, as objects updated in place and as functions; exact nano-token buckets to compare them with |
| ExactFactor | how fast an exact bucket may be and still be below the filter's |
| Pipeline | one transition system for both address families: packets, LRU evictions, writes from userspace |
| Decisions | what the filter decides and what each decision leaves behind, spelled out entry by entry, over single packets and whole runs |
| Filter | the XDP program over its real maps, IPv4 and IPv6 branch separately, proved to follow Pipeline |
| Sources | a machine that sees one source only, and the proof that the whole filter treats the source as that machine does |
| RateLimits, Accounting | rate bounds, latch, alerts, counters, and the gate's guarantees, over whole runs |
| Lifecycle | brain, checkpoint file and kernel as one transition system in small steps, with packets between any two and a crash at any point |
| BlockLifetime, Recovery | theorems about that system |
| StaleCheckpoint | a run in which failed saves make a restarted brain unblock early |
| Brain | the brain as a process over the filter's maps; its every execution is proved to be a run of Lifecycle |
| Text, Metrics, Dashboard | the exporter, the parser, and their round trip |
| Exposition | the text format spelled out: what a scrape says of each address and figure |
| Observed | from the kernel's map to the brain's dump, and from the brain's table to the dashboard |
| MapWalk, PerCpuCounter, RingDrain | dumping a map that changes meanwhile, lock-free counting, draining a ring buffer of arbitrary bytes |

## Main results

* **The token bucket lies between two exact ones.** Whatever wraps, it never passes a packet
  that an exact bucket of 1000 tokens and 1000 a second would drop. While no refill wraps, it
  passes every packet that an exact half-rate bucket can afford; the fastest bucket of which
  that is true earns a token in 1999999 ns. Both bounds hold per source in the whole filter,
  from load on, evictions included.
* **Rate bound.** A source that is never allowlisted gets at most (k+1)·1000 packets and 1000
  a second through in any window with k evictions of its bucket, if the map has room for the
  bucket whenever it needs one.
* **Independence.** A source's verdicts are those of a machine fed with that source's packets only.
* **The gate.** At most 549999 packets and 500000 a second in any window, a bound that is met;
  but a flood keeps it shut to everyone, and lets through at most 1099999 packets in all. An
  allowlisted packet passes exactly when the gate has a token or a refill due that makes one.
  While all traffic together keeps to 499990 packets a second and bursts of 450000, the gate
  drops nothing.
* **Why a packet is dropped.** Each outcome has its exact condition. Over any run the alerts in
  the ring are exactly the drops by a source's bucket that found room, each with its source, reason
  and time. And a conforming source whose protocols no rule bars has every packet
  that clears the gate passed.
* **A tick is atomic.** However packets interleave with it, a tick leaves the table that one
  atomic step would have left, and no blacklisted address is forgotten.
* **Denied until the deadline.** In any run from boot in which saves get to open the file,
  a block the brain records lets no packet of its source through until a tick starts at or
  after the deadline, across failed saves, failed deletes, crashes and restarts that follow,
  unless the source is allowlisted. And while the process does not crash, that tick takes the
  block down.
* **Crash recovery.** After a crash between any two steps, with an old, new or torn checkpoint,
  one tick with complete dumps tracks everything not allow-cached again, even if saved blocks
  could not be put back; a block with time left is lost or cut short exactly when the file held
  an earlier deadline.
* **A scrape says what it should.** Every address without quotes, backslashes and line breaks, and
  every figure, has its own line under its own name, spelled out; if no label has a line break
  there are no other lines but the comments.
* **Round trip.** The dashboard reads what the exporter was given exactly when no label has a
  quote, a backslash or a line break; between two ticks that is the brain's table.
* **The drain.** For any number of pending records, wherever they lie in the ring, the exact
  condition on their time stamps under which the drain reads them and nothing else.

## Where the code is not what one would claim

The models follow the code. Each point below is a lemma.

* The comment at `src/fluxguard_kern.c:161` says the refill is exactly 1000 tokens a second. The
  remainder of the division is lost whenever the refill is not zero, so the rate can fall to
  one half (`TokenBucket.PacedTrafficStarves`, `ExactFactor.BelowIffSlow`);
  `TokenBucket.RefillIsExactIff` says when the refill is exact.
* The filter charges dropped packets too, so it can drop a packet the textbook half-rate policer
  would pass (`TokenBucket.HalfRatePolicerIsNotBelow`); `TokenBucket.PassesIff` says when
  exactly a packet passes. And 213 days of silence can earn nothing, because the product wraps
  (`TokenBucket.LongSilenceEarnsNothing`).
* The Shields-Up bucket comes before the allowlist and is charged for the packets it drops. It
  is a shutter, not a limiter at 500000 a second, and an allowlisted source is shut out too
  (`Accounting.AllowedIsShutOut`, `Accounting.FloodShutsOutEveryone`);
  `Accounting.AllowedPassesIff` says when it is not.
* `docs/phase11-12-ipv6-config-api.md:239` says checkpoints are replaced atomically.
  `src/fluxguard_brain.py:44` opens the file for writing in place, so a crash can leave it torn
  (`Recovery.CrashWhileSavingLosesFile`), and a save that cannot open it leaves an old one, after
  which a restart can take a block down early (`StaleCheckpoint.StaleCheckpointUnblocksEarly`);
  `Recovery.CrashRecovery` says when.
* The drain advances by the rounded data length without the eight bytes of the header, so the
  second record is looked for inside the first (`RingDrain.NextHeaderIsTimestamp`), and even one
  pending record is reported alone only if its time stamp happens to be flagged
  (`RingDrain.OneRecordIff`, `RingDrain.DrainFindsRecordsIff`). An IPv4 address is printed back
  to front (`RingDrain.FirstEventDecoded`).
* The dashboard does not undo the exporter's escaping, and a line break in a label cuts its line
  (`Dashboard.RoundTripIff`, `Dashboard.LabelSurvivesIff`).

## Model

| member | source | states |
|---|---|---|
| TokenBucket.Cell.Check | src/fluxguard_kern.c:157-177 | the in-place update and the verdict, over 64-bit words |
| TokenBucket.PotentialStep | src/fluxguard_kern.c:159-176 | what a bucket can still let through grows at most at the full rate, loses a token to every packet, and is not negative after a pass; the bounds of a stored bucket are kept |
| TokenBucket.BehindStep | src/fluxguard_kern.c:163-176 | an exact half-rate bucket that is not ahead of the stored one stays so, and can afford only what passes |
| TokenBucket.PassesIff | src/fluxguard_kern.c:163-176 | a packet passes if and only if the tokens and what the wrapped product earns make one at least; with no wrap that is a token for each whole millisecond |
| TokenBucket.AfterCheckIs | src/fluxguard_kern.c:159-176 | what any packet leaves in any bucket, in literal numbers, wraps included: time and tokens move together or not at all |
| TokenBucket.RefillIsExactIff | src/fluxguard_kern.c:159-173 | no credit is lost, compared with exactly 1000 tokens a second, if and only if the cap swallows the remainder, or nothing wraps and no whole millisecond has gone by or whole ones only |
| TokenBucket.NeverAboveFullRate | src/fluxguard_kern.c:153-177 | on every trace with a clock that does not go back, wraps included, every packet passed is passed by the exact 1000-a-second policer |
| TokenBucket.NeverBelowHalfRate | src/fluxguard_kern.c:163-176 | on every trace whose refills do not wrap, every packet the charging half-rate bucket can afford is passed |
| TokenBucket.EarlyStampsFit | src/fluxguard_kern.c:166 | in the first 2^64/1000 ns of the clock no refill wraps |
| TokenBucket.ConformingTrafficPasses | src/fluxguard_kern.c:163-176 | a trace that the textbook half-rate policer passes whole is passed whole |
| TokenBucket.SandwichFromFirstPacket | src/fluxguard_kern.c:275-280 | both bounds from the bucket a source's first packet creates, against exact buckets started full |
| TokenBucket.SpacedTrafficPasses | src/fluxguard_kern.c:163-176 | packets a millisecond or more apart are never dropped by a bucket that is not in debt |
| TokenBucket.HalfRatePolicerIsNotBelow | src/fluxguard_kern.c:166-176 | two arrivals of which the half-rate policer passes the second and the filter drops it |
| TokenBucket.PacedTrafficStarves | src/fluxguard_kern.c:166-168 | packets 1999999 ns apart leave a drained bucket drained, however many |
| TokenBucket.NoHigherRateIsBelow | src/fluxguard_kern.c:163-176 | among whole rates one half is the best: for every rate of more than 500 whole tokens a second, a trace on which the exact bucket affords a packet that the filter drops |
| ExactFactor.NeverBelow | src/fluxguard_kern.c:163-176 | on every trace whose refills do not wrap, whatever a charging bucket affords that earns at most a token in 1999999 ns, at any rational rate, the filter passes |
| ExactFactor.FasterIsAhead | src/fluxguard_kern.c:163-176 | for every faster rational rate, a trace on which the exact bucket affords a packet that the filter drops |
| ExactFactor.BelowIffSlow | src/fluxguard_kern.c:163-176 | the exact factor: a charging bucket is below the filter's on all traces if and only if it earns at most a token in 1999999 ns |
| TokenBucket.LongSilenceEarnsNothing | src/fluxguard_kern.c:166 | a silence after which the wrapped product earns no token |
| TokenBucket.TokensStayInWord | src/fluxguard_kern.c:169-175 | tokens fall by at most one a packet and stay below the limit, so a signed 64-bit word holds them |
| GlobalGate.Gate.Check | src/fluxguard_kern.c:201-220 | the in-place update of the Shields-Up bucket and the verdict |
| GlobalGate.AfterCheckIs | src/fluxguard_kern.c:201-220 | what any packet leaves in the gate, in literal numbers, wraps included; with no wrap, after more than 100 ms a token for each whole 2000 ns, whatever was left |
| GlobalGate.PotentialStep | src/fluxguard_kern.c:205-219 | after any packet the tokens lie in [-100000, 499999]; a pass costs a token of what the gate can still let through |
| GlobalGate.PassesCostPotential | src/fluxguard_kern.c:205-219 | the passes of any trace are paid for by the initial potential and the time that has gone by |
| GlobalGate.WindowBound | src/fluxguard_kern.c:201-220 | at most 549999 passes and 500000 a second in any window, from every reachable bucket, wraps included |
| GlobalGate.WindowBoundIsMet | src/fluxguard_kern.c:201-220 | from the bucket the first packet after load leaves, arrivals within one nanosecond with 549999 passes |
| GlobalGate.BurstPasses | src/fluxguard_kern.c:206-219 | between refills exactly the packets the tokens pay for get through |
| GlobalGate.BurstDrains | src/fluxguard_kern.c:206-218 | between refills each packet takes a token, down to the debt floor |
| GlobalGate.PassesIff | src/fluxguard_kern.c:205-219 | a packet clears the gate if and only if a token is left, or a refill is due that makes one, wraps included; with no wrap that is a token for each whole 2000 ns |
| GlobalGate.SilenceReopens | src/fluxguard_kern.c:205-219 | 200.002 ms of silence reopen the gate, however deep the debt |
| GlobalGate.FloorReopensIff | src/fluxguard_kern.c:206-217 | at the debt floor the next packet passes if and only if 200.002 ms have gone by since the last refill |
| GlobalGate.FloodKeepsItShut | src/fluxguard_kern.c:206-218 | once the gate owes more than it has earned, packets 2000 ns or less apart are all dropped, without end |
| GlobalGate.FloodPassesBounded | src/fluxguard_kern.c:206-218 | packets 1000 ns or less apart are passed at most 1099999 times in all |
| GlobalGate.BehindStep | src/fluxguard_kern.c:205-219 | a charging exact bucket of 499990 a second that is not ahead of the gate stays so, and whenever it holds 50000 tokens the packet passes |
| GlobalGate.ConformingTrafficClears | src/fluxguard_kern.c:201-220 | traffic whose every packet finds 50000 tokens in that bucket clears the gate whole |
| GlobalGate.PassesAtLeast | src/fluxguard_kern.c:201-220 | on any traffic, conforming or not, the gate passes at least as many packets as find 50000 tokens there |
| Filter.Maps.constructor | src/fluxguard_kern.c:34-134 | the maps as loaded are the empty state of the pipeline |
| Filter.Maps.FluxguardFilter | src/fluxguard_kern.c:183-349 | both branches leave all maps and give the verdict as one generic pipeline prescribes; a frame of one family changes no map of the other |
| Filter.Maps.ShieldsUp | src/fluxguard_kern.c:196-220 | counter and gate change as prescribed, and nothing else does |
| Filter.Maps.FilterV4 | src/fluxguard_kern.c:225-283 | the IPv4 branch follows the generic pipeline and touches no IPv6 map |
| Filter.Maps.MeterV4 | src/fluxguard_kern.c:242-282 | a source that is neither allowlisted nor filtered by protocol is counted first and judged second |
| Filter.Maps.CountV4 | src/fluxguard_kern.c:242-249 | the meter entry counts modulo 2^32, or starts at one if the map has room |
| Filter.Maps.LimitV4 | src/fluxguard_kern.c:255-280 | bucket check, blacklisting and alert in the IPv4 branch |
| Filter.Maps.JudgeV4 | src/fluxguard_kern.c:251-282 | a blacklisted source is dropped and nothing changes; any other is left to its bucket |
| Filter.Maps.ChargeV4 | src/fluxguard_kern.c:258 | only the source's own bucket is charged: no two keys share one |
| Filter.Maps.AutoBlockV4 | src/fluxguard_kern.c:259-272 | an entry in the blacklist and an event in the ring, each if there is room |
| Filter.Maps.InsertV4 | src/fluxguard_kern.c:275-280 | a new bucket, full less one packet, shared with no other key |
| Filter.Maps.InstallV4 | src/fluxguard_kern.c:276-279 | a bucket that belongs to no key becomes the source's own, and no other entry changes |
| Filter.Maps.FilterV6 | src/fluxguard_kern.c:288-345 | the IPv6 branch follows the same pipeline and touches no IPv4 map |
| Filter.Maps.MeterV6 | src/fluxguard_kern.c:305-344 | a source that is neither allowlisted nor filtered by protocol is counted first and judged second |
| Filter.Maps.CountV6 | src/fluxguard_kern.c:305-312 | the meter entry counts modulo 2^32, or starts at one if the map has room |
| Filter.Maps.LimitV6 | src/fluxguard_kern.c:318-342 | bucket check, blacklisting and alert in the IPv6 branch |
| Filter.Maps.JudgeV6 | src/fluxguard_kern.c:314-344 | a blacklisted source is dropped and nothing changes; any other is left to its bucket |
| Filter.Maps.ChargeV6 | src/fluxguard_kern.c:321 | only the source's own bucket is charged |
| Filter.Maps.AutoBlockV6 | src/fluxguard_kern.c:322-334 | an entry in the blacklist and an event in the ring, each if there is room |
| Filter.Maps.InsertV6 | src/fluxguard_kern.c:337-342 | a new bucket, full less one packet, shared with no other key |
| Filter.Maps.InstallV6 | src/fluxguard_kern.c:338-341 | a bucket that belongs to no key becomes the source's own, and no other entry changes |
| Filter.Maps.SetBlacklist | src/fluxguard_bpf.py:120-129 | the address is blocked if the map has room, and nothing else changes |
| Filter.Maps.DelBlacklist | src/fluxguard_bpf.py:131-136 | fails for an absent entry; otherwise removes that one |
| Filter.Maps.DumpAllowlist | src/fluxguard_brain.py:127-134 | exactly the allowed addresses of one family, unless the dump fails |
| Decisions.SourcelessOutcomeIs | src/fluxguard_kern.c:190-349 | exactly when a frame without a whole IP header passes, and which is dropped: only a shut gate stops a frame of another EtherType or with a cut header |
| Decisions.OutcomeIs | src/fluxguard_kern.c:201-345 | for a frame with a source, the condition for each of the seven outcomes |
| Decisions.PassesIff | src/fluxguard_kern.c:183-349 | a packet passes if and only if it is cut short, or clears the gate and has no source, or an allowlisted one, or one that is not barred, not blacklisted and whose bucket, if any, passes it |
| Decisions.ProtoDropIff | src/fluxguard_kern.c:238-240 | the protocol filter drops a packet if and only if it clears the gate, has a source that is not allowlisted, and a rule with action 1 is set for its protocol |
| Decisions.CounterAndGateLeft | src/fluxguard_kern.c:190-220 | every frame but one cut short adds one to the counter, modulo 2^64, and is charged to the gate, whatever becomes of it |
| Decisions.MeterLeft | src/fluxguard_kern.c:242-249 | a packet that gets past allowlist and protocol filter adds one to its own source's packet counter, modulo 2^32, or starts it at one if there is room; no other counter changes |
| Decisions.BlackLeft | src/fluxguard_kern.c:259-261 | the blacklist gains the source of a drop by its bucket if there is room, and nothing else ever |
| Decisions.AlertsLeft | src/fluxguard_kern.c:263-272 | a drop by a bucket appends source, reason 1 and the packet's time if the ring has room; no other packet appends anything |
| Decisions.RateLeft | src/fluxguard_kern.c:255-280 | a judged packet charges its source's bucket, a first one creates a bucket of 999 tokens stamped now if there is room, and no other packet touches a bucket |
| Decisions.FirstPacketPasses | src/fluxguard_kern.c:201-283 | after load, from 100 ms after boot on, any source's first packet passes |
| Decisions.AllowedIffLastWord | src/fluxguard_bpf.py:120-136 | over any run, a source is allowlisted if and only if the last call about it put it there |
| Decisions.RuleIsLastSet | src/fluxguard_kern.c:238-240 | over any run, the rule for a protocol is the one set last |
| Decisions.BlockedIffLastWord | src/fluxguard_kern.c:251-261 | over any run, a source is blacklisted if and only if the last word about it, a drop by its bucket with room, a block or an unblock, says so |
| Decisions.AlertsAreDrops | src/fluxguard_kern.c:263-272 | over any run, what the ring gains is exactly the drops by buckets that found room, in order, each with source, reason 1 and time |
| Decisions.AlertsTellDrops | src/fluxguard_kern.c:325-334 | over any run, no alert is taken back, and every new one has reason 1 and names a packet event of the run, of that source and at that time, that its bucket dropped |
| Decisions.BucketIsCharged | src/fluxguard_kern.c:255-280 | over any run without an eviction, a source's bucket is the one it had, charged at the times of the packets it judged, passed and dropped alike |
| Decisions.EvictedStartsOver | src/fluxguard_kern.c:273-280 | after its bucket is evicted, a source's next packet that gets that far passes and has a new bucket |
| Decisions.EvictedCountsAnew | src/fluxguard_kern.c:242-249 | after its packet counter is evicted, a source's next counted packet is the first |
| Decisions.NeverBarredIsNeverProtoDropped | src/fluxguard_kern.c:238-240 | over any run in which no rule bars a source's protocols, none of its packets is dropped by the protocol filter |
| Decisions.ConformingSourcePasses | src/fluxguard_kern.c:225-283 | over any run, a source that keeps to the half-rate policer, is not blocked by hand and whose protocols no rule bars has every packet past the gate passed |
| Decisions.SpacedSourcePasses | src/fluxguard_kern.c:225-283 | so has a source with a millisecond or more between any two packets |
| Sources.StepLocally | src/fluxguard_kern.c:225-345 | one event of the whole filter changes a source's view as the source's own machine says, and not at all if it does not concern it |
| Sources.Independence | src/fluxguard_kern.c:225-345 | for every interleaving, the source's entries and verdicts are those of its own machine |
| Sources.SameViewSameVerdicts | src/fluxguard_kern.c:225-345 | two runs that look alike to a source treat it alike |
| Sources.FamiliesDoNotMix | src/fluxguard_kern.c:225-345 | over any run, frames of one family leave the other family's entries alone |
| RateLimits.LocalRateBound | src/fluxguard_kern.c:255-282 | the rate bound with evictions, and with first packets for which the map has no room counted apart |
| RateLimits.ChargedRateBound | src/fluxguard_kern.c:225-345 | the same bound in every run of the whole filter, less the source's first packets whose bucket found no room |
| RateLimits.RateBound | src/fluxguard_kern.c:225-345 | passes·10^9 <= (k+1)·1000·10^9 + (e-s)·1000 in every window [s, e] of every run of the whole filter in which the map has room for this source's bucket |
| RateLimits.PassesOnlyAtFullRate | src/fluxguard_kern.c:255-280 | through evictions, blocks and unblocks, every judged packet that passes is passed by the full-rate policer |
| RateLimits.PassesAtHalfRate | src/fluxguard_kern.c:255-280 | the lower bound survives evictions without resetting the half-rate bucket |
| RateLimits.EarlyStampsFit | src/fluxguard_kern.c:166 | the same for a source through evictions, blocks and unblocks |
| RateLimits.ConformingSourceIsNeverBlocked | src/fluxguard_kern.c:251-282 | bursts of 1000 and 500 a second never get a source blocked, reported or dropped by its bucket |
| RateLimits.ConformingSourceIsServed | src/fluxguard_kern.c:225-345 | the same in every run of the whole filter |
| RateLimits.SpacedSourceIsNeverBlocked | src/fluxguard_kern.c:163-176 | packets a millisecond or more apart never get a source blocked, whatever is evicted |
| RateLimits.SpacedSourceIsServed | src/fluxguard_kern.c:225-345 | the same in every run of the whole filter |
| RateLimits.BlockedStaysBlocked | src/fluxguard_kern.c:251-253 | until a delete or an allowlisting, nothing of a blocked source passes, its bucket is frozen and no event is emitted |
| RateLimits.BlockedSourceIsSilent | src/fluxguard_kern.c:251-253 | the same in every run of the whole filter |
| RateLimits.AlertsBounded | src/fluxguard_kern.c:257-273 | events exceed deletes by at most one, plus the drops whose blacklist entry found no room |
| RateLimits.AlertsAboutSource | src/fluxguard_kern.c:257-273 | the same in every run of the whole filter |
| RateLimits.TokensStayBanded | src/fluxguard_kern.c:251-280 | with deletes a millisecond or more after their insert and no wrap, tokens stay in [-1, 999] |
| RateLimits.TokensOfSource | src/fluxguard_kern.c:251-280 | the same in every run of the whole filter |
| RateLimits.MeterCountsPackets | src/fluxguard_kern.c:242-249 | a meter entry shows, modulo 2^32, the packets that reached it |
| RateLimits.MeterOfSource | src/fluxguard_kern.c:242-249 | the same in every run of the whole filter |
| RateLimits.AllowedLeavesNoTrace | src/fluxguard_kern.c:233-235 | while a source is allowlisted its packets pass and its entries are what the control events alone would have made of them |
| RateLimits.AllowedSourceLeavesNoTrace | src/fluxguard_kern.c:233-235 | the same in every run of the whole filter |
| Accounting.CounterAccounts | src/fluxguard_kern.c:196-283 | the counter is, modulo 2^64, the gate's drops and all that got past it, outcome by outcome |
| Accounting.EveryPacketHasOneFate | src/fluxguard_kern.c:183-349 | the outcomes of a run add up to its packets, passes and drops separately |
| Accounting.GateRunsAlone | src/fluxguard_kern.c:201-220 | what gets past the gate depends on the arrival times alone |
| Accounting.AggregateBound | src/fluxguard_kern.c:201-220 | at most 549999 packets and 500000 a second get past the gate in any window of any run |
| Accounting.ConformingAggregateClears | src/fluxguard_kern.c:201-220 | while all frames together keep to 499990 a second and bursts of 450000, and no refill wraps, a run of the whole filter has no drop by the gate |
| Accounting.AggregatePassesAtLeast | src/fluxguard_kern.c:201-220 | in any run the gate lets through at least the frames that find 50000 tokens in the exact bucket |
| Accounting.FloodShutsOutEveryone | src/fluxguard_kern.c:201-235 | a flood keeps an exhausted gate shut to all sources, the allowlisted included |
| Accounting.AllowedPassesIff | src/fluxguard_kern.c:201-235 | the exact worth of the allowlist: an allowlisted packet passes if and only if the gate has a token left or a refill due that makes one |
| Accounting.GateAfterRun | src/fluxguard_kern.c:201-220 | the gate after any run is the gate after the arrival times alone |
| Accounting.AllowedIsShutOut | src/fluxguard_kern.c:201-235 | a run from load in which an allowlisted source is dropped, leaving the gate in a debt that keeps everybody out |
| Accounting.AlwaysSettled | src/fluxguard_kern.c:157-220 | every stored bucket is within its bounds at every moment of every run |
| Accounting.SandwichSinceLoad | src/fluxguard_kern.c:255-280 | from load to any moment, each source's verdicts lie between the two exact buckets |
| Accounting.FloorSinceLoad | src/fluxguard_kern.c:255-280 | the lower bound for each source in every run within 213 days of boot, with no condition on the refills |
| Lifecycle.TraceIsRun | src/fluxguard_brain.py:98-203 | a recorded trace of steps is a run of the transition system |
| BlockLifetime.TickInvKept | src/fluxguard_brain.py:120-203 | the invariant that says, at each small step, how much of the tick is done |
| BlockLifetime.DumpedKept | src/fluxguard_brain.py:142-175 | until the expired blocks are taken down, everything the dumps found is still blacklisted |
| BlockLifetime.TickOutcome | src/fluxguard_brain.py:159-203 | whatever came between its steps, a tick leaves the table of one atomic step, and has tried to delete exactly what was due |
| BlockLifetime.NoOrphan | src/fluxguard_brain.py:142-195 | after a tick with complete dumps every address blocked at its start and not allow-cached is tracked with a deadline to come, or was due and its delete tried |
| BlockLifetime.DeletedAtDeadline | src/fluxguard_brain.py:177-195 | the first tick started at or after a deadline tries the delete and drops the block from the table |
| BlockLifetime.FailedDeleteIsRetried | src/fluxguard_brain.py:159-195 | an address still blocked and no longer tracked is tracked again by the next tick with complete dumps |
| BlockLifetime.FailedDeleteIsTrackedAgain | src/fluxguard_brain.py:182-195 | from the delete that fails: the rest of that tick drops the block, which stays in the kernel, and the next tick with complete dumps tracks it again |
| BlockLifetime.BoundedKept | src/fluxguard_brain.py:98-195 | no deadline in table or file is further away than the cooldown, through crashes |
| BlockLifetime.TrackedIsBlacklisted | src/fluxguard_brain.py:98-195 | when restores succeed, at every tick boundary everything tracked is blocked in the kernel |
| Recovery.CheckpointAgrees | src/fluxguard_brain.py:39-47 | while saves get to open the file, a whole checkpoint never contradicts the table; when they complete, it equals the table at every tick boundary |
| Recovery.CrashWhileSavingLosesFile | src/fluxguard_brain.py:39-47 | once a save has opened the file its old contents are gone: a crash before the write ends, or a write that fails, leaves nothing to load |
| Recovery.CrashRecovery | src/fluxguard_brain.py:98-111 | after a crash between any two steps, and whether or not saved blocks can be put back, one tick tracks all that was blocked or saved, removes again what had expired, gives nothing a deadline beyond a new block's, and still tracks a lost block with time left, until no earlier than before, if and only if the file held no earlier deadline |
| Recovery.CrashAnywhereRecovers | src/fluxguard_brain.py:39-195 | recovery from a crash anywhere in any run from boot in which saves get to open the file: every lost block with time left is tracked again, until no earlier than before |
| Recovery.KernelRunsAlong | src/fluxguard_brain.py:120-195 | the filter's part of a run of the whole system is a run of the filter |
| Recovery.TrackedHolds | src/fluxguard_brain.py:160-164 | recording a block, in every state a run from boot can reach, makes it hold until the tick's start plus the cooldown |
| Recovery.HoldsKept | src/fluxguard_brain.py:98-195 | a block that holds is kept by every step of brain and kernel, crashes included, until a tick starts at its deadline |
| Recovery.DeniedUntilDeadline | src/fluxguard_brain.py:159-195 | while a block holds no packet of the source passes and no event about it is emitted |
| Recovery.RecordedBlockIsKept | src/fluxguard_brain.py:159-195 | in any run from boot in which saves get to open the file, a newly recorded block's source is blacklisted and nothing of it passes before a tick that starts a cooldown later, whatever comes after, unless it is allowlisted |
| Recovery.RecordedBlockIsTakenDown | src/fluxguard_brain.py:159-195 | in any run from boot, a block recorded by a tick started at T stays in the table through the ticks started before T + cooldown, and the first one started then or later tries to delete it and drops it, if the process does not crash in between |
| StaleCheckpoint.LifeLeavesStaleFile | src/fluxguard_brain.py:39-47 | a run from boot, without a file to begin with, in which two saves cannot open it: the file is left with a deadline thirty units before the one in the table |
| StaleCheckpoint.StaleCheckpointUnblocksEarly | src/fluxguard_brain.py:98-111 | after that run a crash and a restart take the block down thirty time units early |
| Recovery.CountersAddUp | src/fluxguard_brain.py:159-203 | tracked = loaded + block events - unblock events - failed deletes at every tick boundary, and the published count is the size of the published set |
| Recovery.EventsOnlyGrow | src/fluxguard_metrics.py:31-37 | until the process stops, the event counters never go down, whatever the interleaving |
| Brain.Process.HistoryIsRun | src/fluxguard_brain.py:61-218 | everything the process has done is a run of the transition system |
| Brain.Process.Monitor | src/fluxguard_brain.py:61-218 | restore and any number of ticks, packets arriving throughout, follow the transition system |
| Brain.Process.Restore | src/fluxguard_brain.py:98-111 | the table is what the checkpoint holds, and the file is untouched |
| Brain.Process.Reapply | src/fluxguard_brain.py:103-111 | a saved block is back in the kernel if its family's map is there and has room |
| Brain.Process.Tick | src/fluxguard_brain.py:120-203 | the table is that of one atomic step, and set and count are published from it |
| Brain.Process.ReadAllowlists | src/fluxguard_brain.py:126-134 | each cache is replaced if due and its dump worked; the time stamp moves only if all did |
| Brain.Process.DumpV4 | src/fluxguard_brain.py:142-144 | unless it fails at its start, the dump has all IPv4 addresses blocked before it and none that is not blocked after it |
| Brain.Process.DumpV6 | src/fluxguard_brain.py:144-151 | a failed meter read or dump cuts the list to IPv4; otherwise all IPv6 addresses blocked before it are there, and only then is the dump complete |
| Brain.Process.WalkBlacklist | src/fluxguard_bpf.py:97-118 | key by key, packets arriving between any two: all keys there before the walk, and none that is not there after it |
| Brain.Process.TrackOne | src/fluxguard_brain.py:160-175 | an address neither tracked nor allow-cached gets the deadline now + cooldown, a block event, and a save that goes as opening and writing go; for any other nothing changes |
| Brain.Process.SaveCheckpoint | src/fluxguard_brain.py:39-47 | the file is unchanged, torn, or holds the table, as opening and writing go |
| Brain.Process.FindExpired | src/fluxguard_brain.py:178-180 | exactly the addresses whose deadline is at or before the tick's start |
| Brain.Process.ExpireBlocks | src/fluxguard_brain.py:177-195 | the table loses exactly the blocks that are due, packets arriving between the deletes, and is then saved if there were any |
| Brain.Process.DeleteOne | src/fluxguard_brain.py:182-192 | a delete that works unblocks in the kernel and is counted; one that fails leaves the blacklist and the count alone |
| Brain.Process.Publish | src/fluxguard_brain.py:202-203 | set first, count second, both from the same table |
| Text.ParsePrint | src/fluxguard_dashboard.py:58 | reading a printed integer gives the integer |
| Text.SplitJoin | src/fluxguard_metrics.py:87 | splitting joined lines gives the lines, if none has a line break in it |
| Metrics.Sorted | src/fluxguard_metrics.py:45-47 | every element once, in code-point order |
| Metrics.MetricsState.UpdateSnapshot | src/fluxguard_metrics.py:22-25 | packets and count are replaced, all else is kept |
| Metrics.MetricsState.UpdateBlockedSet | src/fluxguard_metrics.py:27-29 | the set is replaced, all else is kept |
| Metrics.MetricsState.IncBlockEvents | src/fluxguard_metrics.py:31-33 | one counter grows by one, all else is kept |
| Metrics.MetricsState.IncUnblockEvents | src/fluxguard_metrics.py:35-37 | one counter grows by one, all else is kept |
| Metrics.MetricsState.IncGlobalPpsExceeded | src/fluxguard_metrics.py:39-41 | one counter grows by one, all else is kept |
| Metrics.MetricsState.RenderPrometheusText | src/fluxguard_metrics.py:43-87 | the text of a scrape, addresses sorted, per-address section only if there are any |
| Dashboard.ParseMetrics | src/fluxguard_dashboard.py:47-72 | the loop adds up the lines one by one, and stops at the first that cannot be read |
| Dashboard.LinesParse | src/fluxguard_dashboard.py:55-72 | the lines of a scrape, headers included, parse to what was exported: no line is taken for another |
| Dashboard.RoundTrip | src/fluxguard_dashboard.py:47-72 | for all counts and all addresses without quotes, backslashes and line breaks, the parsed text is what was exported |
| Dashboard.RoundTripIff | src/fluxguard_dashboard.py:47-72 | the parsed text is what was exported if and only if no label has a quote, a backslash or a line break |
| Dashboard.Scrape | src/fluxguard_metrics.py:43-87 | the same for the exporter's and the dashboard's own code |
| Dashboard.LabelSurvivesIff | src/fluxguard_metrics.py:57 | within one line a label is read back unchanged if and only if it contains no quote and no backslash |
| Exposition.Export | src/fluxguard_metrics.py:43-87 | whatever other labels are in it, the text has for every plain blocked address the line with value 1, for every plain metered one the line with its count, each figure under its own name, and the comments; if no label has a line break there is no other line |
| Exposition.PrintsDecimal | src/fluxguard_metrics.py:58-86 | a number is printed in decimal digits, the highest first, without leading zeros |
| Exposition.ReadsDecimal | src/fluxguard_dashboard.py:58 | any string of decimal digits is read as its value |
| Exposition.EscapeIs | src/fluxguard_metrics.py:57 | each quote and each backslash gets one backslash before it, and no other character changes |
| Exposition.SortsByFirstDifference | src/fluxguard_metrics.py:45-47 | one string is sorted before another if and only if it is a prefix of it or has the lower character where they first differ |
| Exposition.LineSurvives | src/fluxguard_dashboard.py:55 | a line without breaks is a line of the split text, however broken the lines around it |
| Exposition.LineCount | src/fluxguard_metrics.py:50-87 | if no label has a line break, a scrape has 14 lines, one for each metered address, and two and one for each blocked address if there are any |
| Exposition.OtherLinesAreSkipped | src/fluxguard_dashboard.py:55-70 | a line that begins with none of the six names changes nothing |
| Exposition.BadFigureIsAnError | src/fluxguard_dashboard.py:56-61 | a packet count or blocked count that is not a number stops the reading with an error |
| Observed.DashboardShowsTable | src/fluxguard_brain.py:202-203 | between two ticks of any run the dashboard shows exactly the addresses in the brain's table, their number, and event counters that account for it |
| MapWalk.HashMap.GetNextKey | src/fluxguard_bpf.py:108-116 | the key after the given one, or the first if that one has gone |
| MapWalk.HashMap.Interfere | src/fluxguard_bpf.py:97-118 | what may happen to a map between two calls of a walk: any possible update, insertion anywhere in the order, or deletion, and exactly that |
| MapWalk.StepOver | src/fluxguard_bpf.py:97-116 | stepping to the next key, or to the start again, skips nothing that stays in the map, and the end has seen it all |
| MapWalk.DumpMap | src/fluxguard_bpf.py:76-118 | while entries come, go and change, the walk ends, finds every key that stays in the map, and returns only pairs that were in it at some moment of the walk; over an unchanged map it returns the map |
| MapWalk.GrowingWalk | src/fluxguard_bpf.py:97-118 | when nothing is deleted, what a walk finds lies between the keys at its start and those at its end |
| Observed.WalkGivesDump | src/fluxguard_brain.py:143-146 | a walk during which the blacklist only grows finds what the transition system allows a dump to find |
| PerCpuCounter.NoIncrementIsLost | src/fluxguard_kern.c:196-199 | under every interleaving of loads and stores each slot counts, modulo 2^64, all finished increments of its CPU |
| PerCpuCounter.LegalIff | src/fluxguard_kern.c:196-199 | the runs considered are all interleavings in which each CPU's loads and stores take turns and the reader reads the slots that are there |
| PerCpuCounter.SumIsBetweenTotals | src/fluxguard_bpf.py:225-237 | a sum taken slot by slot lies between the true totals at its start and its end, absent wrap |
| RingDrain.StoreCons | src/fluxguard_dashboard.py:180 | the position is stored and no other byte changes |
| RingDrain.DrainRingbuf | src/fluxguard_dashboard.py:107-182 | on any bytes every read is inside the mapping; events, stored position, iterations and exception are as the recursive drain says, at most 32768 iterations, and only the position is written |
| RingDrain.LittleEndian | src/fluxguard_dashboard.py:116-117 | the four bytes of a word are its digits to the base 256, the lowest first |
| RingDrain.AdvanceIs | src/fluxguard_dashboard.py:127-180 | on any bytes: when a turn ends the loop, when it finds an event, and that it advances by the low 28 bits of the header rounded up to eight, by eight at least |
| RingDrain.ConsumerOnlyAdvances | src/fluxguard_dashboard.py:127-180 | the position never goes back and passes the producer by less than one record; the store fails only near 2^64 |
| RingDrain.ConsumerKeepsAlignment | src/fluxguard_dashboard.py:143-180 | the position keeps its remainder modulo 8 |
| RingDrain.LoopEnds | src/fluxguard_dashboard.py:127-182 | at most one iteration for each eight bytes pending, and no more events than iterations |
| RingDrain.LoopEndsSoon | src/fluxguard_dashboard.py:124-127 | behind the guard, at most 32768 iterations |
| RingDrain.FirstEventDecoded | src/fluxguard_dashboard.py:159-172 | the first pending record is decoded; its IPv4 source is right if and only if it is a palindrome |
| RingDrain.NextHeaderIsTimestamp | src/fluxguard_dashboard.py:175-180 | after a record the drain takes the low half of its time stamp for the next header |
| RingDrain.OneRecordIff | src/fluxguard_dashboard.py:127-182 | one pending record is reported, and nothing else, if and only if bit 30 or 31 of its time stamp is set |
| RingDrain.OneRecordEnds | src/fluxguard_dashboard.py:127-180 | where the drain of one pending record ends, by the low 28 bits of its time stamp, and how many events it gives |
| RingDrain.SecondRecordReadIff | src/fluxguard_dashboard.py:127-182 | of two pending records the second is read where it lies if and only if the low 28 bits of the first time stamp are at most 8, and not zero when bit 30 or 31 is set |
| RingDrain.DrainFindsRecordsIff | src/fluxguard_dashboard.py:127-182 | any number of pending records, anywhere in the ring: exactly they are read if and only if every time stamp but the last looks like the header of a skipped record of 1 to 8 bytes, and the last one like that of a skipped record |
| RingDrain.LuckyRecordsAreReported | src/fluxguard_dashboard.py:127-182 | with such time stamps all pending records are reported in order, and nothing else |
| RingDrain.SitesGiveEvents | src/fluxguard_dashboard.py:127-182 | the events of a drain are what it reads at the positions it takes for records |

## Left out

- Concurrent packets on one bucket or one new meter entry: the filter updates these without atomics, so packets are single steps, one after the other; only the per-CPU counter is modelled with its interleavings, and inside `Filter` it is one slot.
- Parsing of packet headers beyond "cut short or whole, EtherType, source, protocol".
- Map capacities: whether an update finds room is a parameter of each packet; which entry an LRU map evicts is arbitrary.
- Refills that wrap: the lower bounds assume none does, that is, gaps below 2^64/1000 ns (213 days) between refills, which holds in the first 213 days after boot; the upper bounds do not. For the gate, whose factor is greater, the gaps are those below 2^64/500000 ns (10 hours).
- Signed 64-bit width of tokens: they are unbounded integers; `TokenBucket.TokensStayInWord` shows that they fit.
- Loss of precision in deadlines: the brain's float seconds are integer nanoseconds here, on the clock the filter reads too.
- Reboots: deadlines are monotonic times, and a checkpoint is assumed to be of the same boot.
- Deletes from the blacklist by anybody but the brain (the command line tool, the API): excluded in `Lifecycle`, allowed in `Pipeline`; allowlist changes are events in both.
- Failed re-application of a saved block: allowed everywhere but in `BlockLifetime.TrackedIsBlacklisted`, whose conclusion about the kernel's blacklist it would falsify.
- MapWalk.DumpMap: a key deleted during a walk does not come back before it ends, and get-next-key fails only at the end of the map.
- Filter.Maps.DumpAllowlist: takes the dump of an allowlist as one atomic read; blacklists are dumped key by key, packets arriving between.
- Order in which Python visits a dictionary: arbitrary here, and the theorems hold for every order.
- Shields-Up detection in the brain, and so its counter over runs, the tick log, sleeping, signals, the HTTP server, command line and configuration: input and output, or easy members.
- Addresses as text: `Addr` is a tagged number in the filter and the brain, a string in the metrics; printing and parsing of addresses and JSON are not part of this model.
- Python's `int()` for anything but ASCII digits with an optional minus sign; the exporter prints nothing else.
- Metrics.MetricsState is not called by `Brain`, which keeps the figures as a record of its own; `Observed.DashboardShowsTable` connects the two. Packet counts are not followed from the meter map to the exporter.
- Records of the ring buffer in the single mapping the dashboard falls back to: `RingDrain.DrainRingbuf` covers every mapping, the theorems about records the double one.
- RingDrain.DrainRingbuf: when the position no longer fits eight bytes the code raises an exception out of the function; the model returns no events then.
- The drain's ring size and page size are the constants of the one ring buffer the filter has.
