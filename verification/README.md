# trimon: a verified model of the daemon's core

trimon is a network monitoring daemon. A scheduler runs one goroutine per configured
probe; every run yields results that go through a bounded channel to a pipeline, which
hands each one to every exporter. `POST /reload` swaps the probe set while the daemon
runs, and a signal shuts it down in a fixed order. This project models that core in Dafny
and proves what it is meant to guarantee. `dafny verify dfyconfig.toml` checks all of it.

| file | models |
|---|---|
| `Daemon.dfy` | the running daemon as a step system: worker goroutines, `Scheduler.Start`/`Stop`, the reload handler, main's shutdown order, the channel and the pipeline goroutine |
| `Delivery.dfy` | every run: conservation of results, fan-out order, closing of the channel |
| `Ownership.dfy` | runs that overwrite no worker entry: who answers for each goroutine |
| `Shutdown.dfy` | runs that keep the swap of a reload out of start-up and shutdown: no send on the closed channel, the table follows the configuration, the drain ends |
| `Settled.dfy`, `Panics.dfy` | all other runs, the two halves: states past all danger, and roads to a send on the closed channel |
| `Hazards.dfy`, `Startup.dfy` | the exact conditions: a signal at any moment, a reload after main's last snapshot, reloads before main's Start, the daemon as a whole |
| `Scheduler.dfy`, `Pipeline.dfy` | the sequential loops of the two objects, as classes, and how they fit the steps |
| `Checksum.dfy`, `Syn.dfy` | the raw SYN segment: checksum, building, stripping, parsing, classifying, receiving |
| `Stats.dfy`, `Probing.dfy`, `Targets.dfy` | round-trip statistics, the measurement loop with the TCP and UDP port state, target expansion and fan-out |
| `Timings.dfy`, `Config.dfy`, `Fingerprint.dfy` | timing rules, merging the probe directory, the hashed bytes |
| `Splice.dfy` | the generated block of docs/metrics.md |
| `Types.dfy`, `Multisets.dfy` | shared values and multiset facts |

A goroutine interleaving is a sequence of `Action`s; theorems quantify over all sequences
that the step relation allows from `Boot`. A `select` is a choice between enabled actions,
cancellation is a flag that only goes up, and histories (`produced`, `sent`, `taken`,
`logs`) record what happened. The reload handler is one thread because `reloadMu` admits
one at a time.

Where the code and what is said about it differ, the model follows the code:

- Nothing keeps a reload out of start-up or shutdown: the HTTP server is up before
  `sched.Start` (`cmd/trimon/main.go:122`, `:132`) and until after the channel is closed
  (`:145`, `:151`). So "no worker sends on the closed channel" is false of the code, and
  the model says exactly when. `DaemonPanicsIffReloadable`: over all runs it can happen if
  and only if some reload may succeed and some configuration has a probe.
  `StartPanicsIffExposed`, `SignalPanicsIffExposed` and `LateReloadPanicsIffItHasAProbe` give
  the condition from a state before main's Start, at the signal, and after main's last
  snapshot. The safety theorems of `Shutdown` take as hypothesis (`GuardedRun`) that no
  reload is past its load before main's Start has returned, and none is between its load
  and its Start's lock once main has left its serving stage; loads in progress, failing
  loads and reloads past their lock may overlap with anything.
- `startLocked` overwrites an entry of the same name (`internal/scheduler/scheduler.go:105`);
  `LaunchKeepsOwnershipIffNameFree` says what that costs.
- "cancelled" is reported only for `count <= 0`, not for a context that is already done
  (`internal/probe/run.go:98`, `:140-146`).
- A packet interval times count that leaves int64 passes validation (`internal/config/validate.go:52`),
  and HTTP probes skip the timing rules, so their ticker period may be non-positive (`:114-120`).
- A reply without IP header from a port 0x45xx is lost to the header guess
  (`internal/probe/tcp/syn.go:102-110`): `BareReplyLost`.
- A sum of round-trip times that leaves int64 gives a wrong mean (`internal/probe/stats.go:26`).
- An empty `global:` key in `_global.yaml` leaves a nil pointer that is dereferenced
  (`internal/config/config.go:182`, `:191`): outcome `Crashed`.
- An empty-string target that does not resolve is not marked as unresolved (`internal/probe/run.go:54`).
- The fingerprint input is ambiguous if contents may hold NUL bytes (`internal/config/config.go:120-129`).

## Model

| member | source | states |
|---|---|---|
| Shutdown.ShutdownIsSafe | cmd/trimon/main.go:138-148 | In every guarded interleaving no worker sends on the closed channel, no launch overwrites a worker, the exporter is closed exactly in main's last stages and no Export step follows its Close, no worker is left from `cancel()` on, and at the close the buffer is empty, every exporter has seen all that was enqueued in order, and produced = enqueued + dropped |
| Shutdown.TableMatchesServedConfig | cmd/trimon/main.go:110-120 | In every guarded run, with no reload in progress the worker table has exactly the names of the served configuration, each with a live worker of that name |
| Shutdown.FailedLoadChangesNothing | internal/server/server.go:116-138 | In any run, from a reload request to its failed load the served configuration stays, and so does the table unless main itself starts or stops the probes meanwhile, which it cannot while serving |
| Shutdown.DrainBound | internal/pipeline/pipeline.go:49-72 | In any run, from `cancel()` on the pipeline's steps are bounded by a measure of the buffer plus a constant for every send still made |
| Shutdown.PumpCanMove | internal/pipeline/pipeline.go:49-72 | Whenever the channel is not yet closed after `cancel()`, the pipeline has a step |
| Shutdown.DrainEnds | internal/pipeline/pipeline.go:49-77 | In guarded runs nobody sends after `cancel()`, so the pipeline reaches the close within that bound and `Wait` returns |
| Delivery.ConservationPerProbe | internal/scheduler/scheduler.go:117-128 | In every reachable state and for each probe name: produced = taken for dispatch + buffered + recorded as dropped + still to be offered |
| Delivery.DropsExactlyWhenFull | internal/scheduler/scheduler.go:119-128 | In every reachable state a step records a drop if and only if it is a send into a full open channel; it then drops just the offered result, under its probe's name |
| Delivery.NoDropWhileItFits | internal/scheduler/scheduler.go:119-128 | A daemon that has produced no more results than the buffer holds has dropped none |
| Delivery.EveryExporterSeesEnqueueOrder | internal/pipeline/pipeline.go:49-95 | In every reachable state each exporter has seen a prefix of the enqueue order, all but at most the result in dispatch, all of it once closed; its error count is the number of its failing calls |
| Delivery.ClosedMeansDrained | internal/pipeline/pipeline.go:58-68 | In every run the channel is empty from its close on, the exporter is closed exactly in main's last stages and only after the channel, and no Export step follows the Close step |
| Delivery.NothingAfterClose | cmd/trimon/main.go:144-148 | In any sequence of steps, none of the pipeline's comes after the channel's or the exporter's close |
| Delivery.ShutdownInOrder | cmd/trimon/main.go:138-153 | In any sequence of steps the signal, cancel, exporter Close and server Shutdown come at most once and in this order, and no reload begins after the last |
| Ownership.EveryLiveWorkerHasOneOwner | internal/scheduler/scheduler.go:48-80 | In every reachable state of a run without overwrites each live worker is in the table and uncancelled, or in the snapshot of one unfinished Stop, and never in two of these places |
| Ownership.LaunchKeepsOwnershipIffNameFree | internal/scheduler/scheduler.go:96-106 | A launch keeps the ownership invariant if and only if the probe's name has no table entry |
| Ownership.StopIsFinal | internal/scheduler/scheduler.go:63-80 | Once Stop returns, the workers it removed have exited, are in no table entry and take no step in any continuation |
| Ownership.OwnedStep | internal/scheduler/scheduler.go:48-131 | Every step other than an overwriting launch keeps the ownership invariant |
| Ownership.ExitedForever | internal/scheduler/scheduler.go:107-131 | An exited worker takes no step in any continuation |
| Hazards.SignalPanicsIffExposed | cmd/trimon/main.go:138-148 | For a signal in any guarded state and any later loads: some continuation sends on the closed channel if and only if a reload before its lock has a probe to launch or a live worker to hold or take, or a reload still to come has a probe or finds a live worker |
| Hazards.LateReloadPanicsIffItHasAProbe | cmd/trimon/main.go:143-153 | From main's last snapshot until the server is shut down, before and after the close: some continuation sends on the closed channel if and only if a reload with a probe may still come |
| Startup.StartPanicsIffExposed | cmd/trimon/main.go:122-132 | From any reachable state before main's Start has the lock, whatever a reload is doing and may load later: the exact condition under which some continuation sends on the closed channel |
| Startup.EarlyReloadPanicsIffNameShared | cmd/trimon/main.go:122-132 | With a reload of `l` over before main's Start and no later one, some continuation sends on the closed channel if and only if `l` and main's configuration share a probe name |
| Startup.DaemonPanicsIffReloadable | cmd/trimon/main.go:110-153 | Over all runs of the daemon a send on the closed channel can happen if and only if some reload may succeed and some configuration has a probe |
| Settled.SettledThroughout | internal/scheduler/scheduler.go:57-80 | From a settled state no continuation panics, if what is still loaded is empty and comes only when nothing is left to launch |
| Panics.EscapedPanics | internal/scheduler/scheduler.go:63-80 | A live worker that main's final Stop does not know of leads to a send on the closed channel in some continuation, whatever the other workers are doing |
| Scheduling.StartGivesEachProbeAWorker | internal/scheduler/scheduler.go:48-54 | On an empty table and an accepted configuration Start gives every probe its own fresh worker, in order, and changes nothing else |
| Scheduling.UnknownKindsStartNothing | cmd/trimon/main.go:80-81 | Probes of a type the factory does not know start nothing |
| Scheduling.StartIsItsSteps | internal/scheduler/scheduler.go:48-54 | The critical section of Start equals the run of its launch steps |
| Scheduling.Scheduler.StartLocked | internal/scheduler/scheduler.go:96-106 | The new table and pool are those of one launch step |
| Scheduling.Scheduler.Start | internal/scheduler/scheduler.go:48-54 | The new table and pool are those of launching all probes in turn |
| Scheduling.Scheduler.BeginStop | internal/scheduler/scheduler.go:63-76 | The table is emptied, exactly the workers it held are cancelled and returned to be waited for, all others are untouched |
| Scheduling.StopIsItsSteps | internal/scheduler/scheduler.go:63-76 | The effect of Stop up to its waits equals the run of its snapshot and cancel steps, in any order of the map |
| Scheduling.Scheduler.WorkerCount | internal/scheduler/scheduler.go:82-87 | The number of live workers less those that an unfinished Stop still holds |
| Ownership.TableCountsLiveWorkers | internal/scheduler/scheduler.go:82-87 | The table size is the number of running goroutines if and only if no unfinished Stop holds a live one |
| Pumping.Pipeline.Dispatch | internal/pipeline/pipeline.go:86-95 | Every exporter's log grows by the result, whichever calls fail; each error count stays the number of failing calls |
| Pumping.Pipeline.DrainAndClose | internal/pipeline/pipeline.go:58-68 | The whole buffer reaches every exporter in order, then the channel is empty and closed |
| Pumping.DispatchIsItsSteps | internal/pipeline/pipeline.go:86-95 | The effect of a dispatch equals the run of its Export steps, for any pattern of failures |
| Pumping.DrainIsItsSteps | internal/pipeline/pipeline.go:58-68 | The effect of drain and close equals the run of its steps, for any buffer and pattern of failures |
| InternetChecksum.FoldKeepsResidue | internal/probe/tcp/syn.go:78 | Folding the carries once keeps every sum's representative in 1..65535 modulo 65535 |
| InternetChecksum.TwoFoldsSuffice | internal/probe/tcp/syn.go:77-79 | The second fold of any uint32 leaves 16 bits |
| InternetChecksum.NoOverflow | internal/probe/tcp/syn.go:65-75 | For segments of up to 65535 bytes the uint32 accumulator does not overflow, and the sum is never zero |
| InternetChecksum.AddBytes | internal/probe/tcp/syn.go:66-73 | The loop adds the 16-bit words of the bytes, an odd last byte padded, with uint32 wrap-around |
| InternetChecksum.FoldCarries | internal/probe/tcp/syn.go:77-79 | The loop yields the representative in 1..65535 of a positive sum modulo 65535, within two rounds |
| InternetChecksum.TcpChecksum | internal/probe/tcp/syn.go:57-81 | The code computes `Checksum`; for IPv4 addresses and up to 65535 bytes that is 0xFFFF less the representative in 1..65535 of address words + 6 + length + segment words |
| InternetChecksum.ChecksumSpelledOut | internal/probe/tcp/syn.go:57-81 | The same of the specification, with every word written as 256 times one byte plus the next, and no pseudo-header in it |
| InternetChecksum.ResidueIsMod | internal/probe/tcp/syn.go:77-79 | The representative that the fold loop yields, in terms of the remainder modulo 65535 |
| InternetChecksum.AccumulateWraps | internal/probe/tcp/syn.go:65-75 | The uint32 accumulator holds the exact word sum up to a multiple of 2^32 |
| InternetChecksum.ChecksumValue | internal/probe/tcp/syn.go:57-81 | For segments of up to 65535 bytes the checksum is the complement of the representative in 1..65535 of the exact sum over pseudo-header and segment |
| InternetChecksum.FilledSegmentChecks | internal/probe/tcp/syn.go:50-51 | A segment whose zeroed checksum field receives its checksum checks to zero |
| InternetChecksum.OneWordChangeIsSeen | internal/probe/tcp/syn.go:57-81 | Of a segment that checks to zero, a change of one aligned word goes unseen if and only if it exchanges 0x0000 and 0xFFFF or changes nothing |
| InternetChecksum.ReorderingIsUnseen | internal/probe/tcp/syn.go:57-81 | Any permutation of the aligned words leaves the checksum as it is |
| Syn.FillHeader | internal/probe/tcp/syn.go:39-48 | Filling the buffer field by field gives the segment with a zero checksum |
| Syn.BuildSYN | internal/probe/tcp/syn.go:33-52 | Fails exactly without two IPv4 addresses; what it builds checks to zero and parses back to its ports, sequence number and SYN flag |
| Syn.BuiltSegmentChecks | internal/probe/tcp/syn.go:33-81 | For all addresses, ports and sequence numbers the built segment checks to zero |
| Syn.ParseReadsBytes | internal/probe/tcp/syn.go:86-97 | Ports, sequence number, acknowledgement and flags are the base-256 numbers at bytes 0, 2, 4 and 8 and byte 13, whatever the other bytes are |
| Syn.ParseInvertsBuild | internal/probe/tcp/syn.go:86-97 | Parsing inverts building for all ports and sequence numbers |
| Syn.BuiltByteByByte | internal/probe/tcp/syn.go:39-50 | The built segment byte by byte: ports, sequence number, no acknowledgement, data offset 5, SYN alone, window 0xFFFF, checksum, urgent pointer 0 |
| Syn.StripUndoesHeader | internal/probe/tcp/syn.go:102-110 | Stripping recovers whatever follows an IPv4 header of any valid length |
| Syn.BareSegmentKeptIff | internal/probe/tcp/syn.go:102-110 | Bytes of any length are left alone if and only if they are not 20 or more starting with 0x45..0x4F with a header of that length in them |
| Syn.EveryVerdict | internal/probe/tcp/syn.go:174-190 | Every packet whatever: ignored if not from the target or if fewer than 20 bytes are left, else judged by the bytes left after the header guess: open iff SYN and ACK bits between our ports with ack = seq+1 modulo 2^32, closed iff another segment between them has the RST bit, else ignored |
| Syn.ReplyVerdict | internal/probe/tcp/syn.go:116-129 | A reply behind any IPv4 header is judged so by its own bytes |
| Syn.AcknowledgesIsModular | internal/probe/tcp/syn.go:122 | What counts there as acknowledging seq+1 is equality modulo 2^32 |
| Syn.BareReplyVerdict | internal/probe/tcp/syn.go:102-129 | So is a reply without IP header, unless the high byte of its source port is 0x45..0x4F and an IPv4 header of that length fits into it |
| Syn.BareReplyLost | internal/probe/tcp/syn.go:102-110 | Otherwise it is ignored whenever what is left is too short: every option-less reply from a port 0x45xx counts for nothing |
| Syn.OwnSegmentIgnored | internal/probe/tcp/syn.go:174-191 | Our own SYN, looped back with or without an IP header, is never taken for a reply |
| Syn.Await | internal/probe/tcp/syn.go:174-192 | For any arrivals the loop returns the class of the first matching segment, else unreachable |
| Stats.Extremes | internal/probe/stats.go:17-27 | Minimum, maximum and the sum wrapped to int64 |
| Stats.Squares | internal/probe/stats.go:31-35 | The sum of squared distances from the mean |
| Stats.RTTStats | internal/probe/stats.go:12-43 | Minimum, mean, maximum and variance of the samples for their int64 sum, all zero without samples |
| Stats.ExactIffSumFits | internal/probe/stats.go:26-29 | The reported summary is that of the samples if and only if their sum fits an int64 |
| Stats.WrappedSumMisreports | internal/probe/stats.go:26-29 | Two samples of 2^62 ns are reported with a negative mean |
| Stats.SummaryBounds | internal/probe/stats.go:12-43 | min <= mean <= max and variance <= (max-mean)(mean-min) <= ((max-min)/2)^2 for every non-empty sample list, variance zero iff all samples are equal |
| Stats.SummaryMeaning | internal/probe/stats.go:38-42 | A million times the minimum and maximum are the least and greatest sample in nanoseconds; n times the mean and variance are the sum used and the sum of squared distances |
| Probing.AttemptFn.Next | internal/probe/tcp/tcp.go:65-78 | One call consumes one attempt; the captured flag is set iff one so far was open |
| Probing.Collect | internal/probe/run.go:109-131 | For any attempts, counters and samples are exactly the length and the replies, in order, of the consumed prefix, and the number of waits is that of `Waits` |
| Probing.RunLoop | internal/probe/run.go:104-154 | For any attempts, also with error and reply at once, the result is the judgement of counters, samples and fatal error for the consumed prefix |
| Probing.AttemptCountIsDetermined | internal/probe/run.go:109-125 | Attempts and cancellation determine how many attempts are made |
| Probing.LossStatus | internal/probe/run.go:68-77 | By loss ratio: success iff all, failure iff none, partial iff some were received |
| Probing.LossIsShare | internal/probe/run.go:148 | The loss ratio times the number sent is the number without a reply |
| Probing.StatusOfRun | internal/probe/run.go:104-154 | From zero counters success, partial, failure and error are decided by received and sent, a fatal error and count; "cancelled" occurs iff count <= 0 |
| Probing.ProbeOne | internal/probe/tcp/tcp.go:56-86 | For any outcomes and cancellation, in terms of the outcomes alone: counters, status, loss ratio, port tri-state, the summary of the answers' round-trip times in order, the message of a fatal error, and resolve_error iff the item is marked unresolved |
| Probing.TriStateHolds | internal/probe/udp/udp.go:85-109 | (up, port_open) is (1,1) iff some attempt was open, (1,0) iff some replied and none was open, (0,0) iff none replied without error, unset iff error, never (0,1) |
| Probing.UdpTriState | internal/probe/udp/udp.go:124-173 | A UDP port is open iff a reply started with the expected bytes, the host up iff one did or was refused, the times are those of just these attempts, and the error is that of a last attempt without socket |
| Targets.AppendResolved | internal/probe/targets.go:27-37 | The inner loop appends the first `max` distinct addresses, or all |
| Targets.ExpandTargets | internal/probe/targets.go:15-40 | The items are the in-order concatenation over the targets of a literal, a sentinel or the capped distinct addresses |
| Targets.RunWorkItems | internal/probe/run.go:19-36 | Result i is the report of item i whatever the order in which the goroutines finish |
| Targets.NoTargetIsDropped | internal/probe/targets.go:13-40 | Every target yields at least one item |
| Targets.MarkedIffUnresolved | internal/probe/run.go:54-59 | An item is marked iff its entry is a non-empty name that did not resolve or that the resolver echoed |
| Targets.ItemsByEntry | internal/probe/targets.go:18-37 | An address yields itself without name, an unresolved name one item with both fields equal to it, a resolved name its name with each probed address, the first one first |
| Targets.CapTakesFirstDistinct | internal/probe/targets.go:27-37 | The probed addresses are pairwise distinct, at most `max`, a prefix of the distinct ones, and all of them if the cap allows |
| Timings.BudgetIffNoWrap | internal/config/validate.go:39-59 | Accepted timings satisfy packet_interval * count < timeout < probe_every over the integers if and only if the product fits an int64 |
| Timings.FittingTimingsAccepted | internal/config/validate.go:39-59 | Timings within the budget and the lower limits are accepted |
| Timings.TimingsMeaning | internal/config/validate.go:39-59 | Accepted timings are within every limit, 1 ms packet interval included, and each refusal names a limit that is broken |
| Probing.WaitsFitTimeout | internal/probe/run.go:109-118 | For accepted timings that do not wrap, the waits that RunLoop makes, the one cut short by cancellation included, are at most count-1 and sum to less than the timeout, which is less than the period |
| Timings.WrappedBudgetAccepted | internal/config/validate.go:52-54 | Four packets 2^62 ns apart pass with a timeout of 1 ns |
| Config.AcceptedProbe | internal/config/validate.go:94-142 | An accepted probe has a type the factory builds; its period is positive iff it is not HTTP, inherits probe_every or sets a positive one; a non-HTTP one fits its budget iff the product does not wrap |
| Config.AcceptedIff | internal/config/validate.go:94-142 | A probe is accepted if and only if its type is known, it has targets and all pass, its cap is not negative, its source address if any is usable, its timings pass unless it is HTTP, and labels and protocol block pass |
| Config.MergedFields | internal/config/validate.go:126-137 | An accepted probe field by field: its own name, type, targets and cap; source address and timings its own if set, else the globals' |
| Config.RefusalIsTrue | internal/config/validate.go:94-142 | Each refusal of a probe names a fault it has |
| Config.MergeIsStable | internal/config/validate.go:94-206 | An accepted probe with its merged timings and source address written out as overrides merges to the same probe under any other globals, provided its labels and protocol block pass again and those globals give no source address to a probe that has none |
| Config.MergeAndValidateProbes | internal/config/validate.go:70-90 | Accepts iff every probe is named and valid and names are distinct; keeps order; an error names a real fault |
| Config.Scan | internal/config/config.go:177-198 | Goes through iff every document is legal where it stands, then yields the overlaid globals and all fragments in order; crashes iff the first illegal document is the nil case |
| Config.NoteOrigins | internal/config/config.go:211-216 | Records the file of each name, or finds a name another file has defined |
| Config.Combine | internal/config/config.go:204-218 | Succeeds iff the concatenation of all fragments is valid with distinct names |
| Config.ParseProbeSources | internal/config/config.go:164-221 | Loads iff placement is legal, globals and probes validate and names are distinct across files; the output is the order-preserving concatenation; each error explains itself; crashes exactly on the nil case |
| Config.PositionOfGlobalFileIrrelevant | internal/config/config.go:177-202 | With one `_global.yaml`, whether and what is loaded does not depend on its place in the list |
| Config.GlobalsFieldByField | internal/config/config.go:165-191 | The globals in force are 30 s, 1 s, 5 s, 3 attempts and no source address, but for the keys `_global.yaml` sets |
| Config.LoadedProbes | internal/config/config.go:204-220 | The i-th loaded probe has the i-th raw probe's name, type, targets and cap, and its settings or else the globals |
| Config.LoadedIsAccepted | cmd/trimon/main.go:68-83 | A loaded configuration has distinct names and loses no probe in the factory |
| Fingerprint.Feed | internal/config/config.go:120-129 | The bytes written to the hash are the preimage of the sources |
| Fingerprint.PreimageOfOneMore | internal/config/config.go:122-127 | The preimage is name, byte 0, content, byte 0, source after source |
| Fingerprint.DecodeInvertsPreimage | internal/config/config.go:120-129 | For NUL-free names and contents the preimage decodes to the sources |
| Fingerprint.AnyChangeShows | internal/config/config.go:118-129 | Any add, remove, rename, reorder or edit of NUL-free sources changes the preimage |
| Fingerprint.CollidesIffAmbiguous | internal/config/config.go:120-129 | With contents arbitrary, another source list has the same preimage if and only if there are two sources or more, or one whose content holds two NUL bytes or more |
| MetricsDoc.SpliceTwice | internal/metricsdoc/metricsdoc.go:85-105 | A second splice gives what splicing only the second table gives if and only if the first table holds no end marker |
| MetricsDoc.SpliceIdempotent | internal/metricsdoc/metricsdoc.go:85-105 | Splicing a table without end marker twice changes nothing |
| MetricsDoc.SpliceReplacesTheBlock | internal/metricsdoc/metricsdoc.go:82-105 | The spliced document cuts at its markers into the old text before, the new table and the old text after |
| MetricsDoc.SpliceSucceedsIff | internal/metricsdoc/metricsdoc.go:87-97 | Splicing succeeds iff both markers occur and every end marker comes after some begin marker; the missing-marker errors are exact |
| MetricsDoc.OnlyInTable | internal/metricsdoc/metricsdoc.go:99-104 | No marker occurrence straddles a join |

## Left out

- Scheduling.Scheduler.BeginStop: ends before the waits of Stop, which depend on other goroutines; they are steps of `Daemon` (see Scheduling.StopIsItsSteps).
- Stats.RTTStats: gives the population variance in place of its square root, and reals in place of IEEE doubles.
- Pumping.Pipeline.DrainAndClose: the outer select loop of `Run` exists as steps of `Daemon` only.
- Shutdown.ShutdownIsSafe: the worker goroutines are steps, not code; a ticker that panics on a non-positive period is not one of them (see Config.AcceptedProbe).
- Channels of capacity zero, where a send meets a waiting receiver: the configuration demands a positive buffer size.
- Sockets, dialing, DNS lookups, clocks: attempt outcomes, resolver answers, arrivals and cancellation are arbitrary inputs.
- YAML decoding, SHA-256 and regular expressions: parsed documents and the hash input only.
- validateOTLP, validateLabels, the per-protocol blocks, validation of single targets and source addresses: arbitrary yes/no checks.
- ICMP, DNS and HTTP probers, and the connect mode of the TCP prober: library calls around the modelled loop.
- OTLP and stdout exporters, the HTTP handlers other than reload, the `/config` dump, BufferUsage, RenderTable, logging and flags: plumbing over libraries.
- Error message texts are reduced to what they identify.
