# Model of the Switch networking harness

A Dafny 4.11 model of the parts of the repository that carry state or arithmetic of their own, with proofs of what
they keep over whole runs. `dafny verify dfyconfig.toml` checks everything; no file needs another project.

The repository has three programs: a toolbox application that runs UDP and TCP workloads through a tunnel service or
ordinary sockets, a probe that traces system services and logs what it sees, and a Python harness that answers and
counts the workload traffic. Each module below follows one component of them.

| module | component |
|---|---|
| `Wrappers`, `Bytes`, `Text`, `Lines` | optional values, fixed-width integers and their encodings, C-string primitives, the 511-character line reader |
| `Ipv4Text` | the two IPv4 validators |
| `RuntimeConfig`, `ConfigFile`, `ConfigApply`, `ConfigLoad` | configuration settings, validation, printer and line parser as functions, and the program's key comparisons, validator and loader, step by step |
| `ConfigPorts`, `ConfigLegacy`, `ConfigUpgrade`, `ConfigSpacing` | what becomes of a port of 0, of the keys of earlier versions, and of white space that others add |
| `ConfigStore` | replacing the configuration file through `.tmp` and `.bak`, and the run IDs that rely on it |
| `Checksum`, `UdpPacket` | one's-complement checksums (RFC 1071 sections 1 and 2) and the inner IPv4/UDP packets (RFC 791 section 3.1, the "Fields" part of RFC 768) |
| `RttMetrics` | the 64-bucket round-trip histogram and its percentiles |
| `Msgpack` | the MessagePack reader and an independent grammar of the wire format |
| `SlotTable`, `TraceTables`, `TraceState`, `TraceRun`, `TraceModel`, `TraceLimits`, `TraceEntries`, `TraceClones` | the tracer's four fixed tables: arrays, operations, runs, the unbounded maps they stand for, what their sizes cost, and what their entries say over whole runs |
| `ObjectPath` | object paths as text, and what is read back from them |
| `TraceRecords` | the framing of captured buffers |
| `LogRings`, `LogFlusher`, `LogLimits` | the logger's drop-oldest rings, producers and flush thread as interleaved steps, and what the slot sizes cost |
| `WorkloadPayload` | the datagrams of both workloads and the identity the harness reads from them |
| `TunnelWaits`, `TunnelTcp` | the two kinds of wait over the tunnel service |
| `TunnelUdpSpec`, `TunnelUdpLaws`, `TunnelUdpTheorems`, `TunnelUdpRun` | the UDP workload over the tunnel service: what it does, laws of its steps, laws of whole runs, and the loops |
| `BsdUdpSpec`, `BsdUdpLaws`, `BsdUdpTheorems`, `BsdUdpRun` | the same for the workload over ordinary sockets |
| `HarnessStats` | the harness' account of what arrived |

Code that changes state step by step is a class or a method over arrays, proved equal to a function; what the
function means is proved beside it. A service, a socket layer, a file system or a clock is an arbitrary input: a
table of replies, or a finite script of what happens during one wait. Quantities that the repository takes from
headers that are not part of this model (`MaximumUdpPayloadStorageBytes`, `MaximumFlowsPerClient`,
`MaxInnerIpv4PacketSize`) are symbolic constants.

## What the proofs found

* A configuration survives saving and loading exactly when its profile names are clean (no newline or NUL, no white
  space at either end). Whatever a file says, the configuration loaded from it is valid and clean.
* The compiled defaults are valid exactly when the payload storage holds at least 48 bytes.
* A port of 0 is stored although its line is refused. The whole file then falls back to the defaults unless a later line
  stores another port in the same place or drops the profile; every other refused line changes nothing.
* A line with a key of an earlier version does what one or two current lines do, as long as some profile is active, and
  nothing otherwise. Rewriting a whole file this way loads the same configuration, only without the notice to save it.
* `SaveRuntimeConfig` ignores the results of its `fprintf` calls: a successful save left the complete new text
  exactly when every byte was delivered.
* A failed save leaves the file as it was, unless the rename that restores it fails too; then the old text is in
  `.bak`, the next start does not look there, and run IDs repeat. A configuration that exists only as `.bak` is
  lost as soon as a save gets as far as clearing the backup.
* The checksum misses a changed word only when 0x0000 becomes 0xFFFF or the reverse, with something else in the sum.
* A trace handle table that is full forgets an open handle without a sign. A close is taken for a session's last one
  although another handle is open exactly when all other open handles of the session have been dropped like this, or by
  forgetting the session; 129 handles are enough.
* Seeing a domain object again keeps its close mark, while seeing a handle again clears it.
* An object whose parent's path has more than 91 characters does not show its generation; the creator is lost a little
  earlier, as soon as the bracket after the command no longer fits 95 characters.
* Entries queued after the flush thread has exited are never written, and refusals of oversized records can stay
  uncounted at exit; nothing else can.
* A flow that the tunnel service opens without a local port is refused by the UDP workload and never closed. This and
  the loss of the service are the only ways to leave a flow open.
* An end of stream reported while data still wait in a later batch fails the TCP exchange, and nothing else about the
  splitting of the reply does.
* Two log paths of 95 characters or more can share a file name and, being queued on different rings, swap records. This
  can happen for exactly those 95-character names that do not contain the nifm file name.
* The conversion of ticks to nanoseconds is wrong exactly when the left-over ticks, times 10^9, do not fit 64 bits.

## Model

| member | source | states |
|---|---|---|
| `Ipv4Text.IsValidIpv4` | toolbox/src/runtime_config.cpp:59-80 | the find-and-split validator accepts exactly the dotted quads: four groups of one to three digits, each at most 255 |
| `Ipv4Text.IsIpv4Address` | toolbox/src/https_scenario_parsing.cpp:11-34 | the one-pass state machine accepts exactly the same strings |
| `Ipv4Text.DottedQuadMeaning` | toolbox/src/runtime_config.cpp:59-80 | the recursive reading of a dotted quad is the join of four octets with dots |
| `Lines.MapJoinedLines` | toolbox/src/runtime_config.cpp:370-373 | a text made of lines that fit the 512-byte buffer is read back line by line |
| `Lines.OneRead` | toolbox/src/runtime_config.cpp:370-373 | one read ends behind the first newline, at the end of the text, or after 511 characters |
| `ConfigLoad.LoadRuntimeConfig` | toolbox/src/runtime_config.cpp:358-404 | the loop reads, applies and reports line by line what the specification says, and from valid defaults with clean names ends with a configuration that can be run and has clean names, whatever the file holds |
| `ConfigLoad.ReadTrimmed` | toolbox/src/runtime_config.cpp:375-397 | comments and blank lines are skipped, a missing separator or an empty side is reported with the number of the line, and anything else is applied |
| `ConfigApply.ApplySetting` | toolbox/src/runtime_config.cpp:204-310 | the chain of key comparisons does for every key and value what the recognized setting asks for: which field changes, whether the line counts as an old one, and which error is reported |
| `ConfigApply.ApplyProfileSetting` | toolbox/src/runtime_config.cpp:228-264 | one field of one profile, where a port of 0 is stored and refused |
| `ConfigApply.ApplyLegacySetting` | toolbox/src/runtime_config.cpp:116-202 | the keys of earlier versions act on the active profile, or are refused without one |
| `ConfigApply.Validate` | toolbox/src/runtime_config.cpp:406-461 | the validator reports the first defect in its order, and none if and only if the configuration can be run |
| `ConfigApply.ValidMeansRuns` | toolbox/src/runtime_config.cpp:406-461 | a configuration validates if and only if it has 1 to 8 usable profiles with an active one among them, numbers in their ranges, and what its scenario needs, all stated in numbers |
| `ConfigFile.KeyIsPlainAndRecognized` | toolbox/src/runtime_config.cpp:102-114 | every key the printer writes is short, free of separators, and recognized as that very setting |
| `ConfigFile.PrintedValueApplies` | toolbox/src/runtime_config.cpp:204-310 | applying the printed value of a setting puts exactly that setting of the saved configuration in place, without diagnostic |
| `ConfigFile.LoadedConfigIsValidAndClean` | toolbox/src/runtime_config.cpp:358-404 | whatever the file holds, the loaded configuration validates and has clean names |
| `ConfigFile.SaveLoadRoundTrip` | toolbox/src/runtime_config.cpp:539-606 | loading what was printed for a valid configuration gives it back with no diagnostics if and only if its names are clean |
| `ConfigFile.LoadSaveLoad` | toolbox/src/runtime_config.cpp:358-404 | loading any file, saving and loading again changes nothing and reports nothing |
| `ConfigFile.CompiledDefaultsAreValid` | toolbox/src/runtime_config.cpp:314-356 | the compiled defaults are clean, have one profile with UDP port 29000 and TCP port 28080, and are valid if and only if the payload storage holds 48 bytes |
| `ConfigLegacy.LegacyKeyIff` | toolbox/src/runtime_config.cpp:116-202 | a key is understood as a setting of an earlier version if and only if it is the key of that setting |
| `ConfigLegacy.LegacyActsAsCurrent` | toolbox/src/runtime_config.cpp:116-202 | with an active profile each of the thirteen old keys does to the configuration what its current form with the same value does and is accepted exactly when that is: a renamed key its new key, a switch its run.scenario line or nothing for false, the address key both address lines of the active profile, the port key its UDP port |
| `ConfigLegacy.LegacyNeedsActive` | toolbox/src/runtime_config.cpp:116-120 | without an active profile every old line is refused and changes nothing |
| `ConfigUpgrade.UpgradedFileLoadsTheSame` | toolbox/src/runtime_config.cpp:358-404 | for every file: with each old line replaced by its current form it loads the same configuration, differs in its diagnostics only in line numbers, rejections and the notice about an old file, and has rejections if and only if it had some |
| `ConfigSpacing.SpacedLineReads` | toolbox/src/runtime_config.cpp:27-34 | a setting is read the same with any spaces, tabs and carriage returns around its key and its value, with or without a newline |
| `ConfigSpacing.ReturnsLoadTheSame` | toolbox/src/runtime_config.cpp:358-404 | a file with a carriage return before each newline loads as the one without, whatever its lines |
| `ConfigPorts.RejectedChangesNothingIff` | toolbox/src/runtime_config.cpp:204-310 | a rejected setting leaves the configuration unchanged if and only if it does not store a port of 0 over another one, under the UDP, TCP or legacy key |
| `ConfigPorts.PortIsLastStored` | toolbox/src/runtime_config.cpp:204-310 | after any lines each port is what the last line that stored one there stored, also across legacy keys and changes of the profile count |
| `ConfigPorts.FileFallsBackIff` | toolbox/src/runtime_config.cpp:358-404 | for every text the whole file falls back to the defaults if and only if it is invalid for another reason or the last port stored for some profile is 0; otherwise every line counts |
| `ConfigPorts.LaterLineRepairs` | toolbox/src/runtime_config.cpp:256-258 | from any valid configuration a line with port 0 makes the file fall back, and a line with port 5 after it repairs that |
| `ConfigStore.ConfigDirectory.SaveRuntimeConfig` | toolbox/src/runtime_config.cpp:520-649 | the file operations pass through exactly the specified states of path, temporary and backup |
| `ConfigStore.ConfigDirectory.ReplaceFile` | toolbox/src/runtime_config.cpp:616-649 | the same for the remove and rename steps |
| `ConfigStore.SaveIsCrashSafe` | toolbox/src/runtime_config.cpp:609-648 | with a file at the path, after every prefix of the steps and under any failures the old text is at the path or in the backup, or the new text is at the path |
| `ConfigStore.FailedSaveKeepsPath` | toolbox/src/runtime_config.cpp:634-644 | a failed save leaves the path unchanged if and only if the restoring rename did not fail; otherwise the backup holds the old text |
| `ConfigStore.SuccessfulSave` | toolbox/src/runtime_config.cpp:540-608 | a successful save leaves what was delivered, which is the printed configuration if and only if every byte was delivered |
| `ConfigStore.LoneBackupIsLost` | toolbox/src/runtime_config.cpp:616-644 | a configuration that exists only as backup becomes unrecoverable in some state if and only if the save gets past clearing the backup |
| `ConfigStore.StartReads` | toolbox/src/runtime_config.cpp:358-367 | a start finds nothing, a file it cannot read and reports, or the text of the file, and what it loads is what the application then holds |
| `ConfigStore.RunIdsIncrease` | toolbox/src/app_ui.cpp:771-784 | over every run of saves, failures and restarts in which no restore fails and nobody edits the file, reserved IDs strictly increase |
| `ConfigStore.FailedRestoreForgetsIds` | toolbox/src/app_ui.cpp:771-784 | after a failed restore and a restart the defaults are back although IDs have been reserved |
| `ConfigStore.RunIdsCanRepeat` | toolbox/src/app_ui.cpp:771-784 | a concrete run reserves one ID twice, with every save delivering its whole text, every restart reading the file, and nothing failing but one replacement and its restore |
| `Checksum.AddChecksumBytes` | toolbox/src/wgnx_packet_scenario.cpp:46-56 | the 32-bit accumulator holds the word sum modulo 2^32 |
| `Checksum.FinishChecksum` | toolbox/src/wgnx_packet_scenario.cpp:58-63 | the folding loop ends and yields the complement of the one's-complement sum |
| `Checksum.ComputeChecksum` | toolbox/src/wgnx_packet_scenario.cpp:65-67 | the checksum of a block is the complement of its folded word sum |
| `Checksum.SumNeverWraps` | toolbox/src/wgnx_packet_scenario.cpp:46-56 | for a packet of 65535 bytes with its pseudo-header the accumulator never overflows |
| `Checksum.WordSumJoin` | toolbox/src/wgnx_packet_scenario.cpp:69-81 | summing over even-length pieces is summing over their concatenation |
| `Checksum.FoldStep` | toolbox/src/wgnx_packet_scenario.cpp:58-63 | each folding step strictly decreases the sum, keeps it positive and keeps its residue |
| `Checksum.StoredChecksumVerifies` | toolbox/src/wgnx_packet_scenario.cpp:99-137 | a block with its checksum stored, also as 0xFFFF in place of 0, folds to all ones |
| `Checksum.WordChangeDetection` | toolbox/src/wgnx_packet_scenario.cpp:46-67 | replacing one aligned word keeps the checksum valid if and only if the words are equal, or 0x0000 and 0xFFFF with the rest of the sum positive |
| `UdpPacket.ComputeUdpChecksum` | toolbox/src/wgnx_packet_scenario.cpp:69-81 | the three partial sums give the checksum of pseudo-header and datagram |
| `UdpPacket.BuildUdpPacket` | toolbox/src/wgnx_packet_scenario.cpp:99-137 | the output buffer ends up holding exactly the specified packet, or is refused for size |
| `UdpPacket.ValidateUdpReply` | toolbox/src/wgnx_packet_scenario.cpp:139-207 | a reply is accepted if and only if it is a well-formed datagram with both checksums valid that matches the expectation; otherwise the reason given holds |
| `UdpPacket.BuiltPacketIsAccepted` | toolbox/src/wgnx_packet_scenario.cpp:99-207 | every packet that is built is accepted under the matching expectation, for all addresses, ports and payloads |
| `UdpPacket.BuiltPacketReads` | toolbox/src/wgnx_packet_scenario.cpp:99-137 | the packet states its own size, the identification given to the builder, that it is not a fragment and must not become one, 64 hops, UDP, and the endpoints and payload it was built from |
| `UdpPacket.AcceptanceIsUnambiguous` | toolbox/src/wgnx_packet_scenario.cpp:139-207 | no packet satisfies two different expectations |
| `UdpPacket.HeaderWordChange` | toolbox/src/wgnx_packet_scenario.cpp:156-160 | which single-word changes of a valid header go unnoticed |
| `UdpPacket.CorruptedChecksumIsRefused` | toolbox/src/wgnx_packet_scenario.cpp:280-282 | complementing byte 10 of a built packet makes every validation refuse it |
| `RttMetrics.UdpWorkloadMetrics.RecordEcho` | toolbox/src/udp_workload_metrics.hpp:26-38 | counters, extremes and histogram describe the samples recorded so far, including the new one |
| `RttMetrics.UdpWorkloadMetrics.RttPercentileUpperNanoseconds` | toolbox/src/udp_workload_metrics.hpp:73-86 | the answer is the upper end of the first bucket that reaches the rank, of the counters always; below 2^32 echoes it is that of the samples, holds the percentage asked for, and is never the trailing zero |
| `RttMetrics.HistogramTotal` | toolbox/src/udp_workload_metrics.hpp:26-38 | bucket counts add up to the number of samples |
| `RttMetrics.NearestRankBucket` | toolbox/src/udp_workload_metrics.hpp:73-98 | the nearest-rank sample lies in the bucket that is chosen |
| `RttMetrics.PercentileBound` | toolbox/src/udp_workload_metrics.hpp:73-98 | the answer is at least the sample of nearest rank, that is the least rank that reaches the percentage, and at most twice it outside the two end buckets |
| `RttMetrics.AnswerHoldsPercent` | toolbox/src/udp_workload_metrics.hpp:73-98 | counted on the samples alone, for every percentage from 1 to 100: at least that share of them is below the answer, outside the top bucket, and less than that share is below the lower end of its bucket |
| `RttMetrics.OneAnswerHoldsPercent` | toolbox/src/udp_workload_metrics.hpp:73-98 | no other answer has these two properties |
| `RttMetrics.OutsideThePercentiles` | toolbox/src/udp_workload_metrics.hpp:73-86 | no echo yet or a percentage above 100 is answered with 0, percentage 0 with the end of the first bucket |
| `RttMetrics.PercentileMonotone` | toolbox/src/udp_workload_metrics.hpp:73-86 | a higher percentile never gets a smaller answer |
| `RttMetrics.TicksConversion` | toolbox/src/udp_workload_metrics.hpp:88-94 | splitting off whole seconds computes the exact quotient, modulo 2^64, if and only if the ticks left over, times 10^9, fit 64 bits; without a frequency the result is 0 |
| `RttMetrics.SlowCountersConvertExactly` | toolbox/src/udp_workload_metrics.hpp:88-94 | with a tick frequency up to 2^64 / 10^9 the conversion is exact modulo 2^64 for every tick count |
| `Msgpack.MsgpackReader.ParseValue` | tools/decode_erpt.py:76-131 | on every byte string the recursive reader gives what `Parse` gives; a value is returned only for bytes that encode it in the independent grammar |
| `Msgpack.MsgpackReader.ParseArray` | tools/decode_erpt.py:133-138 | the loop over items yields their list and the offset after them |
| `Msgpack.MsgpackReader.ParseMap` | tools/decode_erpt.py:140-146 | the loop over pairs yields the dictionary and the offset after them |
| `Msgpack.ParseEncoded` | tools/decode_erpt.py:76-146 | parsing the encoding of any value followed by any bytes gives that value and exactly its length |
| `Msgpack.ParsedIsEncoded` | tools/decode_erpt.py:76-146 | whatever parses is the encoding of something in the grammar |
| `Msgpack.ParseIffEncoded` | tools/decode_erpt.py:76-146 | a parse has a result if and only if the bytes there are an encoding with that meaning |
| `Msgpack.ParseDependsOnConsumedBytes` | tools/decode_erpt.py:56-146 | the result depends on the consumed bytes only, wherever they stand |
| `Msgpack.NodesBounded` | tools/decode_erpt.py:76-146 | a value has no more nodes than bytes were consumed |
| `Msgpack.MapKeepsEveryEntry` | tools/decode_erpt.py:140-146 | with distinct text keys the dictionary holds every pair |
| `Msgpack.LastEntryWins` | tools/decode_erpt.py:140-146 | for every map, integer and other keys and repeated keys included: each text that some key has is in the dictionary with the value of the last such pair, and no other text is |
| `Msgpack.ErrorNames` | tools/decode_erpt.py:52-131 | every error names a place behind the start: where too few bytes are left for what is read there, or a tag that is not supported |
| `SlotTable.FindSlot` | net-probe/src/mitm_trace.cpp:915-940 | the shared search loop finds the first entry with the key, else the first free slot, else slot 0 |
| `SlotTable.ForgetSessionIn` | net-probe/src/mitm_trace.cpp:617-666 | the sweep frees exactly the entries of one session |
| `SlotTable.LookupStored` | net-probe/src/mitm_trace.cpp:915-952 | after a store every lookup is the new value, the old one, or nothing for the evicted key |
| `SlotTable.CountIsCardinality` | net-probe/src/mitm_trace.cpp:668-676 | the number of used slots is the number of keys |
| `SlotTable.EvictionUpdatesTheMap` | net-probe/src/mitm_trace.cpp:843-878 | a store into a full table is a removal of the entry in slot 0 and an update |
| `TraceState.State.RememberSessionLocked` | net-probe/src/mitm_trace.cpp:782-807 | the array operation is the specified one, and the count returned is that of the new table |
| `TraceState.State.ForgetSessionLocked` | net-probe/src/mitm_trace.cpp:809-836 | the session and all its entries go, whether or not the session was known |
| `TraceState.State.RememberSessionHandleLocked` | net-probe/src/mitm_trace.cpp:915-952 | the array operation is the specified upsert |
| `TraceState.State.NoteCloneRegisteredLocked` | net-probe/src/mitm_trace.cpp:983-1030 | afterwards the clone has the server and forward handle it was given, is registered and open; the array change is the specified one and the failure result is never returned |
| `TraceState.State.MarkCloneClosedByServerHandleLocked` | net-probe/src/mitm_trace.cpp:1032-1050 | the first open clone with that server handle is closed, if there is one |
| `TraceState.State.LogClose` | net-probe/src/mitm_trace.cpp:5802-5875 | the close is final if and only if no other tracked handle of the session is open, and then the session is forgotten |
| `TraceState.State.RememberDomainPath` | net-probe/src/mitm_trace.cpp:843-878 | object 0 and empty paths are ignored; otherwise the specified upsert |
| `TraceState.State.RememberReturnedDomainObjects` | net-probe/src/mitm_trace.cpp:3527-3545 | all objects of a response are remembered under the path the parent had before |
| `TraceRun.KeysAlwaysUnique` | net-probe/src/mitm_trace.cpp:782-1070 | over every sequence of events keys stay unique in all four tables and each count is the table's cardinality |
| `TraceRun.FinalClose` | net-probe/src/mitm_trace.cpp:5802-5826 | the active count after a close is zero if and only if no other handle of the session is open |
| `TraceRun.DisconnectForgetsOneSession` | net-probe/src/mitm_trace.cpp:809-836 | after a final close no table mentions the session, and every other session is untouched |
| `TraceRun.EvictionForgetsOneSession` | net-probe/src/mitm_trace.cpp:795-806 | a session evicted from a full table leaves nothing behind; the new one is there and all others are untouched |
| `TraceRun.CloneRegistrationSucceeds` | net-probe/src/mitm_trace.cpp:983-1050 | after any registration the entry has the handles given, is registered and open, and keeps what an earlier entry knew; closing that server handle next closes an open clone that has it |
| `TraceEntries.TrackedHandlesSayWhatHappened` | net-probe/src/mitm_trace.cpp:915-981 | in every run, evictions included: a tracked handle has the peer, forward handle and kind it was last handed out with, and is marked closed if and only if it was closed since, with the time of the last close |
| `TraceEntries.TrackedSessionsSayWhatHappened` | net-probe/src/mitm_trace.cpp:782-807 | in every run a tracked session has the service and client it was last connected with |
| `TraceClones.RegisteredClonesKeepTheirHandles` | net-probe/src/mitm_trace.cpp:983-1050 | in every run: a clone that was registered, has been tracked since and was not closed by its server handle has the handles it was last given and is open |
| `TraceClones.ServerHandleAlwaysFindsClone` | net-probe/src/mitm_trace.cpp:1032-1050 | in every run the close of such a clone's server handle closes an open clone that has it |
| `TraceRun.OnlyHandlesReopen` | net-probe/src/mitm_trace.cpp:851-860 | a handle seen again is open; a domain object seen again is marked closed if and only if it was |
| `TraceLimits.OpenAfter` | net-probe/src/mitm_trace.cpp:782-1050 | which handles are open after any event on any tables: the one handed out, and those open before that the event neither closes nor drops |
| `TraceLimits.AliveIsOpenOrDropped` | net-probe/src/mitm_trace.cpp:809-952 | in every run the handles handed out and not closed are exactly those tracked as open and those dropped while open, by a full handle table, an evicted session or a forgotten one |
| `TraceLimits.WronglyFinalIff` | net-probe/src/mitm_trace.cpp:5802-5826 | over every run, a close is taken for the session's last although another handle is open if and only if no other handle is tracked as open and one has been dropped |
| `TraceLimits.FullTableEndsASessionEarly` | net-probe/src/mitm_trace.cpp:915-952 | a concrete run: with 129 handles the close of one handle ends its session although another is open |
| `TraceLimits.CapacitiesInNumbers` | net-probe/src/mitm_trace.cpp:33-37 | in every run a new key evicts if and only if 64 sessions, 128 handles, 128 clones or 256 object paths are tracked |
| `TraceRun.EveryPathIsBorn` | net-probe/src/mitm_trace.cpp:3527-3545 | in every run each tracked object is a converted root, or extends the path its parent had when a command returned it |
| `TraceRun.TrackedPathsEncodeAncestry` | net-probe/src/mitm_trace.cpp:1232-1269 | in every run each tracked child was returned when its parent had some path, and if the child's whole path fits 95 characters it has one command segment more and its full path names its creator if and only if the command is below 2^31 |
| `TraceRun.PathsEncodeAncestry` | net-probe/src/mitm_trace.cpp:3535-3543 | the same for any child whose whole path fits 95 characters |
| `TraceLimits.CutPathsLoseTheirChildren` | net-probe/src/mitm_trace.cpp:3541-3543 | a child's path, cut or not, shows one segment more than its parent's if and only if the parent's path has at most 91 characters, and otherwise the same number |
| `TraceLimits.CreatorSurvivesIff` | net-probe/src/mitm_trace.cpp:1246-1269 | the creator is read back from a cut path if and only if the path keeps it up to its bracket and it is below 2^31, or not even the mark fits and the parent happens to name the same command |
| `TraceLimits.TrackedPathsShowAncestryIff` | net-probe/src/mitm_trace.cpp:3527-3545 | both conditions for every tracked child in every run, in terms of the parent's path when it was returned |
| `TraceLimits.DeepObjectsLookAlike` | net-probe/src/mitm_trace.cpp:3541-3543 | a concrete run: from the twelfth generation on, objects show the depth of their parents |
| `TraceModel.TablesRefineMaps` | net-probe/src/mitm_trace.cpp:617-1116 | as long as no table has to evict, every run of the tables is a run of four unbounded maps |
| `TraceModel.StepAgrees` | net-probe/src/mitm_trace.cpp:782-1116 | one event on the tables is one event on the maps, the closed clone being any open one with that server handle |
| `TraceModel.RoomMeansNoEviction` | net-probe/src/mitm_trace.cpp:843-878 | a table evicts if and only if its map is at capacity and lacks the key |
| `ObjectPath.CountCmdSegments` | net-probe/src/mitm_trace.cpp:1232-1244 | resuming after each match counts every ".cmd" of the text |
| `ObjectPath.GetLastCreatorCommandId` | net-probe/src/mitm_trace.cpp:1246-1269 | the result is read from the last ".cmd" as strtoul and the conversion to int read it, or -1 |
| `ObjectPath.ChildAddsASegment` | net-probe/src/mitm_trace.cpp:3541-3542 | a child's path has exactly one segment more, whatever the parent's path is |
| `ObjectPath.CreatorReadsBack` | net-probe/src/mitm_trace.cpp:1246-1269 | the command read back from a child's path is its creator if and only if it is below 2^31; otherwise it is negative |
| `ObjectPath.SiblingsDiffer` | net-probe/src/mitm_trace.cpp:3541-3542 | objects returned to one parent have different paths unless command and place are the same |
| `ObjectPath.StrtoulReads` | net-probe/src/mitm_trace.cpp:1246-1269 | strtoul takes any white space, a sign and digits; a minus wraps the value and a value past 64 bits becomes the largest |
| `ObjectPath.StrtoulNeedsDigits` | net-probe/src/mitm_trace.cpp:1246-1269 | without a digit behind white space and sign there is no number |
| `TraceRecords.EmitBinaryPayloadRecords` | net-probe/src/mitm_trace.cpp:1598-1634 | the reused record buffer yields the specified records |
| `TraceRecords.RecordReadsBack` | net-probe/src/mitm_trace.cpp:159-180 | the packed header gives back offset, size, total and flags of every record |
| `TraceRecords.RecordsReassemble` | net-probe/src/mitm_trace.cpp:1598-1634 | a reader of the records alone gets the buffer back if and only if it is smaller than 4 GiB |
| `TraceRecords.RecordsInOrder` | net-probe/src/mitm_trace.cpp:1598-1634 | the k-th record reads as the k-th stretch of 1536 bytes, or what is left of it, and only the last one reaches the end |
| `TraceRecords.RecordIdentifiesCapture` | net-probe/src/mitm_trace.cpp:159-180 | a reader of the packed header gets back every field of the capture - tick, time, request, session, program, process, object, service, command, phase, direction, index - and the place of the chunk |
| `TraceRecords.EveryRecordIsQueued` | net-probe/src/mitm_trace.cpp:1598-1634 | no record is refused by the logger for its size |
| `LogRings.RingBuffer.Queue` | net-probe/src/logger.cpp:192-217 | the ring holds its entries and the new one, without the oldest if it was full, and then counts a drop |
| `LogRings.RingBuffer.Pop` | net-probe/src/logger.cpp:219-228 | the oldest entry leaves the ring |
| `LogRings.LogQueues.QueueLineLocked` | net-probe/src/logger.cpp:192-217 | path and line are cut to their slots and appended to the line ring only |
| `LogRings.LogQueues.QueueBlobLocked` | net-probe/src/logger.cpp:230-255 | a record goes to the ring its path names, uncut, or is refused and counted against the generic ring |
| `LogRings.LogQueues.Collect` | net-probe/src/logger.cpp:305-336 | one locked pass takes all drop counters and one batch from every ring, in order |
| `LogRings.LinesThatWait` | net-probe/src/logger.cpp:192-217 | in numbers: 896 lines wait before the oldest is dropped and counted, each cut to 2047 bytes and its path to 95 characters |
| `LogRings.RecordsThatWait` | net-probe/src/logger.cpp:230-255 | in numbers: 96 records wait in the ring that the path names before the oldest is dropped and counted, kept whole up to 2048 bytes |
| `LogRings.PassTakes` | net-probe/src/logger.cpp:305-336 | in numbers: one pass takes the oldest 16 lines and the oldest 8 records of each ring, or all there are |
| `LogFlusher.BooksAlwaysBalance` | net-probe/src/logger.cpp:192-350 | in every interleaving each ring holds the last entries it accepted, what was popped is written once and in order, and every drop is reported once or still counted |
| `LogFlusher.TracksFollowTheProducers` | net-probe/src/logger.cpp:439-478 | the entries a ring has accepted are those the producers handed in for it, in order |
| `LogFlusher.RecordsKeepTheirOrder` | net-probe/src/logger.cpp:230-350 | the records written under one file name are a subsequence of those handed in under it, in every run in which they all go to one ring |
| `LogFlusher.ShortPathsKeepTheirOrder` | net-probe/src/logger.cpp:230-350 | that is so in every run for every path shorter than its slot |
| `LogFlusher.SharedNamesCanSwap` | net-probe/src/logger.cpp:230-350 | two longer paths cut to one name but queued on different rings: a run that writes their records the other way round |
| `LogLimits.KeepsOrderIff` | net-probe/src/logger.cpp:230-350 | the exact condition on a file name: its records keep their order in every run if and only if it does not have exactly 95 characters or contains the nifm file name |
| `LogFlusher.ExitLosesNothing` | net-probe/src/logger.cpp:352-375 | when the flush thread exits, everything accepted so far was written or reported as dropped |
| `LogLimits.RefusalCanStayUnreported` | net-probe/src/logger.cpp:305-375 | a concrete run: a record refused for its size between the last collection and the exit is counted and never reported |
| `LogLimits.BannerIsPushedOut` | net-probe/src/logger.cpp:192-217 | a concrete run: 895 lines wait behind the boot banner, and one more pushes it out |
| `LogFlusher.NothingAfterExit` | net-probe/src/logger.cpp:377-437 | after the exit nothing is ever written again |
| `LogFlusher.ExitNeedsARequest` | net-probe/src/logger.cpp:352-437 | in every run a stop is pending if and only if one was requested, and the flush thread has exited only then |
| `LogFlusher.StopIsHonoured` | net-probe/src/logger.cpp:305-409 | after a stop request, with no more entries coming in, finitely many flusher steps reach the exit |
| `WorkloadPayload.BuildPayload` | toolbox/src/wgnx_tunnel_scenario.cpp:125-138 | the buffer ends up holding the header of the identity and the generated filler |
| `WorkloadPayload.GeneratorIsXorshift32` | toolbox/src/wgnx_tunnel_scenario.cpp:111-116 | the shifts are those of the published 32-bit generator: its first numbers follow from its seed |
| `WorkloadPayload.IdentityRoundTrip` | tools/requester_harness.py:153-168 | the harness reads back exactly the identity either workload wrote |
| `WorkloadPayload.IdentifiedIffHeader` | tools/requester_harness.py:153-168 | a datagram is identified if and only if it starts with that identity's header |
| `WorkloadPayload.MalformedIff` | tools/requester_harness.py:153-161 | a datagram is malformed if and only if it starts with a marker and its header is cut short or not terminated by a zero byte |
| `WorkloadPayload.UnexpectedIff` | tools/requester_harness.py:153-159 | a datagram is unexpected if and only if it starts with neither marker |
| `WorkloadPayload.PayloadsAreDistinct` | toolbox/src/bsd_system_udp_scenario.cpp:69-83 | equal payloads have equal identities and sizes |
| `TunnelWaits.WaitFor` | toolbox/src/wgnx_tunnel_scenario.cpp:176-320 | both wait loops, over every script: the verdict is that of the first event that decides, or the deadline if none does, and both counters count what came before it |
| `TunnelWaits.OutcomeIsFirstDecision` | toolbox/src/wgnx_tunnel_scenario.cpp:176-320 | the nested loops over wakes, batches and completions decide with the first decisive event of the whole script: a failure, the end of the flow, or the completion waited for |
| `TunnelWaits.VerdictIff` | toolbox/src/wgnx_tunnel_scenario.cpp:176-320 | the exact condition for each of the six verdicts, over all scripts: which event is the first to decide |
| `TunnelWaits.LaterEventsDoNotMatter` | toolbox/src/wgnx_tunnel_scenario.cpp:193-247 | two scripts that agree up to the deciding event have the same outcome, whatever the service would have reported later |
| `TunnelUdpRun.SendDatagram` | toolbox/src/wgnx_tunnel_scenario.cpp:757-794 | the retry loop: there is a last attempt, at most the 17th, all before it met a full queue and then a report of room, and that attempt alone says whether the datagram failed or the service is lost; the calls are exactly those attempts and waits, all with the same payload and flow |
| `TunnelUdpRun.RunWgnxTunnelUdpWorkload` | toolbox/src/wgnx_tunnel_scenario.cpp:676-856 | the whole run: success means that nothing failed and shows in its calls, at most 17 sends per datagram, sends and waits in order and each on the flow its payload names, the figures reported are those of the calls, and unless the service is lost exactly the flows used are closed |
| `TunnelUdpLaws.SendMeans` | toolbox/src/wgnx_tunnel_scenario.cpp:757-794 | the recursion that specifies the retry loop is that one line of attempts, with the last one determined by the replies |
| `TunnelUdpTheorems.OpensStopAtFirstFailure` | toolbox/src/wgnx_tunnel_scenario.cpp:676-710 | flows are opened in order up to the configured number or the first reply without a usable flow |
| `TunnelUdpTheorems.RunCounts` | toolbox/src/wgnx_tunnel_scenario.cpp:746-856 | over every run: echoed <= accepted <= attempted <= configured, the counters are the accepted sends and echoes of the call log, and success holds if and only if nothing failed, which is if and only if all flows were opened and every datagram and echo completed |
| `TunnelUdpTheorems.RunSends` | toolbox/src/wgnx_tunnel_scenario.cpp:757-794 | over every run: every send is a first send in order, or the same payload on the same flow right after a full queue and a wait that reported that flow writable; every wait follows the send it is about; at most 17 sends per datagram |
| `TunnelUdpTheorems.DatagramsGoByTheirFlow` | toolbox/src/wgnx_tunnel_scenario.cpp:747-794 | over every run: each send of a datagram and each wait after it is on the flow that open number sequence % flows returned, which is the open that the identity read from the payload names |
| `TunnelUdpTheorems.RunTallies` | toolbox/src/wgnx_tunnel_scenario.cpp:757-790 | over every run: the full queues, ignored completions and wakes reported are the sums over the calls |
| `TunnelUdpTheorems.SeventeenAttempts` | toolbox/src/wgnx_tunnel_scenario.cpp:757-794 | a datagram refused sixteen times, with room reported each time, is sent a seventeenth time, and that reply decides |
| `TunnelUdpTheorems.RunCloses` | toolbox/src/wgnx_tunnel_scenario.cpp:823-842 | over every run: a lost service was found by the very last call and nothing is closed; otherwise the run ends by closing the used flows, each once, and closed nothing before |
| `TunnelUdpTheorems.FlowsClosedIff` | toolbox/src/wgnx_tunnel_scenario.cpp:676-710 | over every run: the flows closed are exactly those opened, as multisets, if and only if the service was not lost and opened no flow without a local port |
| `TunnelUdpTheorems.PortlessFlowIsLeftOpen` | toolbox/src/wgnx_tunnel_scenario.cpp:693-707 | if the k-th open gives a flow without a local port, the run fails, closes the k flows before it and leaves exactly that one open |
| `TunnelUdpTheorems.LeftOpenExample` | toolbox/src/wgnx_tunnel_scenario.cpp:693-707 | a concrete service: flow 7 is opened and nothing is closed |
| `TunnelUdpTheorems.LateEchoIsNotTaken` | toolbox/src/wgnx_tunnel_scenario.cpp:236-246 | a completion that carries another datagram of the run never satisfies the wait for this one |
| `TunnelUdpTheorems.EchoIsCurrent` | toolbox/src/wgnx_tunnel_scenario.cpp:236-246 | whenever a run takes an echo for a datagram, the first deciding event of that wait is an in-bounds datagram on that flow whose identity is exactly that datagram's |
| `TunnelTcp.WaitForTcpProgress` | toolbox/src/wgnx_tunnel_scenario.cpp:322-433 | over every script and every need: the verdict is that of the first event at which what was delivered and reported so far decides; the 14-byte buffer is never overrun |
| `TunnelTcp.Progress.Append` | toolbox/src/wgnx_tunnel_scenario.cpp:402-408 | a piece that fits is appended to the reply and nothing else changes |
| `TunnelTcp.SuccessMeansTheReply` | toolbox/src/wgnx_tunnel_scenario.cpp:409-427 | for every script and every need that includes the reply, success means that the in-bounds pieces of this flow join to exactly the expected reply, and that the end of stream and the open state were reported if needed |
| `TunnelTcp.VerdictIff` | toolbox/src/wgnx_tunnel_scenario.cpp:322-433 | the exact condition for each of the nine verdicts over all scripts, in terms of the joined pieces and the last reported state, without buffer or flags |
| `TunnelTcp.LaterEventsDoNotMatter` | toolbox/src/wgnx_tunnel_scenario.cpp:322-433 | two scripts that agree up to the deciding event have the same outcome |
| `TunnelTcp.EverySplitIsAccepted` | toolbox/src/wgnx_tunnel_scenario.cpp:388-427 | however the expected reply is split over completions, batches and wakes, the wait succeeds if nothing went wrong before and the end of stream was not reported before the reply was complete, whatever happens later |
| `TunnelTcp.EarlyEofIsRefused` | toolbox/src/wgnx_tunnel_scenario.cpp:413-417 | an end of stream reported before the reply is complete ends the wait without success |
| `BsdUdpRun.SendWithWritableRetry` | toolbox/src/bsd_system_udp_scenario.cpp:160-207 | the retry loop: there is a last attempt, at most the 17th, all before it found no room and then a report of room, and the datagram counts as sent if and only if that attempt took all its bytes |
| `BsdUdpRun.CloseDescriptors` | toolbox/src/bsd_system_udp_scenario.cpp:85-92 | every descriptor in use is closed once and the whole table is cleared |
| `BsdUdpRun.OpenDescriptors` | toolbox/src/bsd_system_udp_scenario.cpp:316-345 | the table holds exactly the descriptors opened, including one that could not be configured |
| `BsdUdpRun.RunBsdSystemUdpWorkload` | toolbox/src/bsd_system_udp_scenario.cpp:290-505 | the whole run: it succeeds if and only if the sockets did what the expected outcome asks for, sends each datagram on the descriptor its payload names, closes what it opened, and leaves no descriptor in the table |
| `BsdUdpLaws.EveryDescriptorIsClosed` | toolbox/src/bsd_system_udp_scenario.cpp:316-505 | on every path every opened descriptor is closed once; the terminal run closes its first one again if and only if the close it checks failed |
| `BsdUdpLaws.DatagramIsSentInOrder` | toolbox/src/bsd_system_udp_scenario.cpp:160-207 | at most 17 sends per datagram, all of the same bytes, each retry right after no room and then a report of room |
| `BsdUdpLaws.EchoRunSucceedsIff` | toolbox/src/bsd_system_udp_scenario.cpp:452-504 | the echo run succeeds if and only if no datagram failed and a required recovery shows in its calls |
| `BsdUdpLaws.TerminalRunSucceeds` | toolbox/src/bsd_system_udp_scenario.cpp:411-450 | success means: datagram sent whole, matching echo, flow closed, send aborted, close without error, in this order |
| `BsdUdpTheorems.TakenIff` | toolbox/src/bsd_system_udp_scenario.cpp:160-207 | a datagram is sent if and only if one of at most 17 attempts took all its bytes after room came back each time; recovery is seen if and only if the first attempt met no room and then a report of room |
| `BsdUdpTheorems.RunSucceedsIff` | toolbox/src/bsd_system_udp_scenario.cpp:290-505 | over every run and every expected outcome, the exact condition on the socket replies for success |
| `BsdUdpTheorems.RunSends` | toolbox/src/bsd_system_udp_scenario.cpp:160-207 | over every run at most 17 sends per datagram, all with the same bytes on the same descriptor, except that the terminal run sends datagram 0 once more if its flow was reported closed |
| `BsdUdpTheorems.DatagramsGoByTheirDescriptor` | toolbox/src/bsd_system_udp_scenario.cpp:452-504 | over every run: each send of a datagram and each wait or receive after it is on the descriptor that socket number sequence % flows returned, which is the one that the identity read from the payload names |
| `BsdUdpTheorems.SeventeenAttempts` | toolbox/src/bsd_system_udp_scenario.cpp:160-207 | a datagram that finds no room sixteen times, with room reported each time, is sent a seventeenth time, and that reply decides |
| `HarnessStats.UdpWorkloadStats.Record` | tools/requester_harness.py:59-86 | after a datagram that names kind, workload and flow, the figures under exactly that key go up by it and those of every other key are unchanged, as are the unexpected and malformed counts unless the datagram is one; the dictionaries describe the history of arrivals |
| `HarnessStats.UdpWorkloadStats.ListedHasWindow` | tools/requester_harness.py:88-92 | every key that the summary collects has received something and has both ends of its window |
| `HarnessStats.UdpWorkloadStats.SummarizeFlow` | tools/requester_harness.py:118-134 | a flow row shows what the history says about the flow, with unique + duplicates = received, its window and its sources |
| `HarnessStats.UdpWorkloadStats.GroupKeys` | tools/requester_harness.py:92-94 | the keys grouped for a workload are those of its flows, each once, and cover everything that arrived for it |
| `HarnessStats.UdpWorkloadStats.SummarizeWorkload` | tools/requester_harness.py:95-115 | a workload row holds the sums of its flows, unique + duplicates = received, the union of their sources, and a window that covers each of theirs |
| `HarnessStats.CountersCount` | tools/requester_harness.py:71-85 | the counters of a flow are what its arrivals add up to |
| `HarnessStats.EveryDatagramCountsOnce` | tools/requester_harness.py:59-86 | over every history the datagrams received by the flows, the unexpected and the malformed ones add up to all arrivals |
| `HarnessStats.UdpWorkloadStats.EveryDatagramIsInACounter` | tools/requester_harness.py:59-86 | the same for the counters themselves: received over all keys + unexpected + malformed = number of arrivals |
| `HarnessStats.UniquePlusDuplicates` | tools/requester_harness.py:76-78 | received = unique + duplicates, for every flow |
| `HarnessStats.ReorderedCountsLate` | tools/requester_harness.py:79-82 | the reordered counter is the number of arrivals that came after a higher sequence number of their flow |
| `HarnessStats.ArrivalOrderDoesNotMatter` | tools/requester_harness.py:59-86 | the same datagrams in another order, stamped with other clock readings, give the same counts, except reordered |
| `HarnessStats.ReorderedDependsOnOrder` | tools/requester_harness.py:79-82 | two orders of the same two datagrams give different reordered counts |
| `HarnessStats.WindowCovers` | tools/requester_harness.py:73-74 | with a clock that does not run backwards, a flow's window runs from its first arrival to its last |
| `HarnessStats.WorkloadRowsAddUp` | tools/requester_harness.py:92-113 | the flow rows grouped for a workload add up to all that arrived for it |

## Left out

- System calls and IPC: file operations, sockets, the tunnel service and clocks are arbitrary replies, and a missing file is the only reason a rename may fail without ending a save.
- Configuration settings are applied one after the other to a configuration value; the original writes through pointers into the configuration.
- Legacy configuration keys that are spelled like modern ones are not modelled twice: the modern branch is tried first.
- Text that is not ASCII: a character is one byte, and the MessagePack string decoding and key conversion are arbitrary functions.
- Python's recursion limit and memory limits in the MessagePack reader.
- RttMetrics.UdpWorkloadMetrics.RttPercentileUpperNanoseconds: states the percentile for fewer than 2^32 echoes; beyond that the 32-bit counters wrap, which the class models but the percentile claim does not cover.
- Mean round-trip times, log text, JSON lines, semantic summaries and CMIF/HIPC decoding.
- TraceState.State.RememberReturnedDomainObjects: reads the parent's path and remembers all returned objects in one call; the original releases its lock after the read and after each object, so the path read can be older and other events can come in between.
- TraceState.State.LogClose: does the marking and the forgetting in one call; the original releases its lock in between. The laws about each half hold in every state, so also with events in between.
- LogFlusher.BooksAlwaysBalance: covers runs of fewer than 2^64 events, so that the drop counters cannot wrap; an entry counts as written when it is handed to the file writer.
- TunnelWaits.WaitFor: scripts are finite, so a service that reports undecisive batches without end, which keeps the original waiting past its deadline, is not modelled; where a script is cut after the deciding event does not matter (`LaterEventsDoNotMatter`).
- TunnelTcp.WaitForTcpProgress: the same.
- TunnelUdpRun.RunWgnxTunnelUdpWorkload: starts after the availability, capability and policy queries, and leaves out pacing.
- The TCP exchange around the wait, where `CloseFlow` is still called after the service is lost, and the contract validation scenario.
- HarnessStats.UdpWorkloadStats.SummarizeWorkload: takes the grouped keys and yields the set of sources; sorting the rows and joining the source names is presentation.
- The HTTP response and URI parsers, the report and crash decoders, the user interface except the reservation of run IDs, and the start and stop of the traced services.
