# MTMC-Temporal-Profiler, modelled in Dafny

MTMC-Temporal-Profiler measures regions of code on every thread of a
multi-threaded framework with the CPU's performance counters. The C++
side opens counter groups per core (`PerfmonAgent`, `PerfmonCollector`),
hands out a per-thread record storage (`MTMCProfiler`), stamps each region
with `LogStart`/`LogEnd`, and at the end writes one comma-separated line per
kept record (`Finish`) or exports the records through shared memory and
OpenTelemetry spans. An eBPF sampler records context switches into per-core
ring buffers. The Python side reads those lines and spans back, maps every
region onto the framework node that scheduled it, evaluates the PMU metric
equations and ranks hotspots.

This project models that core, one Dafny module per source file:

| module | source |
|---|---|
| `PerfmonCollector` | cpp/perfmon_collector.cpp (mmap counter read, agent, collector) |
| `MtmcProfiler` | cpp/mtmc_profiler.cpp |
| `ProfileRecords` | cpp/mtmc_profiler.h, cpp/mtmc_temp_profiler.h |
| `PerfmonConfig`, `PerfmonTypes` | cpp/perfmon_config.cpp, cpp/perfmon_config.h |
| `Util` | cpp/util.cpp |
| `Machine`, `Text`, `CppStd`, `Wrappers` | fixed-width integer arithmetic, text helpers, the C++ library parsers (`std::stol`, stream extraction, `getline` splitting), Option and Result |
| `Env` | cpp/env.h |
| `Exporter` | cpp/exporter.cpp |
| `OtlExporter` | cpp/OtlExportProxy/opentele_exporter.cpp |
| `EbpfSampler` | cpp/ebpf_sampler.cpp |
| `PostProcessing`, `TimelineMapper` | post_processing/post_processing.py |
| `OtlPostProcessing` | post_processing/otl_post_processing.py |
| `PerfmonParser` | post_processing/perfmon_parser.py |
| `PerfScript` | post_processing/perf-script.py |
| `TmaCal` | post_processing/tma_cal.py |
| `AutoAnalysis`, `AutoAnalysisHotspot` | auto_analysis/auto_analysis.py |

Objects whose fields the source updates in place are classes with
`modifies` clauses (the agent, the collector, the profiler and its shared
statics, the eBPF sampler, the sched_switch dictionaries, the histogram,
the timeline data). Each loop is a method proved equal to a specification
function, and the properties are lemmas about those functions. Kernel
calls, the clock, environment variables, file contents and random hashes
are parameters (oracles); Python exceptions are the `Err` case of a
`Result`.

Two encoders are proved against their decoders: the CSV line `Finish`
writes is read back by `SingleLog`, and the span attributes
`export_worker` writes are decoded by the OpenTelemetry post-processor. The
second round trip is exact except for the start triple: the encoder
writes it under `b_coreid_prefix_num_event` while the decoder looks for
`s_coreid_prefix_num_event`, so the decoder never sets its start-triple
variables (they are not used afterwards).

`LogEnd` always completes the thread's last record, and the multiplex
index is a plain field of the record.

Where a defect is recorded under "## Findings", the code as written is
modelled by the row's as-written member, and the rest of the model uses
the corrected behaviour; "## Left out" names each member that does.

The shared-memory segment `Export` asks for is the records plus the status
header plus that sum modulo 256 (cpp/exporter.cpp:53). Despite its
comment this does not align the size to 256 bytes; it still leaves room
for the data. The model keeps it as written (`Exporter.PayloadBounds`,
`Exporter.PayloadNotAligned`).

## Model

| member | source | states |
|---|---|---|
| Util.ReadCpuRange | cpp/util.cpp:67-85 | the CPU list read from the content equals ExpandTokens of its ','-separated getline tokens: each token adds its own CPUs in token order, and the first token whose std::stoi throws makes that exception the result |
| Util.ReadCpuToken | cpp/util.cpp:73-82 | one token: without '-' it gives [stoi(token)]; otherwise stoi of the text before the first '-' and of the text after it, and the CPUs between them |
| Util.RangeLoop | cpp/util.cpp:80-81 | the `for (i = start; i <= end; i++)` loop pushes exactly Range(start, end) |
| Util.Range | cpp/util.cpp:80-81 | holds end - start + 1 values when start <= end and none otherwise, the k-th being start + k |
| Util.RangeSnoc | cpp/util.cpp:80-81 | the range up to end is the range up to end - 1 followed by end |
| Util.ExpandTokensStopsAt | cpp/util.cpp:72-83 | once a token throws, no later token changes the outcome: the whole read fails with that token's exception |
| Util.ExpandSingles | cpp/util.cpp:72-76 | a cpu list whose tokens are non-negative int CPU numbers in decimal expands to exactly those CPUs, in order |
| Util.ExpandSingleToken | cpp/util.cpp:74-75 | a decimal token "n" names the single CPU n |
| Util.ExpandRangeToken | cpp/util.cpp:77-81 | a token "a-b" of two decimal numbers names a, a+1, ..., b (nothing when a > b) |
| Util.FindChar | cpp/util.cpp:73 | `find('-')`: the index of the first '-', with no '-' before it, or the length when there is none (npos) |
| Util.PathJoin | cpp/util.cpp:94-97 | the result starts with p1, ends with p2 and has a '/' just before p2; it is one character longer than p1 and p2 together exactly when p1 does not end with '/', and it is p1 + p2 when p1 does |
| Util.StringSplit | cpp/util.cpp:142-156 | the loop yields Split(s, sep): one more field than separators, no field holds the separator, and joining the fields with it gives s back |
| Util.HexToVec | cpp/util.cpp:158-174 | one number per ','-separated getline token, each the value `stream >> std::hex >> num` extracts from that token |
| Util.HexToVecTokens | cpp/util.cpp:163 | tokens free of ',' whose last one is non-empty are split back into the same tokens by the getline loop |
| Util.AfterLastDot | cpp/util.cpp:177 | `find_last_of(".") + 1`: an index just past a '.' with no '.' after it, or 0 when there is no '.' (npos + 1) |
| Util.CheckConfigType | cpp/util.cpp:176-186 | JSON exactly when the path is "json" or ends with ".json", TXT exactly when it is "txt" or ends with ".txt", UNKNOWN otherwise |
| Util.SuffixAfterDot | cpp/util.cpp:177-185 | the text after the last '.' equals a dot-free extension exactly when the path is that extension alone or ends with '.' and the extension |
| Util.ConvertTimeToNanoSeconds | cpp/util.cpp:188-208 | a converted time is a uint64 value; an unknown unit is an invalid_argument error |
| Util.ConvertTimeOfUnit | cpp/util.cpp:188-208 | "<n><unit>" converts to n for "ns", n*1000 for "us", n*10^6 for "ms", n*10^9 for "s", each modulo 2^64, and every other unit throws invalid_argument |
| Util.LeBytes | cpp/util.cpp:216-217 | memcpy of a uint64 on x86 lays down n bytes, each below 256 |
| Util.FromLeBytes | cpp/util.cpp:225 | reading the little-endian bytes back gives the value that was copied |
| Util.GenerateUniqueSpanId | cpp/util.cpp:221-227 | 8 bytes that read back as hash_int, or as the GenHashId value when hash_int is 0 |
| Util.GenerateUniqueTraceId | cpp/util.cpp:210-219 | 16 bytes: the first 8 read back as first_hash and the last 8 as second_hash, each replaced by a GenHashId value when it is 0 |
| CppStd.StoL | cpp/util.cpp:75-79 | std::stoi / std::stol: a converted value lies in the target range, and there is no conversion (invalid_argument) exactly when the scan past leading white space, a sign and (in base 16) a 0x prefix finds no digit |
| CppStd.StoiRoundTrip | cpp/util.cpp:75 | std::stoi reads back any int written in decimal |
| CppStd.StoiNonNegative | cpp/util.cpp:75 | std::stoi reads back a non-negative int written in decimal |
| CppStd.StoiNegative | cpp/util.cpp:75 | std::stoi reads back a negative int written as '-' and its magnitude |
| CppStd.ScanDecimal | cpp/util.cpp:78 | strtol's scan takes exactly the digits before the first non-digit |
| CppStd.ScanNegDecimal | cpp/util.cpp:78 | strtol's scan of '-' and digits is a negative numeral ending at the first non-digit |
| CppStd.ExtractU64 | cpp/util.cpp:165 | `stream >> num` always leaves a uint64 value, 0 or the maximum when the extraction fails |
| CppStd.ExtractDecimal | cpp/util.cpp:194 | `ss >> num` reads back a uint64 written in decimal and leaves the text after it |
| CppStd.ExtractWord | cpp/util.cpp:194 | `ss >> unit` skips white space and, when it succeeds, yields a non-empty word |
| CppStd.GetlineTokensJoin | cpp/util.cpp:163 | a `while (getline(ss, token, delim))` loop returns the parts that were joined with delim when none holds delim and the last is non-empty |
| CppStd.GetlineTokensEmpty | cpp/util.cpp:163 | the getline loop over an empty stream yields no token |
| Text.Split | cpp/util.cpp:142-156 | a split yields at least one field |
| Text.SplitLength | cpp/util.cpp:142-156 | a split yields one more field than there are separators |
| Text.SplitFieldsFree | cpp/util.cpp:142-156 | no field of a split holds the separator |
| Text.JoinSplit | cpp/util.cpp:142-156 | joining the fields with the separator gives the string back |
| Text.SplitJoin | cpp/util.cpp:142-156 | splitting parts free of the separator after joining them gives the parts back |
| Text.SplitOnJoinOn | post_processing/otl_post_processing.py:63 | Python's split("-*-") inverts the join of decimal numbers with "-*-" |
| Text.IntRoundTrip | post_processing/post_processing.py:47-53 | Python's int() reads back any integer written by std::to_string or str() |
| Env.Rdtsc | cpp/env.h:60-65 | the time stamp is a uint64 whose high word is EDX and whose low word is EAX |
| Env.GetCoreId | cpp/env.h:67-79 | pid is the low 12 bits of the rdtscp auxiliary value and prefix the bits above them, so prefix * 4096 + pid gives the value back |
| Env.GetCoreIdNew | cpp/env.h:81-90 | the same split as GetCoreId, with pid in the low 32-bit word of the union and prefix in the high word |
| Env.ClockTimeNs | cpp/env.h:100-104 | tv_sec * 10^9 + tv_nsec in uint64 arithmetic; when no wrap-around happens, seconds and nanoseconds can be read back from it |
| PerfmonTypes.UnpackPack | cpp/perfmon_config.h:35-54 | the bit fields of union x86_pmu_config read back from the packed value when each fits its width, and the packed value stays below bit 42 |
| PerfmonTypes.X86Config | cpp/perfmon_config.h:56 | X86_CONFIG(.event, .umask, .inv, .cmask) sets exactly those fields, truncated to their widths, and leaves every other field 0 |
| PerfmonTypes.X86ConfigExample | cpp/perfmon_config.cpp:217 | X86_CONFIG(.event=0xad, .umask=0x10, .inv=0, .cmask=0) is 0x10ad |
| PerfmonTypes.Fill | cpp/perfmon_config.cpp:26-38 | the per-event arrays of the template group: n copies of one value |
| PerfmonConfig.EventField | cpp/perfmon_config.cpp:135-151 | a base-16 field accepted by std::stol is a non-negative long; invalid_argument, out_of_range and negative values are failures |
| PerfmonConfig.StepLine | cpp/perfmon_config.cpp:79-166 | reading one line never leaves an invalid group under construction |
| PerfmonConfig.ReadConfig | cpp/perfmon_config.cpp:19-183 | a missing vector, setting or file returns -1 and changes nothing; otherwise the result, the groups and the topdown flag are those of Run over the file's lines from the empty template group |
| PerfmonConfig.ReadLine | cpp/perfmon_config.cpp:79-166 | the loop body for one line does what StepLine says |
| PerfmonConfig.RunKeepsGroupsValid | cpp/perfmon_config.cpp:79-171 | the read returns -1 or 1, returns 1 only with at least one group, keeps the groups it was given as a prefix, and every group it adds is valid |
| PerfmonConfig.EndLineClosesGroup | cpp/perfmon_config.cpp:86-91 | a line holding "End" appends the group under construction and starts the next from the template |
| PerfmonConfig.TopdownLineSetsFlag | cpp/perfmon_config.cpp:93-96 | a "UseTopdownMetric" line only sets the topdown flag |
| PerfmonConfig.EndConfigStops | cpp/perfmon_config.cpp:83-84 | an "EndConfig" line ends the read, whatever follows |
| PerfmonConfig.ThirteenthEventFails | cpp/perfmon_config.cpp:122-125 | an event line in a group that already holds GP_COUNTER events fails the read with -1 |
| PerfmonConfig.HeaderLine | cpp/perfmon_config.cpp:104-120 | outside a group, a line "Group,<name>" opens a group with that name and any other line fails the read |
| PerfmonConfig.EventLineStored | cpp/perfmon_config.cpp:121-163 | inside a group, an event line stores its name and X86_CONFIG of its four base-16 fields in the next slot; a line whose fields do not parse fails the read |
| PerfmonConfig.EmptyLineFails | cpp/perfmon_config.cpp:106-119 | an empty line outside a group fails the read |
| PerfmonConfig.PerfMetricConfig | cpp/perfmon_config.cpp:185-225 | appends one valid group of three raw user-space events Perf_Slots (0x400), Perf_Metrics (0x8000) and INT_MISC.UOP_DROPPING (0x10ad) that resets at the given interval without offset or sign extension, and returns 1 |
| PerfmonCollector.ReadMmapPMC | cpp/perfmon_collector.cpp:19-64 | the result is a uint64; it is 0 when user rdpmc is disabled or the page's index is 0, and otherwise the offset part plus the counter part, modulo 2^64: with sign extension on, the offset truncated to its low pmc_width bits (the logical uint64 shifts) and the counter sign-extended from pmc_width bits (the int64 shifts); with it off, the whole offset and the counter as int64; without add_offset no offset at all |
| PerfmonCollector.SignExtend | cpp/perfmon_collector.cpp:39-51 | the w-bit two's complement reading of x lies in [-2^(w-1), 2^(w-1)) and agrees with x modulo 2^w |
| PerfmonCollector.ShiftOutHigh | cpp/perfmon_collector.cpp:40-41 | on a uint64, `<< (64-w)` then `>> (64-w)` keeps exactly the low w bits |
| PerfmonCollector.ShiftSignExtend | cpp/perfmon_collector.cpp:49-50 | on an int64, `<< (64-w)` then the arithmetic `>> (64-w)` is the sign extension of the low w bits |
| PerfmonCollector.Resize | cpp/perfmon_collector.cpp:79 | ctx_vec_.resize(n) has n contexts, keeps the old ones below n and value-initialises the new ones |
| PerfmonCollector.EventStep | cpp/perfmon_collector.cpp:87-110 | one pass of the inner registration loop changes only the fd, id and address arrays of the context and keeps it well formed |
| PerfmonCollector.GroupPrefix | cpp/perfmon_collector.cpp:85-110 | the first n passes of the inner loop change only the handle arrays of the context |
| PerfmonCollector.RegisterGroup | cpp/perfmon_collector.cpp:83-113 | a registered group's context holds the group's event count, the old count otherwise |
| PerfmonCollector.RegisterFrom | cpp/perfmon_collector.cpp:81-115 | registering groups i.. keeps the number of contexts, and each context keeps its count or takes its group's |
| PerfmonCollector.RegisterSpec | cpp/perfmon_collector.cpp:78-116 | after RegisterEvents there is one context per config, each holding its config's count, its old count or 0 |
| PerfmonCollector.GroupPrefixSpec | cpp/perfmon_collector.cpp:85-110 | the first n events all register exactly when every one of them opens, takes its id and maps, and then each has the fd from perf_event_open (group_fd -1 for the leader, the leader's fd for the others), the id of that fd and its mapped page |
| PerfmonCollector.GroupPrefixStops | cpp/perfmon_collector.cpp:90-104 | once an event fails, the later passes change nothing: the loop has returned |
| PerfmonCollector.RegisterGroupSpec | cpp/perfmon_collector.cpp:83-113 | a group registers exactly when every event of it does, and then its context records all the kernel's handles, its count and read setting, and a zero reset stamp |
| PerfmonCollector.RegisterFromSpec | cpp/perfmon_collector.cpp:81-115 | registering groups i.. returns 1 or -1, 1 exactly when every such group registers, and leaves the contexts before i alone |
| PerfmonCollector.RegisterSpecResult | cpp/perfmon_collector.cpp:78-116 | RegisterEvents returns 1 exactly when every group registers, and then every context holds its group's handles |
| PerfmonCollector.RegisteredPagesMapped | cpp/perfmon_collector.cpp:100-105 | with the MAP_FAILED comparison, a successful registration holds no MAP_FAILED address |
| PerfmonCollector.MmapFailureUndetected | cpp/perfmon_collector.cpp:101-105 | with the null-pointer comparison as written, a kernel whose mmap fails still yields a successful registration holding MAP_FAILED, which the MAP_FAILED comparison rejects |
| PerfmonCollector.GroupHandles | cpp/perfmon_collector.cpp:119-123 | the (fd, address) pairs of a context's events, in event order |
| PerfmonCollector.GroupReads | cpp/perfmon_collector.cpp:248-259 | one value per event of a context: ReadMmapPMC of its page with the context's read setting |
| PerfmonCollector.CountsAgree | cpp/perfmon_collector.cpp:244-261 | the handles released and the values read both number the sum of the contexts' event counts |
| PerfmonCollector.HandlesCover | cpp/perfmon_collector.cpp:119-123 | every event of every context is among the handles released |
| PerfmonCollector.AfterReset | cpp/perfmon_collector.cpp:147-153 | resetting keeps the number of contexts and their well-formedness |
| PerfmonCollector.AfterCheckReset | cpp/perfmon_collector.cpp:269-279 | checking and resetting keeps the number of contexts and their well-formedness |
| PerfmonCollector.ResetsStampOnly | cpp/perfmon_collector.cpp:142-155 | both kinds of reset change nothing in a context but its reset time stamp |
| PerfmonCollector.PerfmonAgent.constructor | cpp/perfmon_collector.h:34 | a new agent holds no configs and no contexts and counts no events |
| PerfmonCollector.PerfmonAgent.AddAttr | cpp/perfmon_collector.cpp:68-76 | a config that would take the agent past GP_COUNTER events is refused with 0 and nothing changes; otherwise it is appended, its events are counted and 1 is returned |
| PerfmonCollector.PerfmonAgent.RegisterEvents | cpp/perfmon_collector.cpp:78-116 | the result and the new contexts are RegisterSpec of the configs with the MAP_FAILED test; configs and count unchanged |
| PerfmonCollector.PerfmonAgent.UnregisterEvents | cpp/perfmon_collector.cpp:118-126 | returns 1 and releases the (fd, page) of every event of every context |
| PerfmonCollector.PerfmonAgent.EnableEvents | cpp/perfmon_collector.cpp:128-140 | returns 1 exactly when the agent has events and every ioctl ENABLE succeeds, -1 otherwise |
| PerfmonCollector.PerfmonAgent.ResetEvents | cpp/perfmon_collector.cpp:142-155 | returns 1 exactly when the agent has events and every ioctl RESET succeeds; the contexts up to the first failure get the new stamp |
| PerfmonCollector.PerfmonAgent.ResetEventsAllFd | cpp/perfmon_collector.cpp:157-169 | an empty agent returns -1 with no call and nothing changed; otherwise the calls are PERF_EVENT_IOC_RESET on every event's fd in order (Calls with IocReset), every context takes the new stamp, and 1 is returned |
| PerfmonCollector.PerfmonAgent.EnableEventsAllFd | cpp/perfmon_collector.cpp:171-182 | an empty agent returns -1 with no call; otherwise the calls are PERF_EVENT_IOC_ENABLE on every event's fd in order (Calls with IocEnable), and 1 is returned whatever the kernel answers |
| PerfmonCollector.PerfmonAgent.DisableEventsAllFd | cpp/perfmon_collector.cpp:184-195 | an empty agent returns -1 with no call; otherwise the calls are PERF_EVENT_IOC_DISABLE on every event's fd in order (Calls with IocDisable), and 1 is returned whatever the kernel answers |
| PerfmonCollector.IssueRequests | cpp/perfmon_collector.cpp:162-166 | the nested loop over contexts and events issues exactly Calls: the one request on each event's fd, context by context |
| PerfmonCollector.CallsMatchHandles | cpp/perfmon_collector.cpp:161-193 | the *AllFd calls go to exactly the fds of the handles UnregisterEvents releases, in the same order, each with the one request |
| PerfmonCollector.CallsCover | cpp/perfmon_collector.cpp:161-193 | every event of every context receives the request on its fd |
| PerfmonCollector.PerfmonAgent.DisableEvents | cpp/perfmon_collector.cpp:197-204 | returns 1 exactly when the agent has events, whatever the ioctls return |
| PerfmonCollector.PerfmonAgent.IoctlSingleEventCtx | cpp/perfmon_collector.cpp:206-219 | returns 1 exactly when the index is within both vectors and every ioctl on that context succeeds |
| PerfmonCollector.PerfmonAgent.GetEventContext | cpp/perfmon_collector.cpp:221-227 | a context exactly when the index is below the number of contexts, and then the one at that index |
| PerfmonCollector.PerfmonAgent.GetTesterConfig | cpp/perfmon_collector.cpp:229-235 | a config exactly when the index is below the number of configs, and then the one at that index |
| PerfmonCollector.PerfmonAgent.ReadCounter | cpp/perfmon_collector.cpp:241-262 | returns the total event count (at most GP_COUNTER); the buffer holds the reads of all events in order, then zeros |
| PerfmonCollector.PerfmonAgent.CheckAndResetEventCtx | cpp/perfmon_collector.cpp:268-280 | returns 1 exactly when no due context's group reset fails; due contexts up to the first failure get the new stamp |
| PerfmonCollector.IoctlContext | cpp/perfmon_collector.cpp:211-218 | 1 exactly when every ioctl on the context's fds succeeds, else -1 |
| PerfmonCollector.VisitEvents | cpp/perfmon_collector.cpp:119-124 | the loop visits exactly the handles of every context in order |
| PerfmonCollector.ResetContexts | cpp/perfmon_collector.cpp:147-154 | the reset loop returns 1 exactly when every context resets, and leaves AfterReset |
| PerfmonCollector.CheckResetContexts | cpp/perfmon_collector.cpp:269-279 | the check-and-reset loop returns 1 exactly when no due reset fails, and leaves AfterCheckReset |
| PerfmonCollector.ReadIntoBuffer | cpp/perfmon_collector.cpp:243-261 | the zeroed buffer ends with every event's read in order, followed by zeros; the count is the total events |
| PerfmonCollector.ReadGroupInto | cpp/perfmon_collector.cpp:248-259 | one context's reads are written at start.. and nothing else changes |
| PerfmonCollector.RegisterGroupEvents | cpp/perfmon_collector.cpp:85-113 | the inner loop's outcome and context are RegisterGroup with the MAP_FAILED test |
| PerfmonCollector.PerfmonCollector.constructor | cpp/perfmon_collector.cpp:284-286 | a new collector is not ready and holds no agents |
| PerfmonCollector.PerfmonCollector.InitContext | cpp/perfmon_collector.cpp:299-337 | a second init fails with -1 and changes nothing; otherwise the agent list grows to the maximum cpu count, the return code and every agent's groups and contexts are those of InitAll over the grown table (the cores in order, a repeated core initialised again, the first failure stopping with -1), and ready is set exactly when 1 is returned |
| PerfmonCollector.PerfmonCollector.GrowAndInit | cpp/perfmon_collector.cpp:304-324 | the table grown by GrowStates, then the cpu loop, give the result and agent states InitAll describes |
| PerfmonCollector.PerfmonCollector.GrowAgents | cpp/perfmon_collector.cpp:306-309 | the agent list is resized up to max_num_core, keeping its old agents and adding fresh ones with no groups and no contexts (GrowStates) |
| PerfmonCollector.NewAgents | cpp/perfmon_collector.cpp:307 | n new, distinct, value-initialised agents with no groups and no contexts |
| PerfmonCollector.GrowStates | cpp/perfmon_collector.cpp:306-309 | the table keeps its agents and gains empty ones up to max_num_core; consistent states stay consistent |
| PerfmonCollector.InitAgents | cpp/perfmon_collector.cpp:312-324 | the loop's return code and the agents' groups and contexts are InitAll of the agents before it; on success every listed core within range has contexts |
| PerfmonCollector.InitAgentAt | cpp/perfmon_collector.cpp:317-323 | the agent of one cpu changes as InitAgentSpec says and no other agent changes |
| PerfmonCollector.InitAll | cpp/perfmon_collector.cpp:312-324 | the cpu loop as a fold over the listed cores: each core within [0, max_num_core) is initialised in turn, out-of-range ones are skipped, the first failure returns -1; the agents' states stay consistent |
| PerfmonCollector.InitAllFrame | cpp/perfmon_collector.cpp:312-316 | an agent whose core is not listed, or is listed only out of range, is left as it was |
| PerfmonCollector.InitAllReady | cpp/perfmon_collector.cpp:312-324 | when the loop returns 1 every listed core within range has contexts |
| PerfmonCollector.InitAgent | cpp/perfmon_collector.cpp:317-323 | the return code, groups and contexts are InitAgentSpec: 1 exactly when RegisterEvents, ResetEvents and EnableEvents all return 1; on success the agent has contexts |
| PerfmonCollector.InitAgentSpec | cpp/perfmon_collector.cpp:317-323 | the accepted groups appended; registration, then reset, then enable while each answers 1 (-1 when the agent holds no events, groups or contexts); the agent stays within GP_COUNTER events, its old groups kept, the new ones pinned, and on success it has one context per group |
| PerfmonCollector.FillAgent | cpp/perfmon_collector.cpp:317-320 | the agent's groups become its old groups followed by Accepted of the input; the contexts are unchanged |
| PerfmonCollector.OfferGroup | cpp/perfmon_collector.cpp:318-319 | offering one group advances Accepted by one input group |
| PerfmonCollector.Accepted | cpp/perfmon_collector.cpp:317-320 | the groups an agent takes, in input order: each a valid copy pinned to the core, never more than the input |
| PerfmonCollector.AcceptedFits | cpp/perfmon_collector.cpp:317-320 | the groups accepted never take the agent past GP_COUNTER events |
| PerfmonCollector.AcceptedAll | cpp/perfmon_collector.cpp:317-320 | when all the input's events fit, every group is accepted, pinned, in order |
| PerfmonCollector.PinAllPins | cpp/perfmon_collector.cpp:318 | pinning keeps each group but writes the core into every slot of its cpu list |
| PerfmonCollector.PerfmonCollector.PerCoreRead | cpp/perfmon_collector.cpp:339-375 | -1 with no events read when the core has no agent or no contexts; otherwise contexts are check-reset on start, and 1 with ret's head replaced by every event's read in order and num_event their count |
| PerfmonCollector.PerfmonCollector.ResetDueAt | cpp/perfmon_collector.cpp:353-356 | a start read check-resets the contexts of the core's agent, keeping its groups |
| PerfmonCollector.ReadContexts | cpp/perfmon_collector.cpp:360-373 | writes every event's read in order at the front of ret and returns their count |
| PerfmonCollector.ReadGroupIntoSeq | cpp/perfmon_collector.cpp:367-370 | one context's reads are written at start.. and nothing else changes |
| PerfmonCollector.PerfmonCollector.CloseContext | cpp/perfmon_collector.cpp:377-393 | a ready collector becomes not ready, releases every handle of every agent and returns 1; otherwise -1 and nothing is released |
| PerfmonCollector.CloseAgents | cpp/perfmon_collector.cpp:380-385 | releases the handles of every agent in order |
| ProfileRecords.DecU64s | cpp/mtmc_profiler.cpp:225-234 | one decimal uint64 string per counter value, in order |
| ProfileRecords.DecFree | cpp/mtmc_profiler.cpp:206-235 | the decimal form of a C++ integer holds only digits and '-', so no separator ',' or '_' can occur in it |
| MtmcProfiler.ProfileVector.constructor | cpp/mtmc_profiler.cpp:351 | a new per-thread vector holds no records |
| MtmcProfiler.ThreadInfo.constructor | cpp/mtmc_profiler.cpp:123 | the thread_local ThreadInfo starts with tid -1, pthread id -1 and no storage |
| MtmcProfiler.TidCache.constructor | cpp/mtmc_profiler.cpp:104-105 | the thread_local ids of GetParamsInfo start at -1 |
| MtmcProfiler.Statics.constructor | cpp/mtmc_profiler.cpp:22-25 | Inited is 0, there is no collector and topdown collection is off |
| MtmcProfiler.Statics.LoadConfig | cpp/mtmc_profiler.cpp:71-81 | without a config file it fails; otherwise it succeeds exactly when ReadConfig returns 1, takes the topdown flag ReadConfig leaves, and adds the perf-metric group to the configs when that flag is set |
| MtmcProfiler.StartCollector | cpp/mtmc_profiler.cpp:82-87 | a collector exactly when InitContext on a new collector answers 1 for the configs and the available cores (CollectorStarts); the one that fails is dropped |
| MtmcProfiler.FirstInitReachable | cpp/mtmc_profiler.cpp:67-87 | the first initialisation can succeed: a config file holding one group and its "End" line, with no core listed, satisfies FirstInitSucceeds |
| MtmcProfiler.OneGroupConfig | cpp/perfmon_config.cpp:19-183 | ReadConfig on "Group,g" then "End" returns 1 with that one group and topdown off |
| MtmcProfiler.NoCoreStarts | cpp/perfmon_collector.cpp:299-337 | with no core listed, InitContext on a new collector answers 1 for any valid configs |
| MtmcProfiler.Statics.InitCollector | cpp/mtmc_profiler.cpp:70-87 | 1 exactly when there is a config file, ReadConfig returns 1 on it, and InitContext answers 1 on the configs it read (FirstInitSucceeds); 1 leaves a fresh, ready collector, -1 leaves none |
| MtmcProfiler.Statics.Join | cpp/mtmc_profiler.cpp:88-93 | a newly valid instance is counted: Inited goes up by one, the collector and the topdown flag are kept, and Inited again equals the number of valid instances |
| MtmcProfiler.Statics.Leave | cpp/mtmc_profiler.cpp:248-254 | the instance stops counting and Inited drops by one; 2 exactly when Inited was 1, and then the collector is released with all its handles; 1 otherwise, collector kept |
| MtmcProfiler.Statics.ReadCounters | cpp/mtmc_profiler.cpp:140 | a read of the collector on the core and prefix of `aux`, at most GP_COUNTER values |
| MtmcProfiler.DisabledExactly | cpp/mtmc_profiler.cpp:49-58 | MTMC_PROF_DISABLE disables the profiler exactly when it is "1" or "true" |
| MtmcProfiler.MTMCProfiler.constructor | cpp/mtmc_profiler.cpp:27-44 | a new profiler is not valid and holds no storage |
| MtmcProfiler.MTMCProfiler.Init | cpp/mtmc_profiler.cpp:46-96 | -1 and nothing changed when disabled by the environment or when the first initialisation fails; when not disabled and not yet initialised, 1 exactly when FirstInitSucceeds; on 1 the profiler is valid and counted once, the first one creates a ready collector and later ones share it; once initialised, every later Init returns 1 |
| MtmcProfiler.MTMCProfiler.InitFirst | cpp/mtmc_profiler.cpp:67-89 | the first initialisation: 1 exactly when FirstInitSucceeds, and then the profiler is valid, counted once and holds the ready collector; -1 with nothing counted otherwise |
| MtmcProfiler.MTMCProfiler.Enter | cpp/mtmc_profiler.cpp:87-95 | an instance that was not valid becomes valid and counted: Inited and the live set grow by it, the collector and the topdown flag are kept |
| MtmcProfiler.MTMCProfiler.Exit | cpp/mtmc_profiler.cpp:245-253 | a valid profiler becomes invalid and uncounted; 2 exactly when it was the last counted instance, and then the collector is released; 1 otherwise |
| MtmcProfiler.MTMCProfiler.Close | cpp/mtmc_profiler.cpp:244-257 | the profiler becomes invalid and uncounted; 2 exactly when it was valid and the last counted instance, and then the collector is released; 1 otherwise |
| MtmcProfiler.MTMCProfiler.RegisterPerThreadStorage | cpp/mtmc_profiler.cpp:345-368 | a known tid gets its vector; an unknown one gets a fresh empty vector appended to the list and mapped when asked to create, and none otherwise |
| MtmcProfiler.MTMCProfiler.GetParamsInfo | cpp/mtmc_profiler.cpp:99-119 | zero information when not valid; otherwise the cached ids (filled on first use) and the current clock |
| MtmcProfiler.MTMCProfiler.LogStart | cpp/mtmc_profiler.cpp:121-147 | -1 with nothing changed when not valid; otherwise 1, the thread's vector (found or created) keeps its records and gains one start record with the caller's prefix and parent, the thread ids, the start stamp and a start read |
| MtmcProfiler.MTMCProfiler.StartStorage | cpp/mtmc_profiler.cpp:123-129 | the thread's ids are fetched once; its vector is the one mapped to its tid or a fresh empty one |
| MtmcProfiler.MTMCProfiler.LogEnd | cpp/mtmc_profiler.cpp:149-180 | 1 exactly when valid and the thread's last record has its start; then only that record's end stamp and end read change; -1 otherwise with no record changed |
| MtmcProfiler.MTMCProfiler.EndStorage | cpp/mtmc_profiler.cpp:151-159 | the thread's vector is looked up without creating one |
| MtmcProfiler.MTMCProfiler.Push | cpp/mtmc_profiler.cpp:131 | the record is appended to the vector |
| MtmcProfiler.MTMCProfiler.SetBack | cpp/mtmc_profiler.cpp:166-177 | only the last record of the vector is replaced |
| MtmcProfiler.MTMCProfiler.Finish | cpp/mtmc_profiler.cpp:182-242 | -1 with nothing written when not valid or the file does not open; otherwise 1 and the lines of every kept record of every vector, in order |
| MtmcProfiler.EmitRecords | cpp/mtmc_profiler.cpp:196-237 | the lines of the records of one vector that pass the filter, in order |
| MtmcProfiler.WriteLine | cpp/mtmc_profiler.cpp:206-236 | one record's line is its fields, each followed by a comma |
| MtmcProfiler.WriteHeader | cpp/mtmc_profiler.cpp:206-221 | ids, stamps, parent information and the topdown field, each followed by a comma |
| MtmcProfiler.WriteRead | cpp/mtmc_profiler.cpp:224-235 | a read's triple and its values, each field followed by a comma |
| MtmcProfiler.ReadFieldsLine | cpp/mtmc_profiler.cpp:224-235 | a read is written as its triple and a comma, then its values joined by '_' and a comma, nothing when there are none |
| MtmcProfiler.WriteValues | cpp/mtmc_profiler.cpp:225-229 | the values joined by '_' with a final comma, empty when there are none |
| MtmcProfiler.LineSplits | cpp/mtmc_profiler.cpp:206-236 | splitting a written line at ',' gives back exactly its fields followed by the newline |
| MtmcProfiler.LineFieldFree | cpp/mtmc_profiler.cpp:206-235 | no field of a line contains a comma |
| MtmcProfiler.DecsFree | cpp/mtmc_profiler.cpp:225-229 | joined counter values contain no character other than digits, '-' and '_' |
| MtmcProfiler.KeptReadsInBounds | cpp/mtmc_profiler.cpp:198-234 | with the corrected filter every index Finish reads, topdown values included, lies within the record's arrays |
| MtmcProfiler.AsWrittenKeepsTwo | cpp/mtmc_profiler.cpp:202-219 | the filter as written keeps more than the corrected one exactly on topdown records with two values on both reads, and for those the topdown index is -1 |
| MtmcProfiler.AsWrittenReadsBeforeArray | cpp/mtmc_profiler.cpp:202-218 | a record with two values on both reads passes the filter as written with topdown on and is read at index -1 |
| MtmcProfiler.ExportThreadPoolInfo | cpp/mtmc_profiler.cpp:259-294 | -1 without MTMC_THREAD_EXPORT, for a negative tid or when the file does not open; otherwise 1 and one "index,tid" line per tid in order, written to the joined path |
| MtmcProfiler.PoolLineRoundTrip | cpp/mtmc_profiler.cpp:283 | a thread pool line splits into two fields that read back as the index and the tid |
| MtmcProfiler.InitTwiceCloseTwice | cpp/tests/mtmc_profiler_tests.cpp:176-191 | the first Init returns 1 exactly when FirstInitSucceeds; then one instance initialised twice and closed twice returns 1, 1, 2, 1 |
| MtmcProfiler.TwoInstances | cpp/tests/mtmc_profiler_tests.cpp:91-98 | the first instance initialises with 1 exactly when FirstInitSucceeds; a second instance then initialises with 1; the first Close returns 1 and the second releases the collector with 2 |
| MtmcProfiler.CallsBeforeInit | cpp/tests/mtmc_profiler_tests.cpp:114-170 | before Init, GetParamsInfo gives zero information and LogStart, LogEnd and Finish return -1 |
| MtmcProfiler.LogEndBeforeLogStart | cpp/tests/mtmc_profiler_tests.cpp:153-156 | LogEnd on a thread that never called LogStart returns -1 |
| MtmcProfiler.RepeatedLogEnd | cpp/mtmc_profiler.cpp:149-180 | a LogEnd after a successful one succeeds again |
| Exporter.CnstCode | cpp/exporter.cpp:90-103 | SYSTEM_TSC_FREQ is sent as the TSC frequency, DURATIONTIMEINMILLISECONDS as -2 and any other name as -1, each as a uint64 |
| Exporter.CnstSlots | cpp/exporter.h:33 | the load always carries sixteen constant slots |
| Exporter.Export | cpp/exporter.cpp:22-131 | 0 exactly when the channel and the segment are valid, the constants fit their sixteen slots, the send succeeds and the done flag appears within 1000 polls, -1 otherwise; once sent, the segment holds the selected records in order and the load their count, the segment size, trace hash, config id and the constant codes |
| Exporter.SelectAll | cpp/exporter.cpp:36-50 | the records of every vector that pass the filter, vector by vector, in order |
| Exporter.SelectVector | cpp/exporter.cpp:37-49 | the records of one vector that pass the filter, in order |
| Exporter.CopyRecords | cpp/exporter.cpp:75-77 | the segment after the header holds exactly the selected records |
| Exporter.FillCnsts | cpp/exporter.cpp:89-103 | slot i holds the code of the i-th constant name, the remaining slots stay 0 |
| Exporter.WaitDone | cpp/exporter.cpp:115-126 | 0 exactly when the done flag is seen at one of the 1000 polls, -1 otherwise |
| Exporter.SelectedIff | cpp/exporter.cpp:40-46 | a record is exported exactly when its start and end counts agree and, with topdown metrics on, it has at least 2 values |
| Exporter.FilterAppend | cpp/exporter.cpp:36-50 | selecting from two runs of records is selecting from each, concatenated |
| Exporter.FilterMembers | cpp/exporter.cpp:36-50 | a record is selected exactly when it is among the records and passes the filter |
| Exporter.PayloadBounds | cpp/exporter.cpp:52-53 | the segment size covers the records and the header, exceeds them by less than 256 bytes and is congruent to twice their sum modulo 256 |
| Exporter.PayloadNotAligned | cpp/exporter.cpp:53 | one record of 236 bytes gives a 344-byte segment, which is not a multiple of 256 |
| Exporter.FillCnstsAsWritten | cpp/exporter.cpp:86-103 | the loop as written stores the i-th code in the i-th word from cnsts[0] on, whatever the count, and leaves the later words alone |
| Exporter.AsWrittenTraceHashOverwritten | cpp/exporter.cpp:86-103 | with seventeen constant names, the word after the sixteen slots, trace_hash, carries the last code instead of the run's trace hash |
| OtlExporter.FirstIndex | cpp/OtlExportProxy/opentele_exporter.cpp:117-124 | the first record of the payload with the given int_prefix (none before it has it), or the payload's length when there is none |
| OtlExporter.Spans | cpp/OtlExportProxy/opentele_exporter.cpp:95-221 | one span per record of the payload, the j-th built from the j-th record |
| OtlExporter.ExportPayload | cpp/OtlExportProxy/opentele_exporter.cpp:92-221 | the worker's loop hands the processor exactly the spans of the payload's records, in order |
| OtlExporter.TraceIdStep | cpp/OtlExportProxy/opentele_exporter.cpp:116-128 | the trace id of record i is the one its int_prefix first received (memoised in the map) when the trace hash is 0, and the hash-derived id otherwise; the map keeps holding the ids of every prefix met |
| OtlExporter.BuildSpan | cpp/OtlExportProxy/opentele_exporter.cpp:96-210 | the span of record i: its name, ids, start time, duration and attributes |
| OtlExporter.BuildAttributes | cpp/OtlExportProxy/opentele_exporter.cpp:153-206 | the attribute list in the order the worker builds it |
| OtlExporter.JoinLoop | cpp/OtlExportProxy/opentele_exporter.cpp:180-184 | the counter values in decimal joined by '-' |
| OtlExporter.CnstsLoop | cpp/OtlExportProxy/opentele_exporter.cpp:200-205 | the first cnsts_length constants in decimal joined by "-*-" |
| OtlExporter.SharedPrefixSharedTrace | cpp/OtlExportProxy/opentele_exporter.cpp:117-124 | with trace hash 0, two records with the same int_prefix get the same trace id |
| OtlExporter.TraceIdOfPrefix | cpp/OtlExportProxy/opentele_exporter.cpp:120 | with trace hash 0, the first eight bytes of a trace id encode the record's non-zero int_prefix |
| OtlExporter.TraceIdOfHash | cpp/OtlExportProxy/opentele_exporter.cpp:125-128 | with a non-zero trace hash every record gets the same trace id, both halves of which encode the hash |
| OtlExporter.SpanIds | cpp/OtlExportProxy/opentele_exporter.cpp:103-151 | a non-zero hash_id is the span id, a non-zero parent_ctx_hash_id the parent span id; a zero one is replaced by a GenHashId draw, a separate draw for each of the two ids; the duration is end minus start when that fits |
| EbpfSampler.Advance | cpp/ebpf_sampler.cpp:126-133 | from a slot inside the ring, the next write's slot is inside the ring, and either the index moves on by one or it resets to 0 and the wrap count goes up by one |
| EbpfSampler.AdvanceFrom | cpp/ebpf_sampler.cpp:126-133 | after n writes from slot i, the index is (i + n) mod the ring length and the wrap count has grown by (i + n) div the length |
| EbpfSampler.Range | cpp/ebpf_sampler.cpp:277 | the indices a loop `for (i = a; i < b; ++i)` visits, in order |
| EbpfSampler.Stamp | cpp/ebpf_sampler.cpp:277-308 | one stored entry per copied slot |
| EbpfSampler.StampHeaders | cpp/ebpf_sampler.cpp:277-308 | each stored entry carries the core's current index and wrap count and the data of its slot on that core |
| EbpfSampler.DrainCopiesNewWrites | cpp/ebpf_sampler.cpp:253-311 | when fewer than a ring's length of writes happened since the last copy, the drain raises no warp error and copies exactly those slots, oldest first |
| EbpfSampler.InsideSlots | cpp/ebpf_sampler.cpp:302-309 | when the index moved forward without wrapping, the slots from the last index to the current one are copied |
| EbpfSampler.AroundSlots | cpp/ebpf_sampler.cpp:286-300 | when the index wrapped, the slots from the last index to the end and then from 0 to the current one are copied |
| EbpfSampler.FullLapCopiesNothing | cpp/ebpf_sampler.cpp:262-309 | exactly a ring's length of writes since the last copy leaves the index where it was, and the drain copies nothing although every slot was overwritten |
| EbpfSampler.TwoLapsWarpError | cpp/ebpf_sampler.cpp:262-281 | two laps or more since the last copy raise a warp error, and only the slots [0, current index) are copied |
| EbpfSampler.DrainCoreAppends | cpp/ebpf_sampler.cpp:258-311 | a drain only appends to a core's storage, appends nothing to a storage holding more than kper_core_length entries, and stamps every new entry with the current header |
| EbpfSampler.DrainLoops | cpp/ebpf_sampler.cpp:253-311 | the copy loops of one core leave the storage DrainCore describes |
| EbpfSampler.CopyRing | cpp/ebpf_sampler.cpp:284-310 | the copy without a warp error appends the slots CopiedSlots lists, stamped |
| EbpfSampler.StampAppend | cpp/ebpf_sampler.cpp:286-299 | stamping two runs of slots is stamping each, concatenated |
| EbpfSampler.CopyRange | cpp/ebpf_sampler.cpp:277-281 | one copy loop appends the slots from..to, stamped |
| EbpfSampler.Find | cpp/ebpf_sampler.cpp:244-246 | the position of a core's storage in the map, or the map's size when it has none |
| EbpfSampler.FindAppend | cpp/ebpf_sampler.cpp:178-181 | looking a core up after one more entry finds the old position, the new entry or nothing |
| EbpfSampler.InitStoresShape | cpp/ebpf_sampler.cpp:177-181 | the initial map has one empty storage per distinct online core and no other key |
| EbpfSampler.Usage | cpp/ebpf_sampler.cpp:209-212 | the storage usage is a uint64 |
| EbpfSampler.DrainAll | cpp/ebpf_sampler.cpp:242-312 | one drain keeps the map's keys and their order |
| EbpfSampler.DrainAllGrows | cpp/ebpf_sampler.cpp:242-312 | every storage only grows at its end, and a core not listed online is left alone |
| EbpfSampler.Sampler.constructor | cpp/ebpf_sampler.cpp:21 | a new sampler is uninitialised and has no collector thread and no storage |
| EbpfSampler.Sampler.Init | cpp/ebpf_sampler.cpp:23-328 | 1 exactly when the sampler is not yet initialised and compilation, every perf-fd attach and the kprobe attach succeed; then it is WAITING with a collector, the given online cores and configuration, an empty storage per online core and kper_core_length = StorageMaxByte / (sizeof(StoreData) * cores); -1 otherwise, state and storage unchanged |
| EbpfSampler.Sampler.StartCollector | cpp/ebpf_sampler.cpp:323-325 | the collector thread is replaced only when the one dropped is no longer joinable, and the new one is held; nothing else changes |
| EbpfSampler.Sampler.StateChange | cpp/ebpf_sampler.cpp:330-347 | 1 and the new state exactly when a collector exists and the state is not EXITING; -1 and no change otherwise |
| EbpfSampler.Sampler.Start | cpp/ebpf_sampler.cpp:349-352 | RUNNING exactly when the state may change |
| EbpfSampler.Sampler.Stop | cpp/ebpf_sampler.cpp:354-357 | WAITING exactly when the state may change |
| EbpfSampler.Sampler.Close | cpp/ebpf_sampler.cpp:359-402 | -1 and no change when not initialised; otherwise the collector is gone, the state is EXITING if there was a collector, and 1 exactly when every perf fd and the kprobe detach |
| EbpfSampler.Sampler.CollectOnce | cpp/ebpf_sampler.cpp:205-312 | storage usage beyond StorageMaxByte sets EXITING and copies nothing; otherwise every online core is drained |
| EbpfSampler.BuildStores | cpp/ebpf_sampler.cpp:177-181 | the insertion loop builds InitStores of the online cores |
| EbpfSampler.UsageLoop | cpp/ebpf_sampler.cpp:209-212 | the summing loop computes Usage |
| EbpfSampler.DrainLoop | cpp/ebpf_sampler.cpp:242-312 | the loop over the online cores leaves DrainAll and keeps the keys distinct |
| EbpfSampler.InitCloseInit | cpp/ebpf_sampler.cpp:23-33 | a sampler initialised and closed can be initialised again (EXITING counts as not initialised), while the second Close is refused |
| EbpfSampler.SelfExitAdmittedAsWritten | cpp/ebpf_sampler.cpp:23-33 | after the collector thread stops itself over budget the state is EXITING, the written test of Init admits it, and the joinable thread is still held |
| EbpfSampler.SelfExitReinit | cpp/ebpf_sampler.cpp:205-218 | after the collector thread stops itself, Close is refused, and the corrected Init still succeeds and leaves the sampler WAITING with a new collector |
| PostProcessing.SliceStart | post_processing/post_processing.py:33-35 | a slice of split(a, n) with index at most n starts inside a |
| PostProcessing.SliceStartBounds | post_processing/post_processing.py:33-35 | consecutive slice starts never decrease, stay within a, and differ by len // n plus one for the first len % n slices |
| PostProcessing.Slice | post_processing/post_processing.py:35 | slice i of split(a, n) holds len // n elements, one more for the first len % n slices |
| PostProcessing.SplitEven | post_processing/post_processing.py:33-35 | split(a, 0) raises (divmod by zero); a negative n gives no slices; otherwise n slices of the sizes above |
| PostProcessing.SplitEvenConcat | post_processing/post_processing.py:33-35 | the slices of split(a, n), concatenated, are a again |
| PostProcessing.SplitEvenPrefix | post_processing/post_processing.py:33-35 | the first j slices concatenated are the prefix of a up to the start of slice j |
| PostProcessing.ParseInts | post_processing/post_processing.py:48 | a parsed list has one value per part |
| PostProcessing.ParseIntsSome | post_processing/post_processing.py:48 | when every part parses, the list is the parsed values in order |
| PostProcessing.U64s | cpp/mtmc_profiler.cpp:218-234 | the stored uint64 value of each counter, in order |
| PostProcessing.SingleLogRoundTrip | post_processing/post_processing.py:40-54 | SingleLog reads back every field of a line Finish writes with topdown metrics on, when the record has an ordinary value besides the three topdown ones: ids, stamps, parent information, the six topdown values, both triples and both value lists |
| PostProcessing.LineShape | cpp/mtmc_profiler.cpp:206-236 | a topdown line with ordinary values splits into the seven header fields, the topdown field, the start triple, the start values, the end triple, the end values and the newline |
| PostProcessing.TopdownRoundTrip | post_processing/post_processing.py:48 | the topdown field reads back as the three start and the three end topdown values |
| PostProcessing.ParseSingleLogFields | post_processing/post_processing.py:40-54 | a line whose twelve fields parse to a log's values reads back as that log |
| PostProcessing.HeaderRoundTrip | post_processing/post_processing.py:41-47 | the seven header fields read back as the stored tid, pthread id, stamps and parent information |
| PostProcessing.DecRoundTrip | post_processing/post_processing.py:41-47 | int() of the decimal form of each C++ integer type gives back its stored value |
| PostProcessing.ValuesRoundTrip | post_processing/post_processing.py:52 | counter values joined by '_' read back as their stored values |
| PostProcessing.TripleRoundTrip | post_processing/post_processing.py:51 | a num_event_core_prefix triple reads back as its three stored values |
| PostProcessing.SingleLogRejectsTopdownOff | post_processing/post_processing.py:48 | no line written without topdown metrics can be read: its topdown field is empty and int('') raises |
| PostProcessing.EmptyFieldUnreadable | post_processing/post_processing.py:48 | a line with an empty topdown field raises |
| PostProcessing.SingleLogRejectsNoValues | post_processing/post_processing.py:54 | a topdown line without ordinary values has eleven fields, so line[11] raises |
| PostProcessing.GetMetricPrec | post_processing/post_processing.py:73-74 | a negative byte index raises; otherwise the result is a byte |
| PostProcessing.MetricPrecBytes | post_processing/post_processing.py:73-74 | byte i of a little-endian packed word is read back, and 0 past its last byte |
| PostProcessing.ReadPmuConfig | post_processing/post_processing.py:79-106 | the metrics and events are those PmuRun collects over the lines |
| PostProcessing.PmuRunAppend | post_processing/post_processing.py:85-103 | reading two runs of lines is reading the first, then the second from the state it left |
| PostProcessing.FirstFields | post_processing/post_processing.py:97-103 | one first field per body line |
| PostProcessing.PmuBody | post_processing/post_processing.py:93-103 | inside a block, lines without "End" each add their first field to the block's list |
| PostProcessing.PmuBlock | post_processing/post_processing.py:85-103 | an "Equations" block adds each body line (up to its newline) to the metrics, a "Group" block adds each body line's text before the first ',' to the events, and "End" returns to the first state |
| PostProcessing.PmuIgnoresOtherLines | post_processing/post_processing.py:86-92 | outside a block, a line naming neither "Equations" nor "Group" changes nothing |
| PostProcessing.MetricLineReadBack | post_processing/post_processing.py:97 | a metric line without a newline is read back whole |
| PostProcessing.PostProcessor.constructor | post_processing/post_processing.py:548-558 | the log dictionary starts empty, with the given time boundary |
| PostProcessing.PostProcessor.ReadRawLogs | post_processing/post_processing.py:605-624 | the new dictionary and the outcome are ReadFiles of the directory listing |
| PostProcessing.ReadLog | post_processing/post_processing.py:614-624 | the loop over one file's lines computes ReadLines |
| PostProcessing.ReadLinesKeeps | post_processing/post_processing.py:616-624 | when no line raises, a log is kept exactly when it was kept before or it is read from one of the lines and lies within the time boundary |
| PostProcessing.ReadFilesKeepsUnselected | post_processing/post_processing.py:610-613 | a file the name filter does not select keeps its entry, or its absence |
| TimelineMapper.ScanFrom | post_processing/post_processing.py:322-340 | the search loop ends either with kNotFound or with status equal to an index inside the list, and the place it returns is last_place or an index inside the list |
| TimelineMapper.Scan | post_processing/post_processing.py:317-340 | the while loop of Check and ReCheck, which starts at last_place (or at 0 when that is out of range), returns exactly the pair the search function defines |
| TimelineMapper.Check | post_processing/post_processing.py:307-340 | None exactly when the mapper is invalid; (kNotSchedularInterOp, last_place) when the parent thread is outside the inter-op pool; otherwise the search of the node timeline |
| TimelineMapper.ReCheck | post_processing/post_processing.py:342-373 | None exactly when the mapper is invalid; otherwise the same search over the already-mapped logs, without consulting the pool |
| TimelineMapper.RightScan | post_processing/post_processing.py:330-339 | the rightward scan finds something iff some interval of the thread covers t before any interval begins after t, and it then returns the first such interval |
| TimelineMapper.LeftScan | post_processing/post_processing.py:324-329 | the leftward scan finds something iff some interval at or below the start covers the thread's time t, and it then returns the nearest such interval |
| TimelineMapper.SearchFinds | post_processing/post_processing.py:317-340 | a found index is inside the list and covers the parent's thread and scheduling time; for each direction, found iff a covering interval exists in the range that direction walks |
| TimelineMapper.OutOfRangeRestarts | post_processing/post_processing.py:318-320 | a last_place outside the list gives the same status as a search from index 0 |
| TimelineMapper.StatusIgnoresLast | post_processing/post_processing.py:322-340 | the status of a scan does not depend on last_place, which only fills the place on a miss |
| TimelineMapper.SortedSearchComplete | post_processing/post_processing.py:214-228 | over a timeline sorted by start time, the rightward or the leftward search succeeds iff some interval of the thread covers its scheduling time |
| TimelineMapper.Step | post_processing/post_processing.py:206-230 | one log never makes last_place negative |
| TimelineMapper.CheckWorker | post_processing/post_processing.py:201-231 | the loop returns the three lists (or the error raised) that the log-by-log step function defines |
| TimelineMapper.NotInPool | post_processing/post_processing.py:208-212 | the logs whose parent is outside the pool are at most all the logs |
| TimelineMapper.RunValid | post_processing/post_processing.py:201-231 | with both inputs present CheckWorker succeeds, puts each log in exactly one list, recheck is exactly the out-of-pool logs in order, every mapped log carries a node on its parent's thread covering its scheduling time, every failed log has its parent in the pool |
| TimelineMapper.StepValid | post_processing/post_processing.py:206-230 | one log adds itself to recheck iff its parent is outside the pool, and otherwise either a placed copy to mapped or itself to failed |
| TimelineMapper.RunSorted | post_processing/post_processing.py:201-231 | over a sorted timeline, recheck and failed are exactly the logs routed there, in input order |
| TimelineMapper.RunSortedMapped | post_processing/post_processing.py:201-231 | over a sorted timeline, mapped is the logs routed there, in input order, each with its scheduler node attached and placed |
| TimelineMapper.MappedFromCons | post_processing/post_processing.py:218-219 | a placed log with its scheduler attached extends a mapped list built from its source logs |
| TimelineMapper.StepSorted | post_processing/post_processing.py:206-230 | over a sorted timeline one log goes to failed iff it is routed there, and to mapped (with only its scheduler changed) iff it is routed there |
| TimelineMapper.RunErrors | post_processing/post_processing.py:201-231 | CheckWorker fails iff there are logs and the pool is missing, or the node list is missing and some log has its parent in the pool |
| PerfmonParser.ReadPmuConfigJson | post_processing/perfmon_parser.py:97-117 | the reader returns what the specification function of the JSON document gives |
| PerfmonParser.EntriesUpToErr | post_processing/perfmon_parser.py:109-112 | once a config entry lacks a field, the error of the first such entry is the result for every longer prefix |
| PerfmonParser.EntriesUpToSpec | post_processing/perfmon_parser.py:109-112 | reading n entries succeeds iff each has EventList, Metrics and Constants, and then gives exactly those lists, one per entry, in order |
| PerfmonParser.JsonOfSpec | post_processing/perfmon_parser.py:97-117 | the read succeeds iff Configs is present with complete entries and OverallCnsts is present; always_topdown holds iff AlwaysSampleTopdown is present and equal to 1; the lists are copied entry by entry |
| PerfmonParser.IndexOf | post_processing/perfmon_parser.py:45 | list.index gives the first position of the name, and fails exactly when the name is absent |
| PerfmonParser.KeptNames | post_processing/perfmon_parser.py:42-43 | every kept constant name is a key of the equation's constant dict |
| PerfmonParser.MapConstants | post_processing/perfmon_parser.py:40-45 | the loop over a config's Constants returns the alias and index lists the specification function gives, or the ValueError |
| PerfmonParser.KeptNamesPrefix | post_processing/perfmon_parser.py:42-45 | the names kept from a prefix of Constants begin the names kept from all of it |
| PerfmonParser.KeptNamesMembers | post_processing/perfmon_parser.py:42-43 | a name is kept iff it is in the config's Constants and a key of the dict |
| PerfmonParser.ConstantsOfSpec | post_processing/perfmon_parser.py:39-48 | the mapping succeeds iff every kept name is in OverallCnsts; then alias k is the dict's value for kept name k and index k is that name's first position in OverallCnsts |
| PerfmonParser.MapDicts | post_processing/perfmon_parser.py:39-51 | the loop over one config's constant dicts returns the tables the specification function gives |
| PerfmonParser.NewParser | post_processing/perfmon_parser.py:22-58 | the constructor returns the parser (or the error raised) that the specification function gives |
| PerfmonParser.BuildTables | post_processing/perfmon_parser.py:30-51 | the loop over the configs returns the tables the specification function gives |
| PerfmonParser.BuildConfig | post_processing/perfmon_parser.py:30-50 | config i looks up its equations and maps its constant dicts, and appends them to the tables of the configs before it: the tables of the first i + 1 configs, or the first error among them |
| PerfmonParser.ConfigsUpToErr | post_processing/perfmon_parser.py:30-51 | the first failing config decides the error for every longer prefix |
| PerfmonParser.DictsUpToErr | post_processing/perfmon_parser.py:39-48 | the first failing constant dict decides the error for every longer prefix |
| PerfmonParser.DictsUpToSpec | post_processing/perfmon_parser.py:39-48 | the tables of m dicts exist iff each dict maps, and entry k is that dict's alias and index lists |
| PerfmonParser.ConfigsUpToOk | post_processing/perfmon_parser.py:30-51 | the tables of n configs exist iff every config's equation lookup unpacks and its dicts map |
| PerfmonParser.ConfigsUpToRows | post_processing/perfmon_parser.py:30-51 | the tables hold one row per config, each matching its lookup and its dicts' mapping |
| PerfmonParser.ParserOfSpec | post_processing/perfmon_parser.py:22-58 | the parser is built iff the JSON reads, there is at least one config, and every config maps; it then keeps the JSON lists, its tables match row by row, alias and index lists have equal shape, and equ_valid holds iff the first config has as many equations as metrics |
| PerfmonParser.PyIndex | post_processing/perfmon_parser.py:133 | a Python list index is valid iff it lies in [-n, n), and then names a position below n |
| PerfmonParser.BindConstants | post_processing/perfmon_parser.py:138-142 | the constant-binding loop succeeds iff every alias is the duration supplied by dur_ms or indexes cnsts |
| PerfmonParser.CalPmu | post_processing/perfmon_parser.py:119-148 | the method returns the updated dict (or the error raised) that the specification function gives |
| PerfmonParser.EquLoop | post_processing/perfmon_parser.py:136-144 | the metric loop sets "Met-."+key for each metric of the config, in order, to its equation's value, and raises IndexError at the first metric whose constants cannot all be bound or which has no compiled equation in the config |
| PerfmonParser.FallbackLoop | post_processing/perfmon_parser.py:145-147 | the event loop sets "Met-."+name for each event, in order, to its delta, and raises IndexError at the first event beyond the deltas |
| PerfmonParser.FallbackErr | post_processing/perfmon_parser.py:146-147 | once an event lies beyond the deltas, every longer prefix raises the same IndexError |
| PerfmonParser.EquMetricsErr | post_processing/perfmon_parser.py:137-144 | once a metric's constants cannot be bound, every longer prefix raises the same IndexError |
| PerfmonParser.MetKeyInjective | post_processing/perfmon_parser.py:144 | two metric names give the same "Met-." key iff they are equal |
| PerfmonParser.FallbackSpec | post_processing/perfmon_parser.py:146-147 | the fallback loop succeeds iff no event lies beyond the deltas; it adds exactly the events' "Met-." keys, leaves other keys alone, and sets each event's key to its last occurrence's delta |
| PerfmonParser.CalPmuFallback | post_processing/perfmon_parser.py:124-147 | without usable equations and with equal-length readings, CalPmu succeeds, keeps other keys, and sets each event's key to end minus begin |
| PerfmonParser.EquMetricsSpec | post_processing/perfmon_parser.py:136-144 | the equation loop succeeds iff every metric has a constant list whose constants all bind and a compiled equation in its config; it keeps other keys and sets each metric's key to its equation's value (the last one for a repeated metric) |
| PerfmonParser.MissingEquationRaises | post_processing/perfmon_parser.py:136-144 | equ_valid compares the counts of config 0 only (lines 53-56), so config 1 with metrics ["x", "y"] and one compiled equation raises IndexError at "y" |
| TmaCal.Max | post_processing/tma_cal.py:15-16 | MAX returns one of its arguments, at least as large as both |
| TmaCal.Min | post_processing/tma_cal.py:18-19 | MIN returns one of its arguments, at most as large as both |
| TmaCal.NewTmaCal | post_processing/tma_cal.py:22-24 | a new calculator knows no equation |
| TmaCal.Unpack | post_processing/tma_cal.py:26-27 | the parser's three-way unpack of a lookup result succeeds only on exactly three items, and then yields them in order |
| TmaCal.LookupNeverUnpacks | post_processing/tma_cal.py:26-27 | the public calculator's empty lookup never unpacks into equations, performance equations and constants |
| TmaCal.ParserNeverBuilt | post_processing/tma_cal.py:26-27 | with the public calculator, building a PerfmonParser always raises (ValueError on the first config, IndexError when there is none) |
| TmaCal.CalTopDown | post_processing/tma_cal.py:29-30 | the top-down result pairs one or more labels with one value each |
| OtlPostProcessing.NameFieldCount | post_processing/otl_post_processing.py:40-45 | a span name is decoded iff it has exactly five '~' separators, that is six fields |
| OtlPostProcessing.NameRoundTrip | post_processing/otl_post_processing.py:40-51 | six '~'-free fields joined with '~' decode back to those fields, the inputs split on '\|' and an empty step id read as -1 |
| OtlPostProcessing.ParentInfo | post_processing/otl_post_processing.py:61-64 | a decoded parent field yields a parent pthread id masked to 32 bits |
| OtlPostProcessing.ReadTriple | post_processing/otl_post_processing.py:65-70 | a decoded core/prefix/num_event field has exactly three parts |
| OtlPostProcessing.NonEmpty | post_processing/otl_post_processing.py:80 | the constants filter keeps exactly the non-empty parts and drops nothing when none is empty |
| OtlPostProcessing.DecodeField | post_processing/otl_post_processing.py:54-80 | one field keeps both pthread ids masked to 32 bits |
| OtlPostProcessing.DecodeAll | post_processing/otl_post_processing.py:54-80 | the field loop keeps both pthread ids masked to 32 bits |
| OtlPostProcessing.DecodeFields | post_processing/otl_post_processing.py:54-80 | the field loop returns the variables (or the error raised) that the specification function gives |
| OtlPostProcessing.SpanMetrics | post_processing/otl_post_processing.py:82-111 | the CalPmu call of a span, with the cfg_id/mux_id choice and the duration in milliseconds, returns what the specification function gives |
| OtlPostProcessing.MakeNodeEntry | post_processing/otl_post_processing.py:92-111 | the MTMC-logs entry of a span is the one the specification function builds |
| OtlPostProcessing.TfSpan | post_processing/otl_post_processing.py:38-132 | one span of the TF decoder gives the state the step function defines |
| OtlPostProcessing.ParseSpanToTimelineTF | post_processing/otl_post_processing.py:27-136 | the TF decoder's output is the header followed by what the step function gives span by span |
| OtlPostProcessing.TfStepSpec | post_processing/otl_post_processing.py:43-132 | a span only appends; it adds nothing iff its name does not have six fields or its op name or type is "default"; otherwise it adds a pool entry (pid 10 for INTEROP, else 11) with the span's type, start and duration, and for INTEROP a detailed entry of the same span with its node name, step id and inputs |
| OtlPostProcessing.TfStepAdds | post_processing/otl_post_processing.py:89-132 | what one span adds is a pool entry, optionally followed by its detailed entry |
| OtlPostProcessing.RunTfShape | post_processing/otl_post_processing.py:37-132 | over any spans the output only grows and every entry after the start is a pool entry or a detailed entry right after its pool entry |
| OtlPostProcessing.TimelineTfShape | post_processing/otl_post_processing.py:33-132 | the TF timeline starts with the three process-name entries and every later detailed entry follows its own pool entry |
| OtlPostProcessing.PlainSpan | post_processing/otl_post_processing.py:281-346 | one span of the plain decoder gives the state the step function defines |
| OtlPostProcessing.ParseSpanToTimeline | post_processing/otl_post_processing.py:269-349 | the plain decoder's output is the header followed by what the step function gives span by span |
| OtlPostProcessing.PlainStep | post_processing/otl_post_processing.py:321-346 | one span adds exactly one pid-10 entry named by the whole span name, with its start and duration |
| OtlPostProcessing.RunPlainEntries | post_processing/otl_post_processing.py:280-346 | over any spans, entry i after the start comes from span i, one per span |
| OtlPostProcessing.RunPlainAt | post_processing/otl_post_processing.py:280-346 | the entry at position i after the start is the one span i produced |
| OtlPostProcessing.TimelinePlainEntries | post_processing/otl_post_processing.py:276-346 | the plain timeline is the three header entries followed by one entry per span, in order |
| OtlPostProcessing.NumericKey | post_processing/otl_post_processing.py:245-248 | a name of digits only is read by int() as its decimal value |
| OtlPostProcessing.StoreSpec | post_processing/otl_post_processing.py:249-257 | storing a detailed entry under (step, node) adds that key, keeps the stored entry only when it lasted longer, changes no other entry, and records a new step at the end of the step order |
| OtlPostProcessing.KeepAllLastLongest | post_processing/otl_post_processing.py:256-257 | of the entries of one node in one step, the one kept lasts at least as long as every other and no later entry lasts as long |
| OtlPostProcessing.StoreEachKeeps | post_processing/otl_post_processing.py:249-257 | storing a node's entries one after another keeps exactly the entry the replacement rule selects from them |
| OtlPostProcessing.StoreKeepsInv | post_processing/otl_post_processing.py:245-257 | storing keeps the table invariant: each step recorded once, every stored node name recorded in op_name_list, every stored entry filed under its own step and node |
| OtlPostProcessing.PtStepInv | post_processing/otl_post_processing.py:151-257 | one span of the PT decoder keeps the table invariant |
| OtlPostProcessing.RunPtInv | post_processing/otl_post_processing.py:150-257 | the PT decoder's span loop keeps the table invariant |
| OtlPostProcessing.Insert | post_processing/otl_post_processing.py:259 | inserting into an increasing list keeps it increasing and adds exactly the new value |
| OtlPostProcessing.SortedSet | post_processing/otl_post_processing.py:259 | sorted(list(set(names))) is increasing and holds exactly the names seen |
| OtlPostProcessing.EmitRowErr | post_processing/otl_post_processing.py:261-264 | once a node is missing from a step's row the KeyError decides every longer prefix |
| OtlPostProcessing.EmitAllErr | post_processing/otl_post_processing.py:260-264 | once a step's row fails the error decides every later step |
| OtlPostProcessing.EmitStep | post_processing/otl_post_processing.py:261-264 | the loop over the sorted names of one step gives what the specification function gives |
| OtlPostProcessing.Emit | post_processing/otl_post_processing.py:260-264 | the loop over the steps gives what the specification function gives |
| OtlPostProcessing.PtSpan | post_processing/otl_post_processing.py:151-257 | one span of the PT decoder gives the state the step function defines |
| OtlPostProcessing.ParseSpanToTimelinePT | post_processing/otl_post_processing.py:138-267 | the PT decoder's output is the span loop followed by the chained emission |
| OtlPostProcessing.EmitRowSpec | post_processing/otl_post_processing.py:261-264 | a step's row emits iff every sorted name after the first is in it, and then one entry per such name, each whose input is the previous name |
| OtlPostProcessing.EmitRowChained | post_processing/otl_post_processing.py:259-264 | every entry emitted from a step's row belongs to that step and lists as input the name just below its own |
| OtlPostProcessing.EmitAllOk | post_processing/otl_post_processing.py:260-264 | the emission succeeds iff every step's row holds every sorted name after the first |
| OtlPostProcessing.EmitAllChained | post_processing/otl_post_processing.py:259-264 | the emission gives len(l) - 1 entries per step, each chained to the previous name and belonging to one of the steps |
| OtlPostProcessing.EmitAllCount | post_processing/otl_post_processing.py:260-264 | the emission gives len(l) - 1 entries per step |
| OtlPostProcessing.TimelinePtSpec | post_processing/otl_post_processing.py:138-267 | the PT timeline exists iff every step holds every sorted name after the first; it is the span loop's output followed by len(l) - 1 chained entries per step |
| OtlPostProcessing.PtStepAgrees | post_processing/otl_post_processing.py:151-244 | one span has the same outcome under the TF and the PT decoders, and their outputs agree once TF's detailed entries are set aside |
| OtlPostProcessing.RunAgrees | post_processing/otl_post_processing.py:150-244 | over any spans the TF and PT span loops fail together with the same error, and otherwise agree once TF's detailed entries are set aside |
| OtlPostProcessing.TimelinesAgree | post_processing/otl_post_processing.py:27-244 | the TF timeline exists iff the PT span loop succeeds, and its pool entries are exactly that loop's output |
| OtlPostProcessing.ParentFromParts | post_processing/otl_post_processing.py:61-64 | a parent field whose "-*-" parts are the exporter's three decimals decodes to the parent tid, the masked parent pthread id and the scheduling time |
| OtlPostProcessing.ParentAttrDecodes | post_processing/otl_post_processing.py:61-64 | the parent field the exporter writes always decodes to the parent tid, the parent pthread id masked to 32 bits and the scheduling time |
| OtlPostProcessing.ReadAttrDecodes | post_processing/otl_post_processing.py:68-70 | the end core/prefix/num_event field the exporter writes decodes to those three decimals |
| OtlPostProcessing.EventsDecode | post_processing/otl_post_processing.py:71-74 | a non-empty event list the exporter writes decodes to the counter values read as unsigned 64-bit |
| OtlPostProcessing.CnstsDecode | post_processing/otl_post_processing.py:79-80 | the constants field the exporter writes decodes to its first cnsts_length constants read as unsigned 64-bit |
| OtlPostProcessing.HeadFields | post_processing/otl_post_processing.py:54-67 | the exporter's tid, pthreadid and int_prefix fields set those variables; its begin triple, sent as "b_coreid_prefix_num_event", is not the key the decoder reads and is ignored |
| OtlPostProcessing.ParentAndEndFields | post_processing/otl_post_processing.py:61-70 | the exporter's parent field and end triple set the parent variables and e_core, e_prefix, e_events_num |
| OtlPostProcessing.HeadDecodes | post_processing/otl_post_processing.py:54-70 | the first six exported fields set the head variables and leave the rest to the remaining fields |
| OtlPostProcessing.EventFields | post_processing/otl_post_processing.py:71-74 | the exported b_events and e_events fields decode to the counters read, when each holds at least one event |
| OtlPostProcessing.ConfigFields | post_processing/otl_post_processing.py:75-80 | the exported mux_id, cfg_id and cnsts fields set those variables |
| OtlPostProcessing.ExportedAttributesDecode | post_processing/otl_post_processing.py:54-80 | the whole attribute list the exporter writes for a profile decodes field by field into its values |
| OtlPostProcessing.ExportedParserCfg | post_processing/otl_post_processing.py:82-86 | the decoded config index is mux_id when the exported cfg_id is -1 and cfg_id otherwise |
| OtlPostProcessing.EmptyEventsFail | post_processing/otl_post_processing.py:71-72 | an empty event list cannot be read: int('') raises |
| OtlPostProcessing.ZeroEventsRejected | post_processing/otl_post_processing.py:71-72 | a profile that read no events cannot be decoded |
| PerfScript.Append | post_processing/perf-script.py:53-66 | appending under a key creates its list on first use, adds the value at its end, and leaves every other key's list alone |
| PerfScript.AppendGrows | post_processing/perf-script.py:53-66 | an append keeps every existing list as a prefix of its new value |
| PerfScript.SwitchOf | post_processing/perf-script.py:50-51 | the recorded switch carries the cpu, the time secs * 10^9 + nsecs, and the previous and next thread's pid and command |
| PerfScript.CoreOfSpec | post_processing/perf-script.py:53-56 | output_core has a list for a cpu iff some switch happened on it, and that list is exactly those switches in arrival order |
| PerfScript.ThreadOfSpec | post_processing/perf-script.py:58-66 | output_thread has a list for a pid iff that thread was switched out or in, and that list is its 'e' and 'b' entries in arrival order |
| PerfScript.SelfSwitch | post_processing/perf-script.py:58-66 | a switch from a thread to itself files its 'e' entry and then its 'b' entry under that thread |
| PerfScript.CoreAppendOnly | post_processing/perf-script.py:53-56 | later switches only extend a cpu's list |
| PerfScript.OfThreadGrows | post_processing/perf-script.py:58-66 | later switches only extend a thread's entries |
| PerfScript.ThreadAppendOnly | post_processing/perf-script.py:58-66 | later switches only extend a thread's list |
| PerfScript.SwitchStep | post_processing/perf-script.py:45-66 | one more switch updates both dictionaries exactly as the handler does |
| PerfScript.SchedTrace.constructor | post_processing/perf-script.py:28-29 | both dictionaries start empty |
| PerfScript.SchedTrace.SchedSwitch | post_processing/perf-script.py:45-66 | the handler files the switch under its cpu, then as 'e' under the previous thread and as 'b' under the next, keeping both dictionaries equal to their definitions over all switches so far |
| AutoAnalysis.DistributionData.constructor | auto_analysis/auto_analysis.py:137-147 | a new histogram is empty, with 100 zero probability slots and both bounds 0 |
| AutoAnalysis.DistributionData.AddData | auto_analysis/auto_analysis.py:149-156 | adding a value raises its count by one (creating it at 1), appends it to the raw data and counts it in times, leaves the probability slots alone, and keeps the counts equal to each value's multiplicity |
| AutoAnalysis.DistributionData.GetYValue | auto_analysis/auto_analysis.py:177-181 | the count of a value is its multiplicity among the values added, and 0 exactly when it was never added |
| AutoAnalysis.AreaBetweenNonNeg | auto_analysis/auto_analysis.py:382-392 | the area of a profile tree between two times is never negative |
| AutoAnalysis.AreaBetweenEmpty | auto_analysis/auto_analysis.py:382-392 | an empty or reversed time window has area 0 |
| AutoAnalysis.AreaBetweenAtMostTotal | auto_analysis/auto_analysis.py:375-392 | with non-negative durations, the area within a window never exceeds the tree's total area |
| AutoAnalysis.AreaBetweenCovering | auto_analysis/auto_analysis.py:375-392 | a window covering every node of the tree has exactly the total area |
| AutoAnalysis.InputsFromSpec | auto_analysis/auto_analysis.py:577-584 | the input names read from position i are input<i>, input<i+1>, ... up to the first missing key |
| AutoAnalysis.ReadInputNames | auto_analysis/auto_analysis.py:576-584 | the while loop reads input0, input1, ... in order and stops at the first missing key |
| AutoAnalysis.DetailStepInv | auto_analysis/auto_analysis.py:556-594 | one detailed node state keeps the filing invariant: each (step, name) is filed once, from its first event, and help_dict points at it |
| AutoAnalysis.DetailAllInv | auto_analysis/auto_analysis.py:556-594 | the first loop of ProcessEigenProf keeps the filing invariant over all detailed node states |
| AutoAnalysis.DetailAllSpec | auto_analysis/auto_analysis.py:556-594 | step -1 is never filed; help_dict has the same steps as data; (step, name) is in help_dict iff some event carries it, and then points at the node built from its first such event |
| AutoAnalysis.DetailAllDistinct | auto_analysis/auto_analysis.py:567-570 | no node name is filed twice under one step |
| AutoAnalysis.FileDetail | auto_analysis/auto_analysis.py:558-594 | one filed event adds its node name, its node and the node's position under its step, unless that name is already filed there: one pass of the first loop as the specification function takes it |
| AutoAnalysis.CollectDetails | auto_analysis/auto_analysis.py:554-594 | the first loop builds the data and help_dict the specification function gives |
| AutoAnalysis.AttachStepSpec | auto_analysis/auto_analysis.py:597-631 | hanging one MTMC log entry under its node keeps the steps and rows, only adds children, keeps help_dict pointing at the nodes, and gives each child its parent's op |
| AutoAnalysis.AttachAllSpec | auto_analysis/auto_analysis.py:597-637 | the second loop keeps the steps and rows, only adds children, and every child carries its parent's op |
| AutoAnalysis.AttachAllError | auto_analysis/auto_analysis.py:597-626 | the second loop raises iff some entry reaches a failing lookup (a step missing from help_dict, a missing node name or TMAM metric) |
| AutoAnalysis.AttachEntries | auto_analysis/auto_analysis.py:597-637 | the second loop gives the data (and the error raised) the specification function gives |
| AutoAnalysis.DetailAllPoints | auto_analysis/auto_analysis.py:585-594 | after the first loop each help_dict entry points at the node of that name in its step's list |
| AutoAnalysis.EigenProfSpec | auto_analysis/auto_analysis.py:553-638 | after ProcessEigenProf the data has no step -1, the same steps as help_dict, children that carry their parent's op, and a node for (step, name) iff a detailed node state carries them, built from the first and only grown since |
| AutoAnalysis.TimelineData.constructor | auto_analysis/auto_analysis.py:433-441 | a new TimelineData keeps its inputs and starts with no data |
| AutoAnalysis.TimelineData.ProcessEigenProf | auto_analysis/auto_analysis.py:553-638 | the method leaves the data (and the error raised) the specification function gives |
| AutoAnalysis.TimelineData.GetStepIdList | auto_analysis/auto_analysis.py:641-650 | the step ids are distinct, never -1, and exactly those the MTMC log entries carry |
| AutoAnalysis.TimelineData.GetOpNameList | auto_analysis/auto_analysis.py:653-659 | the op names are read iff every entry with a step id has a node name; they are then distinct and exactly those names |
| AutoAnalysis.StepIdsSpec | auto_analysis/auto_analysis.py:641-650 | the step-id list holds exactly the step ids other than -1 that entries carry |
| AutoAnalysis.NodeNamesSpec | auto_analysis/auto_analysis.py:653-659 | the node-name list holds exactly the node names of entries with a step id |
| AutoAnalysis.DedupSpec | auto_analysis/auto_analysis.py:650 | list(set(xs)) has no repeats and exactly the elements of xs |
| AutoAnalysisHotspot.AddSample | auto_analysis/auto_analysis.py:1099-1103 | adding a sample appends it to its name's list, creating the list on first use, and leaves every other name's list alone |
| AutoAnalysisHotspot.CollectSamples | auto_analysis/auto_analysis.py:1092-1103 | the innermost loop over a step's nodes adds what the specification function gives |
| AutoAnalysisHotspot.GetTotalInfo | auto_analysis/auto_analysis.py:1088-1104 | the three nested loops return ret_data (or the KeyError raised) as the specification function gives |
| AutoAnalysisHotspot.ElemLoopSpec | auto_analysis/auto_analysis.py:1092-1103 | the loop over a step's nodes appends, under the name only, every node of that name with a positive duration, in order |
| AutoAnalysisHotspot.NameLoopSpec | auto_analysis/auto_analysis.py:1091-1103 | the loop over the names appends to each name its matching nodes, name by name |
| AutoAnalysisHotspot.StepLoopOk | auto_analysis/auto_analysis.py:1251-1263 | the loop over the steps succeeds iff every step has a name list and every step whose name list is non-empty has a row in the data (a step with no names needs no row) |
| AutoAnalysisHotspot.StepLoopGet | auto_analysis/auto_analysis.py:1090-1103 | after the loop over the steps each name holds its matching samples step by step, in order |
| AutoAnalysisHotspot.StepLoopWellFormed | auto_analysis/auto_analysis.py:1090-1103 | the loop over the steps keeps every key of ret_data listed once, in first-insertion order |
| AutoAnalysisHotspot.TotalInfoSpec | auto_analysis/auto_analysis.py:1088-1104 | GetTotalInfo succeeds iff every step is readable, and then each name holds exactly its matching samples from every step, in order |
| AutoAnalysisHotspot.SummarizeSamples | auto_analysis/auto_analysis.py:1155-1162 | a name's summary takes the last sample's op and the sum of its areas |
| AutoAnalysisHotspot.Summaries | auto_analysis/auto_analysis.py:1154-1165 | one summary per key of ret_data, in key order, each with the key's last op and area sum |
| AutoAnalysisHotspot.Summarize | auto_analysis/auto_analysis.py:1154-1165 | the summary loop gives the summaries of every key, in order |
| AutoAnalysisHotspot.DiffSummariesSpec | auto_analysis/auto_analysis.py:1117-1138 | the online-vs-offline loop gives one summary per online key that the offline info also has, whose total is the online area sum minus the offline one |
| AutoAnalysisHotspot.SummarizeDiff | auto_analysis/auto_analysis.py:1117-1138 | the online-vs-offline loop gives those difference summaries, in online key order |
| AutoAnalysisHotspot.SortDescSpec | auto_analysis/auto_analysis.py:1140 | sorting by total area in reverse gives a non-increasing permutation of the summaries |
| AutoAnalysisHotspot.CollectNames | auto_analysis/auto_analysis.py:1142-1146 | the names returned are the sorted summaries' names, in order, and the info map stores under each name one summary of that name |
| AutoAnalysisHotspot.QpsHotspotNames | auto_analysis/auto_analysis.py:1149-1174 | the QPS hotspot names are the names of the summaries sorted by total area, or the error GetTotalInfo raises |
| AutoAnalysisHotspot.OnlineVsOfflineNames | auto_analysis/auto_analysis.py:1106-1147 | the online-vs-offline hotspot names are the names of the difference summaries sorted by total, or an error when either info cannot be collected |
| AutoAnalysisHotspot.AsWrittenKeepsAll | auto_analysis/auto_analysis.py:1349-1350 | the latency filter as written keeps every name |
| AutoAnalysisHotspot.ReshapeListedAsWritten | auto_analysis/auto_analysis.py:1349 | as written, a node whose op is Reshape is listed as a latency hotspot |
| AutoAnalysisHotspot.FilterNamesSpec | auto_analysis/auto_analysis.py:1347-1351 | the corrected latency filter gives the names of the summaries whose op is neither _MklReshape nor Reshape, in order |
| AutoAnalysisHotspot.KeptSummariesSpec | auto_analysis/auto_analysis.py:1349 | a summary is kept iff it is one of the sorted summaries and its op is not a reshape op |
| AutoAnalysisHotspot.KeptSummariesSorted | auto_analysis/auto_analysis.py:1346-1351 | the kept summaries stay sorted by total area |
| AutoAnalysisHotspot.CollectLatencyNames | auto_analysis/auto_analysis.py:1347-1351 | the latency loop returns the corrected filter's names, and the info map stores only summaries whose op is not a reshape op |
| AutoAnalysisHotspot.LatencyHotspotNames | auto_analysis/auto_analysis.py:1328-1352 | the latency hotspot names are the sorted summaries' names without reshape ops, or the error GetTotalInfo raises |
| AutoAnalysisHotspot.SortedSummaries | auto_analysis/auto_analysis.py:1140-1146 | every sorted summary has a name with samples, and its total and op are that name's area sum and last op |
| AutoAnalysisHotspot.HotspotOrder | auto_analysis/auto_analysis.py:1149-1174 | the sorted summaries are non-increasing in total, name each key of ret_data exactly once, have an op, and total the areas of all matching nodes over all steps |
| AutoAnalysisHotspot.SortDescNames | auto_analysis/auto_analysis.py:1140-1147 | sorting keeps the multiset of names |

## Left out

- Kernel and hardware calls (perf_event_open, ioctl, mmap, munmap, close, rdpmc, rdtsc, rdtscp, gettid, pthread_self, clock_gettime): oracles whose answers are parameters, because their results depend on the machine.
- PerfmonCollector.ReadMmapPMC: one pass of the sequence-lock retry loop, because the retry only exists to race with the kernel writer, which is not modelled.
- PerfmonCollector.PerfmonCollector.InitContext: the rewrite of the caller's per-group cpu list through its reference parameter is not returned, because no caller reads it afterwards.
- Concurrency: mutexes, atomics, thread_local caches beyond the ThreadInfo objects a caller passes in, the eBPF collector thread with its condition variable and sleep, the exporter worker queue and the process pool, because the model is sequential.
- The Search and RecheckWorker drivers of TimelineMapper, which fan logs out to worker processes and back, are not modelled, because they only split lists among processes; the per-worker logic (CheckWorker) is.
- External libraries: BCC compilation and attach, the batch table lookup, the libipc channel and shared memory, OpenTelemetry, TensorFlow step statistics, networkx, pandas and numpy, pickle, and calls to perf, because their behaviour is outside the repository; their results are parameters.
- File and environment I/O: files are sequences of lines, serialisers return strings or lines, and environment variables are Option<string> parameters, because the model has no file system.
- GenHashId: nondeterministic (it hashes the pid and the time stamp counter), so it is a parameter returning the value it would give.
- Floating point: GetTSCFrequencyHz, GenProbabilityDistribution, GetXMin and GetXMax, the KL and JS divergences, CalClock, the TMAM ratios and the eval-based equations of CalPmu, because IEEE arithmetic and Python's eval are not modelled; the times and area sums of auto_analysis.py are exact reals. The fallback deltas of PerfmonParser.CalPmu, which the source computes as np.double, are exact integers here, which matches the source only below 2^53.
- PostProcessing.ParseSingleLog: the event fields that the source converts with np.float are read with Python's int(), so a field written with a decimal point or an exponent is an error here.
- PerfmonParser.CalPmu: the value of a compiled equation is an oracle `eval`, so what is stated is the keys it adds and, on the fallback path, the per-event deltas.
- AutoAnalysisHotspot.CollectSamples: the third field of each sample, op_util_ratio_with_intra, is left out, because both GetTotalInfo variants set it to 0.
- AutoAnalysisHotspot.SortDescSpec: the result is sorted by decreasing area and is a permutation of its input; the stability of Python's sort among equal areas is not stated.
- AutoAnalysis.DedupSpec: list(set(...)) is modelled as keeping the first occurrence of each name; the source's order is unspecified.
- AutoAnalysis.ProcessEigenProf: the aliasing between the step and node objects the source builds is modelled by indices into one list.
- AutoAnalysisHotspot.OnlineVsOfflineNames: the critical path is passed in, because FindCriticalPath walks a networkx graph.
- ProcessDistribution and SprTmaCal are not part of this model: the first only drives the floating-point distributions above, the second is defined nowhere in the repository.
- The other PostProcessor methods (ExportProcessedLogs, ProcessMTMCLogFiles, PerfMapper, GenPerfTimeline) and ParseOtleRawToTimeline are drivers that read files, call the parsers modelled here and write the results.
- util::IndexVector, getInstance, GlobalProfilerEnable/GlobalProfilerDisable, SetGlobalIntPrefix and StorageSize are not part of this model: they are referenced but defined nowhere in the repository.
- PerfmonCollector.PerfmonAgent.RegisterEvents: follows the corrected behaviour of the first "## Findings" row (a failed mmap is recognised by MAP_FAILED); the code as written, which tests `!addr[j]`, is modelled by PerfmonCollector.MmapFailureUndetected.
- PerfmonCollector.RegisterGroupEvents: follows the same corrected MAP_FAILED test; the written null-pointer test is modelled by PerfmonCollector.MmapFailureUndetected.
- MtmcProfiler.MTMCProfiler.Finish: follows the corrected record filter of the second "## Findings" row (with topdown on, a record is kept only when it holds at least three values); the written filter is modelled by MtmcProfiler.AsWrittenReadsBeforeArray.
- MtmcProfiler.EmitRecords: follows the same corrected filter; the written one is modelled by MtmcProfiler.AsWrittenReadsBeforeArray.
- Exporter.Export: follows the corrected bound of the third "## Findings" row and returns -1 for more than sixteen constant names; the written loop, which overwrites trace_hash, is modelled by Exporter.FillCnstsAsWritten and Exporter.AsWrittenTraceHashOverwritten.
- AutoAnalysisHotspot.CollectLatencyNames: follows the corrected filter of the fourth "## Findings" row (`and`, so both reshape ops are left out); the written `or` filter is modelled by AutoAnalysisHotspot.ReshapeListedAsWritten and AutoAnalysisHotspot.AsWrittenKeepsAll.
- AutoAnalysisHotspot.LatencyHotspotNames: follows the same corrected filter; the written one is modelled by AutoAnalysisHotspot.ReshapeListedAsWritten.
- EbpfSampler.Sampler.Init: follows the corrected behaviour of the fifth "## Findings" row and joins a collector thread it still holds before replacing it; the written admission test is modelled by EbpfSampler.SelfExitAdmittedAsWritten.
- AutoAnalysis.TimelineData.ProcessEigenProf: step ids are Option<int> values, so the ValueError that int() raises on a step field that is not a number is not modelled.
- AutoAnalysis.TimelineData.GetStepIdList: for the same reason, the ValueError of int() on a non-numeric step is not modelled.
- MtmcProfiler.ExportThreadPoolInfo: requires a non-empty MTMC_THREAD_EXPORT when it is set, because with an empty value util::PathJoin reads the character before the start of the string, which is undefined behaviour; Util.PathJoin requires a non-empty first part for the same reason.
- OtlPostProcessing.IsNumeric and OtlPostProcessing.NumericKey: only the ASCII digits 0-9 count as digits, whereas Python's str.isdigit also accepts other Unicode digits.
- PerfmonParser.JsonOfSpec: the JSON model has no floating-point values, so an AlwaysSampleTopdown of 1.0, which Python compares equal to 1, is not represented.
- PerfmonCollector.PerfmonAgent.ResetEvents: every context is stamped with one `now`, whereas the source reads the time stamp counter once per context.
- PerfmonCollector.PerfmonAgent.ResetEventsAllFd: likewise takes one `now` for every context, where the source reads the time stamp counter once per context.
- PerfmonCollector.PerfmonAgent.CheckAndResetEventCtx: takes one `now` per call, used both for each context's due test and for its new stamp, where the source reads the time stamp counter twice per context (once for the test, once for the stamp).

## Findings

| source | as written | input that shows it | evidently intended | confidence | as-written member | corrected member |
|---|---|---|---|---|---|---|
| cpp/perfmon_collector.cpp:101-105 | the mmap result is compared with a null pointer | a one-event group whose mmap fails: mmap returns MAP_FAILED, registration succeeds and addr[0] is MAP_FAILED | registration fails when mmap returns MAP_FAILED | high, not executed | PerfmonCollector.MmapFailureUndetected | PerfmonCollector.RegisteredPagesMapped |
| cpp/mtmc_profiler.cpp:202 | with topdown on, a record is skipped only when num_event - 2 < 0 | a topdown record whose start and end reads both hold 2 values: it is kept and its topdown value is read at index num_event - 3 == -1 | a record is kept only when it holds the topdown slots and at least one more value (num_event >= 3) | medium, not executed | MtmcProfiler.AsWrittenReadsBeforeArray | MtmcProfiler.KeptReadsInBounds |
| cpp/exporter.cpp:86-103 | every constant name is written to load.cnsts[cntr] with no bound on the sixteen slots | seventeen constant names "a" to "q": the seventeenth code (-1) lands in the word after the array, trace_hash | constants beyond the sixteen slots are refused | medium, not executed | Exporter.AsWrittenTraceHashOverwritten | Exporter.FillCnsts |
| auto_analysis/auto_analysis.py:1349 | the filter is op != "_MklReshape" or op != "Reshape", which every op satisfies | a summary named "r" whose op is "Reshape" is listed as a latency hotspot | reshape ops are left out (and) | high, not executed | AutoAnalysisHotspot.ReshapeListedAsWritten | AutoAnalysisHotspot.LatencyHotspotNames |
| cpp/ebpf_sampler.cpp:23-33 | EbpfCtxScInit admits any state at or below UNINITIALIZED, including EXITING, and at line 324 resets ebpf_collector_ without joining it | a running sampler whose storage usage exceeds StorageMaxByte: the collector thread stores EXITING and leaves its loop, Close is then refused, and a new Init passes the test and destroys the still joinable std::thread, which calls std::terminate | Init joins a finished collector thread before replacing it | medium, not executed | EbpfSampler.SelfExitAdmittedAsWritten | EbpfSampler.SelfExitReinit |
