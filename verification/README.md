# eBPF monitor: a verified model of the detection core

This project models, in Dafny 4.11, the part of the eBPF monitor that turns kernel
records into printed events and alerts, and proves what that part keeps over every
input, every history of events and every interleaving of its goroutines. It covers the
record decoder, the connection correlator, the goroutines and channels between them, the
rule engine with its threshold windows and sequence trackers, the matching of rules, and
the port expressions of the rule files.

Check everything with `dafny verify dfyconfig.toml`.

## How the code is modelled

- What the source updates in place is a class here: `ThresholdWindow`, `SequenceTracker`,
  `RuleEngine`, `Correlator`, `PortField`, and the ring-buffer record the probes fill. Loops
  are loops with invariants. Every such method is proved against a function of its inputs
  and the old state, and the theorems are about these functions.
- The goroutines of `cmd/main.go` are a transition system: an action is one step of one
  goroutine, a goroutine blocked on a full channel or on the mutex is one whose action is
  not enabled, and any enabled action may come next.
- Instants are integers in nanoseconds. Subtraction saturates at the 64-bit range of a
  duration, as `time.Time.Sub` does; the largest duration is therefore never exceeded.
  Windows may be negative, zero or the largest duration.
- `path.Match`, `time.ParseDuration` and the container resolver are arbitrary functions:
  the glob oracle may reject a pattern, a duration may fail to parse (10 s and 5 s are the
  defaults), and the resolver may answer differently at every call.

## What the proofs found

Each of these is a lemma with the exact condition.

- `New` leaves the tracker map nil. `Engine.RuleEngine.ProcessEvent` panics exactly on an
  event that matches a step of some sequence rule while the map is nil; a step without
  constraints does it on every event (`BlankStepTouches`). A program that has come to rest
  has panicked if and only if such an event reached the engine (`RestsDeadIff`), and with
  the map nil nothing is ever printed under a name that only sequence rules carry
  (`NilMapNeverAlerts`). Everything else about sequences is stated for an engine whose map
  has been made.
- Keys are joined with colons. Two rule names keep their rules apart if and only if neither
  is the other, nor the other cut off at a colon (`IsolatedIff`). The keys of one rule tell
  its groups apart, for all events with addresses without colons, if and only if the rule
  does not group by both containers (`KeysFaithfulIff`); if it does, colon-free container
  names suffice (`KeyIffSameGroup`). Every event the program gives its engine has such
  addresses (`EngineEventsFaithful`).
- Late connection events can make a threshold window hold the wrong events: an expired one
  too many (`DisorderMiscounts`), one inside the window too few, so that an alert is missed
  (`DisorderLosesEvents`), or both (`DisorderCancels`). After a whole history the window
  holds exactly the events inside it if and only if these stand behind all others and the
  first of them is also inside the window of the largest timestamp (`HistoryExactIff`). A
  single call leaves exactly the in-window part of the entries it holds if and only if the
  expired ones stand first (`EvictionExactIff`). `WindowCount` bounds the error by the
  disorder, and `EngineDisorder` bounds the disorder of connection events by the sweep
  period and the timeout.
- A half-way tracker swallows the event that resets it. A tracker detects every complete
  sequence that follows if and only if it is not half-way, the window being neither
  negative nor the largest (`DetectsIff`).
- A sequence checks only how much later than the first of its chain an event is, not how
  much earlier. Late events therefore raise alerts for sequences wider than the window,
  however wide (`MarkAlerts`). The events behind every alert are within the window of the
  first, both ways, if and only if there is a single step or the window covers the
  disorder of the stream: for a window that is neither negative nor the largest, if no
  event comes later than the window allows (`RunAlertsNearIff`).
- The comment on `Wildcard` says that it matches all ports. `Match` never looks at it, so a
  wildcard matches none (`MatchIsDocumentedIff`). Lists drop the negation of their items
  (`ListsNeverNegate`), so `["!5432"]` accepts the one port it means to exclude
  (`NegatedItemInList`). A list accepts what its items accept on their own if and only if
  no item is negated, or the items both list and accept every port (`ListFaithfulIff`).

## Files

| file | content |
|---|---|
| Core, Text, LittleEndian | events, durations, Go's string operations, byte order |
| Network, Sockets, Wire, Records | addresses, probe fields, record layout, dispatch |
| Ports, PortText, Rules, RuleMeaning | port expressions and their texts, match blocks and rules, and what these say |
| GroupKey, SlidingWindow, Tracker | group keys, threshold window, sequence tracker |
| SequenceSoundness, SequenceCompleteness | no false alarms, no missed sequences |
| Engine | the engine and its specification |
| RuleIsolation, GroupRefinement | rules apart from each other, groups apart from each other |
| Correlator, CorrelatorHistory | the correlator and its history |
| Pipeline, PipelineSafety, PipelineSource, PipelineLiveness | goroutines and channels, from the records read to what is printed |
| PipelinePanic | the pipeline around an engine whose tracker map is nil |
| PipelineGroups | the group theorems on the events the program gives its engine |
| SequenceDisorder, GroupDisorder, CorrelatorDisorder, PipelineDisorder | events out of time order: how far, why, and what follows |

## Model

| member | source | states |
|---|---|---|
| RuleIsolation.NonInterference | internal/ruleengine/engine.go:91-180 | for rules of any kind and order, a rule whose name is apart from all others has as its part of the alert log of any run, and as the state kept under its keys, those of an engine loaded with that rule alone |
| RuleIsolation.EmittedProjects | internal/ruleengine/engine.go:154-180 | the same event by event: which alerts a rule raises on an event does not depend on the other rules |
| RuleIsolation.EmittedInRuleOrder | internal/ruleengine/engine.go:154-180 | if all rules stand apart, the alerts of one event are those each rule loaded alone raises on it, in the order of the rules |
| RuleIsolation.IsolatedIff | internal/ruleengine/engine.go:91-117 | two names isolate all rules that carry them, on all runs, if and only if neither is the other nor the other cut off at a colon |
| RuleIsolation.SharedKeyInterferes | internal/ruleengine/engine.go:119-152 | two counting rules with one key raise an alert on a single event that the second alone does not raise |
| RuleIsolation.ColonFreeNamesSeparate | internal/ruleengine/engine.go:91-93 | among distinct rule names without colons every one is apart from all others |
| RuleIsolation.RuleStepLocal | internal/ruleengine/engine.go:119-180 | what a rule raises and stores depends only on the part of the state whose keys begin with its name |
| RuleIsolation.RuleStepElsewhere | internal/ruleengine/engine.go:119-180 | a rule changes nothing under keys that begin with a name apart from its own |
| GroupRefinement.ImmediateRefines | internal/ruleengine/engine.go:154-180 | whatever the other rules, a rule that neither counts nor has steps raises exactly one alert on each event it matches, with the time and containers of the event and the severity and description of the rule, and none on any other |
| GroupRefinement.ThresholdRefinesGroups | internal/ruleengine/engine.go:91-152 | whatever the other rules, a threshold rule with a name apart from theirs raises one such alert on an event exactly if the event matches and a fresh window of the stated size, or ten seconds, run over the rule's events of the same group, counts more than the limit |
| GroupRefinement.SequenceRefinesKeys | internal/ruleengine/sequence.go:51-106 | whatever the other rules, a sequence rule with a name apart from theirs raises on an event exactly as many such alerts as a fresh tracker with the stated window, or five seconds, shown only the events of that key |
| GroupRefinement.StatedGroups | internal/ruleengine/sequence.go:51-60 | a sequence rule groups by the fields it states, or by the source container if it states none |
| GroupRefinement.SequenceAlertExplained | internal/ruleengine/sequence.go:29-106 | soundness over whole runs: behind each alert stand events of the group, in order and none later, that match steps k to the last, later than the first by at most the window and earlier by at most the disorder of the stream; k is above 0 only for the group's very first matching event, and then that event matches no step below k |
| GroupRefinement.SequenceNeverMissed | internal/ruleengine/sequence.go:29-106 | completeness over whole runs: if the group's tracker is not half-way and later events of the group match all steps in order inside the window of each other, the last one raises an alert, whatever other rules and events there are |
| GroupDisorder.RunAlertsNearIff | internal/ruleengine/sequence.go:40-45 | over all runs of all rule sets, on streams of disorder d: behind every alert of a sequence rule stands a chain within the window of its first event, both ways, if and only if there is one step or the window covers d |
| GroupDisorder.MarkAlerts | internal/ruleengine/sequence.go:40-45 | a concrete rule and stream: the first step at time a, all others at time b; the alert is raised however much earlier than a the time b is |
| SequenceDisorder.AlertsNearIff | internal/ruleengine/sequence.go:40-45 | the same for the tracker of one group |
| GroupDisorder.GroupCountBounds | internal/ruleengine/engine.go:119-152 | what a threshold rule counts at an event it matches lies between the group's events inside the window behind its largest timestamp and those no older than the window and the disorder behind the event |
| GroupRefinement.UntouchedSequencesAreSilent | internal/ruleengine/engine.go:44-57 | as long as no event reaches the tracker map that `New` leaves nil, nothing is logged under a name that only sequence rules carry |
| SequenceSoundness.TrackerExplained | internal/ruleengine/sequence.go:29-93 | invariant of every history: a tracker that took steps holds the times of a chain of matching events, one per step from the chain's first step k, the first time twice if k is above 0 |
| SequenceSoundness.AlertHasChain | internal/ruleengine/sequence.go:67-106 | no alert without a complete chain of matching events no later than the alerting event |
| SequenceSoundness.BoundedStep | internal/ruleengine/sequence.go:29-49 | a tracker never stands past the number of steps |
| SequenceCompleteness.SequenceDetected | internal/ruleengine/sequence.go:29-105 | after the event of step j a tracker that was not half-way is past step j, and the last event raises an alert, whatever in-window events interleave |
| SequenceCompleteness.DetectsIff | internal/ruleengine/sequence.go:29-49 | a tracker detects every complete in-window sequence that follows if and only if it is not half-way, or the window is negative or never closes |
| SequenceCompleteness.LateSegmentMissed | internal/ruleengine/sequence.go:40-45 | a half-way tracker misses the complete sequence that starts just after its window closes |
| SequenceCompleteness.FinishedIsAbsorbing | internal/ruleengine/sequence.go:69-104 | a tracker past the last step never changes again and raises one alert for every matching pair of event and step, whatever the window |
| GroupRefinement.FinishedGroupAlerts | internal/ruleengine/sequence.go:69-104 | the same over whole runs, whatever the other rules: once the tracker a group has in the engine is complete it never changes, and over any continuation the rule's alerts for the group number exactly the pairs of an event of the group and a step it matches |
| SlidingWindow.WindowIsSuffix | internal/ruleengine/engine.go:32-42 | for any order of arrival the window holds a contiguous suffix of the history, its oldest entry inside the window of the newest, all it lost older than the window behind the largest timestamp |
| SlidingWindow.WindowCount | internal/ruleengine/engine.go:32-42 | for histories out of order by at most d the count lies between the events no older than the window behind the largest timestamp and those no older than the window and d behind the newest; all or nothing for the largest and for negative windows |
| SlidingWindow.WindowExact | internal/ruleengine/engine.go:32-42 | on a history in time order the count is the number of events in the window |
| SlidingWindow.HistoryExactIff | internal/ruleengine/engine.go:32-42 | after any history, in any order, the window holds exactly the events inside it if and only if these stand behind all others and the first of them is inside the window of the largest timestamp too; the count is then exact |
| SlidingWindow.EvictionExactIff | internal/ruleengine/engine.go:35-39 | of the entries it holds a single call leaves exactly those inside the window if and only if the expired ones stand first; entries lost to earlier calls are the subject of HistoryExactIff |
| SlidingWindow.DisorderMiscounts | internal/ruleengine/engine.go:35-39 | a concrete history out of order on which the count exceeds the number of events in the window |
| SlidingWindow.DisorderLosesEvents | internal/ruleengine/engine.go:35-39 | a concrete history on which the count falls short of it, although each single call is exact on the entries it holds |
| SlidingWindow.DisorderCancels | internal/ruleengine/engine.go:35-39 | a concrete history on which the number is right and the events behind it are not |
| SlidingWindow.ThresholdWindow.AddEvent | internal/ruleengine/engine.go:32-42 | appends the timestamp, evicts expired ones from the front and returns how many remain |
| Tracker.SequenceTracker.AdvanceStep | internal/ruleengine/sequence.go:29-49 | ignores other steps, starts a chain, resets on an expired window or takes the step, and keeps the first time readable |
| Engine.RuleEngine.New | internal/ruleengine/engine.go:44-48 | starts with no state and no alerts, and with the tracker map not made |
| Engine.RuleEngine.HandleThreshold | internal/ruleengine/engine.go:119-152 | finds or makes the group's window, counts the event there and alerts above the limit; no other group's window changes |
| Engine.RuleEngine.HandleSequence | internal/ruleengine/sequence.go:51-106 | shows the event to the group's tracker step by step, making it at the first matching step, one alert for each step visited while complete; panics exactly if a step matches while the map is nil, having sent nothing |
| Engine.RuleEngine.ProcessEvent | internal/ruleengine/engine.go:154-180 | runs all rules in order, sequences first by kind, then threshold or single detection; panics exactly if a sequence step matches while the map is nil, having sent the alerts of the rules before that one |
| Engine.BlankStepTouches | internal/ruleengine/sequence.go:75-88 | under a sequence rule with a step without constraints every event reaches the tracker map, so an engine from `New` panics on it |
| Engine.RuleEngine.ProcessLoop | internal/ruleengine/engine.go:182-186 | the log and state after a stream are those of the specification's run; a panic comes exactly at the first event that touches a nil tracker map, and the log then holds the alerts of all events before and of the rules before the panicking one |
| Engine.SendAlerts | cmd/main.go:60-167 | making an engine and feeding it a stream sends the alerts of the specification's run, whole if the map was made or never touched, up to the panic otherwise |
| GroupKey.BuildGroupKey | internal/ruleengine/engine.go:91-117 | the key is the rule name and the text of each recognised field in order, joined by colons, unknown fields left out |
| GroupKey.KeySays | internal/ruleengine/engine.go:91-117 | the text of a key: the name, then for each recognised entry a colon and what the event says there, the empty text for a missing destination; other entries add nothing |
| GroupKey.KeyIffSameGroup | internal/ruleengine/engine.go:91-117 | two events of a rule share a key if and only if they agree on every recognised field, a missing destination counting as the empty name, if the rule groups by at most one container or container names hold no colon |
| GroupKey.KeysFaithfulIff | internal/ruleengine/engine.go:91-117 | for every rule name, the keys tell the groups of all events with plain addresses apart if and only if the rule does not group by both containers |
| GroupKey.BothContainersCollide | internal/ruleengine/engine.go:96-103 | every rule, whatever its name, that groups by both containers has two different groups with one key |
| GroupKey.OwnerIsUnique | internal/ruleengine/engine.go:91-117 | no key begins with two names that are apart |
| Network.BytesToIPv4 | internal/helpers/network.go:8-12 | the four bytes, least significant first, as a dotted quad |
| Network.DottedQuadText | internal/helpers/network.go:8-12 | the printed text of an address, given by its four bytes |
| Network.DottedQuadInjective | internal/helpers/network.go:8-12 | no two addresses print alike |
| Network.DottedQuadColonFree | internal/helpers/network.go:8-12 | a printed address holds no colon |
| CorrelatorHistory.PendingRefinesHistory | internal/correlator/correlator.go:58-138 | an entry is pending if and only if some connect of its key was not since replaced, accepted or swept away, and then it has that connect's fields |
| CorrelatorHistory.OutputRefinesHistory | internal/correlator/correlator.go:97-138 | the output is, in accept order and none missing, one event for each accept that found a live connect, with the source of that connect and the destination of that accept; no connect is used twice |
| CorrelatorHistory.Conservation | internal/correlator/correlator.go:58-138 | connects = emitted events + overwritten + swept away + pending, after every history |
| CorrelatorHistory.EmittedCount | internal/correlator/correlator.go:117-137 | the connects whose first touching operation is an accept are as many as the emitted events |
| CorrelatorHistory.WaitingCount | internal/correlator/correlator.go:88-93 | the connects no later operation touches are as many as the pending entries |
| Correlator.Correlator.HandleConnect | internal/correlator/correlator.go:74-94 | stores the entry under the connection, replacing an older one |
| Correlator.Correlator.HandleAccept | internal/correlator/correlator.go:97-138 | looks the connection up from the other side; a hit is sent and removed, a miss changes nothing |
| Correlator.Correlator.CleanupOnce | internal/correlator/correlator.go:61-68 | removes exactly the entries older than the timeout, whatever the iteration order |
| PipelineSafety.RunInv | cmd/main.go:117-240 | every state of every interleaving keeps the invariant: bounded channels, the mutex held only by a matched accept, and nothing lost, duplicated or reordered between stages |
| PipelineSafety.Lockstep | cmd/main.go:131-161 | what went to the engine is a prefix of what went to the output, at most one shorter; both are the filtered, annotated entries in order; every event the engine sees has a source container |
| PipelineSafety.EnrichedIsFilter | cmd/main.go:132-157 | the fan-out keeps exactly the events whose source resolves and that pass the name filter, in order, each once, changed only in its containers |
| PipelineSafety.CorrelatorRefined | internal/correlator/correlator.go:108-137 | the correlator whose accept blocks on a full channel holding the mutex behaves as the atomic one after the same operations |
| PipelineSafety.BlocksAsBounded | cmd/main.go:115-161 | channels of 1024 events and 100 alerts; a send waits exactly while its channel is full, an accept that waits keeps sweeps out, and an engine with alerts to send takes no event |
| PipelineSource.ReadsAreKept | cmd/main.go:192-240 | in every reachable state the correlator's operations other than sweeps are those of the records read, in order, but for one still held; the file and exec events likewise; and the sweeps are those made |
| PipelineLiveness.SomeStepEnabled | cmd/main.go:117-167 | deadlock freedom: in every reachable state with work left, unless a panic has ended the program, some goroutine can move, even with an accept blocked under the mutex and the engine blocked on its alerts |
| PipelineLiveness.StepLowersWork | cmd/main.go:117-167 | every step of a goroutine leaves strictly less weighted work, an event weighing as much as all alerts it may raise |
| PipelineLiveness.PipelineDrains | cmd/main.go:117-167 | with the source silent and the cleanup ticker going on, every interleaving moves work no more often than there is work, and nothing can move any more just when all is printed or filtered, or a panic has ended the program; without ticks every interleaving stops within the work left |
| PipelineLiveness.DrainedMeansPrinted | internal/output/output.go:18-67 | once emptied, tick or no tick, the printed events are the filtered entries and the printed alerts those of the rule engine run over exactly these events, on none of which it panics; the entries are the correlator's output after the operations of all records read and the sweeps made, and the file and exec events of all records read, each in order |
| PipelinePanic.PanicAtFirstTouch | internal/ruleengine/sequence.go:75-88 | a panic strikes at the first event that reaches a nil tracker map, after the alerts of all events before it and of the earlier rules on it |
| PipelinePanic.RestsDeadIff | cmd/main.go:158-167 | a program that can move no work has panicked if and only if an event given to the engine touches a nil tracker map, and has printed everything otherwise |
| PipelinePanic.NilMapNeverAlerts | internal/ruleengine/engine.go:44-48 | with the tracker map nil, as main starts the engine, no reachable state has sent or printed an alert under a name that only sequence rules carry |
| PipelineGroups.EngineEventsFaithful | cmd/main.go:132-161 | in every reachable state all events given to the engine have addresses without colons, so keys tell their groups apart, for grouping by both containers if the resolver's names hold no colon |
| PipelineGroups.ThresholdGroupsAtEngine | internal/ruleengine/engine.go:91-152 | on the events the program gives its engine, a threshold rule alerts exactly if the event matches and a fresh window over its group counts more than the limit |
| PipelineGroups.SequenceAlertAtEngine | internal/ruleengine/sequence.go:29-106 | on these events, behind every sequence alert stands a chain of events of its group |
| PipelineGroups.SequenceNeverMissedAtEngine | internal/ruleengine/sequence.go:29-106 | on these events, a complete in-window sequence after a tracker that is not half-way raises an alert |
| PipelineGroups.FinishedGroupAtEngine | internal/ruleengine/sequence.go:69-104 | on these events, a complete tracker raises one alert for each pair of an event of its group and a step it matches |
| PipelineGroups.PrintedThresholdAlerts | cmd/main.go:117-240 | from kernel records to output: once all is printed, the printed alerts of a threshold rule are, in order, exactly those its groups owe the printed events |
| PipelineGroups.PrintedImmediateAlerts | cmd/main.go:117-240 | likewise the printed alerts of a rule with immediate detection are one for each printed event it matches, in order |
| CorrelatorDisorder.OutputDisorder | internal/correlator/correlator.go:58-138 | on a clock that does not go back, with records at most a delay late and no accept longer than a period after a sweep, the output is out of time order by at most the period plus the longer of timeout and delay |
| PipelineDisorder.EngineDisorder | cmd/main.go:117-161 | the connection events given to the engine are out of time order by no more than that |
| PipelineDisorder.ConnectionCountBounds | internal/ruleengine/engine.go:32-42 | the count by which a rule that matches connections only is judged is off by no more than that lag allows |
| PipelineDisorder.ConnectionAlertsNear | internal/ruleengine/sequence.go:29-106 | a sequence rule over connections whose window covers that lag raises no alert for events further apart than the window |
| PipelineLiveness.AlertsAtMost | internal/ruleengine/engine.go:154-190 | one event raises at most one alert for each single or threshold rule and one for each step of a sequence rule |
| Records.MirrorRecordsMeet | cmd/main.go:199-214 | what the probes report of a connecting and an accepting socket, written to bytes and dispatched, becomes a connect and an accept with the tasks that ran the probes, of one key if and only if the sockets are ends of one connection |
| Records.RecordBecomes | cmd/main.go:197-240 | what each kind of record becomes, field by field, and which records are ignored |
| Records.NullTermSays | internal/helpers/string.go:3-10 | a text is the bytes before the first zero, or all |
| Records.OpenFlagsSay | internal/helpers/string.go:12-22 | opening is writing if bit 0, 1 or 6 of the flags is set |
| Records.KTimeSays | internal/helpers/time.go:37-39 | times count from boot, the counter read as a signed number |
| Sockets.MirrorSocketsMeet | bpf/monitor.c:75-78 | the connect key of one socket is the swapped accept key of another if and only if they mirror each other, ports compared byte by byte as they stand on the wire |
| Sockets.SwapBytes | bpf/monitor.c:105 | the swap makes the low byte the high one and the high byte the low one |
| Sockets.SwapTwice | bpf/monitor.c:105 | it exchanges the bytes of every port, and twice it gives it back |
| Sockets.TcpConnect | bpf/monitor.c:60-84 | submits exactly if there is an IPv4 socket and a record could be reserved, with the task's common fields and the four address fields; the peer's port has the two bytes that stand on the wire, high byte first; otherwise changes nothing |
| Sockets.InetCskAccept | bpf/monitor.c:88-109 | the same for an accepted socket |
| Wire.DecodeEncode | internal/ebpf/types.go:78-90 | exactly input of 340 bytes or more decodes, and writing the fields back little-endian gives its first 340 bytes |
| Wire.EncodeDecode | internal/ebpf/types.go:78-90 | writing a record and reading it back, with anything appended, gives the record |
| Wire.TailIgnored | internal/ebpf/types.go:81-86 | what follows the first 340 bytes, such as the tail padding of the C struct, never matters |
| Wire.OffsetsMatchC | internal/ebpf/types.go:11-44 | every field sits at the offset the layout comment records for the C struct |
| Wire.ChunkAt | internal/ebpf/types.go:46-67 | the bytes read for field k are those at its offset |
| Wire.CommonFieldsAt | internal/ebpf/types.go:46-67 | process, cgroup, time and type of a decoded record, given by the bytes at their offsets |
| Wire.ConnectionFieldsAt | internal/ebpf/types.go:46-67 | addresses and ports, given by the bytes at their offsets |
| Wire.ProcessFieldsAt | internal/ebpf/types.go:46-67 | names, path, parent and flags, given by the bytes at their offsets |
| Ports.PrintParse | internal/ruleengine/portexpr.go:19-66 | for all non-wildcard expressions printing and parsing returns the expression if and only if it is bracketed or not the empty one |
| Ports.ListHomomorphism | internal/ruleengine/portexpr.go:101-123 | decoding a list of plain items one by one fails with the same error, or gives the same expression, as parsing the items joined by commas in brackets |
| Ports.ListAcceptsUnion | internal/ruleengine/portexpr.go:113-123 | a decoded list accepts exactly the union of what its items list |
| Ports.ListsNeverNegate | internal/ruleengine/portexpr.go:115-122 | both flags of the target are kept and those of the items lost |
| Ports.ListFaithfulIff | internal/ruleengine/portexpr.go:113-123 | a list of items that parse accepts exactly what its items accept on their own if and only if no item is negated, or every port is both listed by some item and accepted by some item |
| Ports.NegatedItemInList | internal/ruleengine/portexpr.go:100-123 | the list with the one item `!5432` accepts port 5432, which the item does not |
| Ports.ParsePortExpr | internal/ruleengine/portexpr.go:19-66 | trims, takes off the negation and brackets, splits at commas and collects ports and ranges up to the first error |
| Ports.Match | internal/ruleengine/portexpr.go:68-92 | accepts a port exactly if it is listed or in a range, the other way round if negated |
| Ports.MatchIsDocumentedIff | internal/ruleengine/portexpr.go:11-17 | matching does what the field comments promise if and only if the parsed text is not a wildcard |
| Ports.PortField.UnmarshalYAML | internal/ruleengine/portexpr.go:98-128 | a scalar replaces the expression, a list appends to it and keeps what preceded an error, other nodes are rejected |
| Ports.ListedByIndex | internal/ruleengine/portexpr.go:68-92 | a port is listed if some entry equals it or some range holds it, both ends included |
| PortText.ScalarSays | internal/ruleengine/portexpr.go:19-111 | a scalar with blanks and quotes around its items, blanks around its dashes, brackets or none, decodes to an expression that accepts exactly the ports its items cover, the other way round if negated |
| PortText.CollectSays | internal/ruleengine/portexpr.go:37-64 | the first bad part decides the error, and without one the list lists exactly what its parts cover |
| PortText.PartErrors | internal/ruleengine/portexpr.go:45-62 | which error a part is: a bad start of a range decides before a bad end, and only parts without a dash are bad ports |
| Text.ParseUint16Says | internal/ruleengine/portexpr.go:47-57 | a number parses exactly if it is one or more digits that stand for 16 bits at most |
| Rules.NotChain | internal/ruleengine/rule.go:56-59 | a chain of k negations is the innermost block negated k times, whatever else the negating blocks state |
| Rules.AnyIsNotAllNot | internal/ruleengine/rule.go:105-129 | a non-empty any list matches if and only if the all list of its negations does not |
| Rules.BlocksAsSets | internal/ruleengine/rule.go:110-126 | any and all lists do not depend on order or repetition |
| Rules.BlockMatchEvent | internal/ruleengine/rule.go:56-103 | a block without `not` matches exactly if each constraint it sets holds; ports are skipped for events without one |
| Rules.RuleMatchEvent | internal/ruleengine/rule.go:105-129 | a single block decides alone, then a non-empty any list, then a non-empty all list; a rule with none matches nothing |
| RuleMeaning.RuleSays | internal/ruleengine/rule.go:105-129 | by position: a single block decides alone, else some block of a non-empty any list, else every block of a non-empty all list, else nothing matches |
| RuleMeaning.BlockSays | internal/ruleengine/rule.go:56-103 | a block without `not` matches exactly if the type is equal and each pattern accepts the field of its name; containers and ports are skipped where the event has none, ports also where the expression is empty |
| RuleMeaning.PatternConstraints | internal/ruleengine/rule.go:65-103 | each pattern on its own is compared with the field of its name and no other |
| RuleMeaning.ContainerConstraints | internal/ruleengine/rule.go:73-78 | container patterns on their own are compared with container names, and skipped without a container |
| RuleMeaning.PortConstraints | internal/ruleengine/rule.go:80-85 | port expressions on their own are compared with the port of their side, and skipped for port 0 or when empty |
| RuleMeaning.BlockIsItsConstraints | internal/ruleengine/rule.go:56-103 | a block without `not` matches exactly if the blocks that state one of its constraints each all do |

## Left out

- Kernel side: loading the probes, attaching them, reading the ring buffer, and the probes for files and processes.
- Resolver: Docker, `/proc` and the cache; any answer at any call is allowed instead.
- Rule files: walking directories and the YAML library; rules start parsed, and port nodes as plain strings.
- Glob matching and duration parsing are arbitrary functions, so facts about particular patterns are not stated.
- JSON printing and logging; the output loop is a sink that always accepts from either channel.
- Shutdown, which closes channels while senders may still use them; runs end before it.
- Endless loops: the goroutines of `cmd/main.go` are transitions over a state value, not methods with loops, because they do not terminate.
- Bytes of strings: a string is a sequence of characters, invalid UTF-8 is not modelled; record bytes become characters one by one.
- Clocks: a sweep may read any time; only the theorems on disorder assume a clock that does not go back.
- Boot time: a parameter; overflow of absolute instants is not modelled.
- Alert channel inside the engine: `RuleEngine` logs what it sends; blocking on a full channel is modelled in the pipeline, where an event's alerts are sent one by one after the engine's state is updated, which no other goroutine can see.
- GroupKey.KeysFaithfulIff: does not look for container names Docker would refuse; its colliding names hold colons.
