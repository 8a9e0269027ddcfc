# GPUOpt services: a Dafny model

GPUOpt keeps a fleet of GPUs: it scales node groups and model replicas, places replicas on GPUs, reads exporter
metrics, routes risky changes through approvers, watches agents, migrates its database, simulates changes on a digital
twin, promotes shadow deployments and rolls up costs. This project models those services and proves what they promise
over all inputs and, for the stateful ones, over all runs.

Each file holds one service. A `...Spec` module says what every operation computes, as functions on values; a
`...Laws` or `...Runs` module proves properties of those functions over whole runs; a `...Meaning` module says, without
the functions' own vocabulary, exactly when an operation acts and what it changes; and where the service is an object,
a last module has the class whose methods are proved equal to the functions.

| file | service |
|---|---|
| `Autoscaler.dfy` | node autoscaler: resize client, control loop, manual requests |
| `Inference.dfy` | replica scaler and GPU placer |
| `Dcgm.dfy` | exporter text parser and per-GPU index |
| `Approval.dfy` | approval workflow and the gate in front of an actuation |
| `Agents.dfy` | agent registry with its event history and stale checks |
| `Retention.dfy` | the two bounded logs, paging, the audit store |
| `Migration.dfy` | SQL migration runner, PostgreSQL branch |
| `Twin.dfy` | digital twin: sync, apply, reset |
| `Shadow.dfy` | shadow deployments and recommendation expiry |
| `Cost.dfy` | cost report and allocation by environment |
| `Seqs.dfy`, `Arith.dfy` | shared sequence vocabulary and arithmetic facts |

Conventions. Clocks, the failure of outside calls and fresh ids are inputs. An outage is "the first n calls are
answered", which loses nothing because the code gives up at the first call that raises. Objects kept under fresh ids
that are never deleted (agents, approval records, shadows) are numbered in order of creation. Floats are reals, and
`round` is round-half-even on reals.

Where the code does less than its names suggest, the code is followed and the exact condition is proved:

- If the node count inside `_scale_up` raises it is read as zero, so the "scale up" asks for `min(increment, max)` nodes
  and deletes the rest. `FurtherOutIff` says, from every size, exactly when a cycle moves further outside the limits,
  and `StaysInsideIff` exactly when it leaves them.
- Two sizes alternate for ever exactly when demand reaches the upper threshold at the smaller one, is at or below the
  lower threshold at the larger one, and one step leads from each to the other (`AlternateIff`). Thresholds that
  cross between two such sizes always admit such a demand (`SomeDemandRocks`), thresholds that only touch may
  (`TouchingThresholdsOscillate`), and strictly separated ones never do (`RockingCrosses`).
- A reported "up" grows a policy exactly when the load pays for one more replica at 60 percent, and is otherwise
  repeated for ever without effect (`UpGrowsIff`, with the witness `FloorCorner`).
- A placement for more GPUs than exist wraps round and repeats GPUs (`DistinctIff`).
- A line of an unknown metric fails the whole scrape if its GPU label is not an integer (`UnknownMetric`).
- `list_events(limit=0)` returns everything, because `events[-0:]` is the whole list (`TailIff`), and the reslicing
  log holds the last entries exactly when its limit is positive or nothing was recorded (`ReslicingIff`).
- A decommissioned agent stays so exactly as long as it sends no heartbeat and gets no other status (`RetiredIff`).
- A shadow is promoted exactly when its latest ending is a completion without regression, whatever failed before
  (`PromoteIff`, with the witness `FailureIsNotFinal`).

## Model

| member | source | states |
|---|---|---|
| `AutoscalerResize.ResizeEffect` | src/gpuopt/autoscaler.py:81-119 | a resize, also one that raises part way, leaves other groups untouched, keeps names unique, only appends when growing and only drops from the front of the listing when shrinking, ends between the old size and the target, and on the target iff it reports success |
| `AutoscalerResize.CreateEffect` | src/gpuopt/autoscaler.py:102-114 | node creation appends new nodes of the group, stops at a name conflict or an outage, and succeeds iff all were made |
| `AutoscalerResize.RemoveEffect` | src/gpuopt/autoscaler.py:116-119 | deleting listed nodes by name removes exactly the first answered ones and nothing else |
| `AutoscalerMeaning.CreateExactly` | src/gpuopt/autoscaler.py:102-114 | the nodes made are the GPU nodes with the next consecutive names, and the loop goes on exactly until it is done, a name is taken or the calls run out |
| `AutoscalerMeaning.GrowSize` | src/gpuopt/autoscaler.py:81-114 | with fresh names a growing resize makes min(missing, calls - 1) nodes and reports success iff that is all of them |
| `AutoscalerMeaning.UtilizationIsPercent` | src/gpuopt/autoscaler.py:208-235 | utilisation times all GPUs of the GPU nodes is 100 times all requests of all containers; 0 without GPUs, 50 if the query raises |
| `AutoscalerMeaning.CycleActsIff` | src/gpuopt/autoscaler.py:198-293 | for every configuration and every combination of reads that raise: exactly when a cycle logs a scale-up or scale-down, with which delta, target, group and time, and that it restarts the cooldown; otherwise it changes nothing |
| `AutoscalerMeaning.ScalesUpIff` | src/gpuopt/autoscaler.py:198-269 | a cycle scales up iff now - last >= cooldown, 100 * demand >= up * capacity and there is room |
| `AutoscalerMeaning.ScalesDownIff` | src/gpuopt/autoscaler.py:198-293 | a cycle scales down iff now - last >= cooldown, demand is at or below the lower threshold and below the upper one, and there are nodes to spare |
| `AutoscalerMeaning.ManualRecords` | src/gpuopt/autoscaler.py:300-312 | a manual request resizes its own group to its own target, logs direction and distance from the sizes read, and leaves the cooldown alone |
| `AutoscalerRuns.CycleEffect` | src/gpuopt/autoscaler.py:198-293 | one cycle changes nothing, or logs one event and lands between the old size and its target |
| `AutoscalerRuns.FurtherOutIff` | src/gpuopt/autoscaler.py:237-293 | from every size a cycle moves further outside the limits iff it is a scale-up whose node count raised, with a target below the lowest size that is not further out and enough answered deletions to get below it |
| `AutoscalerRuns.StaysInsideIff` | src/gpuopt/autoscaler.py:237-293 | started inside the limits, a cycle ends inside them iff it is not such a scale-up |
| `AutoscalerRuns.BlindScaleUpExample` | src/gpuopt/autoscaler.py:237-269 | for every minimum from 2 to 20, a "scale up" of two nodes that deletes one and ends one node further out |
| `AutoscalerRuns.NeverFurtherOut` | src/gpuopt/autoscaler.py:247-312 | in every run with manual resizes of any size and any calls raising, an automatic step moves the size further outside the limits iff it is a blind scale-up |
| `AutoscalerRuns.LogAccounts` | src/gpuopt/autoscaler.py:247-312 | while all logged resizes were executed, the size is the initial one plus the signed deltas of the log, manual ones included |
| `AutoscalerRuns.NoReversal` | src/gpuopt/autoscaler.py:198-293 | under constant demand on equal nodes and separated thresholds, all events of a run point one way and the sizes are monotone, even when resizes fail part way |
| `AutoscalerRuns.SettlesWithinRange` | src/gpuopt/autoscaler.py:198-293 | once max - min cycles have found the cooldown over, with any number of polls in between, the size never changes again, if the calls of those cycles are answered |
| `AutoscalerRuns.ScalingStepsBounded` | src/gpuopt/autoscaler.py:198-293 | under constant demand and separated thresholds at most max - min resizes are ever executed, whatever other resizes fail part way |
| `AutoscalerRuns.CleanRunSizes` | src/gpuopt/autoscaler.py:198-293 | for every configuration, the size at any point of a constant run with answered calls depends only on how many cycles have found the cooldown over |
| `AutoscalerRuns.SustainedLoad` | src/gpuopt/autoscaler.py:198-269 | under sustained high load the size is exactly min(max, n0 + e * increment) when e cycles have found the cooldown over, with any number of polls in between |
| `AutoscalerRuns.AlternateIff` | src/gpuopt/autoscaler.py:198-293 | for every configuration, demand and pair of sizes, the sizes alternate for ever iff the upper threshold is reached at the smaller, the lower one is not exceeded at the larger, and one clamped step leads from each to the other |
| `AutoscalerRuns.RockingCrosses` | src/gpuopt/autoscaler.py:198-206 | two sizes n < m can alternate under some demand only if up * n <= down * m |
| `AutoscalerRuns.SomeDemandRocks` | src/gpuopt/autoscaler.py:198-206 | if up * n < down * m and one step leads from each size to the other, there is a demand and a node size under which they alternate |
| `AutoscalerRuns.RunOscillates` | src/gpuopt/autoscaler.py:198-293 | a constant run with answered calls started at the smaller of such sizes is at one or the other by the parity of the eligible cycles |
| `AutoscalerRuns.TouchingThresholdsOscillate` | src/gpuopt/autoscaler.py:198-206 | a configuration whose thresholds only touch, with a demand that rocks between one and two nodes |
| `AutoscalerRuns.AutoEventsSpaced` | src/gpuopt/autoscaler.py:198-312 | automatic events, executed or failed, are at least a cooldown apart, whatever manual requests lie between |
| `AutoscalerRuns.RateBound` | src/gpuopt/autoscaler.py:198-312 | any window of length w holds at most 1 + floor(w / cooldown) automatic events |
| `AutoscalerEngines.ClusterAutoscalerClient.SetNodeGroupSize` | src/gpuopt/autoscaler.py:81-100 | the method computes the resize function and meets its contract |
| `AutoscalerEngines.ClusterAutoscalerClient.CreateDummyNodes` | src/gpuopt/autoscaler.py:102-114 | the creation loop computes the creation function |
| `AutoscalerEngines.ClusterAutoscalerClient.RemoveNodes` | src/gpuopt/autoscaler.py:116-119 | the deletion loop computes the removal function |
| `AutoscalerEngines.AutoscalerEngine.ComputeClusterUtilization` | src/gpuopt/autoscaler.py:208-235 | the loops compute requested over allocatable GPUs in percent, 0 for an empty cluster and 50 on failure |
| `AutoscalerEngines.AutoscalerEngine.AutoscaleCycle` | src/gpuopt/autoscaler.py:198-206 | one pass is the automatic step of the run model |
| `AutoscalerEngines.AutoscalerEngine.ScaleUp` | src/gpuopt/autoscaler.py:247-269 | nodes, event and cooldown after a scale-up |
| `AutoscalerEngines.AutoscalerEngine.ScaleDown` | src/gpuopt/autoscaler.py:271-293 | nodes, event and cooldown after a scale-down |
| `AutoscalerEngines.AutoscalerEngine.ScaleManual` | src/gpuopt/autoscaler.py:300-312 | a manual request is the operator step: unclamped and without a cooldown |
| `ReplicaScaler.UpStep` | src/gpuopt/inference_extended.py:76-82 | a reported "up" never shrinks, grows strictly from three replicas on, and leaves the load at or above the lower threshold |
| `ReplicaScaler.DownStep` | src/gpuopt/inference_extended.py:83-86 | a reported "down" lands on max(min, half) and cannot trigger growth afterwards |
| `ReplicaScaler.DecisionIff` | src/gpuopt/inference_extended.py:76-91 | "up" iff load > 0.8 * max(throughput * replicas, 1) below the maximum, "down" iff load < 0.3 * that above the minimum, else the count stays |
| `ReplicaScaler.UpTarget` | src/gpuopt/inference_extended.py:79-80 | the "up" target is min(max, floor(load / (0.6 * throughput))); with a capacity below one, min(max, floor(replicas * load / 0.6)) |
| `ReplicaScaler.DownTarget` | src/gpuopt/inference_extended.py:83-85 | the "down" target is max(min, floor(replicas / 2)) |
| `ReplicaScaler.MonotoneReplicas` | src/gpuopt/inference_extended.py:76-91 | committing under any constant load stays inside the limits and never turns round |
| `ReplicaScaler.UpSettlesAtOnce` | src/gpuopt/inference_extended.py:76-82 | with capacity at least one, a single "up" reaches the final count |
| `ReplicaScaler.Settles` | src/gpuopt/inference_extended.py:76-91 | the replica count is final after 1 + log2(current) evaluations |
| `ReplicaScaler.UpGrowsIff` | src/gpuopt/inference_extended.py:76-82 | a reported "up" grows iff current * load is at least 0.6 * (current + 1); otherwise it is reported for ever and changes nothing |
| `ReplicaScaler.FloorCorner` | src/gpuopt/inference_extended.py:79-86 | a witness: three idle replicas drop to one, which reports "up" with target one for ever |
| `GpuPlacer.DistributeAcrossGpus` | src/gpuopt/inference_extended.py:112-131 | the loop fails iff GPUs are needed and there are none; otherwise the placements, read in order, use up the GPUs 0, 1, 2, ... one by one |
| `GpuPlacer.SoundPlacement` | src/gpuopt/inference_extended.py:112-131 | replicas get pairwise disjoint sets of exactly the asked number of distinct existing GPUs, and a replica is refused only if less than one replica's worth is left |
| `GpuPlacer.DistinctIff` | src/gpuopt/inference_extended.py:117-119 | a placement's GPUs are distinct iff no more are asked for than exist |
| `GpuPlacer.Contiguous` | src/gpuopt/inference_extended.py:117-119 | the first k placements use up exactly the GPUs 0 to k * per - 1 |
| `GpuPlacer.ReplicaCountIs` | src/gpuopt/inference_extended.py:117 | as many replicas as asked for and as fit side by side, but one if not even one fits |
| `GpuPlacer.PlacementIs` | src/gpuopt/inference_extended.py:118-129 | replica r takes the GPUs from r * per on, counted round the list, and names the node that holds the first, four to a node |
| `DcgmText.FitsMatch` | src/gpuopt/dcgm_ingestion.py:73-76 | every text of the form prefix, name, labels in braces, gap, value, free rest is matched, with exactly its name, labels and value |
| `DcgmText.MatchFits` | src/gpuopt/dcgm_ingestion.py:73-76 | and no other text is: whatever is matched has that form |
| `DcgmText.FindPrintedLabels` | src/gpuopt/dcgm_ingestion.py:77-103 | the label pattern finds exactly the printed labels, in order, whatever separators stand between and behind them |
| `DcgmText.MatchedLabel` | src/gpuopt/dcgm_ingestion.py:77 | what the label pattern takes is a name, an equals sign and a text up to the next quote, and nothing is lost |
| `DcgmText.NumberParses` | src/gpuopt/dcgm_ingestion.py:99-102 | every float text, with or without sign, point, digits on either side of it and exponent, is read as the number it spells |
| `DcgmText.FloatAccepts` | src/gpuopt/dcgm_ingestion.py:99-102 | and nothing else is accepted: any accepted text has that form |
| `DcgmText.DecimalMeaning` | src/gpuopt/dcgm_ingestion.py:99-102 | without exponent the value is the whole part plus the digits behind the point over their power of ten |
| `DcgmText.DecimalIs` | src/gpuopt/dcgm_ingestion.py:99-102 | an exponent multiplies or divides by that power of ten |
| `DcgmText.PrintFloatParses` | src/gpuopt/dcgm_ingestion.py:99-102 | every mantissa times a power of ten has a text that is read back exactly |
| `DcgmText.IntParses` | src/gpuopt/dcgm_ingestion.py:104 | white space, a sign and digit groups are read as the integer they spell |
| `DcgmText.IntAccepts` | src/gpuopt/dcgm_ingestion.py:104 | and nothing else is accepted |
| `DcgmText.PrintIntParses` | src/gpuopt/dcgm_ingestion.py:104 | parsing a printed integer gives it back |
| `DcgmText.SplitConcat` | src/gpuopt/dcgm_ingestion.py:93 | splitting into lines distributes over concatenation behind a line feed |
| `DcgmParse.ParseConcat` | src/gpuopt/dcgm_ingestion.py:93-121 | parsing distributes over concatenation of texts, failures included |
| `DcgmParse.RoundTrip` | src/gpuopt/dcgm_ingestion.py:73-121 | printing any readings, with any number text, separators, gaps, indentation and trailers, between lines that are passed over, and parsing the text, gives exactly the samples of the known metrics in order |
| `DcgmParse.CommentSkipped` | src/gpuopt/dcgm_ingestion.py:94-96 | every line that does not start with the metric prefix is passed over |
| `DcgmParse.UnknownMetric` | src/gpuopt/dcgm_ingestion.py:104-111 | a line of an unknown metric is passed over iff its GPU label is an integer, and fails the scrape otherwise |
| `DcgmParse.BadValueSkipped` | src/gpuopt/dcgm_ingestion.py:99-102 | a metric line whose value is no float text is passed over, whatever its labels |
| `DcgmParse.KnownNamesMatch` | src/gpuopt/dcgm_ingestion.py:16-40 | the names of all known metrics are ones that the line pattern can match |
| `DcgmPipeline.DcgmIngestionPipeline.ReadLines` | src/gpuopt/dcgm_ingestion.py:84-121 | the loop collects all samples or stops at the first line that raises, and its counters describe the samples |
| `DcgmPipeline.DcgmIngestionPipeline.Scrape` | src/gpuopt/dcgm_ingestion.py:82-142 | a scrape replaces the stored samples by the parsed ones; one that raises leaves them unchanged |
| `DcgmPipeline.DescribeIs` | src/gpuopt/dcgm_ingestion.py:112-142 | the summary has the metrics that a scan finds, the number of distinct proper GPU indices and the non-empty UUIDs |
| `DcgmPipeline.ScanSnoc` | src/gpuopt/dcgm_ingestion.py:175-180 | `get_metric` keeps, in order, exactly the samples of the metric, of one GPU or, for a negative index, of all |
| `DcgmPipeline.DcgmIngestionPipeline.BuildTelemetrySamples` | src/gpuopt/dcgm_ingestion.py:182-195 | the index has one record per distinct GPU in first-seen order, each agreeing with the scan |
| `DcgmPipeline.FirstSeenOrder` | src/gpuopt/dcgm_ingestion.py:182-195 | the index lists each GPU once, and what a first part of the samples shows comes first |
| `DcgmPipeline.IndexMatchesScan` | src/gpuopt/dcgm_ingestion.py:175-195 | for an index of zero or more the record holds a metric iff `get_metric` finds samples, with the last one's value |
| `ApprovalLaws.UnanimousApproval` | src/gpuopt/guarded_automation.py:229-288 | approve calls on a new request all succeed iff the callers are contained in the required approvers as multisets, and end approved iff the multisets are equal, in any order |
| `ApprovalLaws.ApproveAllIff` | src/gpuopt/guarded_automation.py:253-288 | the same law from any consistent record, with the approvers still pending |
| `ApprovalLaws.ApproveConsistent` | src/gpuopt/guarded_automation.py:265-288 | an approval keeps status and steps consistent; the `any_rejected` branch is never taken |
| `ApprovalLaws.RejectConsistent` | src/gpuopt/guarded_automation.py:290-315 | a rejection keeps status and steps consistent |
| `ApprovalLaws.DecisionOkIff` | src/gpuopt/guarded_automation.py:253-315 | a decision of either kind succeeds iff the record is pending and the approver has a pending step; otherwise which error is raised |
| `ApprovalLaws.RejectEffect` | src/gpuopt/guarded_automation.py:290-315 | a rejection decides the approver's first pending step only, with reason and time, and closes the record as rejected |
| `ApprovalLaws.ApproveEffect` | src/gpuopt/guarded_automation.py:253-288 | an approval decides the approver's first pending step only; it closes the record as approved iff all other steps were approved, as rejected iff another one was rejected, and changes nothing else otherwise |
| `ApprovalLaws.NewRequest` | src/gpuopt/guarded_automation.py:229-251 | a new request is pending with one open step for each approver in order, or one for the default approver |
| `ApprovalLaws.VoteTouchesOne` | src/gpuopt/guarded_automation.py:229-315 | an operation changes at most the record it names, and none if it raises |
| `ApprovalLaws.Reachable` | src/gpuopt/guarded_automation.py:229-315 | in every reachable store approved means all steps approved, rejected means exactly one step rejected, pending means some step pending and none rejected |
| `ApprovalLaws.DecisionsFinal` | src/gpuopt/guarded_automation.py:253-315 | no continuation of a run changes a decided record or a decided step |
| `ApprovalLaws.DecisionsCounted` | src/gpuopt/guarded_automation.py:253-315 | the successful decisions on a record are as many as its decided steps, so at most all of them |
| `ApprovalLaws.GateSound` | src/gpuopt/guarded_automation.py:323-328 | the gate opens only if a latest request of the actuation has all steps approved, and stays shut only if there is no request or a latest one has not |
| `ApprovalLaws.LatestIsFirst` | src/gpuopt/guarded_automation.py:327 | of several rows with the greatest creation time the first one counts |
| `ApprovalWorkflows.ApprovalWorkflow.CreateRequest` | src/gpuopt/guarded_automation.py:229-251 | the method saves the new pending record with its steps |
| `ApprovalWorkflows.ApprovalWorkflow.FirstPending` | src/gpuopt/guarded_automation.py:265-272 | the search finds the first pending step of the approver, if any |
| `ApprovalWorkflows.ApprovalWorkflow.Approve` | src/gpuopt/guarded_automation.py:253-288 | result and store after an approval; a call that raises saves nothing |
| `ApprovalWorkflows.ApprovalWorkflow.Reject` | src/gpuopt/guarded_automation.py:290-315 | result and store after a rejection; a call that raises saves nothing |
| `AgentLaws.HistoryTellsAll` | src/gpuopt/agent_protocol.py:94-195 | in every run each agent's history is a chain from its registration without self-loops that ends in its status, and replaying the history rebuilds the status map |
| `AgentLaws.RegisterEffect` | src/gpuopt/agent_protocol.py:94-128 | a registration adds one registered agent and its first event |
| `AgentLaws.UpdateEffect` | src/gpuopt/agent_protocol.py:158-174 | an update sets the status and nothing else, and logs one event iff the status differs |
| `AgentLaws.BeatEffect` | src/gpuopt/agent_protocol.py:130-156 | a heartbeat makes the agent active and heard of now, counts up its number, and logs one event iff it was not active |
| `AgentLaws.CheckLogs` | src/gpuopt/agent_protocol.py:176-195 | a check logs one event for each agent it reports, in registry order |
| `AgentLaws.SequenceCounts` | src/gpuopt/agent_protocol.py:130-156 | the stored sequence number is the number of accepted heartbeats |
| `AgentLaws.PollingIndependent` | src/gpuopt/agent_protocol.py:176-195 | checks at any increasing times leave the same agents and report the same ids as one check at the last time, after which nobody who could be lost is past the timeout |
| `AgentLaws.CheckReportsSilent` | src/gpuopt/agent_protocol.py:119-195 | after any run a check reports exactly the agents neither decommissioned nor unreachable whose registration and accepted heartbeats are all older than the timeout |
| `AgentLaws.RetiredIff` | src/gpuopt/agent_protocol.py:94-195 | from any state a decommissioned agent stays so throughout iff no later operation is a heartbeat or another status for it |
| `AgentLaws.HeartbeatRevives` | src/gpuopt/agent_protocol.py:130-195 | a heartbeat makes an agent active from every status; the next check leaves it active iff it comes within the timeout |
| `AgentRegistries.AgentRegistry.RegisterAgent` | src/gpuopt/agent_protocol.py:94-128 | the registration step, with the bounded log kept |
| `AgentRegistries.AgentRegistry.ProcessHeartbeat` | src/gpuopt/agent_protocol.py:130-156 | the heartbeat step and the returned sequence number |
| `AgentRegistries.AgentRegistry.UpdateAgentStatus` | src/gpuopt/agent_protocol.py:158-174 | the status step; unknown agents are refused |
| `AgentRegistries.AgentRegistry.CheckStaleAgents` | src/gpuopt/agent_protocol.py:176-195 | the check step and the reported ids in registry order |
| `AgentRegistries.AgentRegistry.RecordEvent` | src/gpuopt/agent_protocol.py:239-254 | the retained events are always the last 10000 of the history |
| `AgentRegistries.AgentRegistry.ListEvents` | src/gpuopt/agent_protocol.py:225-230 | for a limit from one to the log's own, listing all agents gives the end of the whole history; listing one agent gives the end of its retained events, which are its whole history while the log is not full |
| `Retention.BothRefineLastN` | src/gpuopt/agent_protocol.py:252-254 | appending with reslicing and appending with popping both keep the last limit entries of any history |
| `Retention.ReslicingIff` | src/gpuopt/agent_protocol.py:252-254 | the reslicing log holds the last limit entries iff the limit is positive or nothing was recorded; the popping log always does |
| `Retention.LimitZero` | src/gpuopt/audit.py:23-26 | at limit zero one log keeps everything and the other nothing |
| `Retention.TailIff` | src/gpuopt/agent_protocol.py:225-230 | a limited listing returns the last entries iff the limit is positive or the list is empty |
| `Retention.SliceIs` | src/gpuopt/agent_protocol.py:230 | a slice cuts at the bounds; negative bounds count from the end |
| `Retention.PagesCover` | src/gpuopt/audit.py:28-29 | consecutive pages are a prefix of the log, each entry once and in order |
| `Retention.AllPages` | src/gpuopt/audit.py:28-29 | enough pages give back the whole log |
| `Retention.AuditStore.Add` | src/gpuopt/audit.py:23-26 | the entries are always the last max_entries of everything added |
| `MigrationLaws.MigrateSound` | scripts/migrate.py:73-126 | a run keeps the ledger free of duplicates and the schema equal to its replay, never drops ledger entries, and exits 0 only if every file is ledgered |
| `MigrationLaws.SeriesSound` | scripts/migrate.py:73-126 | the invariant holds after any series of failing and restarted runs |
| `MigrationLaws.RestartEquivalence` | scripts/migrate.py:98-126 | after any disturbed runs an undisturbed run ends with the same database and exit code as a single undisturbed run |
| `MigrationLaws.Resume` | scripts/migrate.py:107-126 | applying the rest after an interruption is applying everything at once |
| `MigrationOutcomes.ApplyExactly` | scripts/migrate.py:107-126 | the loop in closed form: which files are ledgered and how the run ends, from the number of answered calls and the first file that cannot be applied |
| `MigrationOutcomes.UndisturbedExit` | scripts/migrate.py:73-126 | an undisturbed run exits 0 iff all its pending files can be applied in order, and then has ledgered them all; otherwise it exits 1 with exactly the files before the first that cannot |
| `MigrationOutcomes.SetupIs` | scripts/migrate.py:79-104 | when the ledger table exists after a run, and that a call that raises before the first file changes nothing else |
| `MigrationRunner.SqlMigrate` | scripts/migrate.py:59-128 | the connection-level run computes the run function |
| `MigrationRunner.ApplyFile` | scripts/migrate.py:107-124 | one file's transaction: execute, insert, commit, with every place a call can raise |
| `TwinLaws.LastActionWins` | src/gpuopt/digital_twin.py:129-140 | each mapped node ends with the value of the last matching action; every other node is unchanged |
| `TwinLaws.ApplyIdempotent` | src/gpuopt/digital_twin.py:115-148 | applying a recommendation twice is applying it once |
| `TwinLaws.ApplyConserves` | src/gpuopt/digital_twin.py:115-148 | nodes, GPUs, memory sizes and counts are preserved, and so is 0 <= used <= total |
| `TwinLaws.ResetIsFreshSync` | src/gpuopt/digital_twin.py:150-151 | after any applications, refused ones included, a reset is a fresh synchronisation |
| `TwinMeaning.ActionEffect` | src/gpuopt/digital_twin.py:130-140 | an action that names a node sets its used bytes to zero if it says "consolidate" in any case of letters, else to three fifths of the memory if it says "resize", and otherwise leaves them |
| `TwinMeaning.ContainsIff` | src/gpuopt/digital_twin.py:133-137 | a text contains a part iff the part stands at some position |
| `TwinMeaning.MappedIsLast` | src/gpuopt/digital_twin.py:128 | of the nodes of one name the last one is mapped |
| `TwinMeaning.FindIs` | src/gpuopt/digital_twin.py:122 | the first recommendation with the id is found, if there is one |
| `TwinMeaning.SyncIff` | src/gpuopt/digital_twin.py:27-44 | a synchronisation succeeds iff cluster and state are there, and makes an undiverged twin of the state |
| `TwinMeaning.ApplyIff` | src/gpuopt/digital_twin.py:115-148 | when an application succeeds, which error comes first otherwise, and what the twin says afterwards |
| `TwinService.DigitalTwinService.ApplyRecommendation` | src/gpuopt/digital_twin.py:115-148 | result and store after the nested loops, with every error case |
| `TwinService.DigitalTwinService.ApplyAll` | src/gpuopt/digital_twin.py:130-140 | the loop over actions and mapped nodes |
| `TwinService.DigitalTwinService.SyncTwin` | src/gpuopt/digital_twin.py:27-44 | result and store after a synchronisation |
| `TwinService.DigitalTwinService.ResetTwin` | src/gpuopt/digital_twin.py:150-151 | a reset is a synchronisation |
| `ShadowLaws.PromoteIff` | src/gpuopt/explanation_service.py:134-198 | promotion succeeds iff the latest terminal call was a completion in whose metrics no baseline metric regressed, and returns the difference of that completion |
| `ShadowLaws.RunAgrees` | src/gpuopt/explanation_service.py:134-187 | in every run a shadow's status, metrics, outcome, confidence and difference are those of its latest ending, or waiting or running before the first one, over the baseline it was created with |
| `ShadowLaws.DeltaIs` | src/gpuopt/explanation_service.py:172-175 | baseline plus difference is what was measured, and zero where nothing was |
| `ShadowLaws.FailureIsNotFinal` | src/gpuopt/explanation_service.py:161-198 | a failed shadow can be completed and promoted |
| `ExpirySpec.ExtensionsBounded` | src/gpuopt/explanation_service.py:79-132 | the extension counter is exact and never passes three, and the stored deadline is the latest one granted |
| `ExpirySpec.ExtendIff` | src/gpuopt/explanation_service.py:124-132 | an extension is granted iff the recommendation is known and has had fewer than three since its latest explanation |
| `ExpirySpec.ExpiredIff` | src/gpuopt/explanation_service.py:113-132 | expired iff known and strictly past the latest deadline; a check marks it so, an explanation or extension clears the mark |
| `ExpirySpec.DefaultDeadline` | src/gpuopt/explanation_service.py:79-102 | an explanation lasts 720 hours unless it says otherwise |
| `ShadowService.ExplanationService.CreateShadow` | src/gpuopt/explanation_service.py:134-150 | a new waiting shadow under a fresh id |
| `ShadowService.ExplanationService.StartShadow` | src/gpuopt/explanation_service.py:152-159 | only a waiting shadow starts |
| `ShadowService.ExplanationService.FailShadow` | src/gpuopt/explanation_service.py:179-187 | the record after a failure |
| `ShadowService.ExplanationService.CompleteShadow` | src/gpuopt/explanation_service.py:161-177 | the record after a completion |
| `ShadowService.ExplanationService.PromoteShadow` | src/gpuopt/explanation_service.py:189-198 | the verdict, without changing anything |
| `ShadowService.ExplanationService.GenerateExplanation` | src/gpuopt/explanation_service.py:79-102 | an explanation restarts the deadline and the extension count |
| `ShadowService.ExplanationService.CheckExpiry` | src/gpuopt/explanation_service.py:113-122 | expired iff known and past the deadline, and marked so |
| `ShadowService.ExplanationService.ExtendExpiry` | src/gpuopt/explanation_service.py:124-132 | the record after an extension, refused after three |
| `CostLaws.GpusConserved` | src/gpuopt/cost_analysis.py:43-101 | active plus idle GPUs are all GPUs are the sum of the node counts |
| `CostLaws.WasteIff` | src/gpuopt/cost_analysis.py:54-101 | the unrounded waste is at least hourly cost times one minus mean utilisation, with equality iff no GPU uses more memory than it has |
| `CostMeaning.OneGpu` | src/gpuopt/cost_analysis.py:57-88 | one GPU's part of the totals, from its memory sizes alone |
| `CostMeaning.NodesAddUp` | src/gpuopt/cost_analysis.py:43-95 | the totals over nodes are the sums of the totals of their GPUs |
| `CostMeaning.ReportIs` | src/gpuopt/cost_analysis.py:97-125 | active are exactly the GPUs with more than a tenth of their memory used; 0.85 an hour, 730 hours a month, amounts to the nearest cent, efficiency to the nearest tenth |
| `CostMeaning.RoundIsNearest` | src/gpuopt/cost_analysis.py:97-125 | rounding takes the nearest whole number, the even one of two |
| `CostSpec.NodeTotals` | src/gpuopt/cost_analysis.py:50-82 | the inner loop's totals of one node |
| `CostSpec.SumNodes` | src/gpuopt/cost_analysis.py:43-95 | the outer loop's totals over all nodes and by node |
| `CostSpec.GenerateCostReport` | src/gpuopt/cost_analysis.py:43-125 | the nested loops compute the totals over all GPUs, the totals by node and the rounded report |
| `CostSpec.GetCostAllocation` | src/gpuopt/finops.py:432-467 | tallying, charging and sorting by environment |
| `CostLaws.SharesByTag` | src/gpuopt/finops.py:437-442 | the tags are distinct, they are exactly the nodes' tags, and each stands for exactly the GPUs of the nodes that carry it |
| `CostMeaning.TagIs` | src/gpuopt/finops.py:444 | a node's tag is its environment label, or the default without one |
| `CostMeaning.TagOrder` | src/gpuopt/finops.py:442-447 | the tags come in the order in which the nodes first show them |
| `CostMeaning.AllocationIs` | src/gpuopt/finops.py:457-466 | a tag's percentage is its part of the GPUs to a tenth, its cost that percentage of the total to the cent |
| `CostLaws.SharesConserved` | src/gpuopt/finops.py:437-442 | the tags' GPU counts add up to the report's total |
| `CostLaws.AllocationConserves` | src/gpuopt/finops.py:432-467 | allocating C over k tags changes the total by at most k (0.0005 C + 0.005) once there is a GPU |
| `CostLaws.SortKeeps` | src/gpuopt/finops.py:467 | the result is in descending order and has the same entries |
| `CostMeaning.SortStable` | src/gpuopt/finops.py:467 | entries of the same cost keep their order |

## Left out

- Multi-group autoscaling: the code passes the whole-cluster total as one group's target, so the run claims are for one group holding all GPU nodes.
- Oscillation through three or more sizes, which unequal steps with crossing thresholds allow: the exact condition is
  for two sizes, and `CleanRunSizes` gives the sizes of every run.
- Mock mode of the autoscaler, `annotate_node_group` and the polling threads: random numbers, no state of interest, and loops whose body is modelled as one step.
- Node capacity: created nodes carry none in the source; the capacity they report once they have joined is an input.
- A second boundary inside one creation loop: all nodes of a loop carry the same second in their names.
- Node names as text: a created node's name is kept as group, second and index, so formatted names that collide with hand-made ones are not modelled.
- Memory figure and routing weight of a placement: the code sums the first GPUs instead of the chosen ones; only the case in which that sum raises is kept.
- `ReplicaRightSizer`, `RoutingRecommender`, `MoEOptimizer`: single formulas.
- Non-ASCII letters and digits in exporter text, and rounding or overflow of parsed floats.
- Escaped quotes, `}` and line breaks inside label values: outside the subset the patterns accept.
- `DcgmText.FindPrintedLabels`: separators are texts without word characters; other text between labels is not covered.
- Lower-casing of metric names into index keys, sample timestamps and the sorted lists in the discovery result.
- Policies (`PolicyEngine`) and `ChaosEngine`: a case table and random draws.
- The CANCELLED approval status: no operation of the workflow writes it.
- The order in which equal creation times are listed: the gate is proved for every order of the rows.
- Agent attributes other than status and last contact, event texts and timestamps, mTLS contexts.
- The SQLite branch of the migration runner, which is not atomic, and migrations that commit by themselves.
- A rollback that itself raises, and a migration file that cannot be read: both end the run with the same database.
- `compare_twin` and drift detection, twin ids and synchronisation times, JSON encoding of the state.
- Aliasing of metric dictionaries between callers and shadow records.
- `project_savings`, `get_cost_summary`, forecasts and price tables: straight-line arithmetic or static data.
- The services' objects `sorted`, `round`, `re`, `int` and `float` are modelled by functions, not by their implementation.
