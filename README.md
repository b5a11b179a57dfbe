# CLUE2 core in Dafny

CLUE2 deploys a system under test (SUT) to a Kubernetes cluster in several
variants, drives it with Locust workloads and collects the results. This
project models the self-contained logic underneath that plumbing and proves
what it does:

- the deployer's queues: `SharedExperimentQueue`, `ExperimentQueue` and the
  queue router's handlers; the CSV-draining `FlushingQueue` (and its twin in
  the stand-alone `experiment.py`); the tracker's `FixedQueue`;
- the Go load generator's `RequestCounter` and its double-signal rule;
- the Consumer Behaviour Model Graph of the load generator, its task lists
  and its clamps;
- the ramp-up and daily load shapes, with time in seconds as exact real
  numbers and the stage shares as exact rationals;
- the resource tracker's usage records, metric extraction, pod index and
  merging;
- the log endpoints' stream step and the web UI's log panel;
- the deployment guard, the result ids, the results listing and the
  deletion clean-up of the service;
- helm replacements and their conditions, the two `HelmWrapper`s, the
  `HelmClient` command lines and values patcher, and the kubeconfig
  localhost patch in its three copies;
- the three `SUTConfig` classes, the two `EnvConfig`s and `ResultFiles`;
- experiments and variants: selection by name, the workload cross product,
  sorting, naming, tags, copies and their shared environments, and the
  workload settings tables of three generations;
- the web UI's state handlers: the deployment form, the time estimates, the
  experiment, controls, dashboard, results, settings and add-SUT pages, and
  the comparison panels.

One module per source file, in a file of the same name; shared helpers are
`Wrappers` (Option and Result), `Text` (Python and JavaScript string
operations), `Seqs`, `PyDict` (insertion-ordered dictionaries), `Json`,
`Paths`, `Copies` and `Sorting`. Classes whose fields the source changes in
place are Dafny classes with `modifies` frames; pure code is functions and
lemmas. Exceptions and HTTP errors are `Result` values; I/O, subprocesses,
clocks, randomness and requests are parameters of the members that use them.

## Model

| member | source | states |
|---|---|---|
| DeployRequests.NewDeployRequest | clue_deployer/src/models/deploy_request.py:4-8 | a request built from a name and a SUT has one iteration and is not deploy-only, as the declared defaults say |
| Environments.EnvDict | clue_deployer/src/experiment.py:86-91 | the loop copying the environment's attributes keeps every key in order and turns exactly the path values into strings |
| Environments.BaseDescriptionEntries | clue_deployer/src/experiment.py:77-83 | the description is a dictionary whose executor is "colocated" or "local" by the flag and whose scaling entry is "None" without a setting and parses back to an enum member |
| Environments.Describe | clue_deployer/src/experiment.py:76-94 | `description \| env_dict`: the description's keys stay first and in order, every environment attribute wins, the description supplies the rest |
| ExperimentLists.SelectAll | clue_deployer/src/experiment_list.py:34-36 | the name "all" keeps every configured experiment, in configuration order |
| ExperimentLists.SelectByName | clue_deployer/src/experiment_list.py:34-36 | any other name keeps exactly the configured entries with that name |
| ExperimentLists.FromConfig | clue_deployer/src/experiment_list.py:25-33 | an experiment built from a configuration entry has its name and branch, the environment given, and the CPU-bound member of the `StrEnum` ("cpu") |
| ExperimentLists.LoadExperiments | clue_deployer/src/experiment_list.py:15-38 | one experiment per selected entry, in order, each over a fresh environment that the autoscaled constructor tagged "scale"; no two share an environment |
| ExperimentLists.ExperimentList.AddWorkloads | clue_deployer/src/experiment_list.py:53-64 | as written: the list becomes the experiments once per workload and every environment ends up set by the last workload |
| ExperimentLists.SharedRounds | clue_deployer/src/experiment_list.py:61-63 | the outer loop as written: the same experiments and environments each round, the environments settled by the last workload |
| ExperimentLists.SetWorkloadRound | clue_deployer/src/experiment_list.py:62-63 | one round as written: each copy equals its experiment, and every environment is set to the round's workload |
| ExperimentLists.SetWorkloadCopy | clue_deployer/src/experiment_list.py:53-57 | `_set_workload` as written: the copy is the experiment over the same environment, which gains "scale" (re-running the constructor) and the workload's tags and settings |
| ExperimentLists.CopiesShareEnvironments | clue_deployer/src/experiment_list.py:53-64 | with one experiment and two workloads the result lists one environment object twice |
| ExperimentLists.ExperimentList.AddWorkloadsIsolated | clue_deployer/src/experiment_list.py:59-64 | corrected: entry k copies the k-th experiment of the experiments-once-per-workload list, over its own fresh environment set up from the matching workload |
| ExperimentLists.IsolatedCopies | clue_deployer/src/experiment_list.py:62-63 | one corrected round: copies in order, each over a fresh, distinct environment set up for the workload |
| ExperimentLists.AppendRound | clue_deployer/src/experiment_list.py:61-63 | a corrected round appended to the earlier entries keeps them and keeps all environments distinct |
| ExperimentLists.CopyEnvironment | clue_deployer/src/experiment_list.py:55 | a fresh environment with the same tags, settings, timeout and attributes |
| ExperimentLists.ExperimentList.Sort | clue_deployer/src/experiment_list.py:66-70 | the experiments end sorted by the key "<branch>_<name>", are a permutation of the old ones, and those with equal keys keep their order (as `add_workloads` left it) |
| ExperimentQueues.ExperimentQueue.LastExperiment | clue_deployer/src/service/experiment_queue.py:13-17 | the last dequeued request, and ValueError exactly when nothing has been dequeued yet |
| ExperimentQueues.ExperimentQueue.Enqueue | clue_deployer/src/service/experiment_queue.py:24-27 | the request joins the back and the unfinished count grows by one |
| ExperimentQueues.ExperimentQueue.Dequeue | clue_deployer/src/service/experiment_queue.py:29-32 | the front request is removed and returned and becomes the last experiment |
| ExperimentQueues.ExperimentQueue.GetItemAtIndex | clue_deployer/src/service/experiment_queue.py:34-36 | Python indexing: an index in `-n..n-1` gives that item (negative from the back), any other is an IndexError |
| ExperimentQueues.ExperimentQueue.RemoveItemAtIndex | clue_deployer/src/service/experiment_queue.py:38-44 | a valid index removes and returns exactly that item and lowers the unfinished count; an invalid one is an IndexError that changes nothing |
| ExperimentQueues.ExperimentQueue.IsEmpty | clue_deployer/src/service/experiment_queue.py:46-47 | empty exactly when no request is queued |
| ExperimentQueues.ExperimentQueue.Size | clue_deployer/src/service/experiment_queue.py:49-50 | the number of queued requests |
| ExperimentQueues.ExperimentQueue.Flush | clue_deployer/src/service/experiment_queue.py:52-56 | the queue is emptied and the unfinished count reset to 0; the last experiment stays |
| ExperimentQueues.ExperimentQueue.GetAll | clue_deployer/src/service/experiment_queue.py:61-62 | a copy holding, at every index, the item that index gives |
| ExperimentScript.ExperimentName | experiment.py:90-94 | `__str__`: the name, branch and setting joined by "_", with no '/' left and every other character kept |
| ExperimentScript.NameWithoutSlashes | experiment.py:90-94 | a name without '/' is left exactly as joined |
| ExperimentScript.Experiment.CreateJson | experiment.py:96-108 | the seven description keys lead in order, every key of `env` wins, the description supplies the rest |
| ExperimentScript.WorkloadLabel | experiment.py:100-104 | unless `env` overrides them, "workload" is "colocated" or "local" by the flag and "scaling" parses back to the setting |
| ExperimentWorkloads.ParseWorkloadType | clue_deployer/src/experiment_workloads.py:9-13 | a parsed workload type has exactly the string given as its value |
| ExperimentWorkloads.ParseValue | clue_deployer/src/experiment_workloads.py:9-13 | every workload type's value parses back to that type |
| ExperimentWorkloads.GetWorkloadInstance | clue_deployer/src/experiment_workloads.py:15-33 | the instance for a type has that type and the default duration 64 and 100 daily users |
| ExperimentWorkloads.SettingsWellFormed | clue_deployer/src/experiment_workloads.py:61-119 | every workload's settings dictionary has distinct keys |
| ExperimentWorkloads.ShapedSettings | clue_deployer/src/experiment_workloads.py:65-70 | the shaped workload's stage duration is the duration floor-divided by 8 |
| ExperimentWorkloads.RampupSettings | clue_deployer/src/experiment_workloads.py:79-85 | the ramping workload runs for "<duration>s" at spawn rate 3 with the daily-user count as users |
| ExperimentWorkloads.PausingSettings | clue_deployer/src/experiment_workloads.py:93-100 | the pausing workload has 10 users and a pause back-off of 120 |
| ExperimentWorkloads.FixedSettings | clue_deployer/src/experiment_workloads.py:111-117 | the fixed workload stops after 200 requests |
| ExperimentWorkloads.SetWorkload | clue_deployer/src/experiment_workloads.py:65-119 | the environment takes the workload's settings, gains its type as a tag and a timeout of duration + 60; nothing else changes |
| Experiments.Experiment.ToRow | clue_deployer/src/experiment.py:69-74 | one cell per header: name, branch, namespace, the setting's text or null, and the environment's tags |
| Experiments.Experiment.CreateJson | clue_deployer/src/experiment.py:76-94 | the experiment's description united with its environment's attributes, paths as strings |
| Experiments.NewExperiment | src/clue_deployer/experiment.py:10-41 | the experiment holds its arguments, and an autoscaled one appends "scale" to its environment's tags; nothing else in the environment changes |
| Experiments.DeepCopy | clue_deployer/src/experiment.py:52-67 | the copy equals the original, shares its environment, and re-running the constructor appends "scale" again when autoscaled |
| Exv2Workloads.RunTimeText | exv2/experiment_workloads.py:4-30 | the run time written is "160s" |
| Exv2Workloads.ShapedStage | exv2/experiment_workloads.py:16 | the shaped stage duration is 160 // 8 = 20 |
| Exv2Workloads.RampupConstants | exv2/experiment_workloads.py:28-33 | the ramping workload runs "160s" at spawn rate 3 with 1000 users |
| Exv2Workloads.PausingUsers | exv2/experiment_workloads.py:46 | the pausing workload has 20 users |
| Exv2Workloads.FixedRequests | exv2/experiment_workloads.py:61 | the fixed workload stops after 1000 requests |
| Exv2Workloads.SetWorkload | exv2/experiment_workloads.py:9-64 | the environment takes the workload's settings, gains its type as a tag and the timeout 160 + 60 = 220; nothing else changes |
| FlushingQueues.ItemsOfRows | clue_deployer/flushing_queue.py:24-26 | the rows written for some items read back as exactly those items |
| FlushingQueues.NothingLost | clue_deployer/flushing_queue.py:24-28 | during a flush, what is written plus what is still queued is everything that was put |
| FlushingQueues.FlushingQueue.Put | clue_deployer/flushing_queue.py:13-16 | the item is recorded as put; below the buffer size it just joins the queue and nothing is written; at the buffer size the header (for a new file) and the oldest `buffer_size` items are written as rows first, and the item joins the rest; written rows plus queue stay everything put |
| FlushingQueues.FlushingQueue.Flush | clue_deployer/flushing_queue.py:18-28 | the header is written once if the file was missing, then the first min(buffer size, queue length) items become rows in order and leave the queue |
| FlushingQueues.FlushingQueue.QueuePut | clue_deployer/flushing_queue.py:16 | `Queue.put` below capacity appends the item |
| ModelWorkloads.GetWorkloadInstanceAsWritten | clue_deployer/src/models/workloads.py:14-70 | as written: an instance is made only when its class defines `set_workload`, otherwise TypeError |
| ModelWorkloads.AsWrittenAlwaysFails | clue_deployer/src/models/workloads.py:64-131 | no subclass defines `set_workload`, so every workload type raises TypeError, whatever the duration and users |
| ModelWorkloads.GetWorkloadInstance | clue_deployer/src/models/workloads.py:14-131 | corrected: named by the type's value (which parses back to the type), timeout = duration + 60, the given duration and users, a well-formed settings table |
| QueueRouter.EnqueueExperiment | clue_deployer/src/service/routers/queue.py:15-29 | an empty list is a 400 that queues nothing; otherwise every request is queued in order and the reply counts them |
| QueueRouter.GetQueueStatus | clue_deployer/src/service/routers/queue.py:92-99 | the reply carries the queue's contents and a size equal to their number |
| QueueRouter.DeleteQueueItemAsWritten | clue_deployer/src/service/routers/queue.py:101-112 | as written: the queue has no `remove`, so every call is a 500 and the queue is unchanged |
| QueueRouter.DeleteAsWrittenNeverRemoves | clue_deployer/src/service/routers/queue.py:105 | deleting index "0" of a one-item queue fails with 500 and keeps the item, where removal would empty it |
| QueueRouter.DeleteQueueItem | clue_deployer/src/service/routers/queue.py:101-112 | corrected: an index in range (negative from the back) removes exactly that item with 204; any other is a 404 that changes nothing |
| QueueRouter.FlushQueue | clue_deployer/src/service/routers/queue.py:85-90 | the queue is emptied and the reply is 204 |
| RequestCounters.RequestCounter.Increment | loadgenerator/main.go:20-26 | both the per-second count and the total grow by one |
| RequestCounters.RequestCounter.FullReset | loadgenerator/main.go:28-34 | both counters become 0 |
| RequestCounters.RequestCounter.Reset | loadgenerator/main.go:36-43 | returns the count, which never exceeds the total, and zeroes it; the total stays |
| RequestCounters.SignalHandler.OnSignal | loadgenerator/main.go:50-62 | a second signal within 2 seconds exits and changes nothing; otherwise both counters reset and the time is recorded |
| ScalingSettings.ScalingExperimentSetting.Value | exv2/scaling_experiment_setting.py:4-7 | every setting's value is one of 1, 2, 3 |
| ScalingSettings.ScalingExperimentSetting.ToString | exv2/scaling_experiment_setting.py:9-17 | each setting prints as a name of at least three characters ("mem", "cpu", "full") |
| ScalingSettings.FromValue | exv2/scaling_experiment_setting.py:4-7 | a setting exists for exactly the values 1 to 3, and it has that value |
| ScalingSettings.Parse | exv2/scaling_experiment_setting.py:9-17 | a name parses only to the setting that prints as it |
| ScalingSettings.NameRoundTrip | exv2/scaling_experiment_setting.py:9-17 | parsing a setting's printed name gives the setting back: the names are distinct |
| ScalingSettings.ValueRoundTrip | exv2/scaling_experiment_setting.py:4-7 | looking up a setting's value gives the setting back |
| ScalingSettings.OptionalToString | experiment.py:104 | `str` of an optional setting: "None" exactly when there is no setting, and otherwise a name that parses back to it |
| ScalingSettings.AutoscalingText | clue_deployer/src/models/variant.py:66 | `str` of the deployer's attribute: "None", which names no setting, when unset; a member of the `StrEnum` prints as a name that parses back to it |
| SharedQueue.SharedExperimentQueue.Enqueue | clue_deployer/src/service/shared_experiment_queue.py:13-18 | anything but a request is a TypeError that leaves the queue; a request is appended at the back |
| SharedQueue.SharedExperimentQueue.Dequeue | clue_deployer/src/service/shared_experiment_queue.py:20-26 | an empty queue is a ValueError; otherwise the front item is removed, returned and remembered as the last request |
| SharedQueue.SharedExperimentQueue.DequeueBlocking | clue_deployer/src/service/shared_experiment_queue.py:28-32 | once an item is there, the front one is removed, returned and remembered |
| SharedQueue.SharedExperimentQueue.GetAll | clue_deployer/src/service/shared_experiment_queue.py:34-36 | a list holding the items in queue order, as many as the size |
| SharedQueue.SharedExperimentQueue.Size | clue_deployer/src/service/shared_experiment_queue.py:38-40 | the number of queued items |
| SharedQueue.SharedExperimentQueue.IsEmpty | clue_deployer/src/service/shared_experiment_queue.py:42-44 | true exactly when the size is 0 |
| SharedQueue.SharedExperimentQueue.RemoveItemAtIndex | clue_deployer/src/service/shared_experiment_queue.py:46-50 | an index outside the queue is an IndexError that changes nothing; otherwise exactly that item is removed and returned |
| SharedQueue.SharedExperimentQueue.Flush | clue_deployer/src/service/shared_experiment_queue.py:52-55 | the queue is emptied and no last request is remembered |
| Sorting.LeTotal | clue_deployer/src/experiment_list.py:70 | Python's string order compares any two strings |
| Sorting.LeTransitive | clue_deployer/src/experiment_list.py:70 | Python's string order is transitive |
| Sorting.InsertPosition | clue_deployer/src/experiment_list.py:70 | in a sorted list, the new element's place follows every key not above its own and precedes every greater key, which keeps the sort stable |
| Sorting.SortByKey | clue_deployer/src/experiment_list.py:70 | `list.sort(key=...)`: the result is ordered by key, is a permutation of the input, and is stable: for every key, the elements with that key appear in their input order |
| Sorting.InsertSorted | clue_deployer/src/experiment_list.py:70 | one insertion keeps the list ordered, adds exactly the new element, and puts it last among the elements with its key |
| Sorting.InsertKeepsKeyOrder | clue_deployer/src/experiment_list.py:70 | inserting after every element whose key is not greater appends the new element to those with its key and leaves the others' order alone |
| Sorting.WithKeyConcat | clue_deployer/src/experiment_list.py:70 | the elements with one key of a concatenation are those of each part, in order |
| Sorting.LeReflexive | clue_deployer/src/experiment_list.py:70 | Python's string order is reflexive |
| Variants.Variant.DeepCopy | clue_deployer/src/models/variant.py:43-58 | the copy equals the variant, down to the same environment object, so it prints the same |
| Variants.Variant.CreateJson | clue_deployer/src/models/variant.py:60-78 | the description (name, branch, namespace, executor, scaling) merged with the environment's attributes, paths turned into strings, the attributes winning |
| VariantsLists.StrippedNamesMembership | clue_deployer/src/variants_list.py:26 | a name is in the parsed selector exactly when it is non-empty and some comma-separated piece strips to it |
| VariantsLists.StrippedNamesOfTrimmed | clue_deployer/src/variants_list.py:26 | names that are non-empty and already stripped come back unchanged and in order |
| VariantsLists.SelectedMembership | clue_deployer/src/variants_list.py:28-41 | a configured variant is kept exactly when the selector is "all" or lists its name |
| VariantsLists.SelectedStep | clue_deployer/src/variants_list.py:40-41 | one more configuration entry scanned adds that entry to the selection exactly when it is wanted |
| VariantsLists.SelectAll | clue_deployer/src/variants_list.py:23-24 | "all" keeps every configured variant, in order |
| VariantsLists.NamedVariantSelected | clue_deployer/src/variants_list.py:26-40 | a name listed with blanks around it, among others, selects its variant |
| VariantsLists.FromConfig | clue_deployer/src/variants_list.py:30-38 | a variant built from an entry has the entry's name, branch, critical services and executor flag, the configuration's namespace, `max_autoscale` 3, the environment given, and the entry's autoscaling text unparsed |
| VariantsLists.DistinctConcat | clue_deployer/src/variants_list.py:64-69 | two lists over distinct environments, sharing none, join into one over distinct environments |
| VariantsLists.LoadVariants | clue_deployer/src/variants_list.py:15-43 | one variant per selected entry, in configuration order, each over a fresh environment of its own; no two share one |
| VariantsLists.LoadNamed | clue_deployer/src/variants_list.py:28-43 | the loop once the selector is parsed: the same per-entry result for any parsed name list |
| VariantsLists.NewVariant | clue_deployer/src/variants_list.py:30-38 | a fresh environment loaded from the configuration under the variant built from the entry |
| VariantsLists.VariantsList.AddWorkloads | clue_deployer/src/variants_list.py:58-69 | as written: the list becomes the variants once per workload and every environment ends up set by the last workload |
| VariantsLists.SharedRounds | clue_deployer/src/variants_list.py:66-68 | the outer loop as written: the same variants and environments each round, the environments settled by the last workload |
| VariantsLists.SetWorkloadRound | clue_deployer/src/variants_list.py:67-68 | one round as written: each copy is its variant, and every environment is set to the round's workload |
| VariantsLists.SetWorkloadCopy | clue_deployer/src/variants_list.py:58-62 | `_set_workload` as written: the copy is the variant over the same environment, which the workload sets up and tags with its type |
| VariantsLists.CopiesShareEnvironments | clue_deployer/src/variants_list.py:58-69 | with one variant and two workloads the result lists one environment object twice |
| VariantsLists.VariantsList.AddWorkloadsIsolated | clue_deployer/src/variants_list.py:64-69 | corrected: entry k copies the k-th variant of the variants-once-per-workload list, over its own fresh environment set up from the matching workload |
| VariantsLists.IsolatedCopies | clue_deployer/src/variants_list.py:67-68 | one corrected round: copies in order, each over a fresh, distinct environment set up for the workload |
| VariantsLists.AppendRound | clue_deployer/src/variants_list.py:66-68 | a corrected round appended to the earlier entries keeps them and keeps all environments distinct |
| VariantsLists.CopyEnvironment | clue_deployer/src/variants_list.py:60 | a fresh environment with the same tags, settings, timeout and attributes |
| VariantsLists.VariantsList.Sort | clue_deployer/src/variants_list.py:71-75 | the variants end sorted by the key "<branch>_<name>", are a permutation of the old ones, and those with equal keys keep their order |
| Cbmg.EndpointFor | loadgenerator/consumerbehavior.py:131-137 | the static-site endpoint exactly for the names "SSG", "StaticSiteGeneration" and "StaticSiteGenerator"; "Vanilla" and any unknown name end up on the vanilla endpoint |
| Cbmg.Node.GetOutgoingSum | loadgenerator/consumerbehavior.py:41-45 | the sum of the weights of the node's outgoing edges |
| Cbmg.WeightSumSnoc | loadgenerator/consumerbehavior.py:41-45 | a new edge adds its weight to the sum |
| Cbmg.FirstNamed | loadgenerator/consumerbehavior.py:68-71 | a node found has that name and is in the graph; none is found exactly when no node has the name |
| Cbmg.FirstNamedFindsNode | loadgenerator/consumerbehavior.py:68-71 | with unique names, looking a node up by its own name finds it |
| Cbmg.Update | loadgenerator/consumerbehavior.py:109 | `dict.update` of one key adds at most one entry |
| Cbmg.UpdateLookup | loadgenerator/consumerbehavior.py:109 | after the update the key maps to the new weight and every other key to what it mapped to before |
| Cbmg.UpdateUnique | loadgenerator/consumerbehavior.py:109 | the update keeps every key once |
| Cbmg.UpdateKey | loadgenerator/consumerbehavior.py:109 | every key after the update is the new one or an old one |
| Cbmg.UpdateHasEntry | loadgenerator/consumerbehavior.py:109 | the updated key and weight are an entry afterwards |
| Cbmg.UpdateNewKey | loadgenerator/consumerbehavior.py:109 | a key not yet present goes at the back |
| Cbmg.LookupSnoc | loadgenerator/consumerbehavior.py:107-111 | with unique keys, the last entry decides its own key's lookup and leaves the others to the entries before it |
| Cbmg.LookupAbsent | loadgenerator/consumerbehavior.py:107-111 | a node that is not a key is not found |
| Cbmg.WeightsLookup | loadgenerator/consumerbehavior.py:107-111 | the task list maps each successor to the weight of the last edge to it and has no other keys |
| Cbmg.WeightsUnique | loadgenerator/consumerbehavior.py:107-111 | the task list has each successor once |
| Cbmg.WeightsKeysLead | loadgenerator/consumerbehavior.py:107-111 | every key of the task list is the target of an outgoing edge |
| Cbmg.LastWeightAbsent | loadgenerator/consumerbehavior.py:107-111 | a node no edge leads to has no weight |
| Cbmg.ExpandFromKeys | loadgenerator/consumerbehavior.py:113-117 | every task of the unpacked list is a key of the dictionary |
| Cbmg.ExpandHasPositiveKey | loadgenerator/consumerbehavior.py:113-117 | a key with a positive weight appears in the unpacked list |
| Cbmg.ExpandCounts | loadgenerator/consumerbehavior.py:113-117 | a task occurs in the unpacked list once per unit of weight, summed over its entries |
| Cbmg.RunCount | loadgenerator/consumerbehavior.py:116 | `[key] * value` holds the key `value` times and nothing else |
| Cbmg.OccurrencesLookup | loadgenerator/consumerbehavior.py:113-117 | with unique keys, a key occurs as often as its (non-negative) weight says |
| Cbmg.TaskFrequency | loadgenerator/consumerbehavior.py:103-192 | `choice` over the task list picks a successor with a frequency equal to the weight of the last edge to it |
| Cbmg.TasklistLength | loadgenerator/consumerbehavior.py:41-117 | with positive weights and distinct targets the task list is exactly `get_outgoing_sum` long |
| Cbmg.Unpack | loadgenerator/consumerbehavior.py:113-117 | the loop yields each key repeated by its weight, in dictionary order |
| Cbmg.CbmgState.AddNode | loadgenerator/consumerbehavior.py:60-66 | a fresh node named after its task, without edges, is added and returned; nothing else changes |
| Cbmg.CbmgState.GetNode | loadgenerator/consumerbehavior.py:68-71 | the first node with that name, or none |
| Cbmg.CbmgState.AddEdge | loadgenerator/consumerbehavior.py:76-84 | the new edge is recorded in the graph and among the start node's outgoing edges, and returned |
| Cbmg.CbmgState.SetStartState | loadgenerator/consumerbehavior.py:86-90 | only a walk without a current node can be started; a second start is a RuntimeError that changes nothing |
| Cbmg.CbmgState.MoveToState | loadgenerator/consumerbehavior.py:92-101 | no current node is a RuntimeError; the walk moves exactly when an outgoing edge leads to the target, else a ValueError that stays put |
| Cbmg.CbmgState.GenerateTasklist | loadgenerator/consumerbehavior.py:103-111 | no current node is a RuntimeError; otherwise the task list of the current node's edges |
| Cbmg.NonEmptyTasklist | loadgenerator/consumerbehavior.py:107-117 | a node with edges of positive weight has a non-empty task list |
| Cbmg.TaskIsSuccessor | loadgenerator/consumerbehavior.py:107-117 | every task in a node's list belongs to one of its successors |
| Cbmg.EdgesFrom | loadgenerator/consumerbehavior.py:160-178 | one edge per target, from the start node, with the target's weight, in order |
| Cbmg.Connect | loadgenerator/consumerbehavior.py:160-178 | the node ends with exactly the edges to its targets and every other node keeps its own |
| Cbmg.AddPages | loadgenerator/consumerbehavior.py:142-158 | six fresh pages, Entry to Exit in order, uniquely named, without edges |
| Cbmg.AddEdges | loadgenerator/consumerbehavior.py:160-178 | fourteen edges, after which every page has a non-empty list of positive edges within the graph, and Entry's only edge leads to Browse |
| Cbmg.AddEntryBrowseCartEdges | loadgenerator/consumerbehavior.py:160-169 | the eight edges out of Entry, Browse and AddToCart |
| Cbmg.AddSelectPayExitEdges | loadgenerator/consumerbehavior.py:171-178 | the six edges out of Select, Pay and Exit |
| Cbmg.BuildGraph | loadgenerator/consumerbehavior.py:140-178 | a fresh graph of six uniquely named pages and fourteen edges, each page with positive edges, and no walk started |
| Cbmg.EntryTasklist | loadgenerator/consumerbehavior.py:160-188 | Entry's task list is Browse alone |
| Cbmg.Consumer.OnStart | loadgenerator/consumerbehavior.py:125-188 | the graph is built, the walk starts at Entry and the task list is Entry's |
| Cbmg.Consumer.TaskListNonEmpty | loadgenerator/consumerbehavior.py:192 | `choice` always has a task to pick from |
| Cbmg.Consumer.ExecuteTask | loadgenerator/consumerbehavior.py:191-192 | the picked task moves the walk to its node, which is a successor, so no error arises and the consumer stays well-formed |
| Cbmg.Consumer.MoveToState | loadgenerator/consumerbehavior.py:119-123 | the walk moves exactly along an outgoing edge and the task list is rebuilt from the new node; an error leaves both |
| Cbmg.CheckProductId | loadgenerator/consumerbehavior.py:239-251 | an id in [8, 506] is kept; one outside is clamped to the nearer bound, or refused with a ValueError when `fail` is set |
| Cbmg.Clamp | loadgenerator/consumerbehavior.py:280-296 | a value in range is kept; one outside is clamped into range, or refused when `fail` is set |
| Cbmg.GetCategory | loadgenerator/consumerbehavior.py:274-350 | the category in [2, 6], and for the vanilla endpoint only a page in [1, 5]; without `fail` always an answer, with `fail` only the values asked for |
| LoadShapes.Truncate | sut_configs/workloads/otel-demo/rampup_loadshape.py:97 | Python's `int()` of a float: the integer next to it toward zero |
| LoadShapes.RoundHalfEven | src/clue_loadgenerator/teastore/loadshapes.py:34 | Python's `round()`: an integer at most one half away |
| LoadShapes.KillTime | sut_configs/workloads/otel-demo/rampup_loadshape.py:82 | the kill window lies between 2 and 30 seconds and is a tenth of the stage for stages of 20 to 300 seconds |
| LoadShapes.ClampSpawnRate | sut_configs/workloads/otel-demo/rampup_loadshape.py:101 | the spawn rate lies between 2 and 100 and is the value itself when that is in range |
| LoadShapes.StageIndex | sut_configs/workloads/otel-demo/rampup_loadshape.py:72 | the floor of the run time in stages: the number of whole stages passed |
| LoadShapes.StageRunTime | sut_configs/workloads/otel-demo/rampup_loadshape.py:79 | the time into the current stage is at least 0 and less than a stage |
| LoadShapes.StageOffsetBounds | sut_configs/workloads/otel-demo/rampup_loadshape.py:79 | a run time of `i` to `i + 1` stages is `i` stages and less than one more |
| LoadShapes.ProductBounds | sut_configs/workloads/otel-demo/rampup_loadshape.py:79 | a fraction below one of a positive stage is less than the stage |
| LoadShapes.RampUpStops | sut_configs/workloads/otel-demo/rampup_loadshape.py:64-88 | the ramp-up test stops exactly once eight stages have run, or in the last stage's kill window |
| LoadShapes.RampUpUsersBounded | sut_configs/workloads/otel-demo/rampup_loadshape.py:90-106 | the users run are between none and the maximum, and the peak stage outside its kill window runs the maximum at a tenth of it per second, clamped |
| LoadShapes.RampUpShortStagesIdle | sut_configs/workloads/otel-demo/rampup_loadshape.py:82-88 | stages of two seconds or less are all kill window after their first instant, so no users ever run |
| LoadShapes.RealTimeStage | src/clue_loadgenerator/teastore/loadshapes.py:25-38 | on the clock, the stage is a valid index and the kill window is exactly the 59th minute |
| LoadShapes.RunTimeStage | src/clue_loadgenerator/teastore/loadshapes.py:39-47 | on the run time, the stage is the number of stages passed, wrapped around the eight stages |
| LoadShapes.DailyTick | src/clue_loadgenerator/teastore/loadshapes.py:48-59 | a kill stops the test exactly in the last stage and runs no users otherwise; without a kill the stage's users run at a thousandth of the daily maximum per second, clamped |
| LoadShapes.DailyRunTimeStops | src/clue_loadgenerator/teastore/loadshapes.py:39-51 | on the run time the daily shape stops exactly in the kill window of every eighth stage |
| LoadShapes.DailyRunTimePeriodic | src/clue_loadgenerator/teastore/loadshapes.py:42-44 | eight stages later the daily shape on the run time does the same |
| LoadShapes.StageShift | src/clue_loadgenerator/teastore/loadshapes.py:42-43 | eight stages later the stage index is eight more and the time into the stage the same |
| LoadShapes.ShiftByStages | src/clue_loadgenerator/teastore/loadshapes.py:42 | adding `k` stage durations adds `k` stages |
| LoadShapes.DailyRealTimeStops | src/clue_loadgenerator/teastore/loadshapes.py:32-51 | on the clock the daily shape stops exactly at minutes 22:59 and 23:59, the hours that map to the last stage |
| FixedQueues.Window | clue_deployer/src/agent/psc/tracker.py:368-379 | the newest items of the sequence, in order: all of them up to `maxsize` (or when `maxsize` is not positive), exactly `maxsize` beyond |
| FixedQueues.WindowSnoc | clue_deployer/src/agent/psc/tracker.py:376-379 | a series of puts keeps the newest `maxsize` items of everything put, oldest first |
| FixedQueues.FixedQueue.Put | clue_deployer/src/agent/psc/tracker.py:376-379 | a full queue first drops its oldest item, so the queue becomes the newest `maxsize` items with the new one last and never exceeds its size |
| FixedQueues.FixedQueue.Take | clue_deployer/src/agent/psc/tracker.py:381-383 | the `n` oldest items, in order, are removed and returned; the rest stay |
| FixedQueues.FixedQueue.Elements | clue_deployer/src/agent/psc/tracker.py:385-386 | a copy of the queued items, oldest first; the queue is unchanged |
| Tracker.WholeSecond | clue_deployer/src/agent/psc/tracker.py:221-279 | `.replace(microsecond=0)`: the whole second the time falls in |
| Tracker.WholeSecondMonotonic | clue_deployer/src/agent/psc/tracker.py:278-279 | truncating to whole seconds keeps the order of two times |
| Tracker.NodeToDict | clue_deployer/src/agent/psc/tracker.py:12-43 | the keys of `NodeUsage.to_dict` are `_fields`, in that order |
| Tracker.NodeDictValues | clue_deployer/src/agent/psc/tracker.py:29-43 | the dictionary reports the instance under "instance" and the temperature under "temperture" |
| Tracker.PodToDict | clue_deployer/src/agent/psc/tracker.py:49-75 | the keys of `PodUsage.to_dict` are `_fields`, in that order |
| Tracker.PodDictValues | clue_deployer/src/agent/psc/tracker.py:63-75 | the Kepler and Scaphandre consumptions are reported under "wattage_kepler" and "wattage_scaph" |
| Tracker.AssignedRaises | clue_deployer/src/agent/psc/tracker.py:283-340 | a metric loop ends normally exactly when no sample raises |
| Tracker.AssignedLatest | clue_deployer/src/agent/psc/tracker.py:283-340 | after a metric loop each name holds the value of the last sample filed under it, and any other name keeps its value |
| Tracker.LatestAt | clue_deployer/src/agent/psc/tracker.py:302-305 | the value kept for a name is that of the last sample yielding it |
| Tracker.LatestFound | clue_deployer/src/agent/psc/tracker.py:302-305 | a name has a value exactly when some sample yields it, and the value is one of theirs |
| Tracker.AssignedErrPersists | clue_deployer/src/agent/psc/tracker.py:283-340 | once a metric loop raised, later samples change nothing |
| Tracker.AssignAll | clue_deployer/src/agent/psc/tracker.py:283-340 | the loop over the samples builds the dictionary or raises, as the specification says |
| Tracker.NodeEntry | clue_deployer/src/agent/psc/tracker.py:287-295 | a node sample never raises and is skipped exactly when it has neither a 'node' nor an 'instance' label |
| Tracker.NodeMetricsLatest | clue_deployer/src/agent/psc/tracker.py:283-306 | `get_node_metrics` never raises, and a name holds the time and value of the last sample named after it, by 'node' before 'instance' |
| Tracker.NodeMetricsAbsent | clue_deployer/src/agent/psc/tracker.py:283-306 | a name no sample carries has no entry |
| Tracker.PodEntry | clue_deployer/src/agent/psc/tracker.py:311-319 | a sample without the instance label is skipped; one with it but without the pod label raises KeyError |
| Tracker.PodMetricsRaises | clue_deployer/src/agent/psc/tracker.py:308-320 | `get_pod_metrics` raises exactly when a sample with the instance label lacks the pod label |
| Tracker.PodMetricsLatest | clue_deployer/src/agent/psc/tracker.py:308-320 | a pod holds the time, value and instance of the last sample with the instance label that names it |
| Tracker.LastIndex | clue_deployer/src/agent/psc/tracker.py:155 | `rindex`: the last position of the character, and none exactly when it does not occur |
| Tracker.ShortUid | clue_deployer/src/agent/psc/tracker.py:155 | the short uid raises ValueError exactly when the uid has no '-' |
| Tracker.ShortUidIsLastPart | clue_deployer/src/agent/psc/tracker.py:155 | the short uid is the text after the last '-' |
| Tracker.ContainerId | clue_deployer/src/agent/psc/tracker.py:173 | a container id without a part after "//" raises IndexError |
| Tracker.ContainerIdAfterScheme | clue_deployer/src/agent/psc/tracker.py:173 | the container id is the text after the "//" following the runtime name |
| Tracker.ContainerIdWithoutScheme | clue_deployer/src/agent/psc/tracker.py:173 | an id without "//" raises IndexError |
| Tracker.ContainersRaise | clue_deployer/src/agent/psc/tracker.py:167-180 | filing a pod's containers raises exactly when a started container with an id has nothing after "//" |
| Tracker.ContainersFiled | clue_deployer/src/agent/psc/tracker.py:167-180 | after filing, each filed container's id leads to the pod's record, and a key that led to it still does |
| Tracker.IndexPodRaises | clue_deployer/src/agent/psc/tracker.py:154-180 | filing a pod fails exactly when its uid has no '-' or a filed container id has no "//" |
| Tracker.IndexPodFinds | clue_deployer/src/agent/psc/tracker.py:154-180 | a filed pod is found under its short uid and under each filed container's id |
| Tracker.PodIndexErrPersists | clue_deployer/src/agent/psc/tracker.py:149-183 | once a pod raised, later pods change nothing |
| Tracker.AddPod | clue_deployer/src/agent/psc/tracker.py:153-180 | one pass of the loop files the pod as the specification says |
| Tracker.FetchPods | clue_deployer/src/agent/psc/tracker.py:149-183 | the loop over all listed pods builds the index as the specification says |
| Tracker.Resolve | clue_deployer/src/agent/psc/tracker.py:329-334 | an id resolves exactly when it is indexed, or starts with "cri-containerd-" and the rest is indexed; an indexed id resolves to its own entry |
| Tracker.ResolveStripsPrefix | clue_deployer/src/agent/psc/tracker.py:331-332 | an id that is not indexed itself resolves through the 15 characters of "cri-containerd-" stripped |
| Tracker.ScaphandreEntry | clue_deployer/src/agent/psc/tracker.py:326-339 | a sample raises KeyError exactly when its container resolves but it has no 'node' label; a filed one is filed under its resolved pod's name |
| Tracker.ScaphandreMetricsRaises | clue_deployer/src/agent/psc/tracker.py:322-340 | `get_scaphandre_metrics` raises exactly when a resolved sample lacks the 'node' label |
| Tracker.ScaphandreSkipsUnresolved | clue_deployer/src/agent/psc/tracker.py:333-334 | a sample whose container does not resolve contributes nothing |
| Tracker.ScaphandreFindsContainer | clue_deployer/src/agent/psc/tracker.py:173-180 | a container filed for the last pod listed resolves to that pod |
| Tracker.AddNew | clue_deployer/src/agent/psc/tracker.py:207 | adding a list's new keys gives exactly the keys of both, still without repeats |
| Tracker.UnionKeys | clue_deployer/src/agent/psc/tracker.py:207-250 | `set().union(...)`: each key of any result once |
| Tracker.ValueOr | clue_deployer/src/agent/psc/tracker.py:211-217 | a missing node reads as 0 |
| Tracker.QueryNodes | clue_deployer/src/agent/psc/tracker.py:206-228 | the loop emits the merged record of each key, as the specification says |
| Tracker.MergeNodesFrom | clue_deployer/src/agent/psc/tracker.py:208-226 | each emitted record is the record of its own key, and every key that merges is emitted |
| Tracker.QueryNodesReportsCpuNodes | clue_deployer/src/agent/psc/tracker.py:206-228 | exactly the nodes with a cpu sample are emitted, observed at that sample's whole second, collected now, with 0 for a missing reading |
| Tracker.ToFloat | clue_deployer/src/agent/psc/tracker.py:268-271 | `float()` of a number is that number |
| Tracker.FirstKnown | clue_deployer/src/agent/psc/tracker.py:274-277 | a known instance of the list, none exactly when all are "unknown" |
| Tracker.SoleInstance | clue_deployer/src/agent/psc/tracker.py:274-277 | the assertion holds exactly when one instance is known, and then it is that one |
| Tracker.Earliest | clue_deployer/src/agent/psc/tracker.py:278 | `min`: one of the times, and none is earlier |
| Tracker.MergePod | clue_deployer/src/agent/psc/tracker.py:257-280 | a merged pod carries its name and namespace, the one known instance, and an observation time no later than any of its readings' whole seconds |
| Tracker.MapAllErrPersists | clue_deployer/src/agent/psc/tracker.py:257-281 | once a pod failed, later pods change nothing |
| Tracker.MapAllEach | clue_deployer/src/agent/psc/tracker.py:257-281 | the loop succeeds exactly when every key merges, and then gives each key's result, in order |
| Tracker.QueryPods | clue_deployer/src/agent/psc/tracker.py:249-281 | the loop over the pods of one namespace, as the specification says |
| Tracker.QueryPodsReportsEachPod | clue_deployer/src/agent/psc/tracker.py:230-281 | `_query_pods` succeeds exactly when every pod merges, and then reports one record per pod, in its namespace, under distinct names |
| LogStream.Strs | clue_deployer/src/service/routers/logs.py:13-14 | the buffer's lines as JSON strings, one per line, in order |
| LogStream.GetLogs | clue_deployer/src/service/routers/logs.py:9-17 | the reply's count is the number of lines it carries; a readable buffer gives its lines and no error, a failing one no lines and the exception's message |
| LogStream.LogEvents | clue_deployer/src/service/routers/logs.py:43-67 | one `{"log": line}` event per line, in buffer order |
| LogStream.LogEventsAppend | clue_deployer/src/service/routers/logs.py:66-67 | the events of two runs of lines are the events of the first, then of the second |
| LogStream.StepOnError | clue_deployer/src/service/routers/logs.py:70-72 | a tick that raises sends one "Stream error" event and keeps both counters |
| LogStream.StepSendsAppended | clue_deployer/src/service/routers/logs.py:54-68 | without a clear, a tick sends exactly the lines appended since the last one, and the count becomes the buffer's length |
| LogStream.StepAfterClear | clue_deployer/src/service/routers/logs.py:59-68 | after a clear (a new version), a tick sends the whole buffer |
| LogStream.StepWithoutGrowth | clue_deployer/src/service/routers/logs.py:64 | without a clear, a buffer no longer than the count sends nothing and changes nothing |
| LogStream.RunSendsAppended | clue_deployer/src/service/routers/logs.py:50-72 | over reads of an append-only buffer the ticks send every line past the starting count exactly once, in order |
| LogStream.StreamMirrorsBuffer | clue_deployer/src/service/routers/logs.py:35-72 | the opening and the ticks after it send each line of the last read exactly once, in order |
| LogStream.EventGenerator.constructor | clue_deployer/src/service/routers/logs.py:35-47 | the version is read, then the current lines are sent and counted; a failing read sends one error event |
| LogStream.EventGenerator.Tick | clue_deployer/src/service/routers/logs.py:51-72 | one pass of the loop moves the counters and sends the events as the step specification says |
| LogStream.EventGenerator.RunTicks | clue_deployer/src/service/routers/logs.py:50-72 | the loop over a series of reads does what the ticks do in turn |
| LogsPanel.NormalisedLogs | clue_webui/src/components/LogsPanel.tsx:52-57 | an array is kept, any other truthy value becomes its one string, anything else no lines |
| LogsPanel.Fetched | clue_webui/src/components/LogsPanel.tsx:37-71 | loading ends; a failed request shows "Failed to load logs."; a truthy error field is shown with no lines; otherwise the lines of the reply with no error |
| LogsPanel.FetchShowsServerLogs | clue_webui/src/components/LogsPanel.tsx:43-59 | the panel shows exactly the lines `get_logs` returned, or its non-empty error message with no lines |
| LogsPanel.OnMessage | clue_webui/src/components/LogsPanel.tsx:80-92 | a message appends at most one line after those shown: a truthy `log` field, or the raw text when it is not JSON; loading and error stay |
| LogsPanel.Shown | clue_webui/src/components/LogsPanel.tsx:85-86 | the lines a stream shows; without empty lines, all of them |
| LogsPanel.ReceiveLogEvents | clue_webui/src/components/LogsPanel.tsx:80-92 | the stream's events append their non-empty lines, in order, after the lines shown, and change nothing else |
| LogsPanel.Cleared | clue_webui/src/components/LogsPanel.tsx:142-151 | the lines are emptied exactly after an ok reply; anything else leaves the panel |
| LogsPanel.Render | clue_webui/src/components/LogsPanel.tsx:153-183 | the lines are listed exactly when the panel is not loading empty, has no error and has lines; the error is shown exactly when it is not loading empty and has one; "nothing deployed" only when not deploying |
| LogsPanel.MountShowsBufferTwice | clue_webui/src/components/LogsPanel.tsx:37-123 | as written, mounting while the buffer holds lines shows every one of them twice: from the fetch and from the stream's opening |
| LogsPanel.MountOnceMirrorsBuffer | clue_webui/src/components/LogsPanel.tsx:119-123 | corrected: a panel following an append-only buffer shows each non-empty line of it exactly once, in order |
| Directories.At | clue_deployer/src/service/routers/results.py:38-47 | the empty path is the directory itself |
| Directories.ReadJson | clue_deployer/src/service/routers/results.py:52-65 | a value read is the content of a file with that name; no such file reads as None |
| ResultsRouter.Below | clue_deployer/src/service/routers/results.py:46-47 | the paths, each taken from subdirectory `i` |
| ResultsRouter.Under | clue_deployer/src/service/routers/results.py:38-47 | the paths, each taken from the directory at `path` |
| ResultsRouter.ChildLeavesMembers | clue_deployer/src/service/routers/results.py:46-47 | the leaves found under the first `k` subdirectories are those paths that start in one of them and lead to a leaf there |
| ResultsRouter.LeavesAreTheLeafDirectories | clue_deployer/src/service/routers/results.py:34-50 | the search finds exactly the directories without a subdirectory: the base itself when it has none |
| ResultsRouter.LeavesDistinct | clue_deployer/src/service/routers/results.py:34-50 | the search finds each leaf once |
| ResultsRouter.ChildLeavesDistinct | clue_deployer/src/service/routers/results.py:46-47 | the leaves found under the first `k` subdirectories are each found once |
| ResultsRouter.UnderAppend | clue_deployer/src/service/routers/results.py:43 | taking two lists of paths from one directory is taking the joined list |
| ResultsRouter.UnderBelow | clue_deployer/src/service/routers/results.py:46-47 | a path from a subdirectory, taken from its parent, is the parent's path extended |
| ResultsRouter.UnderRoot | clue_deployer/src/service/routers/results.py:49 | paths taken from the base are themselves |
| ResultsRouter.Explore | clue_deployer/src/service/routers/results.py:38-47 | the leaves below the directory are appended to those found so far, in visiting order |
| ResultsRouter.FindDeepestDirectories | clue_deployer/src/service/routers/results.py:34-50 | the leaves of the base, in visiting order |
| ResultsRouter.DictGet | clue_deployer/src/service/routers/results.py:83-97 | `.get` works exactly on a dictionary, giving the field when present and the default otherwise |
| ResultsRouter.ItemName | clue_deployer/src/service/routers/results.py:90-94 | an item's name is read exactly when it is a dictionary whose name is missing or a string; a missing name is "" |
| ResultsRouter.ItemNames | clue_deployer/src/service/routers/results.py:90-94 | all names are read exactly when every item's is, and then one per item, in order |
| ResultsRouter.NamesJoined | clue_deployer/src/service/routers/results.py:89-94 | a list's names joined with ","; an empty string or dictionary gives ""; a number, boolean or null raises |
| ResultsRouter.ExtractEntry | clue_deployer/src/service/routers/results.py:67-110 | an entry comes only from two readable dictionaries; a missing, unreadable or null file gives none |
| ResultsRouter.DefaultsWhenFieldsMissing | clue_deployer/src/service/routers/results.py:83-107 | fields missing from both files take their defaults: empty strings and 0 iterations |
| ResultsRouter.WorkloadNamesJoined | clue_deployer/src/service/routers/results.py:89-90 | the entry's workloads are the listed workloads' names joined with "," |
| ResultsRouter.Found | clue_deployer/src/service/routers/results.py:128-134 | what each leaf yields, in leaf order |
| ResultsRouter.CollectedMembers | clue_deployer/src/service/routers/results.py:128-134 | every collected entry comes from a leaf, and every leaf that yields an entry contributes it |
| ResultsRouter.ListAllResults | clue_deployer/src/service/routers/results.py:112-136 | 404 exactly without a results directory; otherwise the entries of the deepest directories, in search order |
| ResultsRouter.ListedEntries | clue_deployer/src/service/routers/results.py:112-136 | the listing holds exactly the entries of the leaf directories |
| ResultsService.EntryOf | clue_deployer/src/service/service.py:242-262 | a branch directory's entry counts its subdirectories and is identified by the stripped timestamp, workload and branch names joined with '_' |
| ResultsService.BranchEntries | clue_deployer/src/service/service.py:237-262 | one entry per branch directory of a workload, in order |
| ResultsService.WorkloadEntriesAppend | clue_deployer/src/service/service.py:230-262 | the entries of two runs of workload directories are those of the first, then of the second |
| ResultsService.ListingAppend | clue_deployer/src/service/service.py:223-262 | the entries of two runs of timestamp directories are those of the first, then of the second |
| ResultsService.WorkloadEntriesSingle | clue_deployer/src/service/service.py:235-237 | one workload directory lists its branches under its stripped name |
| ResultsService.ListingSingle | clue_deployer/src/service/service.py:228-230 | one timestamp directory lists its workloads under its stripped name |
| ResultsService.Lookup | clue_deployer/src/service/service.py:292-327 | the first listed entry with that id: none exactly when no entry has it |
| ResultsService.LookupAfter | clue_deployer/src/service/service.py:312 | the lookup finds the first entry with the id, whatever follows it |
| ResultsService.ListingSplit | clue_deployer/src/service/service.py:223 | the listing splits around any one timestamp directory |
| ResultsService.WorkloadSplit | clue_deployer/src/service/service.py:230 | a timestamp's entries split around any one workload directory |
| ResultsService.ListingAt | clue_deployer/src/service/service.py:223-262 | at every branch directory the listing is what the loops visited before it, its own entry, then the rest |
| ResultsService.NextWorkload | clue_deployer/src/service/service.py:230-237 | the loops' state after a workload's last branch equals the state before the next workload |
| ResultsService.NextTimestamp | clue_deployer/src/service/service.py:223-230 | the loops' state after a timestamp's last workload equals the state before the next timestamp |
| ResultsService.CountIterations | clue_deployer/src/service/service.py:244-250 | the number of subdirectories of the branch directory; files are skipped |
| ResultsService.ListAllResults | clue_deployer/src/service/service.py:212-263 | 404 exactly without a results directory; otherwise one entry per branch directory, timestamp by timestamp and workload by workload |
| ResultsService.GetSingleResult | clue_deployer/src/service/service.py:272-330 | 400 exactly for an id of fewer than four '_' parts; then the listed entry with that id, or 404 exactly when none is listed |
| ResultsService.FindResult | clue_deployer/src/service/service.py:272-330 | the nested loops, returning at the first matching branch directory, agree with the lookup |
| ResultsService.ListedIdsAreWellFormed | clue_deployer/src/service/service.py:252-286 | an entry listed under a date_time timestamp has an id that passes the four-part check |
| ResultsService.SplitPartsAtLeastTwo | clue_deployer/src/service/service.py:284-354 | a string holding a '_' splits into at least two parts |
| ResultsService.PlainIdsAreRejected | clue_deployer/src/service/service.py:284-286 | an id whose three names hold no '_' is refused with 400, although it is listed |
| ResultsService.DownloadFolder | clue_deployer/src/service/service.py:354-355 | the download folder is the first two '_' parts of the id; an id without '_' raises |
| ResultsService.DownloadFolderIsTimestamp | clue_deployer/src/service/service.py:252-356 | for a result under a date_time timestamp, the download folder is that timestamp |
| ResultsService.WithoutBranchEntries | clue_deployer/src/service/service.py:426 | what is left of a workload lists its other branches, in order |
| ResultsService.PrunedWorkloadEntries | clue_deployer/src/service/service.py:428-429 | pruning a workload keeps the timestamp's other entries in place |
| ResultsService.PrunedListing | clue_deployer/src/service/service.py:428-431 | replacing or pruning a timestamp keeps the other entries in place |
| ResultsService.DeletedListing | clue_deployer/src/service/service.py:426-431 | deleting a branch directory removes exactly its entry from the listing |
| ResultsService.DeleteResult | clue_deployer/src/service/service.py:398-436 | 404 without a results directory or without a match; otherwise the new tree is the old one with the first matching branch directory removed together with the parents that removal empties, and exactly the first entry with the id disappears from the listing |
| ResultsService.DeletedPrunesEmptiedParents | clue_deployer/src/service/service.py:426-431 | the workload directory goes exactly when the branch was all it held, the timestamp directory exactly when that workload was also all it held; everything else stays in place |
| ResultsService.ScanWorkload | clue_deployer/src/service/service.py:418-424 | the scan of one workload's branch directories finds the first whose id matches, or shows that none before or in it does |
| ResultsService.FirstMatchDeleted | clue_deployer/src/service/service.py:416-433 | removing the first matching branch directory takes exactly the first entry with that id out of the listing |
| DeployGuard.Step | clue_deployer/src/service/service.py:458-498 | a request while deploying is refused with 409 and changes nothing; otherwise it is accepted, setting the flag, exactly when the SUT exists, its configuration loads and the process starts; a missing SUT is 404 and a failed start 500, both clearing the flag; a failed load is 500 and, as written, keeps the flag set (cleared when the load is inside the `try`); a finished run clears the flag |
| DeployGuard.FlagIsBit | clue_deployer/src/service/service.py:461-478 | the deploying flag is always 0 or 1 |
| DeployGuard.StaysDeploying | clue_deployer/src/service/service.py:461-467 | after a request sets the flag it stays set until a run finishes |
| DeployGuard.OneDeploymentAtATime | clue_deployer/src/service/service.py:458-498 | between two accepted requests some run finished: one deployment at a time |
| DeployGuard.BusyIffDeploying | clue_deployer/src/service/service.py:458-498 | the flag is set exactly when some request set it and no run finished since |
| DeployGuard.SetsFlagWhen | clue_deployer/src/service/service.py:461-494 | the requests that set the flag are the accepted ones and, as written, those whose configuration failed to load |
| DeployGuard.FailedLoadBlocksRequests | clue_deployer/src/service/service.py:467-494 | as written, a failed configuration load is answered 500 and every later request is refused with 409 until a run finishes, though none was started |
| DeployGuard.FixedBusyIffDeploying | clue_deployer/src/service/service.py:458-498 | with the load inside the `try`, the flag is set exactly when some request was accepted and no run finished since |
| DeployGuard.Guard.Status | clue_deployer/src/service/service.py:74-79 | `read_status` reports deploying exactly when the flag is set |
| DeployGuard.Guard.Deploy | clue_deployer/src/service/service.py:458-498 | `deploy_sut` as written moves the flag and replies as the step says, and records the SUT exactly when its process starts |
| DeployGuard.Guard.Finish | clue_deployer/src/service/service.py:69-71 | the end of `run_deployment` clears the flag, whatever the run did |
| DeployGuard.Guard.Run | clue_deployer/src/service/service.py:458-498 | a series of requests and finished runs gives the replies and the flag the steps give |
| HelmReplacements.ShouldApply | clue_deployer/src/models/helm_replacement.py:27-41 | no conditions always apply; conditions apply exactly when they ask for autoscaling, a setting is given, and either their type is empty and the setting's text is not, or their type equals that text |
| HelmReplacements.DisabledNeverApplies | clue_deployer/src/models/helm_replacement.py:36-41 | conditions without autoscaling never apply |
| HelmReplacements.WithoutScalingOnlyUnconditional | clue_deployer/src/models/helm_replacement.py:31-41 | without a setting only a replacement without conditions applies |
| HelmReplacements.DefaultConditionsNeverApply | clue_deployer/src/models/helm_replacement.py:9-41 | the default conditions never apply |
| HelmReplacements.TypedConditionPicksOneSetting | clue_deployer/src/models/helm_replacement.py:38-39 | a typed condition applies to one setting only: the text equal to its type |
| HelmReplacements.TextSettings | clue_deployer/src/models/helm_replacement.py:36-39 | an untyped autoscaling condition applies for every text a variant can carry: any non-empty text such as "none" by truth value, the empty one by equality with the empty type |
| ChartWrapper.ApplyOne | clue_deployer/src/helm_wrapper.py:88-102 | a tagged replacement has the branch put in for the tag, is kept that way, and is applied unconditionally; any other is applied exactly when its conditions hold, and is not changed |
| ChartWrapper.ApplyAll | clue_deployer/src/helm_wrapper.py:88-102 | one replacement comes back per replacement given |
| ChartWrapper.ApplyAllAppend | clue_deployer/src/helm_wrapper.py:88-102 | running two lists of replacements is running the first, then the second on its output |
| ChartWrapper.ApplyAllUntags | clue_deployer/src/helm_wrapper.py:90-92 | afterwards no replacement holds the tag, when the branch cannot form one |
| ChartWrapper.UntaggedIgnoresBranch | clue_deployer/src/helm_wrapper.py:88-102 | untagged replacements do the same for any branch, and come back unchanged |
| ChartWrapper.LaterUpdateKeepsFirstTag | clue_deployer/src/helm_wrapper.py:92 | the replacements are rewritten in place, so a second update uses the first branch, whatever its own |
| ChartWrapper.HelmWrapper.constructor | clue_deployer/src/helm_wrapper.py:13-25 | the wrapper keeps the variant's branch and setting and the chart and values names, with no copy active |
| ChartWrapper.HelmWrapper.Enter | clue_deployer/src/helm_wrapper.py:28-60 | a missing chart directory is FileNotFound and changes nothing; otherwise the copy's chart and values paths are set, and a missing values file is FileNotFound |
| ChartWrapper.HelmWrapper.Exit | clue_deployer/src/helm_wrapper.py:63-72 | the active paths are cleared |
| ChartWrapper.ApplyReplacement | clue_deployer/src/helm_wrapper.py:88-102 | the loop body for one replacement gives the text and the rewritten replacement that ApplyOne describes: the branch put in for a tag, otherwise applied only under its conditions |
| ChartWrapper.HelmWrapper.UpdateHelmChart | clue_deployer/src/helm_wrapper.py:74-108 | without an active copy an AttributeError, without the values file FileNotFound, otherwise the values written and returned are those the replacements give, and the replacements keep their rewrites |
| ChartWrapper.HelmWrapper.DeploySut | clue_deployer/src/helm_wrapper.py:162-187 | without an active copy a RuntimeError; success exactly when the dependencies built, helm exited with 0, and its output says "STATUS: deployed" |
| LegacyHelmWrapper.BothIsCpuBound | clue_deployer/helm_wrapper.py:32-48 | the `BOTH` branch replaces the memory target with itself, so a `BOTH` experiment's values equal a CPU-bound one's |
| LegacyHelmWrapper.UnscaledKeepsTargets | clue_deployer/helm_wrapper.py:25-33 | without autoscaling, values holding none of the four fixed patterns come back unchanged |
| LegacyHelmWrapper.HelmWrapper.constructor | clue_deployer/helm_wrapper.py:10-15 | the wrapper keeps the registry, the autoscaling and the values file |
| LegacyHelmWrapper.HelmWrapper.UpdateHelmChart | clue_deployer/helm_wrapper.py:17-52 | a missing values file raises FileNotFound and changes nothing; otherwise the file holds, and the call returns, the fixed rewrites followed by the scaling ones |
| LegacyHelmWrapper.HelmWrapper.Deploy | clue_deployer/helm_wrapper.py:54-68 | the call raises exactly when helm ran and its output lacks "STATUS: deployed"; a failed helm process is caught |
| HelmClient.DescribeCommandOnly | src/clue_deployer/helm_client.py:16-22 | without return code or output the message is the text, "Details" and the command line |
| HelmClient.DescribeStartsWithCommand | src/clue_deployer/helm_client.py:16-22 | the message always starts with the text and the command line |
| HelmClient.DescribeListsReturnCode | src/clue_deployer/helm_client.py:18-19 | a return code is listed right after the command line |
| HelmClient.DescribeEndsWithOutput | src/clue_deployer/helm_client.py:20-22 | non-empty output ends the message |
| HelmClient.RunCommand | src/clue_deployer/helm_client.py:37-54 | success exactly when the process completes, with its output; a failed process is an error with its return code and output ("No output captured." when there is none); a missing executable an error with neither; the error carries the full command |
| HelmClient.SetFlagsPairs | src/clue_deployer/helm_client.py:77-79 | every pair becomes "--set" followed by key=value, in order |
| HelmClient.InstallArgsLayout | src/clue_deployer/helm_client.py:71-79 | install arguments are the release, "." and the namespace with --create-namespace, then "-f" and the values file when one is given, then the --set pairs |
| HelmClient.BuildInstallArgs | src/clue_deployer/helm_client.py:71-79 | the list built step by step is the install arguments |
| HelmClient.Install | src/clue_deployer/helm_client.py:57-111 | a chart path that is not a directory is a ValueError; success exactly when helm completes with "STATUS: deployed", returning its output; any other outcome is an install error carrying the full command and a return code exactly when helm failed |
| HelmClient.Uninstall | src/clue_deployer/helm_client.py:114-127 | success exactly when helm completes; otherwise an uninstall error with the uninstall command and the return code of a failed process |
| HelmClient.PatchedInRounds | src/clue_deployer/helm_client.py:145-147 | applying two lists of patches is applying the first, then the second |
| HelmClient.AbsentPlaceholdersChangeNothing | src/clue_deployer/helm_client.py:145-153 | patches whose placeholders do not occur leave the content as it was |
| HelmClient.PatchValuesFile | src/clue_deployer/helm_client.py:130-154 | a missing file raises FileNotFound; otherwise the patched content is written exactly when it differs from the original |
| Kubeconfig.PatchCluster | clue_deployer/prepare_kubeconfig.py:41-47 | a cluster whose server is not local is left as it is |
| Kubeconfig.OnlyTextServersRewritten | clue_deployer/prepare_kubeconfig.py:41-42 | when the `in` tests do not raise, only a string server can be local, and a missing or non-string server leaves the cluster as it is |
| Kubeconfig.PatchClusterRewrites | clue_deployer/prepare_kubeconfig.py:41-47 | a local cluster gets the redirected server, loses both certificate-authority fields and skips TLS verification; every other field keeps its value |
| Kubeconfig.PatchOne | clue_deployer/patch_kubeconfig.py:32-39 | one loop step rewrites the entry exactly as the patch does, and reports whether it was local |
| Kubeconfig.PatchConfig | clue_deployer/patch_kubeconfig.py:28-39 | the loop raises exactly when some cluster's server is null, a boolean, a number, or a list or mapping holding a local name; otherwise it gives the patched configuration, and `changed` is set exactly when some cluster was local |
| Kubeconfig.RedirectedIsRemote | clue_deployer/prepare_kubeconfig.py:42-43 | after both replacements the server names neither 127.0.0.1 nor localhost |
| Kubeconfig.PatchClusterIdempotent | clue_deployer/prepare_kubeconfig.py:41-47 | rewriting a cluster twice is rewriting it once |
| Kubeconfig.PatchIdempotent | clue_deployer/prepare_kubeconfig.py:39-47 | patching a configuration twice is patching it once |
| Kubeconfig.PatchedHasNoLocalCluster | clue_deployer/prepare_kubeconfig.py:39-47 | a patched configuration has no local cluster |
| Kubeconfig.LoadConfig | clue_deployer/prepare_kubeconfig.py:12-30 | a non-empty base64 configuration wins over the file, and failing to decode it exits with 1; otherwise a missing file exits with 1 |
| PrepareKubeconfig.Prepare | clue_deployer/prepare_kubeconfig.py:52-57 | a failed load exits with 1; a requested patch that raises ends the script unsaved; otherwise the loaded configuration is saved to the patched path, patched exactly when `PATCH_LOCAL_CLUSTER` is "true" in any case |
| PrepareKubeconfig.SavedIsRemote | clue_deployer/prepare_kubeconfig.py:39-50 | a patched saved configuration has no local cluster, and patching it again changes nothing |
| PatchKubeconfig.KubeconfigPath | clue_deployer/patch_kubeconfig.py:11 | `KUBECONFIG_FILE` names the file, the user's kubeconfig by default |
| PatchKubeconfig.Patch | clue_deployer/patch_kubeconfig.py:9-49 | a failed load exits with 1; a patch loop that raises ends the script unsaved; otherwise the patched configuration is saved, `KUBECONFIG` points at it, and a change is reported exactly when a cluster was local |
| PatchKubeconfig.RemoteConfigUnchanged | clue_deployer/patch_kubeconfig.py:31-39 | a configuration without local clusters is saved as it was |
| ClusterRouter.PatchLocalSettingRoundTrip | clue_deployer/src/service/routers/cluster.py:40-49 | an unset `PATCH_LOCAL_CLUSTER` reads as patching, and the value the upload writes reads back as what was requested |
| ClusterRouter.ClusterService.constructor | clue_deployer/src/service/routers/cluster.py:7 | the service starts from the given file and environment |
| ClusterRouter.ClusterService.Status | clue_deployer/src/service/routers/cluster.py:45-50 | configured exactly when the patched file exists; an unset setting reads as patching |
| ClusterRouter.ClusterService.Upload | clue_deployer/src/service/routers/cluster.py:11-43 | an undecodable kubeconfig is 400, and a requested patch that raises or a failed save 500, each changing nothing; otherwise the configuration, patched when asked, is saved, the environment points at it, and the status then reports it with the requested patch setting |
| Settings.FieldErrors | clue_deployer/src/configs/sut_config.py:12-42 | a field is reported exactly when it fails: required and missing, or present with another type |
| Settings.Extra | clue_deployer/src/configs/sut_config.py:12-42 | a key is reported exactly when no field declares it |
| Settings.Errors | clue_deployer/src/configs/sut_config.py:12-42 | building fails exactly when some declared field fails or some key is undeclared |
| Settings.ErrorsEmpty | clue_deployer/src/configs/sut_config.py:12-42 | no field errors exactly when every field is valid, and no extra keys exactly when every key is declared |
| Settings.InvalidReported | clue_deployer/src/configs/sut_config.py:12-42 | a declared field that fails is reported by name |
| Settings.DeclaredValid | clue_deployer/src/configs/sut_config.py:12-42 | when nothing fails, each declared field is valid |
| Settings.LeftOut | clue_deployer/src/configs/sut_config.py:22-36 | a left-out field reads as its default |
| Settings.Section | clue_deployer/src/configs/sut_config.py:76-78 | a section is found only in a mapping, and a mapping without `config` has the empty section |
| Settings.NormalisedTargetUrl | clue_deployer/src/configs/sut_config.py:65-67 | exactly one '/' separates the host from the path without its leading slash |
| Settings.TargetUrlsAgree | clue_deployer/src/configs/sut_config.py:59-69 | the URL as written and the normalised one agree exactly when the path starts with '/' |
| Settings.TargetUrlJoinsHostAndPath | clue_deployer/src/configs/sut_config.py:65-69 | as written, a path without its leading slash runs into the host name |
| SutConfig.GetSut | clue_deployer/src/configs/sut_config.py:47-57 | a non-empty name is kept, and without a validated `sut_path` the name stays as given |
| SutConfig.GetSutFallsBackToStem | clue_deployer/src/configs/sut_config.py:54-56 | an empty name with `<dir>/<name>.yaml` validated becomes `<name>` |
| SutConfig.BuildSucceedsIffValid | clue_deployer/src/configs/sut_config.py:12-57 | a configuration is built exactly when every field is present with its type or left to its default, and no other key is given |
| SutConfig.MissingFieldReported | clue_deployer/src/configs/sut_config.py:17-42 | a missing required field fails the build and is reported by name |
| SutConfig.RequiredFieldsKept | clue_deployer/src/configs/sut_config.py:17-42 | a built configuration holds the given values of the fields |
| SutConfig.RequiredKept | clue_deployer/src/configs/sut_config.py:17-42 | a valid required field holds a value of its declared type |
| SutConfig.DefaultsWhenMissing | clue_deployer/src/configs/sut_config.py:22-36 | fields left out take their defaults: "", false, "values.yaml", no namespaces, 180 seconds, no replacements |
| SutConfig.EmptySutStaysEmpty | clue_deployer/src/configs/sut_config.py:17-57 | as written, an empty `sut` stays empty although `sut_path` names the file, since `sut` is validated first; validated after `sut_path` it becomes the file's stem |
| SutConfig.FixedSutFromPath | clue_deployer/src/configs/sut_config.py:47-57 | with `sut` validated after `sut_path`, building succeeds as before, a given name is kept and an empty one is the stem of the path |
| SutConfig.TargetHostFixed | clue_deployer/src/configs/sut_config.py:59-69 | the URL with the normalised path, which agrees with the one as written when the path starts with '/' |
| SutConfig.LiftAll | clue_deployer/src/configs/sut_config.py:81-103 | each listed key present at the top of the file takes the top's value; every other key keeps the section's |
| SutConfig.LoadFromYaml | clue_deployer/src/configs/sut_config.py:72-105 | a file without a mapping section fails |
| SutConfig.TopLevelListsWin | clue_deployer/src/configs/sut_config.py:78-105 | the lists at the top of the file win over the section's, and other fields are read from the section |
| NamedSutConfig.GetSutName | clue_deployer/src/config/sut_config.py:35-44 | a non-empty name is kept; an empty one becomes the stem of the validated `sut_path`, and without one the validator falls off its end and gives None |
| NamedSutConfig.Build | clue_deployer/src/config/sut_config.py:10-44 | building fails exactly when some field fails, reporting every failure; a built configuration holds the data, and its name is what the validator gives for the given or default `sut_name` |
| NamedSutConfig.BuildSucceedsIffValid | clue_deployer/src/config/sut_config.py:10-44 | a configuration is built exactly when every field is present with its type or left to its default, and no other key is given |
| NamedSutConfig.AlwaysNamed | clue_deployer/src/config/sut_config.py:29-44 | every built configuration has a name: the given one when not empty, otherwise the stem of its path, since the default "" is validated too |
| NamedSutConfig.MissingNameTakesStem | clue_deployer/src/config/sut_config.py:29-44 | a left-out `sut_name` becomes `<name>` for `sut_path` `<dir>/<name>.yaml` |
| NamedSutConfig.DefaultsWhenMissing | clue_deployer/src/config/sut_config.py:26-29 | fields left out take their defaults: "values.yaml", no namespaces, one iteration |
| NamedSutConfig.LoadFromYaml | clue_deployer/src/config/sut_config.py:59-66 | a file without a mapping section fails |
| NamedSutConfig.OnlySectionRead | clue_deployer/src/config/sut_config.py:64-66 | two files with the same `config` section load the same configuration |
| PlainSutConfig.Build | clue_deployer/config/sut_config.py:10-30 | building fails exactly when some field fails, reporting every failure |
| PlainSutConfig.BuildSucceedsIffValid | clue_deployer/config/sut_config.py:10-30 | a configuration is built exactly when every field is present with its type or left to its default, and no other key is given |
| PlainSutConfig.MissingFieldReported | clue_deployer/config/sut_config.py:14-25 | a missing required field fails the build and is reported by name |
| PlainSutConfig.DefaultsWhenMissing | clue_deployer/config/sut_config.py:26-28 | fields left out take their defaults: "values.yaml", no namespaces, one iteration |
| PlainSutConfig.LoadFromYaml | clue_deployer/config/sut_config.py:47-54 | a file without a mapping section fails |
| PlainSutConfig.OnlySectionRead | clue_deployer/config/sut_config.py:52-54 | two files with the same `config` section load the same configuration |
| EnvConfig.Default | clue_deployer/src/configs/env_config.py:11-21 | with nothing set: no SUT, variants or workloads, one iteration, not deploy-only, and the default paths and log level |
| EnvConfig.ConfigPath | clue_deployer/src/configs/env_config.py:36-45 | a path exactly when the name is set and non-empty, the name's YAML file in the configurations directory; otherwise the error naming the variable |
| EnvConfig.ConfigPathStemIsName | clue_deployer/src/configs/env_config.py:42-43 | the stem of `SUT_CONFIG_PATH` is the SUT's name |
| EnvConfig.ConfigPathInDirectory | clue_deployer/src/configs/env_config.py:11-43 | by default the file is `/app/sut_configs/<SUT>.yaml` |
| EnvConfig.Dump | clue_deployer/src/configs/env_config.py:36-54 | dumping succeeds exactly when `SUT_CONFIG_PATH` can be built, and then lists the ten fields with the SUT and its configuration path |
| EnvConfig.DefaultCannotBeDumped | clue_deployer/src/configs/env_config.py:17-54 | the default configuration cannot be dumped, since its SUT is unset |
| NamedEnvConfig.Default | clue_deployer/src/config/env_config.py:13-19 | with nothing set: no SUT or experiment, and the default paths and log level |
| NamedEnvConfig.SutConfigPath | clue_deployer/src/config/env_config.py:36-45 | a path exactly when `SUT_NAME` is set and non-empty, the name's YAML file in the configurations directory |
| NamedEnvConfig.SutConfigPathNamesSut | clue_deployer/src/config/env_config.py:36-45 | the path's stem is the SUT's name, and the default configuration has no path |
| ResultFiles.New | clue_deployer/src/result_files.py:5-8 | an empty SUT name is refused, any other kept |
| ResultFiles.NamesStartWithSut | clue_deployer/src/result_files.py:10-24 | every file name starts with the SUT's name and an underscore |
| ResultFiles.NamesDistinct | clue_deployer/src/result_files.py:10-24 | the four files of one SUT have different names |
| ResultFiles.NamesIdentifySut | clue_deployer/src/models/result_files.py:10-24 | two SUTs with the same statistics file or report are the same SUT |
| DeploymentForm.Matching | clue_webui/src/components/experiment/ParametersSelection.tsx:32-33 | the SUTs kept are exactly those named as the selection |
| DeploymentForm.Flatten | clue_webui/src/components/experiment/ParametersSelection.tsx:34 | an item is in the result exactly when it is in one of the groups |
| DeploymentForm.VariantOptions | clue_webui/src/components/experiment/ParametersSelection.tsx:32-34 | a variant is offered exactly when some SUT named as the selection has it |
| DeploymentForm.WorkloadOptions | clue_webui/src/components/experiment/ParametersSelection.tsx:36-38 | a workload is offered exactly when some SUT named as the selection has it |
| DeploymentForm.NoOptionsWithoutSut | clue_webui/src/components/experiment/ParametersSelection.tsx:32-38 | without a selected SUT nothing is offered |
| DeploymentForm.VariantBoxTriState | clue_webui/src/components/experiment/ParametersSelection.tsx:40-44 | the variant box is never both checked and indeterminate, and is neither exactly when no variant is selected |
| DeploymentForm.NoWorkloadOptionsShowsChecked | clue_webui/src/components/experiment/ParametersSelection.tsx:46-49 | with no workload options and none selected the workload box shows checked |
| DeploymentForm.ChangeSut | clue_webui/src/components/experiment/ParametersSelection.tsx:91-97 | choosing a SUT sets its name and clears the variants; workloads, iterations and deploy-only stay |
| DeploymentForm.ChangeSutClearsVariantBox | clue_webui/src/components/experiment/ParametersSelection.tsx:40-97 | after a SUT change the variant box is clear, whatever the options |
| DeploymentForm.SelectAllVariants | clue_webui/src/components/experiment/ParametersSelection.tsx:134-141 | checking selects every option, clearing selects none; nothing else changes |
| DeploymentForm.SelectAllWorkloads | clue_webui/src/components/experiment/ParametersSelection.tsx:224-231 | checking selects every option, clearing selects none; nothing else changes |
| DeploymentForm.SelectAllShowsBox | clue_webui/src/components/experiment/ParametersSelection.tsx:40-49 | after "select all" the variant box shows checked exactly when there are options, the workload box always; after clearing the variant box is clear |
| DeploymentForm.Without | clue_webui/src/components/experiment/ParametersSelection.tsx:166-168 | exactly the other items survive |
| DeploymentForm.Toggle | clue_webui/src/components/experiment/ParametersSelection.tsx:159-170 | the name flips between selected and not; every other name keeps its state |
| DeploymentForm.WithoutAppended | clue_webui/src/components/experiment/ParametersSelection.tsx:166-169 | removing a name appended to a list without it gives the list back |
| DeploymentForm.ToggleTwiceRestores | clue_webui/src/components/experiment/ParametersSelection.tsx:159-170 | ticking and unticking a clear box restores the selection, order included |
| DeploymentForm.ToggleVariant | clue_webui/src/components/experiment/ParametersSelection.tsx:159-170 | a variant's box flips it and leaves the other variants and fields |
| DeploymentForm.ToggleWorkload | clue_webui/src/components/experiment/ParametersSelection.tsx:248-259 | a workload's box flips it and leaves the other workloads and fields |
| DeploymentForm.Iterations | clue_webui/src/components/experiment/ParametersSelection.tsx:298-302 | never 0: NaN and 0 give 1, any other number is kept |
| DeploymentForm.SetIterations | clue_webui/src/components/experiment/ParametersSelection.tsx:298-302 | only the iterations change, to a non-zero number |
| DeploymentForm.SetDeployOnlyClearing | clue_webui/src/components/experiment/ParametersSelection.tsx:323-329 | the flag takes the box; checking clears the workloads, clearing keeps them |
| DeploymentForm.SetDeployOnly | clue_webui/src/pages/ExperimentPage.tsx:395-400 | on the experiment page only the flag changes |
| DeploymentForm.DeployOnlyForgetsWorkloads | clue_webui/src/components/experiment/ParametersSelection.tsx:323-329 | checking deploy-only leaves no workload selected, and unchecking it does not bring them back |
| EstimationTime.Minutes | clue_webui/src/components/experiment/EstimationTime.tsx:24-28 | the smallest number of whole minutes covering the seconds |
| EstimationTime.ConfigAfterSutChange | clue_webui/src/components/experiment/EstimationTime.tsx:10-19 | no configuration without a SUT; otherwise what the fetch gave |
| EstimationTime.Find | clue_webui/src/components/experiment/EstimationTime.tsx:22 | the index of the first workload with that name, or none when no workload has it |
| EstimationTime.WorkloadDuration | clue_webui/src/components/experiment/EstimationTime.tsx:21-25 | 0 without a configuration or for an unknown name; otherwise the minutes of the first workload with the name |
| EstimationTime.WaitBefore | clue_webui/src/components/experiment/EstimationTime.tsx:27 | 0 without a configuration; otherwise the minutes covering the wait, a missing one counting 0 |
| EstimationTime.WaitAfter | clue_webui/src/components/experiment/EstimationTime.tsx:28 | 0 without a configuration; otherwise the minutes covering the wait, a missing one counting 0 |
| EstimationTime.ReduceAddsDurations | clue_webui/src/components/experiment/EstimationTime.tsx:31-34 | the reduce adds the workloads' durations to its start |
| EstimationTime.PerIteration | clue_webui/src/components/experiment/EstimationTime.tsx:31-34 | minutes per iteration are both waits plus every selected workload's duration |
| EstimationTime.NoConfigNoDurations | clue_webui/src/components/experiment/EstimationTime.tsx:21-25 | without a configuration every workload counts 0 |
| EstimationTime.VariantTotals | clue_webui/src/components/experiment/EstimationTime.tsx:30-40 | one row per selected variant, in order, each with the same per-iteration and total minutes |
| EstimationTime.SumOfEqualTotals | clue_webui/src/components/experiment/EstimationTime.tsx:42 | summing equal totals gives their number times the total |
| EstimationTime.OverallTotal | clue_webui/src/components/experiment/EstimationTime.tsx:42 | the whole run is variants times minutes per iteration times iterations |
| EstimationTime.Display | clue_webui/src/components/experiment/EstimationTime.tsx:47-72 | deploy-only shows the notice exactly when set; the hint exactly when not deploy-only and no variant; otherwise one row per variant and their sum |
| EstimationTime.NoConfigEstimatesZero | clue_webui/src/components/experiment/EstimationTime.tsx:21-42 | with no configuration loaded every estimate is 0 minutes |
| ExperimentPage.DeployEnabledMeans | clue_webui/src/pages/ExperimentPage.tsx:21-26 | deploying is possible exactly when a SUT, a variant and a workload are chosen and the iterations are positive |
| ExperimentPage.FixedReduceCounts | clue_webui/src/pages/ExperimentPage.tsx:106-111 | every workload counts three minutes |
| ExperimentPage.PerIteration | clue_webui/src/pages/ExperimentPage.tsx:107-111 | minutes per iteration are three per workload, with no waits |
| ExperimentPage.VariantTotals | clue_webui/src/pages/ExperimentPage.tsx:107-117 | one row per selected variant, in order, with the per-iteration minutes times the iterations |
| ExperimentPage.OverallTotal | clue_webui/src/pages/ExperimentPage.tsx:118 | the whole run is variants times three minutes per workload times iterations |
| ExperimentPage.DeploySut | clue_webui/src/pages/ExperimentPage.tsx:120-133 | a request is sent exactly when deploying is enabled, carrying the SUT, the iterations, deploy-only and the comma-joined variants and workloads |
| ExperimentPage.PostedListsSplitBack | clue_webui/src/pages/ExperimentPage.tsx:128-129 | names without commas are recovered by splitting the posted lists |
| ExperimentPage.PostedVariantsSelected | clue_webui/src/pages/ExperimentPage.tsx:128 | the service's variant selector recovers the chosen variants, unless the only one is named "all" |
| ExperimentPage.JoinedIsNotAll | clue_webui/src/pages/ExperimentPage.tsx:128 | a joined list of comma-free names other than the single "all" is not "all" |
| ExperimentPage.VariantNamedAllSelectsEverything | clue_webui/src/pages/ExperimentPage.tsx:128 | a single variant named "all" is posted as "all", which the service reads as every variant |
| ExperimentPage.QueueAfterFetch | clue_webui/src/pages/ExperimentPage.tsx:36-55 | an array reply becomes the queue; a failed request or any other reply leaves it empty |
| ControlsPage.WorkloadTime | clue_webui/src/pages/ControlsPage.tsx:21-107 | three minutes for the four known workloads, 0 for anything else |
| ControlsPage.VariantOptions | clue_webui/src/pages/ControlsPage.tsx:80-82 | an experiment is offered exactly when some SUT named as the selection lists it |
| ControlsPage.SelectAllWorkloads | clue_webui/src/pages/ControlsPage.tsx:319-326 | checking gives one entry per static option, each `undefined` since the options are strings without a name; clearing gives none |
| ControlsPage.ToggleWorkload | clue_webui/src/pages/ControlsPage.tsx:336-345 | a box flips `undefined` in the selection, whatever option it stands for |
| ControlsPage.SelectAllWorkloadsFixed | clue_webui/src/pages/ControlsPage.tsx:319-326 | checking selects every static option by its name, in order; clearing selects none |
| ControlsPage.ToggleWorkloadFixed | clue_webui/src/pages/ControlsPage.tsx:336-345 | the option's box flips that option and leaves every other entry |
| ControlsPage.ReduceAddsMinutes | clue_webui/src/pages/ControlsPage.tsx:109-112 | the reduce adds the workloads' minutes to its start |
| ControlsPage.MinutesBounded | clue_webui/src/pages/ControlsPage.tsx:107-112 | at most three minutes per workload, and none when every entry is `undefined` |
| ControlsPage.PerIteration | clue_webui/src/pages/ControlsPage.tsx:108-112 | minutes per iteration are the selected workloads' minutes |
| ControlsPage.OverallTotal | clue_webui/src/pages/ControlsPage.tsx:108-119 | the whole run is experiments times minutes per iteration times iterations |
| ControlsPage.DeploySut | clue_webui/src/pages/ControlsPage.tsx:121-134 | a request is sent exactly when a SUT, an experiment and a workload are chosen with positive iterations, carrying the comma-joined lists |
| ControlsPage.SelectAllLosesNames | clue_webui/src/pages/ControlsPage.tsx:319-326 | as written, "select all" shows checked but estimates 0 minutes and posts the workloads ",,," |
| ControlsPage.ToggleLosesName | clue_webui/src/pages/ControlsPage.tsx:336-345 | as written, ticking one workload selects `undefined`, worth 0 minutes |
| ControlsPage.SelectAllFixedKeepsNames | clue_webui/src/pages/ControlsPage.tsx:319-326 | selecting by name estimates 12 minutes per iteration and posts the four names |
| ControlsPage.AllKnownMinutes | clue_webui/src/pages/ControlsPage.tsx:107-112 | known workloads count three minutes each |
| DashboardPage.QueueOf | clue_webui/src/pages/DashboardPage.tsx:43-60 | the reply's `queue` when it is an array, otherwise an empty queue |
| DashboardPage.Fetched | clue_webui/src/pages/DashboardPage.tsx:37-71 | a failed fetch empties the queue and resets the index; otherwise the queue is replaced and an index past its end goes back to 0, so the index stays on an entry |
| DashboardPage.Next | clue_webui/src/pages/DashboardPage.tsx:131-135 | "next" moves on only while a later entry exists |
| DashboardPage.Previous | clue_webui/src/pages/DashboardPage.tsx:137-141 | "previous" moves back only while an earlier entry exists |
| DashboardPage.NavigationKeepsIndexValid | clue_webui/src/pages/DashboardPage.tsx:131-141 | the buttons keep the index on an entry |
| DashboardPage.NavigationUndoes | clue_webui/src/pages/DashboardPage.tsx:131-141 | "previous" undoes a "next" that moved, and the other way round |
| DashboardPage.NextReachesLast | clue_webui/src/pages/DashboardPage.tsx:131-158 | pressing "next" often enough reaches the last entry |
| DashboardPage.Displayed | clue_webui/src/pages/DashboardPage.tsx:82 | the entry at the index when it exists and is truthy, otherwise the draft form |
| DashboardPage.EmptyQueueShowsDraft | clue_webui/src/pages/DashboardPage.tsx:82 | an empty queue shows the draft |
| ResultsSection.DefaultPanels | clue_webui/src/components/results/ResultsSection.tsx:62-69 | with workloads and variants, a single panel for the first of each at iteration 0; otherwise the panels stay |
| ResultsSection.AddPanel | clue_webui/src/components/results/ResultsSection.tsx:114-132 | without a selection nothing happens; otherwise the selection's panel is appended unless its id is shown, and the dialog closes reset |
| ResultsSection.AddPanelKeepsIdsDistinct | clue_webui/src/components/results/ResultsSection.tsx:114-132 | adding never makes two panels share an id, and afterwards the selection's panel is shown |
| ResultsSection.WithoutId | clue_webui/src/components/results/ResultsSection.tsx:136 | exactly the panels with other ids survive |
| ResultsSection.WithoutIdKeepsDistinct | clue_webui/src/components/results/ResultsSection.tsx:136 | removing keeps distinct ids distinct |
| ResultsSection.RemovePanel | clue_webui/src/components/results/ResultsSection.tsx:135-147 | the panels with that id and their metrics and plots go; nothing else changes |
| ResultsSection.RemovePanelKeepsIdsDistinct | clue_webui/src/components/results/ResultsSection.tsx:135-147 | removing a panel keeps ids distinct |
| ResultsSection.RemoveUndoesAdd | clue_webui/src/components/results/ResultsSection.tsx:114-147 | adding a new panel and removing it leaves the panels as they were |
| ResultsSection.WithoutIdAppended | clue_webui/src/components/results/ResultsSection.tsx:118-136 | removing an appended id that was not shown gives the list back |
| ResultsSection.Loaded | clue_webui/src/components/results/ResultsSection.tsx:96-111 | a panel's metrics and plots are stored under its id, the rest untouched |
| ResultsSection.Retarget | clue_webui/src/components/results/ResultsSection.tsx:267-320 | the panel with that id takes the new selection and the id made from it; every other panel stays |
| ResultsSection.RetargetCanDuplicateIds | clue_webui/src/components/results/ResultsSection.tsx:267-320 | unlike adding, retargeting onto another panel's selection gives two panels one id |
| ResultsSection.HyphenatedNamesShareId | clue_webui/src/components/results/ResultsSection.tsx:116 | names containing '-' can give two selections one id |
| ResultsSection.GridColumns | clue_webui/src/components/results/ResultsSection.tsx:149-154 | one column per panel up to two, otherwise three |
| ResultsPages.WithoutKey | clue_webui/src/pages/ResultsPage.tsx:32 | exactly the rows whose key differs from the clicked one survive |
| ResultsPages.Deleted | clue_webui/src/pages/ResultsPage.tsx:26-36 | a failed delete keeps the rows; an ok one drops exactly the rows with that key |
| ResultsPages.DeleteByUuid | clue_webui/src/pages/ResultsPage.tsx:26-36 | after an ok delete exactly the rows with that uuid are gone |
| ResultsPages.DeleteKeepsOthers | clue_webui/src/pages/ResultsPage.tsx:32 | rows without that uuid survive, in order |
| ResultsPages.DeleteByMissingIdDropsAll | clue_webui/src/pages/ExperimentsResultsPage.tsx:24-34 | deleting by an `id` the entries do not have drops every row |
| ResultsPages.ResultsFetched | clue_webui/src/pages/ResultsPage.tsx:42-52 | the reply replaces the list; a failed fetch keeps it |
| ResultsPages.FailedFetchLeavesEmpty | clue_webui/src/pages/ResultsPage.tsx:42-52 | a failed first fetch leaves the page empty |
| ResultsPages.ExperimentResultsFetched | clue_webui/src/pages/ExperimentsResultsPage.tsx:37-47 | the reply's `results` array, or no list when it has none; a failed fetch, and a `null` reply on which reading `results` throws, keep the list |
| ResultsPages.ArrayReplyLeavesNoList | clue_webui/src/pages/ExperimentsResultsPage.tsx:43-44 | an array reply, as the service sends, leaves the page without a list |
| ResultsPages.StatusColour | clue_webui/src/pages/ResultsPage.tsx:54-65 | orange, red and green exactly for the three known statuses, gray otherwise |
| SettingsPage.NumericFields | clue_webui/src/pages/SettingsPage.tsx:76-78 | the timeout, port and utilization fields are edited as numbers |
| SettingsPage.NumberOf | clue_webui/src/pages/SettingsPage.tsx:79 | an integer or NaN, and 0 for the empty text |
| SettingsPage.DigitsOfNat | clue_webui/src/pages/SettingsPage.tsx:79 | reading back a number's digits gives the number |
| SettingsPage.NumberOfDecimal | clue_webui/src/pages/SettingsPage.tsx:79 | a number typed as its decimal text is stored as that number |
| SettingsPage.Fetched | clue_webui/src/pages/SettingsPage.tsx:45-53 | both copies take the fetched configuration; a failed fetch changes nothing |
| SettingsPage.Changed | clue_webui/src/pages/SettingsPage.tsx:71-82 | without a configuration nothing; otherwise the field takes the number or text typed and every other field keeps its value |
| SettingsPage.RetypingRestores | clue_webui/src/pages/SettingsPage.tsx:71-82 | typing a text field's value back in restores the configuration |
| SettingsPage.Upload | clue_webui/src/pages/SettingsPage.tsx:55-63 | nothing is sent without a file or when `btoa` throws on a character above U+00FF; otherwise the file and the patch box |
| SettingsPage.Uploaded | clue_webui/src/pages/SettingsPage.tsx:64-68 | the status line tells whether the upload was ok |
| SettingsPage.SaveStarted | clue_webui/src/pages/SettingsPage.tsx:84-91 | a save starts exactly with a configuration, sending it and disabling the button |
| SettingsPage.Saved | clue_webui/src/pages/SettingsPage.tsx:92-108 | an ok answer updates both copies and shows success; a refusal shows failure; both enable the button, while a rejected request leaves the state |
| SettingsPage.SaveOutcome | clue_webui/src/pages/SettingsPage.tsx:84-108 | after an ok save the edited copy is the saved one; the button is enabled again exactly when the request settled |
| AddSutPage.ParseName | clue_webui/src/pages/AddSutPage.tsx:14-17 | a name is captured exactly when some line matches the pattern, and it is non-empty and made of name characters |
| AddSutPage.WithSuffix | clue_webui/src/pages/AddSutPage.tsx:19 | the file name always ends with ".yaml", and a name with it is kept |
| AddSutPage.StripSuffix | clue_webui/src/pages/AddSutPage.tsx:58 | one trailing ".yaml" is removed, and a name without it is kept |
| AddSutPage.StripUndoesSuffix | clue_webui/src/pages/AddSutPage.tsx:19-58 | stripping undoes suffixing a name without the suffix |
| AddSutPage.Parsed | clue_webui/src/pages/AddSutPage.tsx:14-21 | without a match the page stays; otherwise the captured name becomes the SUT name and, suffixed, the file name |
| AddSutPage.ParsedNameGainsSuffix | clue_webui/src/pages/AddSutPage.tsx:15-19 | a captured name has no '.', so its file name is the name followed by ".yaml", and stripping it gives the name |
| AddSutPage.DefaultFetched | clue_webui/src/pages/AddSutPage.tsx:23-31 | the default configuration fills the editor and is parsed; the chosen file stays |
| AddSutPage.FileLoaded | clue_webui/src/pages/AddSutPage.tsx:33-38 | a chosen file's text fills the editor, the file is remembered, and the text is parsed |
| AddSutPage.NameChanged | clue_webui/src/pages/AddSutPage.tsx:55-59 | the field shows what was typed, and the SUT name is that without a trailing ".yaml" |
| AddSutPage.Blurred | clue_webui/src/pages/AddSutPage.tsx:132-137 | leaving the field adds ".yaml" to a non-empty name without it, and otherwise changes nothing |
| AddSutPage.FinalName | clue_webui/src/pages/AddSutPage.tsx:63 | the SUT name when set, otherwise the file name without ".yaml" |
| AddSutPage.TypedNameIsFinal | clue_webui/src/pages/AddSutPage.tsx:55-63 | whatever was typed last is, without ".yaml", the name written |
| AddSutPage.BlurKeepsFinalName | clue_webui/src/pages/AddSutPage.tsx:63-137 | leaving the field never changes the name written |
| AddSutPage.ExpandPlain | clue_webui/src/pages/AddSutPage.tsx:66 | a replacement without `$` is inserted as it is |
| AddSutPage.SutLine | clue_webui/src/pages/AddSutPage.tsx:66 | the new line is two spaces, "sut: ", then the name in quotes |
| AddSutPage.Rewritten | clue_webui/src/pages/AddSutPage.tsx:62-68 | without a final name or a `sut:` line the text is sent as it is |
| AddSutPage.SutLineParsed | clue_webui/src/pages/AddSutPage.tsx:15-66 | the new line, at a line start, is matched by the name pattern and yields the name |
| AddSutPage.ParsedAt | clue_webui/src/pages/AddSutPage.tsx:15-17 | the first line matching the name pattern decides what is parsed |
| AddSutPage.RewrittenAt | clue_webui/src/pages/AddSutPage.tsx:66 | the first `sut:` line, from its start to the end of its value, is replaced by the new line |
| AddSutPage.RewriteThenParse | clue_webui/src/pages/AddSutPage.tsx:14-68 | writing a name back and parsing the result gives that name |
| AddSutPage.AddSut | clue_webui/src/pages/AddSutPage.tsx:61-78 | the rewritten text is sent exactly when `btoa` accepts it, and the page moves on only after an ok answer |
| Cbmg.Node.constructor | loadgenerator/consumerbehavior.py:35-39 | a new node holds its name and task and has no outgoing edges |
| Cbmg.CbmgState.constructor | loadgenerator/consumerbehavior.py:20-24 | a new graph has no nodes, no edges and no current node |
| DeployGuard.Guard.constructor | clue_deployer/src/service/service.py:29 | the shared deploying flag starts at 0 and no deployment has been started |
| FixedQueues.FixedQueue.constructor | clue_deployer/src/agent/psc/tracker.py:372-374 | an empty queue whose bound is the given size, satisfying the queue's invariant |
| FlushingQueues.FlushingQueue.constructor | clue_deployer/flushing_queue.py:7-11 | an empty queue with the given buffer size and fields, nothing written or put yet, and the invariant that written rows plus queued items are everything put |
| ExperimentQueues.ExperimentQueue.constructor | clue_deployer/src/service/experiment_queue.py:7-11 | an empty queue with no unfinished tasks and no last experiment |
| SharedQueue.SharedExperimentQueue.constructor | clue_deployer/src/service/shared_experiment_queue.py:7-11 | an empty shared list and no last deploy request |
| RequestCounters.RequestCounter.constructor | loadgenerator/main.go:46 | both counters start at 0 |
| RequestCounters.SignalHandler.constructor | loadgenerator/main.go:51 | the time of the last signal starts at the given start time |
| ExperimentLists.ExperimentList.constructor | clue_deployer/src/experiment_list.py:10-12 | the list holds exactly the given experiments |
| VariantsLists.VariantsList.constructor | clue_deployer/src/variants_list.py:10-12 | the list holds exactly the given variants |
| ExperimentLists.NewLoaded | clue_deployer/src/experiment_list.py:24-33 | each configured experiment gets a new environment of its own, tagged "scale" by the CPU-bound setting, with no workload settings |
| SutConfig.BuildWith | clue_deployer/src/configs/sut_config.py:12-57 | building fails exactly when some field is invalid or unknown, reports exactly those errors, and on success keeps the data as given |

## Left out

- Kubernetes, Helm, Docker, git and Prometheus calls: their outcomes are parameters (helm's return code and output, whether dependencies were built, the query results, the pod list).
- The helm subprocess of `HelmClient` and the `uninstall`, `_add_helm_repos` and `_build_dependencies` steps of the deployer's `HelmWrapper`: only their outcome is modelled.
- File I/O: reading, writing and deleting files and directories are changes of a modelled file map or directory tree; a `PermissionError` (answered 500) and the creation of the download zip are not modelled.
- JSON, YAML and base64 parsing and printing, and the server-sent-event framing: decoded values are parameters, and encoded ones are the values before encoding.
- Regular expressions of the web UI are modelled by the scans they perform (the first matching line start; `\s*` may cross line breaks and `.*` stops at one); no general regular-expression engine is modelled.
- The fetch, EventSource and interval lifecycles of the React pages, and render-only fields: only the state updates are modelled, with each request's outcome as a parameter.
- Locks, conditions and the multiprocessing manager: each queue operation and each deployment request is one atomic step; blocking calls (a `get` on an empty queue, `take` beyond the queue's size) are excluded by preconditions instead of waiting.
- The tracker's `RepeatTimer`, `track()` and its Prometheus and Kubernetes clients.
- The random choices of the load generator: `execute_task` takes the picked index, and the random ids drawn inside the tasks are not modelled; `get_out_percentages` (float division for display) is not modelled.
- Floating point: load-shape shares are exact rationals and JavaScript numbers are integers; `Number(text)` in the settings page yields NaN for fractions and exponents.
- pydantic behaviour beyond presence, type and unknown-key checks: lax coercion (such as "180" to 180), `env_prefix` and `.env` overrides, `lru_cache`, and the conversion of the items of the four lifted lists into their models.
- SutConfig: `model_dump` of the deployer's `SUTConfig` is not modelled; the configuration keeps the parsed values.
- Path handling is POSIX strings with `/`, `.name` and `.stem`; no normalisation of `..` or repeated slashes.
- The result-detail endpoint's metrics and plots: they are opaque values.
- The logs router's `clear_logs` endpoint and the `__str__`, `__repr__` and logging output of the deployer's classes.
- `Array.prototype` and `Object.prototype` property names used as workload names in the web UI.
- clue_deployer/scaling_experiment_setting.py, the enum the older `HelmWrapper` compares against, is not part of this model; its members are taken to be those of the other copies.
- The packaged src/clue_deployer/experiment.py is modelled by the `Experiments` module together with the deployer's copy.
- ExperimentLists.ExperimentList.AddWorkloads: states the copies, their order and the final workload settings of each environment; the tags each environment collects are stated per call (`SetWorkloadCopy`) rather than for the whole expansion.
- VariantsLists.VariantsList.AddWorkloads: the same as for the experiment list.
- Environments.Environment.Attributes: the environment classes are not part of this model; their `__dict__` is taken to hold the constructor's other attributes first, then `timeout_duration`, `workload_settings` and `tags`. The value under each key is what the model sets, but this key order is an assumption, and it decides the order of the keys an experiment's JSON adds after the description's.
- SharedQueue.SharedExperimentQueue.DequeueBlocking: states the dequeue the method evidently intends once a request is waiting. As written it holds the manager's lock through `with self.condition` and then calls `dequeue`, which takes the same non-reentrant lock again, so the call never returns. Locks are not modelled, so this deadlock is not captured; nothing in the repository calls the method.
- Kubeconfig.PatchConfig: a YAML float as a server, or a configuration whose entries lack the `cluster` mapping, is not modelled; the JSON-like values have no floats, and entries are typed.

## Findings

| source | as written | input that shows it | evidently intended | confidence | as-written member | corrected member |
|---|---|---|---|---|---|---|
| clue_deployer/src/configs/sut_config.py:47-57 | `get_sut` validates `sut` before `sut_path`, so its fallback to the path's stem never sees `sut_path` | `sut: ""` with `sut_path: /app/teastore.yaml` | the SUT named `teastore` | not executed | SutConfig.EmptySutStaysEmpty | SutConfig.FixedSutFromPath |
| clue_deployer/src/configs/sut_config.py:59-69 | `target_host` computes a slash-normalised path and then joins the raw one | `workload_target: webui`, `application_endpoint_path: tools` gives `http://webuitools` | `http://webui/tools` | not executed | Settings.TargetUrlJoinsHostAndPath | SutConfig.TargetHostFixed |
| clue_webui/src/pages/ControlsPage.tsx:319-326 | the workload handlers read `w.name` of plain string options | "select all" stores four `undefined` entries, estimated at 0 minutes and posted as ",,," | the four workload names selected, 3 minutes each | not executed | ControlsPage.SelectAllLosesNames | ControlsPage.SelectAllFixedKeepsNames |
| clue_deployer/src/service/routers/queue.py:101-112 | the handler calls `remove`, which the queue does not define | one queued request, index "0" | the request removed, 204 | not executed | QueueRouter.DeleteAsWrittenNeverRemoves | QueueRouter.DeleteQueueItem |
| clue_deployer/src/models/workloads.py:14-131 | no workload subclass defines the abstract `set_workload`, so none can be instantiated | any workload type | the workload with its settings | not executed | ModelWorkloads.AsWrittenAlwaysFails | ModelWorkloads.GetWorkloadInstance |
| clue_deployer/src/experiment_list.py:53-64 | the copies of an experiment share one environment, so the last workload's settings win for all | one experiment, two workloads | one environment per copy | not executed | ExperimentLists.CopiesShareEnvironments | ExperimentLists.ExperimentList.AddWorkloadsIsolated |
| clue_deployer/src/variants_list.py:58-69 | the copies of a variant share one environment, so the last workload's settings win for all | one variant, two workloads | one environment per copy | not executed | VariantsLists.CopiesShareEnvironments | VariantsLists.VariantsList.AddWorkloadsIsolated |
| clue_webui/src/components/LogsPanel.tsx:37-123 | on mount the panel keeps the fetched lines and the stream replays the whole buffer after them | a buffer holding one line | each line shown once | not executed | LogsPanel.MountShowsBufferTwice | LogsPanel.MountOnceMirrorsBuffer |
| clue_deployer/src/service/service.py:467-494 | `deploy_sut` sets `is_deploying` and then loads `Config(...)` outside the `try` that clears it, so a load that raises leaves the flag set with no process to clear it | a SUT file whose configuration fails to load, then any deploy request | the flag cleared and 500; later deploys accepted | not executed | DeployGuard.FailedLoadBlocksRequests | DeployGuard.FixedBusyIffDeploying |
