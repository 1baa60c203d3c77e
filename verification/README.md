# KubeEye: a verified model

KubeEye inspects Kubernetes clusters. Inspection rules are compiled into jobs, a plan creates tasks on a cron schedule, a
task runs its jobs and collects their results, and the results are scored, counted and served page by page. This project
models the parts of it that hold algorithms, state or concurrency, and proves what they promise.

| Modules | What they model |
|---|---|
| `RuleItems`, `RuleAllocation`, `RuleCompiler`, `TaskRules` | giving rules the nodes a task names, merging many rules, removing duplicate names, placing rules on nodes through shared maps that are rewritten in place, and what comes of it on each node |
| `OpaRules`, `OpaPool` | grouping rego rules, and the worker pool that checks cluster objects against them: unbuffered channels, batches, the order of closing, the collector |
| `JobRunner`, `Phases` | one goroutine a job, the semaphore, the polling loop, the mutex, and the phase the task ends in |
| `TaskLifecycle` | the phases and time stamps of a task over every run of reconciles |
| `PlanSchedule`, `TaskRetention`, `PlanListing` | when a plan fires, what its tasks are called, which are kept and which are listed |
| `RuleJoin`, `RuleCount` | labels and counters that tie plans to the rules they use, and what they come to over whole runs |
| `QuotedText`, `SampleText` | printing a Prometheus sample as text and parsing it back |
| `Paging`, `Score`, `IssueCount` | pages of a list, the score, and issue counts by level |
| `Wrappers`, `Sequences`, `Totals`, `Arithmetic` | options, list helpers, sums and facts about division |

The two executors are step relations. A schedule is any sequence of steps each of which is enabled where it is taken, so a
lemma about schedules is about every interleaving. Reconciles are atomic steps over a store. In `TaskLifecycle` every call
to the API server may fail; in `PlanSchedule` creating a task and storing a status may; in `RuleCount` storing a plan may,
and any rules may be out of reach; in `OpaPool` fetching objects may. Maps are visited in any order. Times are whole
milliseconds. The first rows of the table below are the main theorems.

## What the code does that one might not expect

The model follows the code. The lemmas named here pin down where it departs from the plain intent.

- A selector with several keys is decided by the key that map iteration visits last (`RuleItems.SelectionIsAmbiguousIff`).
  Placement is exact if and only if the item is unambiguous (`RuleItems.MeaningKeptIff`); otherwise some order of the keys
  places it on a node it is not meant for (`RuleItems.RunsMeantIff`). An item with a blank node name and no selector runs
  nowhere; so do the items of a rule that a task names with an empty selector and no node (`TaskRules.TaskRuns`).
- Node statistics under a version other than v1 are collected but never checked (`OpaPool.RunInspect`). Without workers the
  pool returns nothing and its sender waits forever (`OpaPool.WithoutWorkers`).
- A job of an unregistered type that starts late still fails the task (`JobRunner.OutcomeIff`).
- A wake-up at exactly the instant a plan asked for is not due unless an activation had already passed
  (`PlanSchedule.WakeOnTheDot`). A lost status patch leaves a plan due, and it fires again with the next reconcile
  (`PlanSchedule.SeparatedIffPatient`, `PlanSchedule.LostPatchFiresTwice`), and its task may stay unlisted
  (`PlanListing.ListingIff`).
- An unjoined rule in front of a joined one is never joined (`RuleJoin.JoinsAllIff`). A plan whose last rule does not exist
  asks to join forever (`RuleJoin.JoinsForeverIff`). Removing a rule from a plan never clears the plan's label, so every
  reconcile removes again and drains the rule's counter (`RuleJoin.RemovalNeverSettles`, `RuleCount.RemovedNameCountsDown`).
  Deleting a joined rule and creating it again, or losing the plan update after a join, breaks the count
  (`RuleCount.StepKeepsIff`, `RuleCount.RecreatedRuleMiscounts`, `RuleCount.LostUpdateCountsTwice`).
- The page offset is computed with the default size before the size is read (`Paging.TilesIff`), and its product can wrap
  (`Paging.PageIsIff`), as it does for the page number of `Paging.WrapsToFour`. A large page size makes the end of a page
  overflow and the slice panic (`Paging.NoneCrashesIff`).
- The score divides by zero when everything is ignored (`Score.NoScoreIff`), and leaves the range of a percentage under the
  condition in `Score.ScoreInRangeIff`.

## Model

| member | source | states |
|---|---|---|
| `RuleCompiler.CompilationKeepsMeaning` | pkg/rules/rules.go:203-284 | Of a compiled job list: for every node-scoped kind and every node, the first-listed rule of each name is run exactly once if the rule is meant for the node and never otherwise, provided it is unambiguous; and nothing runs there that is not the first of its name in the rules as the task schedules them |
| `TaskRules.TaskRuns` | pkg/rules/rules.go:57-284 | How often an item of a node-scoped kind that is the first of its name runs on a node, from the rule as it was written and the node and selector the task names: once on the node it names, or the task's if it has neither node nor selector; without a node once wherever its selector matches wholly, at most once where it matches in part, nowhere else; with neither once on every node, but nowhere under a blank node name |
| `RuleCompiler.CompileJobs` | pkg/rules/rules.go:203-317 | From the rules a task names to the sorted job list: the batch merge of the scheduled rules, one whole-list job for each cluster-scoped kind, allocated jobs for each other kind, one component job, and the OPA job last; `TaskRules` says what such a list runs |
| `RuleItems.MeaningKeptIff` | pkg/rules/rules.go:101-126 | An item runs on exactly the nodes it is meant for, in every map order, if and only if it is unambiguous: it names a node, has no selector at all, or its selector matches each node wholly or not at all; a blank node name without selector is not unambiguous unless there are no nodes |
| `RuleItems.RunsMeantIff` | pkg/rules/rules.go:101-126 | Over all ways the selector loops may order the keys, one order a node: an item runs on exactly the nodes it is meant for in all of them iff it is unambiguous |
| `RuleAllocation.AllocationRule` | pkg/rules/rules.go:57-99 | The jobs of one node-scoped kind: every job is non-empty and all its rules name the one node it runs on, and every item is counted once on the nodes it must run on and at most once where it may, never elsewhere, although all snapshots are taken of the same maps rewritten in place |
| `OpaPool.EveryRun` | pkg/collectors/opa/checker.go:27-111 | For every interleaving with at least one worker: no goroutine sends on a closed channel, some step is enabled until the pool returns, the number of steps is bounded, and what is returned is, as a multiset, what the queued tasks report |
| `OpaPool.RunInspect` | pkg/inspect/opa_inspect.go:32-82 | The whole inspection: fails iff some rule has no kind or the objects of its kind cannot be fetched; otherwise its results are, as a multiset, those of checking each object once against the rules about its key (`OpaPool.ReferenceIs`, `OpaRules.ItemsAre`), except that node statistics of a version other than v1 report nothing |
| `OpaPool.ReferenceIs` | pkg/collectors/opa/checker.go:132-192 | A result with items is due as often as the cluster holds an object of its key with its name and its namespace, or no namespace for node statistics, that answers just those items to the rules about the key; one without items never |
| `OpaRules.ItemsAre` | pkg/collectors/opa/checker.go:140-186 | The items of an object, rule by rule: for a rule that cannot be prepared or evaluated one item with its level, its reason and the error; otherwise one for each violation the rule answers, with level, message and reason, in order; nothing else |
| `OpaPool.PoolIsSequentialIff` | pkg/collectors/opa/checker.go:57-129 | The results due are those of the sequential check, for every rego, if and only if node statistics sit exactly under the v1 key |
| `JobRunner.EveryRun` | pkg/controllers/inspecttask_controller.go:351-402 | For every interleaving: never more jobs in flight than the semaphore allows, some step is enabled until all goroutines are gone, and the number of steps is bounded by jobs times polls |
| `JobRunner.OutcomeIff` | pkg/controllers/inspecttask_controller.go:308-401 | The task is Succeeded iff some job has a registered type, none started late, and every registered one was deployable, created, last observed complete and its data fetched; the phase of an unregistered job in time does not matter |
| `JobRunner.RunOutcome` | pkg/controllers/inspecttask_controller.go:308-401 | For every interleaving, once the runner has returned there are phases and none is failed under just that condition |
| `TaskLifecycle.EveryRun` | pkg/controllers/inspecttask_controller.go:92-206 | Every run of reconciles, any call failing, with deletion at any time: an unset task becomes Running at most, only a Running one whose start time is set becomes Succeeded or Failed, and that never changes; neither does the start time, and the end time is set at most once and only after the end |
| `TaskLifecycle.QuiescentAfterFour` | pkg/controllers/inspecttask_controller.go:92-206 | A live task is over, stamped and quiet after four successful reconciles, and not before |
| `TaskLifecycle.InspectionDecides` | pkg/controllers/inspecttask_controller.go:192-206 | The terminal phase stored after an inspection is Succeeded iff some job is registered, none late, and all registered ones deployable, created, complete and fetched, for every interleaving of the jobs; the phases of the jobs are stored |
| `PlanSchedule.SeparatedIffPatient` | pkg/controllers/inspectplan_controller.go:178-206 | Over every run with status patches lost anywhere and a clock that does not go back: any two firings have an activation and the padding between them iff no reconcile that could fire comes within that time after a firing whose patch was lost |
| `PlanSchedule.FiringsAreSeparated` | pkg/controllers/inspectplan_controller.go:178-206 | Over every run whose status patches land, any two firings of a cron plan have an activation strictly between them |
| `PlanSchedule.FiringsAreCounted` | pkg/controllers/inspectplan_controller.go:178-206 | Firings never exceed the activations strictly between the first and the last, plus one |
| `PlanSchedule.TasksAreRetained` | pkg/controllers/inspectplan_controller.go:178-206 | For a minute-aligned schedule, over every such run: all created names are distinct, the stored tasks are those of the latest firings up to MaxTasks, and the status lists their names oldest first |
| `PlanListing.ListingIff` | pkg/controllers/inspectplan_controller.go:178-206 | Over every run of a minute-aligned cron plan with status patches lost anywhere: never more tasks than a positive MaxTasks, distinct names, and the listed names are those of the tasks iff a firing in the newest task's minute was stored, or, below MaxTasks, one in each task's minute |
| `RuleCount.EveryRun` | pkg/controllers/inspectplan_controller.go:79-117 | Over every run in which rules are created and deleted, plans created, given and deprived of names, and deleted, rules out of reach and plan updates lost, at any time: at every point each rule's counter is the number of plan labels on it, and its own labels are those plans, iff every event keeps it so; and no plan label is stale unless a name was taken off |
| `RuleCount.StepKeepsIff` | pkg/controllers/inspectplan_controller.go:79-117 | Which events keep that: creating a rule iff no plan has a label for it; a join iff the plan is stored or no rule is reached; a removal iff no rule of a stale label is reached; a deletion that is stored iff it reaches every joined rule under a name of the plan and, besides, only rules whose counter reads zero, one that is not iff it reaches only the latter; all other events |
| `RuleJoin.JoinSettlesIff` | pkg/controllers/inspectplan_controller.go:90-107 | After the rules have been joined the next reconcile asks for nothing iff the last rule of the plan exists |
| `RuleJoin.JoinsForeverIff` | pkg/controllers/inspectplan_controller.go:90-107 | A plan with rules to join is asked to join again after every one of any number of reconciles iff its last rule does not exist |
| `RuleJoin.RemovalNeverSettles` | pkg/controllers/inspectplan_controller.go:394-420 | A stale label is never cleared: every reconcile removes again and takes one off the rule's counter until it is zero, for every order of the labels |
| `RuleJoin.RemoveIsSubAll` | pkg/controllers/inspectplan_controller.go:394-445 | The order in which stale labels are visited makes no difference |
| `SampleText.RoundTripIff` | apis/kubeeye/v1alpha2/inspectresult_types.go:149-157 | For every sample: parsing its text gives a map iff no text has a character that is printed with an escape foreign to JSON; the keys are those of the entries with colons for equal signs; and every entry is found iff no two entries with one such key differ |
| `SampleText.PlainRoundTrip` | pkg/inspect/prometheus_inspect.go:106-128 | Parsing a printed sample of readable text without equal signs and without a label named like the three added entries gives back its labels and those entries; quotes, backslashes and the escapes JSON shares are included |
| `SampleText.PlainEntryFound` | pkg/inspect/prometheus_inspect.go:106-128 | The same key by key: each label but the name with its value, and value, timestamp and metric name, the last empty without a name; no other key |
| `SampleText.OneText` | pkg/inspect/prometheus_inspect.go:118-127 | The text does not depend on the order in which labels are visited |
| `Paging.PagesTile` | pkg/server/query/query.go:115-184 | At the default size the pages one after the other give each item of the listing once and in order, and every page past the end is empty |
| `Paging.TilesIff` | pkg/server/query/query.go:115-133 | For a positive size and a listing without repetition: as many pages as hold the listing give each item once and in order iff the size is ten or one page holds the listing, because the offset steps by ten whatever the size is |
| `Paging.PageIsIff` | pkg/server/query/query.go:115-125 | Page n at the default size is the n-th ten of the listing iff its offset does not wrap around 64 bits into the listing |
| `Paging.NoneCrashesIff` | pkg/server/query/query.go:115-184 | No page number that fits 64 bits is cut out of range iff the page size added to the last even position of the listing does not overflow: the offsets that page numbers reach, wrapped or not, are the even ones |
| `Score.ScoreBounds` | pkg/inspect/kubeeyeinspect.go:43-46 | With no more findings than items and not everything ignored the score is a percentage, and 100 iff there is neither danger nor warning |
| `Score.ScoreInRangeIff` | pkg/inspect/kubeeyeinspect.go:43-46 | Also with more findings than items: the exact condition under which the score is a percentage |
| `Score.WorseNeverScoresHigher` | pkg/inspect/kubeeyeinspect.go:43-46 | Turning a passing item into a warning, or a warning into a danger, never raises the score |
| `IssueCount.IssuesAreConserved` | pkg/controllers/inspectresult_controller.go:169-237 | All counters add up to the three OPA counts and, over the nine lists named one by one, one for each asserted item, or all its issues if it lists any |
| `IssueCount.LevelIsExact` | pkg/controllers/inspectresult_controller.go:169-237 | The counter of each level is its OPA count, if it has one, and the issues of that level in the nine lists named one by one |
| `IssueCount.ListsAre` | pkg/controllers/inspectresult_controller.go:205-237 | What a list counts, item by item: an asserted item of the level, one without a level being of danger, counts one; one of a file list counts its issues if it lists any |
| `RuleCompiler.SetRuleSchedule` | pkg/rules/rules.go:157-188 | The named rules in the order of the task, names without a rule skipped, each with the node and the selector of its name; `TaskRules.ScheduledItem` says what that does to an item |
| `TaskRules.ScheduledRules` | pkg/rules/rules.go:157-188 | The scheduled rules are those the task names, in its order, without the names no rule has; each keeps its kinds, the number of items of each, and its exclusions |
| `TaskRules.ScheduledItem` | pkg/rules/rules.go:167-177 | An item takes the node and the selector of the task's name for the rule iff it has neither, its kind is not one of the three that run once for the cluster, and the name gives a node or a selector; nothing else of it changes |
| `TaskRules.MeantForIs` | pkg/rules/rules.go:101-126 | An item is meant for the node it names or, without one, for the nodes whose labels its whole selector matches, a missing label reading as empty text |
| `TaskRules.BlankIs` | pkg/utils/utils.go:76-84 | Text without any visible character is blank, and any visible ASCII character makes it a name |
| `TaskRules.NothingElseRuns` | pkg/rules/rules.go:257-284 | On no node does a job run anything but items that the scheduled rules list under its kind |
| `TaskRules.WholeListJobs` | pkg/rules/rules.go:257-271 | A kind that runs once for the cluster has one job, with the first item of each name over all rules of the task in their order, and none if no rule lists any |
| `TaskRules.ComponentJob` | pkg/rules/rules.go:279-282 | One job inspects the components, with the exclusions of all rules one after the other |
| `TaskRules.IdsOnIs` | pkg/controllers/inspecttask_controller.go:654-667 | How often jobs run a rule on a node, job by job: as often as it is in the jobs of its type whose first rule names the node, the empty name standing for no particular one |
| `RuleCompiler.MergeRule` | pkg/rules/rules.go:203-255 | Folding deduplicate-after-append over the rules is the batch merge: per kind the first item of each name over everything listed; the total of each kind is the length of its list, and one for the component |
| `RuleCompiler.GenerateJob` | pkg/rules/rules.go:257-284 | Whatever order the kinds come in, each kind has the jobs it should have and there is one component job |
| `RuleCompiler.SortRuleOpaToAtLast` | pkg/rules/rules.go:306-317 | In place: the first OPA job moves to the end, the other jobs keep their order, and a list without one is unchanged |
| `RuleCompiler.SortKeepsGenerated` | pkg/rules/rules.go:287-317 | Moving the OPA job does not change which jobs there are of any type |
| `RuleItems.RuleArrayDeduplication` | pkg/rules/rules.go:20-37 | Computes the deduplicated list |
| `RuleItems.DedupKeepsFirst` | pkg/rules/rules.go:26-34 | An item survives deduplication if and only if it is the first of its name |
| `RuleItems.DedupIsOrdered` | pkg/rules/rules.go:26-34 | The survivors have distinct names, every name survives, and they stand in the order of first appearance |
| `RuleItems.DedupIncremental` | pkg/rules/rules.go:207-215 | Deduplicating a prefix first makes no difference |
| `RuleItems.SelectionIsAmbiguousIff` | pkg/rules/rules.go:110-116 | The selector loop keeps only the last key visited: some order selects a node iff some key matches, and some order rejects it iff some key does not |
| `RuleItems.Selects` | pkg/rules/rules.go:110-116 | Answers what the loop gives for some order of the keys; a selected node matches at least one key, and a rejected one does not match all |
| `RuleAllocation.PlacementAgrees` | pkg/controllers/inspecttask_controller.go:654-667 | The node a job is deployed on, read off its first rule, is the node every rule in the job names |
| `RuleAllocation.MergeNodeRule` | pkg/rules/rules.go:101-126 | By node: each targeted item once on every node it must run on, at most once where it may, and under each node only rules that name it |
| `RuleAllocation.SelectNodes` | pkg/rules/rules.go:110-116 | Includes every node the whole selector matches and none that matches no key, without repetition |
| `OpaPool.VailOpaRulesResult` | pkg/collectors/opa/checker.go:27-111 | An arbitrary scheduler run to the end returns, key by key, the results due |
| `OpaPool.MisplacedIsLost` | pkg/collectors/opa/checker.go:120-129 | A misplaced list with rules loses results: a rego that shows it |
| `OpaPool.DueIsReference` | pkg/collectors/opa/resources.go:62-98 | With the objects filed as they are collected, the results due under a key are those of the sequential check in list order, or nothing for an ignored key |
| `OpaPool.CollectAll` | pkg/inspect/opa_inspect.go:60-68 | The objects of every key, fetched in any order and filed by kind; nothing iff one of them cannot be fetched |
| `OpaPool.StepKeepsTotal` | pkg/collectors/opa/checker.go:30-111 | No step of any goroutine loses, duplicates or alters a result: collected and outstanding results together stay the same |
| `OpaPool.StepKeepsInv` | pkg/collectors/opa/checker.go:30-111 | Every step keeps the close protocol: the task channel closes only after the last send, the result channel only after every worker is gone |
| `OpaPool.StepDecreasesRank` | pkg/collectors/opa/checker.go:30-107 | Every step lowers a measure over unsent batches, unchecked objects, running workers and open phases |
| `OpaPool.NoDeadlock` | pkg/collectors/opa/checker.go:30-107 | In every state that keeps the invariant and has not returned, some step is enabled |
| `OpaPool.WithoutWorkers` | pkg/collectors/opa/checker.go:35-44 | With no workers nothing is ever received from the task channel and nothing is collected |
| `OpaPool.SendBatches` | pkg/collectors/opa/checker.go:66-77 | The batches tile the list exactly; none is empty or longer than the batch size |
| `OpaPool.BatchesReport` | pkg/collectors/opa/checker.go:66-77 | Cutting a list into batches, wherever the cuts fall, does not change what is reported |
| `OpaPool.SendLists` | pkg/collectors/opa/checker.go:59-98 | For the keys of a map in any order: the queued tasks report what the lists under keys with rules report |
| `OpaPool.SendTasks` | pkg/collectors/opa/checker.go:57-100 | Both loops together: the queue reports, key by key, the results due |
| `OpaRules.RulesManager.AddRule` | pkg/collectors/opa/opa.go:22-36 | Appends the rule to the group of its key and changes no other group; fails, changing nothing, iff the rule has no key |
| `OpaRules.RulesManager.AddRules` | pkg/inspect/opa_inspect.go:44-50 | Succeeds iff every rule has a key; then the groups are exactly the rules of each key in insertion order |
| `OpaRules.FindingsMembers` | pkg/collectors/opa/checker.go:132-192 | A result is reported iff it is the check of some object and has items |
| `OpaRules.RunRules` | pkg/collectors/opa/checker.go:140-186 | The items of one object as `OpaRules.ItemsAre` says: a rule that cannot be prepared or evaluated reports one item and does not stop the others, and each violation one |
| `OpaRules.ReadViolations` | pkg/collectors/opa/checker.go:171-184 | One item for each violation that is a map; others are skipped |
| `JobRunner.ComputedDeployNum` | pkg/controllers/inspecttask_controller.go:404-411 | The capacity is at least 5 and at least the number of nodes; above 5 it is within half of nodes plus a tenth of the jobs |
| `JobRunner.StepKeepsInv` | pkg/controllers/inspecttask_controller.go:358-399 | Every step keeps: one token for each goroutine past launch and before its deferred release, one lock holder at most, and a list of names that holds exactly what each goroutine has appended so far |
| `JobRunner.InFlightIsBounded` | pkg/controllers/inspecttask_controller.go:357-365 | At most as many job bodies run as the semaphore has slots |
| `JobRunner.NoDeadlock` | pkg/controllers/inspecttask_controller.go:358-399 | With at least one slot some step is always enabled: neither the launch loop nor the mutex blocks forever |
| `JobRunner.StepDecreasesRank` | pkg/controllers/inspecttask_controller.go:358-399 | Every step lowers a measure over the stages of the goroutines |
| `JobRunner.CreateJobsInspect` | pkg/controllers/inspecttask_controller.go:351-402 | An arbitrary scheduler run until the wait group lets it return yields, as a multiset, exactly the phases each job appends |
| `JobRunner.EmitsFailedIff` | pkg/controllers/inspecttask_controller.go:366-396 | A job appends a failed phase iff it is not fine; a fine one appends one success if its type is registered and nothing otherwise |
| `Phases.GetStatus` | pkg/controllers/inspecttask_controller.go:308-319 | Succeeded iff there are phases and none is failed; otherwise Failed |
| `TaskLifecycle.TaskStore.Reconcile` | pkg/controllers/inspecttask_controller.go:92-206 | What is stored after one reconcile, for every way its calls can end, and exactly when it fails |
| `TaskLifecycle.EndsAfterStart` | pkg/controllers/inspecttask_controller.go:114-144 | With a clock that does not go back no task ends before it starts |
| `TaskLifecycle.FineReconcileAdvances` | pkg/controllers/inspecttask_controller.go:92-206 | A reconcile whose calls succeed does exactly one of the steps still needed, or nothing when none is |
| `TaskLifecycle.StepsStore` | pkg/controllers/inspecttask_controller.go:92-206 | What a successful reconcile of a live task stores: the finalizer first, then the start time, then the phases of its jobs behind those it has, then the end time, each once and nothing else |
| `TaskLifecycle.DeletionReleases` | pkg/controllers/inspecttask_controller.go:92-113 | A task being deleted loses its finalizer as soon as an update succeeds, and nothing else of it changes |
| `TaskLifecycle.FailuresStoreNothing` | pkg/controllers/inspecttask_controller.go:92-206 | A reconcile in which a call that it needs fails stores nothing |
| `PlanSchedule.FiringMakesTask` | pkg/controllers/inspectplan_controller.go:232-288 | A due reconcile never finds a task of its minute, so it creates one, newer than all others |
| `PlanListing.NeverTooMany` | pkg/controllers/inspectplan_controller.go:290-308 | For any cron plan and any clock there are never more tasks than a positive MaxTasks |
| `PlanSchedule.NotDueMakesProgress` | pkg/controllers/inspectplan_controller.go:178-180 | A reconcile that is not due asks for a positive delay, and any wake-up later than that finds the plan due |
| `PlanSchedule.WakeOnTheDot` | pkg/controllers/inspectplan_controller.go:207-210 | A wake-up at the very instant asked for is due iff an activation had already passed when it was asked for |
| `PlanSchedule.NextIsLeast` | pkg/controllers/inspectplan_controller.go:223-230 | The next time of a schedule is its least activation strictly after the given one |
| `PlanSchedule.StoredKeepsNext` | pkg/controllers/inspectplan_controller.go:198-199 | Storing a time with whole seconds only does not change its next activation |
| `PlanSchedule.FiresAtMostOnce` | pkg/controllers/inspectplan_controller.go:131-170 | Over every run whose status updates land, a plan without a schedule fires at most once, a dated one not before its date |
| `PlanSchedule.FiresWhenItMay` | pkg/controllers/inspectplan_controller.go:131-170 | A plan without a schedule that has not fired fires when its date, if it has one, has come and creating works: a task of this minute is there, and the status, if stored, lists and remembers it |
| `PlanSchedule.RestsWhenItMust` | pkg/controllers/inspectplan_controller.go:125-146 | A plan that is suspended, whose date is to come, or that has fired without a schedule, does nothing |
| `PlanSchedule.CronFiresIff` | pkg/controllers/inspectplan_controller.go:119-180 | A cron plan whose status has been set fires iff it is not suspended, has not fired yet or is more than the padding past its next activation, and a task of this minute is there or can be created; one whose status has not been set gets it set |
| `PlanSchedule.CronFiring` | pkg/controllers/inspectplan_controller.go:181-206 | What a firing leaves: the tasks with the new one, the last up to the limit; the time in whole seconds and the name of the task; the status of the tasks listed anew at the limit and the new one appended as pending below it; and of these only the tasks if the patch is lost |
| `PlanSchedule.DueIff` | pkg/controllers/inspectplan_controller.go:172-180 | What being due means, from the next activation after the last schedule time and a tenth of a second |
| `PlanSchedule.PlanStore.CreateInspectTask` | pkg/controllers/inspectplan_controller.go:232-288 | Returns an existing task of this minute with its status, or creates one as pending; fails only when creating does |
| `PlanSchedule.StatusOfMinute` | pkg/controllers/inspectplan_controller.go:232-240 | A task of this minute that exists already is listed with the status its jobs come to |
| `PlanSchedule.PlanStore.RunOnce` | pkg/controllers/inspectplan_controller.go:131-170 | A plan that runs once: the task is listed under its name and the status is stored unless the update is lost |
| `TaskRetention.CleanTask` | pkg/controllers/inspectplan_controller.go:290-308 | With at least MaxTasks tasks exactly MaxTasks are kept and listed and no deleted one is newer than a kept one; otherwise nothing is deleted and the list is unchanged |
| `TaskRetention.ConvertTaskStatus` | pkg/controllers/inspectplan_controller.go:340-359 | One entry a task in order, pending until it has ended and the status of its jobs after |
| `TaskRetention.ListedStatus` | pkg/controllers/inspectplan_controller.go:340-359 | A task that has ended is listed as succeeded iff it has jobs and none of them failed, and as failed otherwise; one that has not as pending |
| `TaskRetention.SortByCreation` | pkg/controllers/inspectplan_controller.go:334-336 | The same tasks, oldest first |
| `TaskRetention.ListingIsUnique` | pkg/controllers/inspectplan_controller.go:334-336 | Without two tasks of one second there is only one such listing |
| `RuleJoin.GetUpdatePlanRule` | pkg/controllers/inspectplan_controller.go:422-446 | The values of the stale labels, in any order, for removal if there are any; otherwise the rules after the point where all labels are accounted for, to join |
| `RuleJoin.JoinsLongestSuffix` | pkg/controllers/inspectplan_controller.go:422-446 | For distinct names without stale labels, the rules to join are the longest suffix without a joined rule |
| `RuleJoin.JoinsAllIff` | pkg/controllers/inspectplan_controller.go:430-445 | Every rule not yet joined is joined iff no unjoined rule stands before a joined one |
| `RuleCount.DecrementKeepsCountIff` | pkg/controllers/inspectplan_controller.go:402-412 | Leaving a rule keeps its counter right iff the plan had joined it or the counter reads zero; a missing annotation turns into one |
| `RuleJoin.Store.UpdateAddRuleReferNum` | pkg/controllers/inspectplan_controller.go:361-392 | The loop over rule names, as the fold the lemmas are about |
| `RuleJoin.Store.UpdateSubRuleReferNum` | pkg/controllers/inspectplan_controller.go:394-420 | The loop over rule names, as the fold the lemmas are about |
| `RuleJoin.JoinedAndLeft` | pkg/controllers/inspectplan_controller.go:361-420 | What joining and leaving do to each rule: exactly the rules named gain or lose the plan; a missing annotation becomes one either way, one that is no number zero, and a number goes up by one, or down but not below zero |
| `RuleJoin.Store.Reconcile` | pkg/controllers/inspectplan_controller.go:79-117 | A plan being deleted leaves the rules it reaches; a stale label leads to a removal, in whatever order; otherwise the rules asked for are joined, and scheduling is reached iff there are none; a lost update leaves the plan as it was |
| `SampleText.ParsePrinted` | apis/kubeeye/v1alpha2/inspectresult_types.go:149-157 | The map is that of the entries in the order of their texts, later ones replacing earlier ones |
| `SampleText.ToString` | pkg/inspect/prometheus_inspect.go:106-128 | Every label but the name, and value, timestamp and metric name, each as a quoted pair, sorted and joined in braces; a missing sample is an empty object |
| `SampleText.EntriesOf` | pkg/inspect/prometheus_inspect.go:110-125 | What is printed of a sample: exactly its labels other than the name, and its value, its time and its name, empty if it has none |
| `SampleText.LeqIsLexicographic` | pkg/inspect/prometheus_inspect.go:126 | The order of the sort: a text comes before its continuations, and otherwise the first difference decides |
| `QuotedText.QuotedAsItIs` | pkg/inspect/prometheus_inspect.go:120-124 | Printing ASCII text without quotes and backslashes is only put in quotes |
| `QuotedText.EscapedAscii` | pkg/inspect/prometheus_inspect.go:120-124 | How `strconv.Quote` writes the other ASCII characters: a backslash before quotes and backslashes, a letter for seven control characters, two hexadecimal digits for the rest |
| `SampleText.SortSorts` | pkg/inspect/prometheus_inspect.go:126 | The entries come out sorted, none lost or added |
| `SampleText.NilRoundTrip` | apis/kubeeye/v1alpha2/inspectresult_types.go:149-157 | The text of a missing sample parses as an empty map |
| `QuotedText.ReadEscapes` | pkg/inspect/prometheus_inspect.go:120-124 | A quoted text is read back by the JSON string grammar (section 7 of RFC 8259), equal signs as colons, iff all its characters are readable, whatever follows it |
| `Paging.Pagination.ComputeIndex` | pkg/server/query/query.go:166-184 | Bounds of the page within the listing; empty past the end, everything for size zero from the start, a negative end on overflow |
| `Paging.ParsePagination` | pkg/server/query/query.go:115-134 | Size and offset of a query, wrong or missing numbers included, the product wrapping at 64 bits |
| `Paging.PageParameters` | pkg/server/query/query.go:115-133 | A page or size that is a positive number of 64 bits is that number; a missing page, or one that is anything else, is the first, a missing size is ten, and one that is anything else is none |
| `Paging.AtoiReads` | pkg/server/query/query.go:119-128 | A number written in decimal, with a sign or without, is read as that number if it fits 64 bits and otherwise rejected |
| `Paging.AtoiRejects` | pkg/server/query/query.go:119-128 | No text with a character that is not a digit behind an optional sign is a number, nor is a sign alone or nothing |
| `Paging.GetPageData` | pkg/server/query/query.go:136-164 | The page of the filtered and sorted data with the filtered count, for any sort the library may have, or a crash exactly when the page overflows; nothing when the data cannot be converted; `Paging.ListingIsSorted`, `Paging.UnsortedListing`, `Paging.ListingSize` and `Paging.CutIs` say what list, count and page are |
| `Paging.ListingIsSorted` | pkg/server/query/query.go:136-155 | For any such sort: an item is in the listing as often as in the data, but not at all if the query has filters and a filter function is given that rejects it; by a weak order the listing ascends, and without ties in the data it descends when asked to |
| `Paging.UnsortedListing` | pkg/server/query/query.go:136-148 | Without a sort field or a comparison the listing is the data, or what the filter function accepts of it, in order |
| `Paging.ListingSize` | pkg/server/query/query.go:160-163 | The count is the number of items that are not filtered out |
| `Paging.CutIs` | pkg/server/query/query.go:158-184 | A page is the items from its offset on, as many as its size or as there are; all of them for size zero from the start; none behind the end |
| `Paging.SortedKeepsItems` | pkg/server/query/query.go:188-198 | Whatever the comparison, no item is lost or added |
| `Paging.KeepMatching` | pkg/server/query/query.go:202-210 | Exactly the items the filter accepts, in order |
| `Sequences.ArrayFinds` | pkg/utils/utils.go:31-40 | The first accepted item and its position, or none when there is none |
| `Score.CalculateScore` | pkg/inspect/kubeeyeinspect.go:26-54 | The counts are those of the levels over all results; the total is twenty for each workload, three for each role, one for each event and node, and one; passing is the rest; the score, if passing is not negative, is 200 times passing by the weight rounded down; and the division by zero occurs exactly when twice what is not ignored equals the warnings |
| `Score.NoScoreIff` | pkg/inspect/kubeeyeinspect.go:45-46 | With no more findings than items the divisor is zero iff everything is ignored |
| `IssueCount.CountLevelNum` | pkg/controllers/inspectresult_controller.go:169-204 | The counters of a result, through one shared map of counters: for every level its OPA count and the issues of the nine lists, named one by one; nothing when the file cannot be read |
| `IssueCount.LevelTotal.TotalResultLevel` | pkg/controllers/inspectresult_controller.go:205-237 | One list counted into the shared counters |
| `IssueCount.LevelTotal.Autoincrement` | pkg/controllers/inspectresult_controller.go:211-217 | One level goes up by one, its counter made if needed, all others stay |
| `IssueCount.GetIssuesNumber` | pkg/controllers/inspectresult_controller.go:283-290 | The sum of the counters in any order, missing ones skipped |
| `JobRunner.WaitForJobCompletion` | pkg/controllers/inspecttask_controller.go:413-445 | Whatever the job answers and however far the server's clock is off: Succeeded iff some poll finds the job in time, not failed, completed and without active pods and all polls before it found it in time, not failed and unfinished; and the loop ends within floor(d/10s)+2 polls, d being the time from the first poll to the timeout, which is at most the timeout when the clocks agree |
| `JobRunner.CompleteIff` | pkg/controllers/inspecttask_controller.go:413-445 | The last poll of a polling is `Complete`, as the outcome of a task asks, under just that condition |
| `PlanSchedule.LostPatchFiresTwice` | pkg/controllers/inspectplan_controller.go:198-206 | A run of an hourly plan that is not of that kind, because one lost patch makes it fire twice in a minute |
| `PlanSchedule.PlanStore.Reconcile` | pkg/controllers/inspectplan_controller.go:119-211 | What is stored after one reconcile in each branch, whichever tasks of one second cleaning up keeps; when it fails; and the delay asked for: the rest of the time to the date, three seconds after a firing, the next activation and the padding when a cron plan is not due, otherwise none |
| `PlanSchedule.PlanStore.RunScheduled` | pkg/controllers/inspectplan_controller.go:181-206 | A due cron plan: the new task is listed, the newest tasks are kept, and the status is stored unless the patch is lost |
| `RuleCount.OrderlyRun` | pkg/controllers/inspectplan_controller.go:79-117 | It is kept at every point of runs in which no rule is deleted, plans grow until they are deleted after joining all they name, all rules are reached, and updates land |
| `RuleCount.RecreatedRuleMiscounts` | pkg/controllers/inspectrules_controller.go:75-84 | A run that breaks it: a rule deleted after it was joined and created again ends with a count of one and no plan |
| `RuleCount.LostUpdateCountsTwice` | pkg/controllers/inspectplan_controller.go:97-102 | Another one: a join whose plan update is lost is made again, and one plan counts twice |
| `RuleCount.RemovedNameCountsDown` | pkg/controllers/inspectplan_controller.go:394-420 | A third one: a name taken off a plan leaves its label, and the next reconcile takes the plan off the rule's count all the same |
| `Paging.EnoughPagesIff` | pkg/server/query/query.go:115-133 | The same for pages up to the end of the listing by tens, size zero included: iff the size is ten or none, or neither ten nor the size is exceeded |
| `Paging.WrapsToFour` | pkg/server/query/query.go:118-125 | A page number whose offset wraps to four |
| `Paging.SortsBothWays` | pkg/server/query/query.go:188-198 | For whatever sort keeps the promise of the library: a weak order ascends with ties in any order; without ties its negation descends, and there is one arrangement either way, so all pages are cut from the same one |
| `Paging.SortedArranges` | pkg/server/query/query.go:188-198 | An insertion sort keeps the promise of the library's sort, for every comparison |
| `Paging.InsertionIsSort` | pkg/server/query/query.go:188-198 | So there is a sort as the paging theorems take it |
| `RuleAllocation.Partition` | pkg/rules/rules.go:59-61 | The rules that name a node or select nodes, and the others, each in order |

## Left out

- JobRunner.EveryRun: the appends outside the mutex (lines 367, 376 and 391 of the task controller) are taken to be atomic; the data race itself is not modelled.
- JobRunner.ComputedDeployNum: floating-point rounding is real arithmetic, halves rounded up.
- JobRunner.OutcomeIff: whether a node can take a job (`checkJobIsDeploy`, `getIncompleteJob`) is an observation of each job, not computed from cluster state.
- RuleCompiler.SetRuleSchedule: a scheduled rule with component exclusions is outside the precondition, because those items are strings and the conversion panics.
- RuleCompiler.MergeRule: every array a rule lists is non-empty, since the JSON encoding drops empty ones; filling in Prometheus endpoints is not modelled.
- RuleCompiler.CompileJobs: random suffixes of job names and the stored configuration map.
- RuleAllocation.AllocationRule: JSON encoding is a snapshot of values; encoding errors do not occur.
- OpaPool.VailOpaRulesResult: batch sizes start at one; with zero the sender's loop never ends.
- OpaPool.RunInspect: what fetching the objects of a key finds does not depend on when it is asked.
- OpaRules.RulesManager.AddRule: the regular expressions that find kind and version are an arbitrary function, and so is rego.
- PlanSchedule.PlanStore.Reconcile: the cron parser; a schedule is any function to the least activation strictly after a time. A reconcile reads the clock once. `@every` expressions do not fit this and are not covered.
- PlanSchedule.TasksAreRetained: the lister is current, deletions take effect at once, nobody else deletes tasks, and local time does not jump across a minute already used.
- TaskLifecycle.TaskStore.Reconcile: a single cluster; fan-out to several clusters that write one status is not modelled, nor is the copy of the phase in the plan's last task status.
- RuleCount.EveryRun: the finalizer of a plan is there, and a rule disappears in one step; the loops do not change rules in the lister's cache when an update fails.
- SampleText.RoundTripIff: text is a sequence of Unicode characters; bytes that are not UTF-8 are not modelled, and which characters outside ASCII print as they are is an arbitrary table.
- Paging.GetPageData: the sort is any function that keeps the promise of `sort.Slice`; it gives one result for one input, and for a descending sort with ties nothing is promised but the items.
- Paging.TilesIff: the items of a listing are told apart, as objects with distinct names are; equal items could hide a skipped one.
- PlanSchedule.SeparatedIffPatient: reconciles carry times that do not go back.
- Score.CalculateScore: overflow of 64-bit counts.
- IssueCount.CountLevelNum: the nine calls in a row are one loop over the nine lists; reading and decoding the result file is one observation.
- Generated clients, deep copies, swagger, charts and configuration: nothing to prove.
- API calls, informers, lister staleness and write conflicts: replaced by an atomic store.
- Event rules, the file diff, procfs, dbus, TCP probes, shell commands and Prometheus queries: outside calls.
- `pkg/inspect/resources.go`: an older path with the same shape as the pool and simpler claims.
- `SliceRemove`, `MergeMap`, `DeepCopyMap`, `IsEmptyValue` and the other small helpers: they would only add easy members.
- E-mail, HTML and Excel output, HTTP routing and the command line: presentation.
