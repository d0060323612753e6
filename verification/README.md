# Lab monitor: a verified model

The lab monitor is a server and a set of client agents that watch workstations. The server publishes a
bundle of rules and remote scripts, the clients evaluate the rules against their own machine, run the
scripts they are enrolled for, and report back. This project models the parts of it where state, loops and
several machines meet, and proves what they promise.

| modules | what they model |
|---|---|
| ScriptRuns, RunStore, ServerController, MonitorWorker | a script run and its targets, its document on disk, the server's and the client's handling of it, as classes with the program's own fields |
| ScriptProtocol, ScriptProtocolNetwork, ScriptProtocolServer, ScriptProtocolFiles, ScriptProtocolTheorems, ScriptProtocolRecord | those two put together as a transition system with any number of clients, restarts, file failures, and a network that may lose, duplicate and reorder messages but not forge them |
| ScriptReport | the verdict a script prints on a marker line of its output |
| JsonPath, JsonWalk | the path language: a hand-written parser and a walk that forks at every `[*]` |
| Compliance, ComplianceLaws, HostProbes, Rules | the evaluation of rules, what the kinds of rule mean, and the gathering of only those facts that the rules need |
| RuleIds | generated rule ids, the repair of duplicate ones, the first-wins merge of templates |
| Fleet, FleetModel, FleetPipeline | the registry of clients, its reconciliation with the expected hosts, and the table the operator sees, kept current by an in-place merge and change signals |
| BundleCodec, Revisions | bundles as JSON trees, their content hash, and how published revisions reach the clients |
| BundleHandoff | two threads handing received bundles to a handler under one lock |
| Versions | version text and comparison |
| Base, Text, Json, Sequences, Sorting | shared datatypes, decimal text and string order, JSON trees and typed reads, filtering, sorting |

A method that loops or changes state is proved equal to a specification function, and what the program
promises is proved about that function, or about every reachable state of a transition system built from
it. `dafny verify dfyconfig.toml` checks everything.

## What the model takes for granted

- The network: a message in flight stays deliverable, so it may arrive never, twice or in any order; nobody
  forges one. Script commands are Volatile (section 2.2.3.4 of OMG DDS 1.4): a client that restarts never
  receives one sent before.
- Host ids are distinct. Run ids are fresh over everything ever issued and safe as file names, as the output
  of make_run_id is meant to be; the program itself compares a new id only with the runs in memory. Some draw
  of an id yields an unused one.
- Saving, deleting and reading a file may each fail; which files fail is an argument of the step, at a restart
  of the server too. A file of the runs directory is replaced whole or not at all; the bundle file may also be
  left cut short, and then does not parse. Where a statement supposes that something did not fail, another says
  what happens exactly when it did.
- The clock, the probes, the JSON text parser and dumper, and number parsing are arguments. Number parsing may
  give "nan" and infinities, as std::stod does; numbers in a parsed document are finite. Probes are
  deterministic during one round. The dumped bytes of a tree depend on the tree alone.
- system_clock counts ticks of 100 ns, as it does on Windows.
- Client timestamps and loads are mathematical integers and reals; JSON integers read into fixed-width fields
  wrap; std::sort is any sorted permutation.

## Where the code says otherwise

- A busy client answers with a refusal and forgets the run id (apps/client/monitor_worker.cpp:309-313), so a
  second delivery of the same command may start a script that the server already shows as Refused
  (RefusedThenRan). It does exactly when it finds the client idle (RanExactlyWhenFoundOpen); with at most one
  delivery it cannot (RefusedOnceNeverRan).
- The header's promise that the first rule holding an id keeps it
  (libs/core/include/lm/core/template_bundle.hpp:60-61) fails when an earlier repair has just handed out that id
  (FirstHolderMayLose). RepairIsOk states when a rule keeps its id.
- registry_key joins path and value name with backslashes, so a value name that holds one can share its key
  with another value, and gathering then reads only the first (RegistryKeyCollides, LazyDiffersOtherwise).
  KeyNamesAloneExactlyWhen says which locations that can happen to.
  LazyIsEager and LazyDiffersOtherwise together are the exact condition, for a host that reads the registry and
  for one that does not.
- FleetModel::apply_sample signals CPU to Disk although the Adapters cell also reads the sample; a right view
  stays right if and only if that cell happens to read the same (ApplySample). Over any run of merges, samples
  and reports a view is right in every other column, and in an Adapters cell exactly when it reads as at the last
  signal that covered it (ViewIsRightExactlyWhen).
- A version without parts, or with a negative one, prints as text that does not parse, so a bundle with such
  a constraint does not survive its own encoding (VersionRoundTrip, BundleRoundTrip).
- The client takes any bundle whose revision differs from its own, not only a newer one (OlderOverwrites), so
  it is the message delivered last that decides what it holds (ClientsConverge, ClientHoldsBlockStart). A restart
  with the newest publish unsaved (FailedSaveReusesRevision), or with a bundle file that it cannot open
  (UnopenedBundleReusesRevision), makes the server reuse a revision for other content; RestartGoesOnExactlyWhen
  says that it is exactly these two.
- An answer shown is taken back by a server restart exactly when its run was not saved after it or its file
  cannot be opened, and a deleted run returns exactly when its file was left behind and can be opened
  (TargetSurvivesExactlyWhen, DeletedReturnsExactlyWhen, with RestartTakesBack, UnopenedFileHidesRun and
  DeletedComesBack for witnesses).
- A rule that asks for a number in a DDS sample and names "nan" is met by neither bound (NumericModesAgree).
- Delivery to a bundle handler is exactly once for the newest bundle, but an older one may follow it, exactly
  when the registering thread calls last (NewestMayComeFirst, LastIsNewestExactlyWhen).
- A path may have a dot before a bracket (`a.[0]`), and an index past 2^64 - 1 wraps.

## Model

| member | source | states |
|---|---|---|
| ScriptProtocolTheorems.ShownMeansRan | apps/server/server_controller.cpp:391-548 | In every reachable state a target shown Completed or Failed belongs to a host that started that run with that body, and its stored result is what that host published for the only outcome it has ever reported of that run, whose own verdict is Completed exactly when the target is |
| ScriptProtocolTheorems.RecordedMeansRan | apps/server/server_controller.cpp:356-389 | The same for every target recorded as Completed in any readable file of the runs directory, whatever failed before |
| ScriptProtocolTheorems.RefusedAtDispatchNeverRan | apps/server/server_controller.cpp:427-469 | A target refused at dispatch was never started on its host and no command for it is in the network |
| ScriptProtocolTheorems.RefusedOnceNeverRan | apps/client/monitor_worker.cpp:283-322 | A target shown Refused was never started on its host if its command was delivered there at most once |
| ScriptProtocolTheorems.RefusedThenRan | apps/client/monitor_worker.cpp:300-313 | A reachable state in which the server shows a busy refusal for a run and the host nevertheless started it, on a second delivery |
| ScriptProtocolTheorems.AtMostOnce | apps/client/monitor_worker.cpp:283-359 | Under any redelivery, interleaving and restarts a host starts a run id at most once; a client has at most one live script, exactly while it is running; and it remembers exactly the ids its process started |
| ScriptProtocolTheorems.DeliveryStartsExactlyWhen | apps/client/monitor_worker.cpp:283-322 | A delivered command starts the script exactly when the client is enrolled, has a runner, is idle and has not started that run; a busy client answers with a refusal and forgets the id |
| ScriptProtocolTheorems.RanExactlyWhenFoundOpen | apps/client/monitor_worker.cpp:283-322 | Over any run from the beginning, a host has run a script if and only if some delivery of its command found the host enrolled, with a runner, idle and without having taken the run; so a target the host refused stays never-run exactly while no delivery does |
| ScriptProtocolRecord.TargetsMoveForward | apps/server/script_run.cpp:57-91 | Over any stretch of steps, server restarts included, every target of a run only moves Dispatched to anything but Pending, or NoResponse to an answer, and an answered target never changes, as long as each restart finds this run's own file, if it can open one, current |
| ScriptProtocolRecord.RestartMovesExactlyWhen | apps/server/server_controller.cpp:356-389 | Whatever has failed, a restart that reads a run moves it only forward if and only if no target of it has changed since its last successful save |
| ScriptProtocolRecord.RestartKnowsFiles | apps/server/run_store.cpp:226-269 | In every state the steps can reach, a restart knows exactly the runs that have a file it can open |
| ScriptProtocolRecord.RestartBringsBack | apps/server/server_controller.cpp:813-825 | In every reachable state, whatever has failed, a run comes back from a restart as it was shown if and only if the server counts it as saved, no target of it has changed since its last successful save, and its file can be opened; equally, if and only if the file can be opened and reads back as it |
| ScriptProtocolRecord.TargetSurvivesExactlyWhen | apps/server/server_controller.cpp:356-389 | In every reachable state, whatever has failed, a target comes back from a restart as it was shown if and only if its run was saved after the target last changed and the file can be opened; else it comes back as NoResponse, or the run not at all |
| ScriptProtocolRecord.LateAnswerSurvivesExactlyWhen | apps/server/server_controller.cpp:512-548 | A late answer that is shown survives a restart right after it if and only if neither the save nor the reading of its own run failed |
| ScriptProtocolRecord.RestartTakesBack | apps/server/server_controller.cpp:356-389 | A reachable state in which a restart after a failed write of a run turns a Completed shown of it back into NoResponse |
| ScriptProtocolRecord.UnopenedFileHidesRun | apps/server/run_store.cpp:236-243 | A reachable state in which a saved run is missing after a restart that cannot open its file, and back after one that can |
| ScriptProtocolRecord.OtherRunsStay | apps/server/server_controller.cpp:391-618 | Within one server process a step leaves every run as it is, but the one a result answers or a deadline expires; a delete removes exactly the run named, or exactly those issued before the cutoff |
| ScriptProtocolRecord.StepAddsNoRun | apps/server/server_controller.cpp:391-618 | Whatever has failed, every run after a step was there before, or is the one just started, or had a file that a restart could open |
| ScriptProtocolRecord.GoneForGood | apps/server/server_controller.cpp:569-618 | Whatever fails and restarts later, a run that was deleted and whose own file is gone never comes back |
| ScriptProtocolRecord.DeletedReturnsExactlyWhen | apps/server/server_controller.cpp:569-592 | A deleted run is back after the next restart if and only if it had a file, the removal of that file failed, no later delete of the run removed it, and the restart can open it |
| ScriptProtocolRecord.DoomedReturnsExactlyWhen | apps/server/server_controller.cpp:594-618 | The same for each run deleted because it was issued before a cutoff |
| ScriptProtocolRecord.DeletedComesBack | apps/server/server_controller.cpp:569-592 | A reachable state in which deleting a run fails to remove its file and a restart brings the run back |
| ScriptProtocolRecord.DeadlineEndsTheWait | apps/server/server_controller.cpp:550-567 | Nothing is left Pending after dispatch; every unfinished run has its deadline armed; when it fires the run is finished and exactly the waiting targets have become NoResponse |
| ScriptProtocolRecord.DiskIsTheFinishedRuns | apps/server/server_controller.cpp:356-389 | With file operations succeeding, in every reachable state the runs directory holds exactly the finished runs in their current form |
| ScriptProtocolRecord.ReloadRecoversFinishedRuns | apps/server/server_controller.cpp:813-825 | With file operations succeeding so far, a restart at any moment brings back exactly the finished runs whose files it can open, with issued_at cut to whole seconds |
| ScriptProtocolTheorems.StepKeepsInvariant | apps/server/server_controller.cpp:391-618 | Every step of the server, of any client and of the network keeps the invariant from which the statements above follow |
| ScriptProtocolNetwork.FreshStart | apps/client/monitor_worker.cpp:300-322 | A command that starts a script was never started on that host before, in this process or an earlier one |
| ScriptProtocolNetwork.StepKeepsNetwork | apps/client/monitor_worker.cpp:244-359 | Every step keeps: commands in the network were sent, starts are of sent commands, results are refusals or backed by a finished execution, and a run both refused by and started on a host was delivered there twice |
| ScriptProtocolNetwork.StepKeepsReports | apps/client/monitor_worker.cpp:244-281 | Every step keeps: a host reports at most one outcome of a run, and none of the script that is still live |
| ScriptProtocolServer.StepKeepsServer | apps/server/server_controller.cpp:356-618 | Every step keeps: run ids distinct, results stored with their own host and run, timers armed for unfinished runs, files readable and, while nothing has failed, mirroring the finished runs |
| ScriptProtocolFiles.StepKeepsRecord | apps/server/server_controller.cpp:356-618 | Every step, whatever fails, keeps: the server counts a run as saved exactly when it has a file, the file agrees with the run in every target not changed since it was written and has NoResponse for every other, and no file is counted that does not exist |
| ScriptProtocolServer.PersistRestoresMirror | apps/server/server_controller.cpp:356-389 | Recording a run that changed makes the directory mirror the record again, also when the run was on disk in an older form |
| ScriptProtocolServer.FileIsItsRun | apps/server/run_store.cpp:126-175 | The file of a finished run reads back as that run and encodes to itself |
| ServerController.Controller.constructor | apps/server/server_controller.cpp:813-825 | A new process holds exactly the runs whose files can be opened and parsed, oldest first, all marked saved, with no deadline armed |
| ServerController.Controller.StartScriptRun | apps/server/server_controller.cpp:391-510 | One target per distinct host in first-seen order, each refused with its reason or dispatched; exactly the dispatched ones get a command; a deadline is armed iff something was sent; a run refused everywhere is recorded at once |
| ServerController.Controller.OnScriptResult | apps/server/server_controller.cpp:512-548 | A result changes only a target that is Dispatched or NoResponse, of a known run and host; a finished run is recorded again |
| ServerController.Controller.OnRunDeadline | apps/server/server_controller.cpp:550-567 | The deadline of a run turns its waiting targets into NoResponse and records the run, and does nothing to a run without any |
| ServerController.Controller.PersistRunIfFinished | apps/server/server_controller.cpp:356-389 | Writes a finished run over its file and marks it saved; a failed or unsafe write leaves disk and mark alone |
| ServerController.Controller.DeleteScriptRun | apps/server/server_controller.cpp:569-592 | Removes the run from the record, whether or not its file could be deleted, and reports whether the file was |
| ServerController.Controller.DeleteScriptRunsBefore | apps/server/server_controller.cpp:594-618 | Removes every run issued before the cutoff and the deletable files among theirs, and nothing else |
| ServerController.Controller.DispatchNewest | apps/server/server_controller.cpp:418-469 | Turns each pending target of the newest run into Refused or Dispatched in place, and sends exactly the commands of the dispatched ones, in order |
| ServerController.DispatchedExactlyWhen | apps/server/server_controller.cpp:427-469 | Every host named gets a target, sent to exactly when the fleet's first entry for it is Online and enrolled for scripts, and otherwise refused on the spot |
| ServerController.UniqueInOrder | apps/server/server_controller.cpp:410-417 | Hosts are asked in the order in which they were first named |
| ServerController.CommandsReach | apps/server/server_controller.cpp:448-466 | The commands of a run are exactly those addressed to its dispatched targets, with its id, body and timeout |
| ServerController.Unique | apps/server/server_controller.cpp:410-417 | Exactly the requested hosts, each once |
| MonitorWorker.Worker.OnScriptCommand | apps/client/monitor_worker.cpp:283-359 | Ignored when for another host; refused when not enrolled or without a runner; ignored when this process already took the id; refused when busy, the refusal forgetting the id; otherwise remembered and started |
| MonitorWorker.Worker.FinishScript | apps/client/monitor_worker.cpp:244-281 | Publishes the outcome of the script that ran, with its own run id and verdict, and becomes idle |
| ScriptRuns.ExpireTargets | apps/server/script_run.cpp:85-91 | Exactly the Dispatched targets become NoResponse |
| ScriptRuns.ResultMovesOneTarget | apps/server/script_run.cpp:70-83 | A result moves the target of its host and nothing else |
| ScriptRuns.Tally | apps/server/script_run.cpp:93-106 | The loop counts, for every state, the targets in it |
| ScriptRuns.TallySums | apps/server/script_run.cpp:93-112 | The tally sums to the number of targets; a run is finished exactly when none is counted pending or dispatched |
| ScriptRuns.LocateTarget | apps/server/script_run.cpp:34-38 | The first target of that host, or the end |
| RunStore.EncodeRun | apps/server/run_store.cpp:126-141 | The document holds every field and target of the run |
| RunStore.RunRoundTrip | apps/server/run_store.cpp:47-175 | Reading back a written run gives it with issued_at cut to whole seconds exactly when its id is non-empty and every stored result carries its target's host and its run's id |
| RunStore.TruncatedIsWholeSeconds | apps/server/run_store.cpp:126-141 | The cut moves the time by less than a second, toward the epoch, and cutting again changes nothing |
| RunStore.TruncatedEncodesAlike | apps/server/run_store.cpp:126-141 | A reloaded run encodes to the very document it came from |
| Json.ReadAll | apps/server/run_store.cpp:160-172 | The loop that reads an array gives all elements in order, or the error of the first that cannot be read |
| ScriptReport.ParseReportedResult | libs/core/src/script.cpp:25-67 | The scanning loop gives the last reporting line of the plain split of the output |
| ScriptReport.ScanningReports | libs/core/src/script.cpp:28-64 | Scanning from any position finds what the lines from there report, and otherwise keeps what was found before |
| ScriptReport.ReadLine | libs/core/src/script.cpp:34-58 | One line reports something exactly when, without one trailing return, it begins with the marker and the rest after spaces is a JSON object with a boolean ok |
| ScriptReport.LastLineWins | libs/core/src/script.cpp:25-67 | The answer is r exactly when some line reports r and no later line reports anything |
| ScriptReport.ReportedAppend | libs/core/src/script.cpp:25-67 | On a + newline + b the answer is the answer on b if there is one, else the answer on a |
| ScriptReport.SilentLineChangesNothing | libs/core/src/script.cpp:49-58 | A line that reports nothing, such as a malformed marker, changes the answer nowhere in the output |
| ScriptReport.WindowsLineEnds | libs/core/src/script.cpp:31-36 | Lines ended with carriage return and newline report the same |
| ScriptReport.MentionIsNotAVerdict | libs/core/src/script.cpp:38-41 | A line that does not begin with the marker reports nothing |
| ScriptReport.LinesJoin | libs/core/src/script.cpp:28-36 | The split loses nothing and its lines hold no newline |
| ScriptReport.JoinedLines | libs/core/src/script.cpp:28-36 | The split is the only way to write the text as newline-free lines joined by newlines |
| JsonPath.ParsePath | libs/core/src/json_path.cpp:39-116 | The hand-written parser terminates on every text and agrees with the recursive reading of it |
| JsonPath.ParseIsTheGrammar | libs/core/src/json_path.cpp:39-116 | A non-empty path is well-formed exactly when the grammar (a name, then .name or [index] or [*], a dot allowed before a bracket) gives it, and then means what the grammar says |
| JsonPath.ParsedIsCanonical | libs/core/src/json_path.cpp:39-116 | What a path parses to has a leading field, names free of dot and bracket, indices below 2^64, and a final length turned into the projection |
| JsonPath.RenderRoundTrip | libs/core/src/json_path.cpp:39-116 | Parsing the rendering of segments returns them if and only if they are of that form |
| JsonPath.ParseIndex | libs/core/src/json_path.cpp:55-73 | * means every element; digits give their value modulo 2^64; anything else is malformed |
| JsonWalk.Walk | libs/core/src/json_path.cpp:125-226 | Appends exactly the values the rest of the path addresses, or fails and appends nothing; fails exactly when no branch yields a value and some branch breaks |
| JsonWalk.ResolveAll | libs/core/src/json_path.cpp:230-247 | All the values addressed, or the parse error, or no such field |
| JsonWalk.ResolvePath | libs/core/src/json_path.cpp:249-263 | The one value addressed; several are an error of the path; otherwise the failure of resolve_all |
| JsonWalk.HitIsLookup | libs/core/src/json_path.cpp:153-226 | A value is found with indices i exactly when the path with its [*] replaced by i addresses that value |
| JsonWalk.HitsIncrease | libs/core/src/json_path.cpp:196-222 | Values come in lexicographic order of their indices, none twice |
| JsonWalk.FailsExactlyWhen | libs/core/src/json_path.cpp:153-247 | The walk fails exactly when no replacement of the [*] addresses a value and some concrete branch gets stuck |
| JsonWalk.WithoutWildcards | libs/core/src/json_path.cpp:130-263 | A path without [*] addresses exactly one value or fails |
| Compliance.CheckDdsValue | libs/core/src/compliance.cpp:355-451 | The loop passes iff some value matches, is an Error iff there are values and none is comparable, and fails otherwise; and each earlier error case |
| Compliance.Evaluate | libs/core/src/compliance.cpp:455-500 | One result per applicable rule in order: NotApplicable without the capability its kind needs, else its own verdict |
| ComplianceLaws.OppositesDisagree | libs/core/src/compliance.cpp:31-261 | A rule asking for plain presence passes exactly when its opposite fails and can be answered exactly when its opposite can; one qualified by version or state never passes together with its opposite; adapter counts and DDS values ignore the expectation |
| ComplianceLaws.ForbiddenMeansNoneListed | libs/core/src/compliance.cpp:61-140 | Forbidding a process or service, whatever else the rule says, passes exactly when nothing in the list has that name in any letter case |
| ComplianceLaws.NameCaseIrrelevant | libs/core/src/compliance.cpp:21-27 | The letter case of a rule's process name does not matter |
| ComplianceLaws.RegistryModesNest | libs/core/src/compliance.cpp:142-174 | For a value that must be present Equals implies Contains implies Exists, and the reverse for one that must be absent |
| ComplianceLaws.CountComparisonsAgree | libs/core/src/compliance.cpp:176-199 | Exactly passes when both AtLeast and AtMost pass, and one of those always does |
| ComplianceLaws.CountIsOfConnected | libs/core/src/compliance.cpp:176-199 | Adapters are counted independently of their place in the list |
| ComplianceLaws.NumericModesAgree | libs/core/src/compliance.cpp:328-347 | On numbers Equals is AtLeast and AtMost together, one bound holds if and only if the wanted text does not read as nan, a bound met stays met further along, and all are incomparable exactly when the wanted text is no number |
| ComplianceLaws.TextModesNest | libs/core/src/compliance.cpp:348-353 | A text equal to the wanted one also contains it |
| Compliance.AnyElement | libs/core/src/compliance.cpp:328-451 | A rule on a path with [*] passes if and only if the same rule passes for some replacement of each [*] by an index |
| Compliance.OrderIrrelevant | libs/core/src/compliance.cpp:355-451 | Permuting any array under a [*] leaves the result of the rule unchanged |
| HostProbes.Intersect | libs/platform/src/host_probes.cpp:14-47 | Exactly the declared capabilities that have a probe, scripts and elevation always kept |
| HostProbes.Probes.Collect | libs/platform/src/host_probes.cpp:67-141 | The facts gathered for the host's rules, and exactly the registry values and topics read for them: values in the order in which rules first name them, topics in the order of their keys |
| HostProbes.ReadOnce | libs/platform/src/host_probes.cpp:67-141 | No registry key and no topic is read twice, topics come in strictly ascending order of their keys, and nothing is read that no rule names |
| HostProbes.LazyIsEager | libs/platform/src/host_probes.cpp:67-141 | On a host that does not read the registry, and otherwise when no two registry rules share a key but not a location, evaluating the gathered facts gives the same report as evaluating the host itself, and no result says "not probed" |
| HostProbes.LazyDiffersOtherwise | libs/platform/src/host_probes.cpp:67-141 | On a host that reads the registry, when two registry rules do share a key but not a location, there is a registry for which the two reports differ |
| HostProbes.BackslashFreeNamesSeparate | libs/core/src/rule.cpp:51-53 | Rules whose value names hold no backslash meet that condition |
| Rules.RegistryKeyInjective | libs/core/src/rule.cpp:51-53 | Two locations whose value names hold no backslash have the same key only when equal |
| Rules.KeyNamesAloneExactlyWhen | libs/core/src/rule.cpp:51-53 | A key names its location alone if and only if what follows the hive holds a double backslash in one place only |
| Rules.RegistryKeyCollides | libs/core/src/rule.cpp:51-53 | Two different locations with the same key |
| Rules.DdsKeyInjective | libs/core/src/rule.cpp:55-57 | The key of a topic names its domain and topic |
| RuleIds.Slugify | libs/core/src/template_bundle.cpp:17-32 | The loop gives the slug of the text |
| RuleIds.SlugIsClean | libs/core/src/template_bundle.cpp:17-32 | A slug holds the text's letters and digits lower-cased in order, with single dashes between and none at either end; it is empty only when the text has none; slugging again changes nothing |
| RuleIds.UniqueId | libs/core/src/template_bundle.cpp:81-100 | The unbounded search ends, with the base when free and else with the smallest free suffix from 2 |
| RuleIds.FreeId | libs/core/src/template_bundle.cpp:81-100 | At most |taken| + 1 tries, all earlier suffixes taken, and the id is not taken |
| RuleIds.MakeRuleId | libs/core/src/template_bundle.cpp:102-154 | A new rule's id is non-empty and held by no rule of the bundle, assigned or not |
| RuleIds.BundleDraft.DeduplicateRuleIds | libs/core/src/template_bundle.cpp:156-180 | Repairs the bundle in place, baseline first and then the templates, changing nothing but rule ids, and lists the renames |
| RuleIds.RepairIsOk | libs/core/src/template_bundle.cpp:156-180 | After repair all ids are non-empty and distinct, nothing else changed, the renames are exactly the changes, and a rule keeps its id if and only if it is non-empty and no earlier rule ends up with it |
| RuleIds.KeepsUnlessMayBeRenamed | libs/core/src/template_bundle.cpp:156-180 | What can be told before the repair: a rule keeps its id when the id is not empty, no earlier rule holds it, and no earlier rule that may itself be renamed could be given it |
| RuleIds.KeepsOnlyFirst | libs/core/src/template_bundle.cpp:156-180 | Only the first holder of a non-empty id can keep it |
| RuleIds.RepairTwice | libs/core/src/template_bundle.cpp:156-180 | A second repair changes and renames nothing |
| RuleIds.FirstHolderMayLose | libs/core/src/template_bundle.cpp:163-172 | With ids X, X, X-2 for X the generated id, the third rule loses an id it alone held |
| RuleIds.CollectRules | libs/core/src/template_bundle.cpp:123-150 | The loops give the baseline, then the templates assigned by name, first of each id |
| RuleIds.FirstByIdKeepsIds | libs/core/src/template_bundle.cpp:124-136 | No id is lost in the merge and each survives once |
| RuleIds.FirstByIdKeepsFirst | libs/core/src/template_bundle.cpp:124-136 | Of the rules sharing an id the first survives |
| RuleIds.MergeDropsNothing | libs/core/src/template_bundle.cpp:123-150 | When all ids are distinct, a rule applies to a host exactly when it is in the baseline or in a template assigned to it |
| Fleet.ClientRegistry.RecordAnnounce | libs/core/src/client_registry.cpp:7-33 | Replaces capabilities and pause, and advances the last sighting but never turns it back |
| Fleet.ClientRegistry.RecordReport | libs/core/src/client_registry.cpp:37-40 | Replaces the applied revision, keeps the rest, advances the last sighting |
| Fleet.ClientRegistry.Touch | libs/core/src/client_registry.cpp:7-20 | Creates the client or advances its last sighting |
| Fleet.ClientRegistry.MarkLost | libs/core/src/client_registry.cpp:42 | Forgets the client |
| Fleet.LastSeenIsNewest | libs/core/src/client_registry.cpp:7-42 | Over any events in any order a host is known exactly when heard of since last lost, and its last sighting is the newest time since then |
| Fleet.NewestOfEachKindWins | libs/core/src/client_registry.cpp:22-40 | The newest announce since the host was lost gives its capabilities and pause, the newest report its applied revision; neither disturbs the other |
| Fleet.EffectiveExpectedHosts | apps/server/server_controller.cpp:158-174 | The operator's list unchanged, then every assigned host it lacks, each once, without an address, in the order of their ids |
| Fleet.Reconcile | libs/core/src/fleet.cpp:29-118 | The view holds the entries of every expected host and of every other host heard of, ordered by urgency and id, with its counts |
| Fleet.LatestIsNewest | libs/core/src/fleet.cpp:33-39 | Of several sightings of a host the newest is used |
| Fleet.OneEntryPerHost | libs/core/src/fleet.cpp:29-118 | For distinct expected ids: exactly one entry for each host expected or heard of, the one its sighting and the lease give, and none for any other |
| Fleet.ReconcileIsDetermined | libs/core/src/fleet.cpp:97-116 | Order and counts are fully determined: two results for the same input are equal |
| Fleet.CountsAddUp | libs/core/src/fleet.cpp:104-116 | The five state counts sum to the number of entries |
| Fleet.TimeOnlySilences | libs/core/src/fleet.cpp:41-82 | Raising the clock alone only turns Online or Paused into Offline |
| Fleet.ClientRegistry.Snapshot | libs/core/src/client_registry.cpp:44-55 | Each known client exactly once, in the order of ids |
| FleetModel.Model.Apply | libs/ui/src/fleet_model.cpp:317-374 | For any view that has heard every signal so far: the in-place merge ends with the merge of old rows and sorted incoming entries; after its signals the view shows every row as it now is, but for an Adapters cell, which shows the adapters at the last signal that covered it; the whole view is right if and only if each such cell reads as its row does now, and a view that was right stays right; with one entry per host the rows end in strictly ascending order, and from rows in that order surviving hosts keep resources, summary and tags and new hosts start empty |
| FleetModel.MergeEntries | libs/ui/src/fleet_model.cpp:317-374 | Whatever the rows were, the merged rows carry exactly the incoming entries, in order |
| FleetModel.MergeKeepsSurvivors | libs/ui/src/fleet_model.cpp:317-374 | From rows and entries in strictly ascending order, surviving hosts keep resources, summary and tags; new hosts start empty |
| FleetModel.Model.IndexOf | libs/ui/src/fleet_model.cpp:480-489 | Binary search gives the first row of the host, or -1 when there is none |
| FleetModel.Model.ApplySample | libs/ui/src/fleet_model.cpp:436-448 | Stores the sample in the host's row. The view follows it in every column but Adapters, where it still shows what it showed; the whole view is right if and only if each Adapters cell reads as at the last signal that covered it, and a view that was right stays right if and only if this row's Adapters text is the same for the new sample |
| FleetModel.Model.ApplyCompliance | libs/ui/src/fleet_model.cpp:414-434 | Stores summary and tags in the host's row; when they differ from the old ones the view hears of the whole row, which also brings its Adapters cell up to date; the view follows in every column but Adapters, is right if and only if each Adapters cell reads as at the last signal that covered it, and stays right if it was |
| FleetModel.SampleHeard | libs/ui/src/fleet_model.cpp:436-448 | Whatever the view last fetched of the Adapters cells, the signal for CPU to Disk covers every cell a sample can change but the Adapters one |
| FleetModel.EntrySignalsHeard | libs/ui/src/fleet_model.cpp:340-364 | Whatever the view last fetched of the Adapters cells, the signals for a replaced entry cover every cell it can change; a changed host, address, state or capability set also fetches its Adapters cell afresh |
| FleetModel.ViewIsRightExactlyWhen | libs/ui/src/fleet_model.cpp:213-292 | What such a view shows equals what the table displays in every column but Adapters, in an Adapters cell exactly when the adapters it was last fetched from read as the row's do now, and as a whole exactly when all Adapters cells do |
| FleetModel.MergeKeepsCurrent | libs/ui/src/fleet_model.cpp:317-374 | A merge of any rows and entries leaves no Adapters cell behind in a view where none was |
| FleetModel.MergeShowsSurvivors | libs/ui/src/fleet_model.cpp:317-374 | From rows and entries in strictly ascending order, a surviving host's Adapters cell is fetched afresh when its host, address, state or capabilities changed and otherwise stays as it was; a new host's is fetched when its row is inserted |
| FleetPipeline.ReconcileNow | apps/server/server_controller.cpp:632-640 | For any events the registry was told, and whatever samples and reports the table has taken in between: the table has one row, in order of ids, for each host that is expected or was heard of and not lost since, with the state that its newest sighting, the lease and its pause give it, keeping what its row already held; the view shows it in every column but Adapters, there too if and only if each Adapters cell reads as at the last signal that covered it, and a view that was right stays right |
| FleetPipeline.MergeShowsFleet | apps/server/server_controller.cpp:632-640 | The merge of any reconciled snapshot into ascending rows is such a table |
| BundleCodec.BundleRoundTrip | libs/core/src/json.cpp:120-279 | Decoding an encoded bundle gives it back if and only if every version constraint in it has non-empty, non-negative parts, and otherwise is an error |
| BundleCodec.PayloadRoundTrip | libs/core/src/json.cpp:143-254 | Each of the seven payload kinds decodes to itself |
| BundleCodec.ComputeContentHash | libs/core/src/json.cpp:294-318 | The byte loop and the digit loop give the 16-digit FNV-1a hash of the bundle without revision and hash |
| BundleCodec.SixteenDigitsLoseNothing | libs/core/src/json.cpp:307-317 | The sixteen digits read back as the 64-bit value |
| BundleCodec.HashIsOfContent | libs/core/src/json.cpp:294-318 | The hash ignores revision and hash, and two bundles have the same hash exactly when the FNV values of their content agree |
| Revisions.Publisher.constructor | apps/server/server_controller.cpp:749-780 | The saved bundle, if it can be opened and read, becomes the published one, its id-repaired copy the draft, and it is announced unless nothing was ever published |
| Revisions.Publisher.Publish | apps/server/server_controller.cpp:234-262 | Does nothing when the hashes agree; otherwise numbers and hashes the draft, makes it the published bundle, saves it and sends it |
| Revisions.Publisher.SavePublished | apps/server/server_controller.cpp:867-886 | The file is left as it was when it cannot be opened, unreadable when the write is cut short, and else holds the published bundle |
| Revisions.Publisher.AnnouncePublished | apps/server/server_controller.cpp:176-195 | Sends the published bundle as it was saved, unless it has revision 0 |
| Revisions.Receiver.OnBundle | apps/client/monitor_worker.cpp:218-242 | Skips the revision held, discards what cannot be read, else takes the bundle |
| Revisions.NothingLeftToPublish | apps/server/server_controller.cpp:234-262 | After publishing nothing is left to publish; the revision went up by one, the content is the draft's and the hash is the content's |
| Revisions.ClientsConverge | apps/client/monitor_worker.cpp:218-242 | However messages are delivered, lost, repeated or out of order, and as long as every server restart has brought back what was published: revisions never go back and each names one content, a client holds what the message delivered to it last carries, and that equals the published bundle if and only if that message has the published revision |
| Revisions.ClientHoldsBlockStart | apps/client/monitor_worker.cpp:218-242 | Whatever was lost on the way or on the server's disk, and in whatever order: a client holds what the first of the last deliveries that share a revision carries, and so what was delivered last if and only if those two messages carry the same |
| Revisions.DeliveryGivesTheMessage | apps/client/monitor_worker.cpp:218-242 | A client that skips an equal revision already holds that bundle |
| Revisions.RevisionsIncrease | apps/server/server_controller.cpp:234-262 | Each publish, saved or not, gets a revision above every message sent before |
| Revisions.RestartGoesOnExactlyWhen | apps/server/server_controller.cpp:749-780 | As long as every restart before has brought back what was published: the next one does, and the next publish after it gets a revision above every message ever sent, if and only if the newest publish was saved and the bundle file can be opened, or nothing was ever published |
| Revisions.OlderOverwrites | apps/client/monitor_worker.cpp:225-227 | Out of order, an older bundle replaces a newer one |
| Revisions.FailedSaveReusesRevision | apps/server/server_controller.cpp:234-262 | When the newest publish was not saved, a restart makes the next publish reuse its revision for other content, and a client holding the first never takes the second |
| Revisions.UnopenedBundleReusesRevision | apps/server/server_controller.cpp:749-750 | So it is when the newest publish was saved and the restart cannot open the bundle file |
| BundleHandoff.Transport.Register | libs/transport/src/fastdds/fast_dds_transport.cpp:508-518 | Sets the handler and leaves the retained bundle to be delivered to it, if both exist |
| BundleHandoff.Transport.Store | libs/transport/src/fastdds/fast_dds_transport.cpp:562-572 | Retains the bundle and leaves it to be delivered to the handler set at that moment |
| BundleHandoff.DeliveredIsDue | libs/transport/src/fastdds/fast_dds_transport.cpp:508-572 | In every interleaving of any registrations and arrivals, no handler is given a bundle twice, nor one the order of the lock sections does not make due; once all calls are complete it has been given exactly those |
| BundleHandoff.NewestDeliveredOnce | libs/transport/src/fastdds/fast_dds_transport.cpp:508-572 | With one registration and all calls complete, the newest bundle was delivered exactly once, as was every one that entered after the registration, and no replaced one was |
| BundleHandoff.LastIsNewestExactlyWhen | libs/transport/src/fastdds/fast_dds_transport.cpp:508-572 | With one registration, bundles arriving one after another and all calls complete, the handler is left with the newest bundle if and only if the registering thread did not deliver an older one after the listener had delivered the newest |
| BundleHandoff.SentOnce | libs/transport/src/fastdds/fast_dds_transport.cpp:508-572 | The registering thread and the receiving thread never both deliver one bundle to one handler |
| BundleHandoff.NewestMayComeFirst | libs/transport/src/fastdds/fast_dds_transport.cpp:562-572 | An interleaving of one registering thread and one listener in which the newest bundle is delivered before an older one |
| BundleHandoff.OlderMayComeBetween | libs/transport/src/fastdds/fast_dds_transport.cpp:508-572 | An interleaving in which the registering thread delivers after a later bundle and the newest still comes last |
| Versions.ScanVersion | libs/core/src/version.cpp:16-48 | The scanning loop agrees with the recursive reading |
| Versions.VersionRoundTrip | libs/core/src/version.cpp:16-84 | The text of a version parses back to it if and only if its parts are non-empty and not negative, and otherwise does not parse |
| Versions.LargeComponentRejected | libs/core/src/version.cpp:27-42 | A text with any component above 2147483647 is rejected |
| Versions.Compare | libs/core/src/version.cpp:50-60 | The loop gives the sign of the first difference |
| Versions.CompareMeans | libs/core/src/version.cpp:50-60 | Negative, zero or positive exactly as one version precedes, equals or follows the other component by component |
| Versions.CompareIsATotalPreorder | libs/core/src/version.cpp:50-60 | In -1..1, antisymmetric in sign, transitive, strict when either step is |
| Versions.EqualUpToTrailingZeros | libs/core/src/version.cpp:50-60 | Two versions compare equal exactly when they agree without trailing zero components |

## Left out

- JSON text, UTF-8 and the number parsing and formatting of the standard library: trees and function arguments stand for them; characters are compared as code points, which orders them as their bytes do; `.length` counts bytes.
- Human-readable observed and message strings, tooltips, the colours themselves and the other roles of the table: statuses, ids, order and the text of the cells are modelled.
- The overflow of the integer suffix in unique_id and of the 64-bit revision counter; an operator would need to publish 2^64 times.
- The float and boolean coercions of the JSON library when a number is read: a field of another kind is an error here.
- Symbolic links and directory creation: the runs directory and the saved bundle are maps whose writes succeed or fail.
- The rest of each class: announcing, sampling, periodic timers, expected-host editing, script settings, the Qt widgets, the message bus, logging, command lines.
- Fast DDS entities, discovery, quality-of-service settings, the polling threads and the connection state of the transport; handle_match_change's counter and state are updated separately, so no agreement between them is claimed.
- Windows and Linux probes, the script runner and autostart; a script's execution is one step with an arbitrary outcome.
- DDS topics are deduplicated by the pair of domain and name, where the program does so by their key; DdsKeyInjective makes that the same.
- std::lower_bound and the library sort are loops with the library's contract.
- TargetsMoveForward: supposes that each restart finds the run's own file current, because a restart otherwise may bring back an older record (RestartTakesBack); for one restart RestartMovesExactlyWhen says exactly when.
- Compliance.AnyElement: supposes arrays shorter than 2^64 elements, so that each element has an index a path can name.
- The shopping-cart demonstration tool and the enum and string tables on their own: they would only add easy members.
- KeepsUnlessMayBeRenamed: only says when an id is certain to be kept, because whether a rule that may be renamed is given a particular id depends on all ids given out before it; RepairIsOk has the exact condition in terms of those.
- Revisions.ClientsConverge: supposes that every restart has brought back what was published; after one that did not, a revision may name two contents, and ClientHoldsBlockStart says what a client then holds.
- Revisions.RestartGoesOnExactlyWhen: supposes the same of earlier restarts, because the highest revision sent may by then belong to a publish that is in no file.
- Why a read fails: a file that cannot be listed, opened or parsed at a restart is one that cannot be read then.
