# agent-office-operator: the operator's convergence loops, verified

The agent-office operator keeps running software equal to what custom resources declare, over and over, while the
software itself, other controllers and people change it underneath. What it promises is therefore about whole runs:
that a converged gateway is left alone, that a swap never leaves a pod unable to boot, that a research loop's books
always balance. This project models the code that carries those promises and proves them.

The project has four parts.

**One shared document.** A gateway's `openclaw.json` is rewritten by the model/auth convergence, by the hooks
convergence, and by one registration, later one de-registration, for each agent. `Config` is the document, `ModelAuth`,
`Hooks` and `AgentMerge` are the scripts as functions, `SharedDocument.GatewayFiles` is the scripts themselves updating
the files step by step, and `Interleavings` is about any sequence of their runs. `Restarts` bounds how often a gateway
can be restarted while its stored credentials come and go. `StableSort` is what the sorted binding list needs.

**Model connections.** `ModelConnections` is the two-step protocol (project the keys, then write the provider blocks)
with its carry-over rule, as a state machine that can be interrupted anywhere.

**The AutoResearch loop.** `AutoResearch` is the state machine over the project's status, with a history beside it;
`ResearchLoop.Controller` is the reconcile pass updating a fetched copy and saving it, or not; `DrainOrders` says what the
map iteration order can and cannot influence; `Losses` is the six-decimal best loss, `Champions` and `ChampionOrders` the
run named as champion, `LostRuns` the runs deleted at the pipeline service but still held open, `RunIds` the run-id
format, `Conditions` the status conditions.

**Planners.** `Schedules`, `ScheduleConvergence` and `CronSharing` (the cron planner, what its passes achieve, and what
other agents' passes leave of it), `Seeding` (skill folders), `SkillRefs` and `SkillBindings`, `Versions`
(newest registry pack), `MetadataCleanup` (the metadata database janitor) and `ShellQuoting`.

## Conventions

- A script or a controller pass is a method on a class that changes the fields the source changes. Its contract ties the
  new state to a function of the old one; the properties are lemmas about that function.
- Every script run, and every transaction, is one atomic step.
- The order in which Go visits a map, in which a listing arrives and in which SQL breaks ties is arbitrary: loops pick
  any remaining element.
- Answers of the API server, the pipeline service, the registry and the pod are parameters.
- JSON objects are compared as records and maps; a list that is absent or not an array is `None`; an absent object and an
  empty one are the same, except where a script tells them apart. Reads of a property that is not there give `Null`.
- What a function computes is stated part by part, in the terms of its inputs, by a lemma beside it (`Reads`, `Is`, `Are`,
  `Leaves`, `Merged…`, `Converged…`).
- `localeCompare` is a rank of strings. Two agents must be told apart by it (`Separated`); `TiedAgentsThrash` shows that
  this is needed.
- Losses are reals; the stored best loss is a whole number of millionths.

## What was found false, and exactly when

- The model/auth convergence is idempotent if and only if neither a model connection nor an explicit `auth.order` key is
  named `openai-codex`; with such a name every pass on every document reports a change (`ModelAuth.IdempotentExactly`).
- One restart more than there are preferred credentials is not always enough: an apiKey gateway that at times finds no
  credential can take two more, exactly when it has yet to converge and its pin is neither absent nor vouched for by
  profiles written before (`Restarts.OneMoreExactly`, `Restarts.ThreeRestarts`).
- A de-registration keeps the other agents settled if and only if none of them shares the browser profile
  (`AgentMerge.DeregisterKeepsOthers`).
- The gateway can be left unable to boot: a reconcile lists the workstations twice, and a swap between the two listings
  wedges it. A run boots throughout if and only if no write meets a reference whose key is not projected
  (`ModelConnections.SwapBetweenReadsWedges`, `BootsExactly`, `WriteBootsExactly`).
- A connection's reference can stand for another connection's key: names such as `a-b` and `a.b` share a variable
  (`ModelConnections.EnvVarSharedExactly`, `OwnKeysExactly`).
- An agent can be sent through a connection no provider block serves: one without a base URL or not offered to the
  workspace (`ModelConnections.DeadLaneExactly`).
- The count of consecutive drain failures depends on the map iteration order if and only if runs with a loss and failed
  runs finish together, and so does the circuit breaker if the failed ones suffice to open it
  (`DrainOrders.FailuresDependOnOrder`, `BreakerDependsOnOrder`); the best loss, the budget and the open runs never do
  (`DrainOrders.OrderDoesNotMatter`).
- Which run is named champion depends on that order if and only if two finishing runs beat the new stored loss, or none
  does, that loss is new and more than one run rounds to it; how many runs count as kept depends on it if and only if two
  beat the stored loss, not all of them beat the new one and not all of them only round to it
  (`ChampionOrders.BestRunDependsOnOrder`, `KeptDependsOnOrder`). Two runs of loss 0.5 are an example of the first, losses
  0.5 and 0.25 of the second.
- The named champion need not be a best run: a new loss is compared with a rounded one. It is a best one after every
  measurement if and only if no loss fell between the champion's own loss and its rounding
  (`Champions.NamesTrueExactly`); of 0.4999996 and then 0.4999999 the worse is named (`Champions.WorseRunNamed`).
- A slot of the research loop can be lost for good: a stale run is deleted at the pipeline service before the status is
  saved, and a run the service does not know is neither drained, culled nor timed out. A project has such a run if and
  only if some pass deleted one and was not saved; as many as the concurrency limit stop all submissions
  (`LostRuns.LostExactly`, `LostForGood`).
- The cron table converges if and only if it and the declarations are orderly. The API calls schedule names unique but
  admits repeats, and the table may hold two jobs of one name: a surplus job stays, a twice declared name is added twice,
  and same-named declarations that differ are edited on every pass (`ScheduleConvergence.ConvergesExactly`,
  `CanSettleExactly`).
- One agent's pass can undo another's over the shared cron table: if and only if it edits or removes a declared job of
  the other's, and that must be a job without an agent (`CronSharing.OtherPassExactly`, `TakesVisible`,
  `OthersKeepConverged`).
- A cron job whose removal failed is never removed later (`ScheduleConvergence.FailedRemovalForgotten`).
- The seeded skill folders are exactly the wanted ones if and only if no name inherited from `Object.prototype`, such as
  `constructor`, interferes with the script's plain-object lookups (`Seeding.FoldersExactly`).
- `versionLess` is an order on three versions if and only if they do not tangle; 9 < 10 < 1x < 9 is an example that does
  (`Versions.OrderedExactly`, `MixedVersionsCycle`).
- Managed binding names of two agents meet if and only if their heads and tails agree or one head continues the other in
  a certain way, where head and tail are agent and skill, or in a name too long the cut agent name and the skill's hash;
  then the second agent's passes fail (`SkillBindings.NamesMeetAcrossAgents`, `SecondAgentBlocked`). Agents alike in their
  first 180 characters share their hashed names. For one agent names collide exactly on the hash coincidences of
  `SkillBindings.NamesCollideExactly`.
- Pruning leaves exactly the newest ten failed executions of a type if and only if its listing was read to the end; an
  error while reading is not looked at (`MetadataCleanup.BrokenListing`).

Where the code and its comments or API documentation differ the model follows the code: the merge script strips an
agent's bindings when it has no channel, although a comment says they are left alone; the janitor prunes only in a pass
that also found an orphan, not once in every cooldown window; the default pin is the least matching profile id, not the
first listed; the champion is named by its display id, not the pipeline service's run id. Two more things a reader may
not expect: a skill listed twice is resolved by its first reference but bound by its last, and a culled run keeps its
recorded start time.

## Model

| member | source | states |
|---|---|---|
| Interleavings.SettledForGood | internal/controller/agentworkstation_shared.go:470-573 | After any interleaving of all the writers, with any repeats and from any document, every writer that ran at least once has nothing left to write or report |
| Interleavings.QuietRun | internal/controller/agentworkstation_shared.go:567-573 | Writers that have nothing to write leave the document untouched over any further run, and so do all others that were settled |
| Interleavings.RunKeepsQuiet | internal/controller/agentworkstation_shared.go:470-565 | No run of one writer gives another settled writer work: the scripts never undo each other |
| Interleavings.RunSettles | internal/controller/agentgateway_controller.go:784-789 | A writer's own run settles it, whatever the document was |
| Interleavings.KindsCommute | internal/controller/agentgateway_hooks.go:153-187 | Model/auth, hooks and agent runs own different parts of the document, so they commute pairwise and none changes what another kind would report |
| Interleavings.HooksKeysSurvive | internal/controller/agentgateway_hooks.go:153-177 | Over any run of all writers, every hooks key outside the five owned ones is exactly as at the start |
| Interleavings.DeregisterKeepsQuiet | internal/controller/agentworkstation_shared.go:703-723 | De-registering an agent leaves every other settled writer settled, unless an agent shares the browser profile |
| Interleavings.RunLeavesQuiet | internal/controller/agentworkstation_shared.go:567-573 | A run settles every writer in it and keeps settled every other that was |
| Interleavings.RunKeepsErased | internal/controller/agentworkstation_shared.go:703-723 | Whatever runs, first merges included, an erased agent stays out of the document, unless an agent with its browser profile runs |
| Interleavings.DeregisteredForGood | internal/controller/agentworkstation_shared.go:703-723 | After a de-registration, however the others go on, those that merge for the first time included, the agent stays out of the agent list, the allowed profiles and the bindings, and every other writer that ran before or after is settled; no other agent may have its browser profile |
| Interleavings.LastEventHolds | internal/controller/agentworkstation_shared.go:456-723 | However runs of all the writers and de-registrations of any of the agents follow each other: a writer whose last event was a run has nothing to write, an agent that was de-registered last is out of the document, and a settled writer without an event stays settled, provided no agent has the browser profile of another that leaves |
| AgentMerge.MergedBindings | internal/controller/agentworkstation_shared.go:533-558 | From any document: a rule is left exactly when it is another agent's and names a peer, a guild, a team or a single account, so wide catch-alls go; the agent's own rule for its channel is added |
| AgentMerge.MergedBindingsInOrder | internal/controller/agentworkstation_shared.go:559-565 | The rules come in the collation's order of agent id, tab and peer id |
| AgentMerge.MergedEntry | internal/controller/agentworkstation_shared.go:148-160 | The first entry of the agent's id, or a new last one, reads the id, name, workspace, model and identity of the spec and is otherwise as it was; no other entry moves or changes |
| AgentMerge.MergedProxy | internal/controller/agentworkstation_shared.go:478-484 | The browser proxy is enabled and the profile is at the end of the allowed ones if it was missing |
| AgentMerge.MergedTools | internal/controller/agentworkstation_shared.go:507-514 | Declared browser, canvas, screen and terminal tools are allowed on top and end an exclusive list; without one both lists stay |
| AgentMerge.MergedSearch | internal/controller/agentworkstation_shared.go:516-526 | A declared web search gets the provider where none is chosen and that provider's plugin where there is none; nothing else changes there |
| AgentMerge.MergedElsewhere | internal/controller/agentworkstation_shared.go:466-573 | All other parts of the document are as they were |
| AgentMerge.DeregisterLeaves | internal/controller/agentworkstation_shared.go:711-716 | Of the three lists exactly what does not name the agent is left, and all the rest is as it was |
| AgentMerge.MergeEntryAt | internal/controller/agentworkstation_shared.go:470-476 | The first entry with the agent's id is overlaid in place, or the entry is appended; nothing else moves |
| AgentMerge.AppendMissingFixed | internal/controller/agentworkstation_shared.go:478-484 | An allow list is left alone exactly when it already holds everything asked for |
| AgentMerge.BindingReads | internal/controller/agentworkstation_shared.go:533-557 | The agent's own rule is recognised as its own and is never a wide catch-all |
| AgentMerge.MergeBindingsCommute | internal/controller/agentworkstation_shared.go:543-565 | The sorted binding list does not depend on which of two agents merged first |
| AgentMerge.MergeSettles | internal/controller/agentworkstation_shared.go:466-573 | A second merge of the same agent is a no-change, from any document |
| AgentMerge.MergeKeepsSettled | internal/controller/agentworkstation_shared.go:466-573 | One agent's merge keeps every other settled agent settled |
| AgentMerge.TiedAgentsThrash | internal/controller/agentworkstation_shared.go:559-564 | Two agents whose rules the collation ties can never be settled together: why the sort key must separate them |
| AgentMerge.MergeKeepsErased | internal/controller/agentworkstation_shared.go:466-573 | Another agent's merge brings nothing of an erased agent back, if its browser profile is another |
| AgentMerge.DeregisterErases | internal/controller/agentworkstation_shared.go:703-722 | De-registration removes every mention of the agent from any document, and writes nothing exactly when there was none |
| AgentMerge.DeregisterKeepsOthers | internal/controller/agentworkstation_shared.go:711-716 | Another settled agent stays settled if and only if it has another browser profile |
| SharedDocument.GatewayFiles.ConvergeModelAuth | internal/controller/agentgateway_controller.go:631-790 | The script, change flag and sidecar included, computes the specified document and reports exactly the specified drift |
| SharedDocument.GatewayFiles.ConvergeProviders | internal/controller/agentgateway_controller.go:664-708 | Provider blocks: canonical overwritten, legacy and dropped ones deleted, others untouched; drift reported exactly |
| SharedDocument.GatewayFiles.ConvergeAuth | internal/controller/agentgateway_controller.go:725-770 | Profiles and the sticky order pin, with the legacy order key deleted; drift reported exactly |
| SharedDocument.GatewayFiles.ConvergeHooks | internal/controller/agentgateway_hooks.go:145-188 | The hooks script computes the specified hooks block and reports a change exactly when the document changed |
| SharedDocument.GatewayFiles.MergeAgent | internal/controller/agentworkstation_shared.go:456-574 | The merge script computes the specified document and reports a change exactly when it changed |
| SharedDocument.GatewayFiles.DeregisterAgent | internal/controller/agentworkstation_shared.go:703-723 | The de-registration script computes the specified document and reports a change exactly when something was left to erase |
| ModelAuth.ConvergedDefault | internal/controller/agentgateway_controller.go:710-722 | A default model on another provider than openai stays; an absent, empty or openai one becomes the desired one where one is desired |
| ModelAuth.ConvergedProvider | internal/controller/agentgateway_controller.go:664-704 | Block by block: the canonical one and the connections' are overwritten, the legacy one and those of dropped connections go, every other stays |
| ModelAuth.ConvergedOrder | internal/controller/agentgateway_controller.go:731-770 | A provider's pin stays where all of it is acceptable or has a profile of the mode, else becomes the desired one; the legacy key goes, other pins stay |
| ModelAuth.ConvergedProfile | internal/controller/agentgateway_controller.go:724-730 | Desired profiles are overwritten, others stay |
| ModelAuth.ConvergedGateway | internal/controller/agentgateway_controller.go:651-662 | Both tokens follow the pod's where it has one; the http block is the desired one or gone |
| ModelAuth.ConvergedElsewhere | internal/controller/agentgateway_controller.go:635-790 | The other writers' parts are as they were, and the sidecar lists the connections but the canonical id |
| Values.TruthyIs | internal/controller/agentgateway_controller.go:677-677 | The four values that count as false in the scripts |
| ModelAuth.QuietWritesNothing | internal/controller/agentgateway_controller.go:635-789 | When no drift is reported the document is already the converged one |
| ModelAuth.IdempotentExactly | internal/controller/agentgateway_controller.go:677-708 | One pass settles every document if and only if nothing asked for carries the legacy provider name; otherwise every pass reports a change |
| ModelAuth.ReportIsAChange | internal/controller/agentgateway_controller.go:784-789 | Without the legacy name a reported change is a changed document: no restart for nothing |
| Restarts.DesiredProvider | internal/controller/agentgateway_controller.go:535-560 | The canonical block of every desired state: address, API and models of the route, and a key only on the metered route with a credential declared |
| Restarts.CatalogIs | internal/controller/agentgateway_controller.go:523-531 | The models are the spec's, or the defaults of the route |
| Restarts.DesiredPin | internal/controller/agentgateway_controller.go:590-624 | The pin: the explicit order, else the named profile, else the preferred one found; a subscription without any is an error |
| Restarts.DesiredRest | internal/controller/agentgateway_controller.go:567-588 | Default model, profile mode, http block, connections and token of every desired state |
| Restarts.DiscoverOpenAIAuthProfile | internal/controller/agentgateway_controller.go:365-405 | The matching credentials come sorted, so the preferred one is the least |
| Restarts.SameMatchingInAnyOrder | internal/controller/agentgateway_controller.go:391-404 | The same credentials listed in any order give the same matching list and the same pin |
| Restarts.LegacyNameComesFrom | internal/controller/agentgateway_controller.go:568-618 | Only a connection or an explicit order can bring the legacy name into the desired state |
| Restarts.DiscoveredStateIsPinned | internal/controller/agentgateway_controller.go:590-624 | The passes of a spec that leaves the pin open: pinned to the preferred credential, without a pin where an apiKey gateway finds none, or ending in an error |
| Restarts.PinStep | internal/controller/agentgateway_controller.go:728-770 | A discovery learns its preferred credential and either keeps the pin, as it must where written profiles vouch for it, or moves it there |
| Restarts.RestartBound | internal/controller/agentgateway_controller.go:597-624 | With a fixed spec, over any interleaving of passes with and without a discovered credential with the other writers: auth.order is written at most once and restarts are at most two more than the distinct preferred credentials |
| Restarts.AlwaysPinnedBound | internal/controller/agentgateway_controller.go:597-608 | A gateway whose passes all discover a credential, as a subscription gateway's do, restarts at most once more than there are distinct preferred credentials, from any document |
| Restarts.OneMoreExactly | internal/controller/agentgateway_controller.go:731-764 | One more than the preferred credentials is enough for every run if and only if the gateway is calm, has no pin, or has one that written profiles vouch for |
| Restarts.ThreeRestarts | internal/controller/agentgateway_controller.go:750-764 | Otherwise an unpinned pass and two discoveries of one new credential restart it three times |
| Hooks.ResolveHooks | internal/controller/agentgateway_hooks.go:66-128 | Hooks are rendered enabled exactly when the pod is given the token; each obstacle has its reason; a transient error decides nothing |
| Hooks.DisabledLeaves | internal/controller/agentgateway_hooks.go:172-179 | Disabling leaves nothing truthy under "enabled", drops the operator's reference and keeps every other key; it creates no hooks block |
| Hooks.EnabledLeaves | internal/controller/agentgateway_hooks.go:155-171 | Enabling in a pod with the token sets the five keys as decided; in one without it nothing is touched |
| Hooks.HooksSettle | internal/controller/agentgateway_hooks.go:145-188 | A second hooks convergence changes nothing |
| Hooks.HooksSettleInAnyPod | internal/controller/agentgateway_hooks.go:155-166 | A run in a pod without the token and one in a pod with it never give each other work |
| Hooks.OthersKeysSurvive | internal/controller/agentgateway_hooks.go:151-177 | Keys the operator does not own survive one convergence |
| Hooks.ReferenceResolvable | internal/controller/agentgateway_hooks.go:155-176 | The token reference is written only where the pod can resolve it, disabling removes it in every pod, and a literal token is left alone |
| ModelConnections.CollectModelConnections | internal/controller/agentgateway_modelconnections.go:84-210 | The provider blocks and keys of the referenced and carried connections; of two connections with one variable the last by name gives its key |
| ModelConnections.RenderedAre | internal/controller/agentgateway_modelconnections.go:125-168 | A connection gets its block if and only if it is in use or its key is projected, and it exists, is offered where gated, is an endpoint and has a base URL; a key is projected for exactly those of them that have one |
| ModelConnections.BlockReads | internal/controller/agentgateway_modelconnections.go:170-204 | The block key by key |
| ModelConnections.EnvVarReads | internal/controller/agentgateway_modelconnections.go:57-68 | The variable character by character |
| ModelConnections.EnvVarSharedExactly | internal/controller/agentgateway_modelconnections.go:57-68 | When two connection names share a variable: same length and the same letters and digits up to case, position by position |
| ModelConnections.OwnKeysExactly | internal/controller/agentgateway_modelconnections.go:181-204 | Every reference stands for its own connection's key if and only if no two rendered connections of different keys share a variable |
| ModelConnections.StepsAre | internal/controller/agentgateway_controller.go:664-708 | The steps of the protocol are those of the scripts: a write leaves providers and sidecar as the convergence does, a projection leaves the keys needed |
| ModelConnections.ProjectGrows | internal/controller/agentgateway_modelconnections.go:110-141 | Carry-over: no projected key is withdrawn and every referenced key is projected |
| ModelConnections.WriteBootsExactly | internal/controller/agentgateway_controller.go:687-708 | A write leaves the document bootable if and only if every key its references need was projected before |
| ModelConnections.StepKeepsInv | internal/controller/agentgateway_resources.go:752-763 | A step of the protocol, or an interruption, keeps the boot invariant if and only if it is no write with references listed anew, or their keys are projected already |
| ModelConnections.BootsExactly | internal/controller/agentgateway_controller.go:549-553 | A run, in which a write may list the workstations anew as the code does, boots in every state if and only if no such write meets a reference whose key is not projected |
| ModelConnections.SwapBetweenReadsWedges | internal/controller/agentgateway_controller.go:549-553 | From a fresh gateway, a swap to any keyed connection between the two listings of one reconcile leaves a document that cannot boot |
| ModelConnections.AlwaysBoots | internal/controller/agentgateway_modelconnections.go:110-141 | Under the assumption that each reconcile writes what it read for the projection: after any run from a state of the invariant each key reference in the persisted document is projected, however workstations swap models |
| ModelConnections.FreshGateway | internal/controller/agentgateway_modelconnections.go:110-141 | From a gateway that has rendered no connection: a run boots in every state it reaches if and only if every write that lists the workstations anew is prepared for, in particular when none does |
| ModelConnections.Gateway.DesiredConnections | internal/controller/agentgateway_controller.go:549-565 | The desired state built from the projected keys is what a write of that reconcile carries in the protocol |
| ModelConnections.NoDeadLane | internal/controller/agentgateway_modelconnections.go:149-207 | After a completed reconcile each renderable connection in use has its provider block, with its key projected |
| ModelConnections.ChooseModel | internal/controller/agentworkstation_shared.go:112-147 | The provider id and model of an agent's model string: its connection's where that is an endpoint with a model to name, else the provider's |
| ModelConnections.DeadLaneExactly | internal/controller/agentworkstation_shared.go:117-147 | A completed reconcile leaves an agent that goes through a connection without a provider block if and only if the connection has no base URL or is not offered, and no block of its name was left from elsewhere |
| ModelConnections.CanonicalRefersToNone | internal/controller/agentgateway_controller.go:537-562 | The canonical provider block never refers to a connection's key |
| ModelConnections.Gateway.ProjectKeys | internal/controller/agentgateway_modelconnections.go:216-235 | The derived Secret holds exactly the needed keys and is deleted when there are none |
| AutoResearch.OutcomeIs | internal/controller/autoresearchproject_controller.go:1062-1109 | A run ends with a loss if and only if it succeeded with a result; without one if and only if it succeeded with none, failed, was skipped or canceled, or is overdue; else it stays open |
| DrainOrders.DrainedEvents | internal/controller/autoresearchproject_controller.go:1046-1233 | A drain adds to the history the end of exactly the visited runs that are over, once each and as it follows from their reports |
| AutoResearch.DrainedReads | internal/controller/autoresearchproject_controller.go:1186-1230 | What draining one run does to every field of the status |
| AutoResearch.CulledReads | internal/controller/autoresearchproject_dsp.go:274-300 | What culling one run does to the status, its round recovered from its id |
| AutoResearch.SubmittedReads | internal/controller/autoresearchproject_controller.go:310-383 | What a submission does to the status: the new record comes first and at most twenty stay |
| AutoResearch.StaleIs | internal/controller/autoresearchproject_dsp.go:241-249 | A run is stale if and only if its version is known and another |
| AutoResearch.PassIs | internal/controller/autoresearchproject_controller.go:180-400 | A pass submits if and only if no gate holds it back; otherwise it saves what it observed unless the cadence or the concurrency gate returned |
| AutoResearch.LimitsRead | internal/controller/autoresearchproject_controller.go:95-108 | The limits with their defaults, in nanoseconds |
| AutoResearch.DrainKeeps | internal/controller/autoresearchproject_controller.go:1196-1230 | Draining a run keeps the books explained by the history and within the budgets |
| AutoResearch.CullKeeps | internal/controller/autoresearchproject_dsp.go:274-300 | Culling a run keeps the books explained by the history and within the budgets |
| AutoResearch.SubmitKeeps | internal/controller/autoresearchproject_controller.go:310-383 | Submitting a round behind the gates keeps the books explained by the history and within the budgets |
| AutoResearch.PassKeeps | internal/controller/autoresearchproject_controller.go:84-400 | A whole pass keeps them, also when a gate returns without saving or the update fails |
| AutoResearch.EveryRun | internal/controller/autoresearchproject_controller.go:183-252 | In every state any run of passes and human resets reaches: round = drained + open + culled with no round twice, the budgets and the record bound hold, the failure counter is the failing suffix of the drains, and the best loss is the rounded extremum of all measured losses |
| DrainOrders.OrderDoesNotMatter | internal/controller/autoresearchproject_controller.go:1046-1230 | Any two visiting orders of the open runs give the same best loss, budget and open runs |
| DrainOrders.FailuresRange | internal/controller/autoresearchproject_controller.go:1219-1228 | Without a finishing run that reports a loss the counter rises by the failed ones; with one it ends at no more than their number |
| DrainOrders.FailuresDependOnOrder | internal/controller/autoresearchproject_controller.go:1219-1228 | All visiting orders give the same failure counter if and only if runs with a loss and failed runs do not finish together |
| DrainOrders.BreakerDependsOnOrder | internal/controller/autoresearchproject_controller.go:222-226 | The order can decide whether submissions halt if and only if a run with a loss finishes together with at least as many failed ones as open the breaker |
| DrainOrders.NeverWorsens | internal/controller/autoresearchproject_controller.go:1209-1214 | No pass and no reset makes the stored best loss worse |
| Champions.EveryChampion | internal/controller/autoresearchproject_controller.go:1209-1214 | In every state a run of passes and resets reaches: the named champion is the last measured run that beats the stored loss, or where none does the first that rounds to it; none before the first measurement |
| Champions.EveryRunNames | internal/controller/autoresearchproject_controller.go:1209-1214 | The champion and the count of kept runs are, in every state of a run, those that visiting the measured drains of the history in order makes |
| Champions.OnlyNearTiesBeat | internal/controller/autoresearchproject_controller.go:1542-1558 | A run that beats the named champion rounds to the same stored loss, and was measured on the side the comparison with that loss overlooks |
| Champions.NamesTrueExactly | internal/controller/autoresearchproject_controller.go:1542-1558 | The named champion is a best run after every measurement if and only if no loss fell between the named one's and its rounding |
| Champions.WorseRunNamed | internal/controller/autoresearchproject_controller.go:1209-1214 | An example: 0.4999996, then 0.4999999, and the worse run is named |
| ChampionOrders.FinalLoss | internal/controller/autoresearchproject_controller.go:1046-1230 | Every visiting order ends at one stored loss, the best of the stored one and the rounded new ones |
| ChampionOrders.BestRunDependsOnOrder | internal/controller/autoresearchproject_controller.go:1209-1214 | All visiting orders name the same champion run if and only if at most one finishing run beats the new stored loss and, where none does and that loss is new, exactly one rounds to it |
| ChampionOrders.KeptDependsOnOrder | internal/controller/autoresearchproject_controller.go:1209-1212 | All visiting orders keep the same number of runs if and only if at most one finishing run beats the stored loss, or all that do beat the new one, or all that do only round to it |
| ChampionOrders.DrainVisits | internal/controller/autoresearchproject_controller.go:1046-1230 | What a drain makes of champion and kept count is the visit of the finishing runs' losses in its order |
| LostRuns.PassRuns | internal/controller/autoresearchproject_dsp.go:274-300 | A saved pass holds nothing open that it culled, an unsaved one everything; what the service does not report stays open |
| LostRuns.LostExactly | internal/controller/autoresearchproject_dsp.go:250-276 | After any run of passes a run deleted at the service is held open if and only if one was before or some pass deleted one and was not saved |
| LostRuns.LostForGood | internal/controller/autoresearchproject_controller.go:1046-1053 | Such runs stay open over every further pass, and as many as the concurrency limit end all submissions |
| DrainOrders.DrainedRuns | internal/controller/autoresearchproject_controller.go:1046-1230 | A drain releases and counts exactly the finished and overdue runs |
| ResearchLoop.Controller.DrainOpenJobs | internal/controller/autoresearchproject_controller.go:1025-1233 | The drain loop does what the specification says for the order it took, logs the end of exactly the open runs that are over, as their reports say, and tells whether there was any |
| ResearchLoop.Controller.CompleteRecord | internal/controller/autoresearchproject_controller.go:1186-1208 | Only the first record of the run is completed |
| ResearchLoop.CompleteAt | internal/controller/autoresearchproject_controller.go:1186-1208 | Which record that is, and that all others stay |
| ResearchLoop.Controller.CullStaleOpenRuns | internal/controller/autoresearchproject_dsp.go:229-303 | Exactly the open runs of another pipeline version are dropped and recorded as superseded |
| ResearchLoop.Controller.Reconcile | internal/controller/autoresearchproject_controller.go:84-400 | The pass on the fetched copy leaves in the API server what the specified pass does, and keeps its soundness |
| ResearchLoop.Controller.ResetFailures | internal/controller/autoresearchproject_controller.go:228-241 | A human reset clears the counter and nothing else |
| Losses.ChampionStep | internal/controller/autoresearchproject_controller.go:1542-1558 | Comparing with the rounded best loss still yields the rounding of the better of the true one and the new loss |
| Losses.MicroNearest | internal/controller/autoresearchproject_controller.go:1212-1212 | A stored loss is the nearest millionth, the even one of two |
| Losses.ImprovesWhen | internal/controller/autoresearchproject_controller.go:1545-1558 | A loss improves if and only if none is stored or it beats the stored one in the direction asked for, which is down unless another is named |
| Losses.ExtremumIs | internal/controller/autoresearchproject_controller.go:1542-1558 | The extremum is one of the losses and none beats it |
| Losses.NeverWorse | internal/controller/autoresearchproject_controller.go:1542-1558 | A measurement never makes the stored loss worse |
| RunIds.ExtractInvertsRunId | internal/controller/autoresearchproject_dsp.go:306-318 | The round is recovered from its run id over the whole 32-bit range |
| RunIds.AtoiDecimal | internal/controller/autoresearchproject_dsp.go:313-317 | Parsing undoes decimal printing over the whole 64-bit range |
| RunIds.ExtractOther | internal/controller/autoresearchproject_dsp.go:308-318 | Ids of another form give round 0, and numbers wrap at 32 bits |
| RunIds.AtoiReads | internal/controller/autoresearchproject_dsp.go:313-316 | An optional sign and digits only, within 64 bits |
| RunIds.AtoiFits | internal/controller/autoresearchproject_dsp.go:313-316 | Digits are a number if and only if it fits into 64 bits, a negative one reaching one further |
| RunIds.RunIdInjective | internal/controller/autoresearchproject_controller.go:319-319 | Different rounds have different run ids |
| Conditions.Merge | internal/controller/autoresearchproject_controller.go:1595-1616 | The list of conditions in strict order that the merged map stands for |
| Conditions.EveryCondition | internal/controller/autoresearchproject_controller.go:1595-1616 | Over any sequence of merges: one entry for each type ever updated, in strict order, with its latest contents and the time of its latest change of status |
| Conditions.StatusConditions.Record | internal/controller/autoresearchproject_controller.go:1595-1616 | A merge into a status keeps that account of its whole history |
| ScheduleConvergence.PlanIs | internal/controller/agentworkstation_schedules.go:86-127 | Which commands are planned: additions of declared names without a job, edits of the last listed job that reads otherwise, removals of recorded names no longer declared; all text trimmed |
| Text.TrimIs | internal/controller/agentworkstation_schedules.go:96-99 | Trimmed text runs from the first to the last character that is no space |
| Text.SpacesAre | internal/controller/agentworkstation_schedules.go:98-99 | The 25 characters that count as space |
| Schedules.PlanSchedules | internal/controller/agentworkstation_schedules.go:86-127 | The planned commands for the declared and the formerly declared names |
| Schedules.Workstation.Reconcile | internal/controller/agentworkstation_schedules.go:142-188 | From any table and any declarations: the pass leaves what the executed plan for some listing gives and records the declared names, or changes nothing when the gateway is not ready |
| ScheduleConvergence.ListingOrderExactly | internal/controller/agentworkstation_schedules.go:87-92 | The order in which the gateway lists its jobs does not matter if and only if no two of the agent's share a name |
| ScheduleConvergence.NamedAfter | internal/controller/agentworkstation_schedules.go:93-127 | Whatever commands work: the agent's jobs of each name afterwards |
| ScheduleConvergence.Untouched | internal/controller/agentworkstation_schedules.go:93-127 | Whatever commands work: other agents' jobs and the agent's never declared ones are identical, and what is new is of a declared name |
| ScheduleConvergence.ConvergesExactly | internal/controller/agentworkstation_schedules.go:86-127 | When all commands work: each declared name has exactly one matching job and formerly declared names have none, if and only if no two of the agent's jobs shared such a name, no name without a job is declared twice and same-named declarations agree after trimming |
| ScheduleConvergence.CanSettleExactly | internal/controller/agentworkstation_schedules.go:94-114 | Some table leaves nothing to plan if and only if same-named declarations agree after trimming; otherwise every pass edits again |
| ScheduleConvergence.NextOp | internal/controller/agentworkstation_schedules.go:94-114 | Of a name declared once that at most one job of the agent's has: its command comes up again if and only if it was planned and failed |
| ScheduleConvergence.NextPlan | internal/controller/agentworkstation_schedules.go:166-180 | When that holds of all declared names, the next plan is exactly the failed additions and edits |
| ScheduleConvergence.FailedRemovalForgotten | internal/controller/agentworkstation_schedules.go:175-180 | From any table: after a later pass an undeclared name is gone if and only if there was no job of it, or one whose removal worked |
| CronSharing.JobsLeft | internal/controller/agentworkstation_schedules.go:86-127 | What another agent's pass leaves of an agent's jobs of each name: all but those an edit or removal of it took effect on, unchanged |
| CronSharing.TakesVisible | internal/controller/agentworkstation_schedules.go:86-127 | A pass edits and removes only jobs of its agent or of none, under names the agent declares or declared |
| CronSharing.OtherPassExactly | internal/controller/agentworkstation_schedules.go:86-127 | Another agent's pass leaves a converged agent converged if and only if it takes none of its declared jobs |
| CronSharing.OthersKeepConverged | internal/controller/agentworkstation_schedules.go:162-180 | Over any run of other agents' passes, however their commands go, an agent whose declared jobs name it stays converged |
| Seeding.Workspace.Seed | internal/controller/agentworkstation_shared.go:320-358 | The script leaves exactly the specified folders |
| Seeding.FoldersExactly | internal/controller/agentworkstation_shared.go:320-358 | Whatever was there before, the folders are the image's within the restriction and the resolved skills, if and only if no inherited name interferes |
| Seeding.FilesAre | internal/controller/agentworkstation_shared.go:326-346 | Every file of every folder afterwards, from the image, the rendered skill and what was there |
| Seeding.InSeeded | internal/controller/agentworkstation_shared.go:320-358 | Which folders are there afterwards, inherited names included |
| Seeding.ImageWins | internal/controller/agentworkstation_shared.go:326-334 | On a name clash the image's files, SKILL.md among them, are what is there |
| Seeding.InlineDelivered | internal/controller/agentworkstation_shared.go:336-346 | A resolved skill the image lacks reads as rendered |
| Seeding.SecondSeed | internal/controller/agentworkstation_shared.go:320-358 | A second seed changes nothing |
| SkillRefs.FindRefSkill | internal/controller/agentworkstation_skills.go:457-483 | The skill a reference means: the agent's own, then the pinned, then the first by name among the labelled; else the exact name here, else on the platform |
| SkillRefs.MeansOne | internal/controller/agentworkstation_skills.go:457-483 | A reference means at most one skill |
| SkillRefs.ListRefSkills | internal/controller/agentworkstation_skills.go:493-526 | The distinct non-empty names split into resolved, in order, and unresolved, with no overlap, loss or repeat, each for a reason |
| SkillBindings.BindingName | internal/controller/agentworkstation_skillrefs.go:160-181 | Names are at most 200 characters |
| SkillBindings.NameReads | internal/controller/agentworkstation_skillrefs.go:160-181 | The plain name where it fits into 200 characters, else one of the cut agent name and the hash |
| SkillBindings.DesiredAre | internal/controller/agentworkstation_skillrefs.go:75-82 | The skills wanted are the referenced ones that are here, each with its last reference |
| SkillBindings.NamesCollideExactly | internal/controller/agentworkstation_skillrefs.go:160-181 | Exactly when two skills of one agent get one name |
| SkillBindings.NamesMeetAcrossAgents | internal/controller/agentworkstation_skillrefs.go:160-168 | Any two names, plain or hashed, are equal if and only if heads and tails agree or one head continues the other, whose tail takes up what is left |
| SkillBindings.SecondAgentBlocked | internal/controller/agentworkstation_skillrefs.go:106-131 | Where names of two agents are equal, every pass of the second agent fails for as long as the first holds the binding |
| SkillBindings.Namespace.ReconcileSkillRefs | internal/controller/agentworkstation_skillrefs.go:69-150 | A pass succeeds exactly when no needed binding is controlled by another, and then the agent's bindings are exactly one for each name of a wanted skill, with the last reference of such a skill (which one is open where two share a name), others untouched |
| SkillBindings.OneForEach | internal/controller/agentworkstation_skillrefs.go:66-150 | With the names apart that is one for each wanted skill, with its own last reference |
| SkillBindings.SecondPass | internal/controller/agentworkstation_skillrefs.go:66-150 | A second pass succeeds, and with the names apart changes nothing |
| Versions.VersionLess | internal/controller/catalog_packs.go:330-354 | The index loop computes the comparison of the first segments that differ |
| Versions.OlderWhen | internal/controller/catalog_packs.go:330-354 | A version is older if and only if, at the first position where the segments are not the same, its segment is less |
| Versions.SegmentsCompare | internal/controller/catalog_packs.go:342-351 | Two numbers compare by value, all else as text |
| Versions.SegmentsAre | internal/controller/catalog_packs.go:331-341 | The segments are the text between the dots of the trimmed version; a missing one is empty |
| Versions.VersionMarkDropped | internal/controller/catalog_packs.go:331-332 | One leading v is dropped |
| Text.LeqIs | internal/controller/catalog_packs.go:349-351 | Text order: a beginning comes first, else the first different character decides |
| Versions.OrderedExactly | internal/controller/catalog_packs.go:330-354 | Any three versions obey the laws of a strict weak order if and only if they do not tangle: at the first position where they differ, no text lies between two numbers that do not come in that order themselves |
| Versions.StrictWeakOrder | internal/controller/catalog_packs.go:330-354 | Among versions of one shape, all-numeric ones for instance, nothing tangles |
| Versions.MixedVersionsCycle | internal/controller/catalog_packs.go:330-354 | An example of a tangle: 9 < 10 < 1x < 9 |
| Versions.NewestPerName | internal/controller/catalog_packs.go:265-291 | One row for each name not installed locally, and no other, in the order in which the names are first listed |
| Versions.NewestIsMaximal | internal/controller/catalog_packs.go:273-287 | The row is a listed pack of its name and none is newer, if no three listed versions of it tangle |
| Versions.NewestIsFirst | internal/controller/catalog_packs.go:280-287 | Of equally new packs the first listed is taken |
| Versions.ListingOrderDoesNotMatter | internal/controller/catalog_packs.go:273-287 | Then its version class does not depend on the listing order |
| MetadataCleanup.FindOrphans | internal/controller/autoresearchproject_mlmd_cleanup.go:184-207 | The executions whose run is confirmed over by the first answer that was not an error |
| MetadataCleanup.VerdictIsAnswer | internal/controller/autoresearchproject_mlmd_cleanup.go:185-203 | The verdict on a run is the first answer about it that was not an error |
| MetadataCleanup.OverIs | internal/controller/autoresearchproject_controller.go:1273-1279 | A run is over when it is gone or in one of the four final states |
| MetadataCleanup.OnlyOrphansFail | internal/controller/autoresearchproject_mlmd_cleanup.go:208-235 | Exactly the orphans become failed, which were running and whose run the service itself calls over or gone; nothing else changes |
| MetadataCleanup.Store.SelectExcess | internal/controller/autoresearchproject_mlmd_cleanup.go:271-293 | All failed executions of a type but the newest ten, or the newest of them where reading the listing breaks off unnoticed |
| MetadataCleanup.Store.DeleteExcess | internal/controller/autoresearchproject_mlmd_cleanup.go:300-347 | One transaction deletes them with exactly their dependent rows, without a dangling reference after any statement, or rolls back |
| MetadataCleanup.Store.PruneOldFailed | internal/controller/autoresearchproject_mlmd_cleanup.go:264-350 | Type by type, keeping what was committed before a failure, with the exact count of deleted rows |
| MetadataCleanup.WithoutLeaves | internal/controller/autoresearchproject_mlmd_cleanup.go:318-334 | Deleting executions leaves exactly the dependent rows of the others, unchanged, and all contexts |
| MetadataCleanup.FailedAre | internal/controller/autoresearchproject_mlmd_cleanup.go:271-279 | The executions pruned over are those of the type in state 4 |
| MetadataCleanup.PrunedIs | internal/controller/autoresearchproject_mlmd_cleanup.go:264-350 | For one type: min(10, count) newest failed executions are kept, other executions and their dependent rows untouched, references intact, and exactly these are left if the listing came whole |
| MetadataCleanup.BrokenListing | internal/controller/autoresearchproject_mlmd_cleanup.go:283-293 | How many are left when the listing broke off: the retained and the unread, which are no newer than the deleted ones |
| MetadataCleanup.ChainIs | internal/controller/autoresearchproject_mlmd_cleanup.go:264-350 | For the whole pass: only failed executions of the pruned types go, each type keeps its newest and exactly these where its listing came whole, references stay intact, and of the dependent rows exactly those of the executions left are left |
| MetadataCleanup.Store.Cleanup | internal/controller/autoresearchproject_mlmd_cleanup.go:118-248 | The janitor pass: orphans first, pruning only when there were any |
| ShellQuoting.EscapedReadsBack | internal/controller/agentworkstation_shared.go:1108-1112 | Wherever a word may go on, an escaped string adds exactly that string |
| ShellQuoting.ArgumentsReadBack | internal/controller/agentworkstation_shared.go:1108-1112 | A command line of escaped arguments reads back as exactly those arguments |
| ShellQuoting.QuotesAloneExactly | internal/controller/agentworkstation_shared.go:1108-1112 | Plain single quotes would do exactly for the strings without one |

## Left out

- Kubernetes, exec, HTTP, chat, registry and pipeline clients: their answers are parameters; errors that end a pass early
  without effect are passes that do not happen.
- Races inside one script run, and edits of `openclaw.json` by openclaw itself between read and write.
- Deletion, withdrawal or editing of a model connection, and API errors that suspend carry-over: outside the boot-safety
  property, which is about connections that stay as they are.
- Restarts.RestartBound: is about a gateway whose connections and default model stay fixed; a pass that ends with an error writes nothing and is no step.
- `firstConnectionModel`, `splitOCIURI` and `collectMCPEnvFromSecrets`: short folds whose results enter as parameters or
  not at all; they would only add easy members.
- JSON key order, indentation and number formats, file I/O, and the sidecar's order (a set here).
- `auth.order` values that are not arrays, agent and peer ids that are not strings, and provider ids inherited from
  `Object.prototype`.
- The passing of time within a pass, which reads the clock once here, and durations beyond what 64-bit nanoseconds hold.
- Binary floating point: rounding of decimal losses to doubles, infinities and the sign of zero; the best loss is read back
  exactly.
- The 32-bit width of the status counters: a pass submits at most one round.
- Conditions, wiki synchronisation, backfill, strategist, searcher, phase and messages inside the AutoResearch pass; its
  conditions are modelled on their own.
- The janitor's cooldown and the completeness of its candidate query, which is limited to 500 rows in any order.
- Statements of other clients between the janitor's selection and its transaction.
- Workspace entries that are plain files, the non-skill files and the legacy flat files of the seed script, and names
  with an underscore or a slash.
- Cron passes of two agents with their commands interleaved: the controller works on one workstation at a time.
- Schedule descriptions, which are sent when a job is added and never compared.
- ShellQuoting.EscapedReadsBack: says nothing of a use inside double quotes, such as the closing message of the KBS.md script.
- Words that rely on expansions, operators or double quotes: the reader of shell words rejects them.
- Hashes: an arbitrary function with eight characters.
- Rendering of prompts, dashboards and Deployments; React pages; catalog and Backstage handlers apart from the
  newest-version selection.
