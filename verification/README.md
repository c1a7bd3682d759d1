# A model of the workflow and agent runtime, with proofs

This project models the hard logic of an agent and workflow runtime in Dafny 4.11 and proves properties of it. Run
`dafny verify dfyconfig.toml` to check it. Files are grouped by component; a method that loops or changes fields is
proved equal to a specification function, and the laws are lemmas about that function.

**Layered configuration** (`LayeredLens`, `LayeredConfig`, `LayeredJsonConfig`, `LayeredLaws`). A base document,
extension layers and owner-scoped overrides give one view; an edited view is split back. On flat maps from section and id
to value the pair is a lens, and the class with its nested documents and loops is proved to compute it, so that the laws
hold of the files.

**Dependency engine** (`Extensions`, `DependencyResolution`, `RuntimeMachine`, `RuntimeSafety`, `RuntimeStopping`,
`RuntimeRuns`, `RuntimeExactness`, `RuntimeCounterexamples`, `RuntimeOutcomes`, `RuntimeHost`). The search and load pass
are methods over the manager's fields. Starting, crashing and stopping is a transition system with one step per stretch of code between awaits;
the class `RuntimeHost` has one method per stretch, each proved to be its step.

**Chat history** (`Messages`, `StrictSanitizer`, `LooseSanitizer`, `SanitizedHistory`, `Trimmer`, `AgentGraph`). The two
sanitisers and what they keep, the trimmer, and the round-limited loop of language model and tools, whatever either of them does.

**Settings** (`Json`, `SettingsSchema`, `SettingsSecrets`, `SettingsStore`). Validation, completion, redaction and
restoring over schemas of any depth, and runs of edits under changing schemas.

**Resource ids** (`ResourceIds`, `ResourceResolver`, `ResourceRewrite`, `ResourceReferences`, `ResourceFiles`,
`ResourceLinks`, `ResourceCounterexample`). Plans of prefixed ids, the index of all plugins, and the rewriting of all files of a plugin so
that every reference still finds its definition.

**Bookkeeping** (`WorkflowSync`, `WorkflowProvisioning`, `ToolMatching`, `ToolSlots`, `PluginLock`, `TokenLedger`,
`EnableCheck`, `HistoryBisect`).

Errors are values (`Outcome`, `Option`). What the code reads from outside - the language model, tools, git, manifests, hooks,
processes, the environment, a content filter - is a parameter that may be anything.

## What does not hold, and exactly when it does

- **Starts and stops that overlap a crash handler.** A crashed extension stays RUNNING until its deactivation returns, so
  one that begins to start in between can become RUNNING on it (`StartInCrashWindow`); and a stop passes by an extension
  that a crash handler (`StopInCrashWindow`) or a start in progress (`StopDuringStart`) has yet to deal with, and leaves it
  RUNNING. Each is reached from a freshly loaded host (`RuntimeCounterexamples`). `Safe` is the exact condition, and the caller
  can check it before each step: in every state of an orderly run, a step is safe if and only if the host stays sound
  after it - what runs is supported, and after a stop nothing runs (`SafeExactly`, `RunningIsSupported`).
- **A dependency that is configured but not installed** gets a placeholder that loads as a resource-only extension. Something
  LOADED reaches a placeholder if and only if the placeholder is found and sound (`PlaceholdersLoad`), and there is such a
  world (`PlaceholderWorld`). The load pass otherwise does what its documentation says.
- **Saving a view that holds an id of a disabled owner** drops that item (`PutGetExactly`, `DisabledItemIsDropped`); unmanaged top-level keys are
  never removed by a save (`PutPut`).
- **Restoring after redaction** loses a value whose path was a password under an earlier schema and is not one now, unless
  it was blank (`RoundTrip`, `SaveShownBack`). Two saves lead there (`FormerPasswordIsLost`).
- **Redaction of a document that does not fit the schema** can show a formerly sensitive path below what is now a leaf
  (`RedactMasksExactly`). The editor view validates first, so there nothing is shown (`PasswordsStayHidden`).
- **An undeclared reference** that happens to equal the effective id of a definition of the same plugin comes to name it
  (`ReferenceFollows`, `EveryReferenceKeepsItsTarget`, `UndeclaredReferenceIsCaught`).
- **A file that a plugin brings back after it was orphaned** is not updated even when the user has put the installed
  version back (`SyncFollowsEdits`, which says exactly when a file follows the source; `OrphanStandsStill`).
- **The token estimate** is documented as about one and a half tokens for a CJK character; the code divides by one and a half,
  and the model follows the code (`TokenWeights`).
- **The bisecting diagnostic** may name no message of a blocked history, and then reports that no message is blocked on its
  own, though one is (`CombinationDistracts`, four messages). For a filter that blocks a probe whenever it blocks a part of
  it: a message is named in every blocked window if and only if none is blocked only as a combination
  (`NamesWheneverBlocked`), and the report is true of every window if and only if in none the first probe is blocked only as
  a combination with a message blocked on its own behind it (`SilenceIsRight`).

## Model

| member | source | states |
|---|---|---|
| LayeredLaws.SaveThenLoad | src/extension_host/resources.py:119-202 | PutGet of the object: for any files and any edited document, saving succeeds exactly when the sources do not clash and list items have ids, and loading then gives that document on every managed section less the ids of disabled owners |
| LayeredLaws.LoadThenSave | src/extension_host/resources.py:119-202 | GetPut of the object: saving what was loaded succeeds exactly when the sources do not clash and the base's list items have ids, and leaves what is loaded and the base items unchanged |
| LayeredLaws.SaveTwice | src/extension_host/resources.py:155-202 | PutPut of the object: after two saves the override file is the very file, and the base items are those, that the second save alone leaves |
| LayeredLens.PutGet | src/extension_host/resources.py:119-202 | for every stored state and every edited view, loading after saving gives that view less the ids owned by disabled owners |
| LayeredLens.PutGetExactly | src/extension_host/resources.py:155-202 | the view comes back whole if and only if it holds no id of a disabled owner |
| LayeredLens.DisabledItemIsDropped | src/extension_host/resources.py:155-202 | an item under an id of a disabled owner is lost between saving and loading |
| LayeredLens.GetPut | src/extension_host/resources.py:119-202 | saving an unedited view leaves what is loaded, the base items and the unmanaged keys unchanged |
| LayeredLens.PutPut | src/extension_host/resources.py:155-202 | two saves leave exactly the second one, except that unmanaged top-level keys of both remain |
| LayeredLens.RunKeepsConflictFree | src/extension_host/resources.py:155-189 | no sequence of saves and enable/disable switches makes a base item clash with an extension item |
| LayeredLens.DisabledOwnerIsIsolated | src/extension_host/resources.py:204-309 | on the flat lens, while an owner stays disabled, no sequence of saves or of switching others changes the part it shows once enabled again |
| LayeredLaws.DisabledOwnerKeepsItsItems | src/extension_host/resources.py:119-309 | the same of the object: after any calls of save, failing ones included, and switches of other owners, loading with the owner enabled shows of its items what loading showed before them |
| LayeredConfig.EnabledLayers | src/extension_host/resources.py:80-113 | the layers that load reads are, item by item, the enabled part of what all layers own |
| LayeredConfig.CanonicalIsUnique | src/extension_host/resources.py:204-309 | two override files without empty entries that override and delete the same items are the same file |
| LayeredConfig.ClaimLayer | src/extension_host/resources.py:80-113 | one layer is taken in exactly when none of its ids is in the base or in an earlier layer |
| LayeredConfig.SanitizeOwner | src/extension_host/resources.py:204-266 | what survives of an owner's stored entries: values and tombstones of its own ids, and list values that carry their id |
| LayeredConfig.UpdateOverrides | src/extension_host/resources.py:269-309 | one section's overrides: a changed item is recorded, an unchanged one forgotten, a missing one deleted, for the given owned items only |
| LayeredConfig.PatchOwner | src/extension_host/resources.py:133-151 | applying one owner's overrides to a document deletes its tombstones and replaces or restores its values, and touches nothing else |
| LayeredJsonStore.LayeredJsonConfig.LoadSources | src/extension_host/resources.py:80-113 | gives the items of the chosen layers, or fails exactly when an id is claimed twice or a list item has no id |
| LayeredJsonStore.LayeredJsonConfig.Load | src/extension_host/resources.py:119-153 | the nested document that the loops build means exactly the flat lens view; it fails exactly when the sources clash |
| LayeredJsonStore.LayeredJsonConfig.Save | src/extension_host/resources.py:155-202 | the two files that the loops write mean exactly the flat lens save; on an error neither file changes; afterwards the sources still do not clash |
| LayeredJsonStore.StoreDecidesFile | src/extension_host/resources.py:155-202 | the saved meaning determines the override file itself, so the lens laws hold of the file and not just of its meaning |
| DependencyResolution.ExtensionManager.Visit | src/extension_host/manager.py:362-435 | the recursive search on any graph, cycles included: terminates, keeps the order free of repetitions and dependencies first |
| DependencyResolution.ExtensionManager.ResolveDependencies | src/extension_host/manager.py:362-435 | the order holds exactly the extensions with a manifest that are found from the request, each once |
| DependencyResolution.ExtensionManager.DependencyError | src/extension_host/manager.py:536-554 | an error is reported exactly when some dependency does not have the required status |
| DependencyResolution.ExtensionManager.LoadAndRegister | src/extension_host/manager.py:445-531 | the load pass: each extension in turn stays DEGRADED, is BLOCKED when a dependency is not loaded before it, and is otherwise LOADED or, when registration fails, DEGRADED |
| DependencyResolution.ExtensionManager.Startup | src/extension_host/manager.py:362-531 | resolution and load pass together: an extension is LOADED if and only if it is found and everything it reaches is healthy and off every cycle; its dependencies are LOADED and earlier; off every cycle, one that can be looked behind and configured is BLOCKED exactly when a dependency is not LOADED, and DEGRADED exactly when all are and it cannot be registered; one that cannot is DEGRADED |
| DependencyResolution.FoundIsVisited | src/extension_host/manager.py:362-435 | the search visits exactly what expandable paths from the request reach |
| DependencyResolution.LoadedIsSound | src/extension_host/manager.py:445-531 | everything a LOADED extension reaches is healthy and off every cycle |
| DependencyResolution.SoundIsLoaded | src/extension_host/manager.py:445-531 | an extension in the order that reaches only healthy extensions off every cycle is LOADED |
| DependencyResolution.LoadedIffSound | src/extension_host/manager.py:362-531 | both directions, for every position of the order |
| DependencyResolution.LoadedIsClosed | src/extension_host/manager.py:362-531 | in every world, whatever a LOADED extension reaches ends LOADED as well |
| DependencyResolution.PlaceholdersLoad | src/extension_host/manager.py:362-531 | in every world, something LOADED reaches a placeholder with initial status MISSING if and only if that placeholder is found and sound |
| DependencyResolution.PlaceholderWorld | src/extension_host/manager.py:362-531 | for any two ids there is a world in which one is LOADED on the placeholder of the other |
| RuntimeMachine.RunningOnlyOnRunning | src/extension_host/manager.py:789-876 | in every interleaving, the step that makes an extension RUNNING happens only while all its direct dependencies are RUNNING |
| RuntimeSafety.AffectedIsComplete | src/extension_host/runtime_failure.py:136-170 | the single pass over the load order finds every running extension that depends on the crashed one, at any distance |
| RuntimeStopping.StopBeginsKeeps | src/extension_host/manager.py:909-942 | a stop that begins when it is safe finds nothing left that could come up behind it or be passed by |
| RuntimeStopping.DownKeeps | src/extension_host/manager.py:909-942 | while a stop is in progress, and after it, every orderly step of the stop, of leftover starts and of crash handlers keeps that |
| RuntimeRuns.RunKeeps | src/extension_host/manager.py:789-942 | every orderly run keeps the invariant of start, crash handlers and stop |
| RuntimeRuns.RunningIsSupported | src/extension_host/runtime_failure.py:67-170 | in every state of an orderly run, between any two awaits, everything a RUNNING extension reaches is RUNNING, and nothing runs once a stop has ended |
| RuntimeOutcomes.OneCrashOutcome | src/extension_host/runtime_failure.py:67-170 | in every orderly run that lets one crash handler begin and finish: its owner ends DEGRADED, every other extension that was RUNNING or STARTING and depends on it at any distance ends BLOCKED, and no other status changes |
| RuntimeOutcomes.CrashesOutcome | src/extension_host/runtime_failure.py:67-170 | the same for any number of handlers in any interleaving: only what depends on an owner changes, to BLOCKED, or DEGRADED if it crashed itself, and what was running is no longer registered as started |
| RuntimeOutcomes.StopOutcome | src/extension_host/manager.py:909-942 | a stop that runs through leaves what was started LOADED, or DEGRADED if its deactivation failed, what was blocked LOADED, and everything else as it was |
| RuntimeOutcomes.StopUnblocks | src/extension_host/manager.py:909-942 | after one crash and a stop, the registered dependents that the crash had blocked are LOADED |
| RuntimeOutcomes.StartOutcome | src/extension_host/manager.py:789-876 | a start that runs through leaves a LOADED extension BLOCKED exactly when a dependency is not before it and RUNNING at the end, and otherwise RUNNING, or DEGRADED only when some stage failed; others stay as they were |
| RuntimeOutcomes.RefusedEndsBlocked | src/extension_host/runtime_failure.py:107-133 | an extension that a crash blocks while it is being started is BLOCKED when the start loop goes on, or DEGRADED if a stage of it failed, however start and handlers take turns |
| RuntimeExactness.SafeExactly | src/extension_host/manager.py:748-942 | in every state of an orderly run, for every step of the life cycle: the step is safe if and only if every orderly continuation keeps what runs supported and what is stopped quiet |
| RuntimeExactness.StartInCrashWindow | src/extension_host/manager.py:748-876 | whenever an extension may begin to start while any crash handler that affects it is in progress, at whatever stage and distance, some orderly continuation leaves it RUNNING on a dependency that is down |
| RuntimeExactness.StopInCrashWindow | src/extension_host/manager.py:909-942 | whenever a stop begins while a crash handler still has a running extension to take down, some orderly continuation ends with an extension running and the host stopped or a dependency down |
| RuntimeExactness.StopDuringStart | src/extension_host/manager.py:789-942 | whenever a stop begins while a start still has an extension to bring up, some orderly continuation passes it by and ends unsound |
| RuntimeCounterexamples.CrashWindowIsReachable | src/extension_host/runtime_failure.py:67-104 | from a freshly loaded host, orderly steps lead to a start in a crash window, and on to an unsound host |
| RuntimeCounterexamples.StopInCrashIsReachable | src/extension_host/manager.py:909-942 | from a freshly loaded host, orderly steps lead to a stop in a crash window, and on to an unsound host |
| RuntimeCounterexamples.StopDuringStartIsReachable | src/extension_host/manager.py:789-942 | from a freshly loaded host, orderly steps lead to a stop during a start, and on to an unsound host |
| RuntimeHosts.RuntimeHost.EnsureStartAllowed | src/extension_host/runtime_failure.py:107-120 | a checkpoint lets a start go on exactly when it is not blocked and its dependencies run; otherwise it ends BLOCKED |
| RuntimeHosts.RuntimeHost.StartTurn | src/extension_host/manager.py:789-876 | the stretch of the start loop up to its first await is one step of the transition system |
| RuntimeHosts.RuntimeHost.ResumeStart | src/extension_host/manager.py:789-876 | the code after each await of a start, on success or failure, is one step |
| RuntimeHosts.RuntimeHost.FinishStartCleanup | src/extension_host/runtime_failure.py:123-133 | the code after the clean-up of a refused or failed start is one step |
| RuntimeHosts.RuntimeHost.CollectAffected | src/extension_host/runtime_failure.py:67-104 | the loop that grows the affected set computes the one-pass set |
| RuntimeHosts.RuntimeHost.BeginCrash | src/extension_host/runtime_failure.py:136-170 | a process exit is ignored or blocks the starting dependents, as one step |
| RuntimeHosts.RuntimeHost.CrashTurn | src/extension_host/runtime_failure.py:67-104 | one turn of the handler's reverse loop is one step |
| RuntimeHosts.RuntimeHost.ResumeCrash | src/extension_host/manager.py:748-757 | the code after a deactivation in a crash handler is one step |
| RuntimeHosts.RuntimeHost.StopTurn | src/extension_host/manager.py:909-942 | one turn of the stop loop is one step |
| RuntimeHosts.RuntimeHost.ResumeStop | src/extension_host/manager.py:909-942 | the code after one extension has stopped, or failed to, is one step |
| StrictSanitizer.StrictIsWellFormed | src/core/utils.py:70-143 | whatever the history, each call message in the output is followed at once by a tool block covering exactly its ids, and no other tool message remains |
| StrictSanitizer.StrictKeepsWellFormed | src/core/utils.py:70-143 | the sanitiser is the identity on well-formed histories |
| StrictSanitizer.StrictFixpoints | src/core/utils.py:70-143 | it is idempotent, and the well-formed histories are exactly those it leaves alone |
| StrictSanitizer.StrictConcat | src/core/utils.py:70-143 | S(a + b) is S(a) + S(b) whenever b is empty or does not begin with a tool message |
| StrictSanitizer.WellFormedConcat | src/core/utils.py:70-143 | joining two well-formed histories gives a well-formed one |
| StrictSanitizer.SanitizeStrict | src/core/utils.py:70-143 | the index loop with its marked positions computes that function |
| SanitizedHistory.StrictKeepsTexts | src/core/utils.py:70-143 | the non-empty texts of the system, the user and the assistant all survive, in order, also where calls are taken away |
| SanitizedHistory.StrictKeepsBystanders | src/core/utils.py:70-143 | system and user messages survive, in order |
| SanitizedHistory.StrictKeepsPairs | src/core/utils.py:70-143 | of the messages that call or answer exactly these survive, in order: a call message all of whose calls are answered right after it, and a tool message that answers such a message with only tool messages in between |
| LooseSanitizer.LooseIsClosed | src/core/utils.py:22-67 | one pass leaves every call answered somewhere and every answer called somewhere |
| LooseSanitizer.LooseFixpoints | src/core/utils.py:22-67 | it is idempotent, and the closed histories are exactly those it leaves alone |
| LooseSanitizer.LooseKeepsBystanders | src/core/utils.py:22-67 | system and user messages survive, in order |
| LooseSanitizer.SanitizeLoose | src/core/utils.py:22-67 | the two loops compute that function |
| SanitizedHistory.LooseKeepsTexts | src/core/utils.py:22-67 | the non-empty texts of the system, the user and the assistant all survive, in order |
| SanitizedHistory.LooseKeepsPairs | src/core/utils.py:22-67 | of the messages that call or answer exactly these survive, in order: a call message all of whose calls are answered somewhere, and a tool message that such a message calls |
| Trimmer.LooseTokens | src/core/utils.py:22-67 | sanitising never raises the token sum |
| Trimmer.TokenWeights | src/core/utils.py:9-19 | a text of CJK characters costs two tokens for three of them, one without any costs one for four characters, each rounded down and one more; every text lies between |
| Trimmer.ConcatCost | src/core/utils.py:9-19 | a longer text costs no less; two texts in one cost no more than apart, and at most one token less |
| Trimmer.FitIsLongest | src/core/utils.py:191-228 | the backward walk keeps n messages or more exactly when the last n fit the budget |
| Trimmer.TrimKeepsSystems | src/core/utils.py:191-228 | every system message survives trimming, in order |
| Trimmer.TrimFits | src/core/utils.py:191-228 | the result holds at most max(budget, system tokens) estimated tokens |
| Trimmer.TrimOverBudget | src/core/utils.py:191-228 | over budget, the result is the system messages and the sanitised longest suffix of the rest that fits |
| Trimmer.TrimTwice | src/core/utils.py:191-228 | trimming again with the same budget changes nothing, for every history and budget |
| Trimmer.LooseAfterStrict | src/core/utils.py:22-143 | the loose sanitiser is the identity on what the strict one leaves |
| Trimmer.ClosedIsNotEnough | src/core/utils.py:70-143 | a history with an answer that does not directly follow its call satisfies only the loose rule |
| Trimmer.TrimMessages | src/core/utils.py:191-228 | the loops compute that function |
| AgentGraph.RoutingSpendsARound | src/core/graph_builder.py:30-152 | whenever the tools are next, the model node has spent a round and left at least one |
| AgentGraph.RunIsBounded | src/core/graph_builder.py:84-215 | for every model, tools and budget R, the run ends after at most max(R - 1, 0) tool batches, none refused by the guard, with a message without tool calls |
| AgentGraph.RoundKeepsWellFormed | src/core/graph_builder.py:84-215 | one round of model and tools keeps a well-formed history well formed, when call ids are not empty |
| AgentGraph.SanitizerIsIdle | src/core/graph_builder.py:84-100 | from a well-formed history the strict sanitiser is the identity at every model call of the run |
| AgentGraph.TurnsFollowTheModel | src/core/graph_builder.py:84-215 | in every run, each turn asks the model about the sanitised history it saw; the next turn sees that history with the answer and, for each call, the tool's own output under its id; the last answer closes the run, stripped of calls only when no round is left |
| AgentGraph.AgreeingModels | src/core/graph_builder.py:84-118 | two models that answer alike what one run asks have the same run |
| AgentGraph.ModelSeesTheHistory | src/core/graph_builder.py:84-118 | from a well-formed history, the model is asked the very histories of the run: agreeing on those gives the same run, and each answer follows the history it was given |
| AgentGraph.RunExtendsHistory | src/core/graph_builder.py:198-215 | a run only adds to the history |
| AgentGraph.Results | src/core/tool_guard.py:46-110 | a tool batch answers each call, in order, with a tool message of its id, refused or not |
| AgentGraph.CallsSurviveWithRoundsLeft | src/core/graph_builder.py:112-152 | an answer is all that is added; its calls survive exactly when a round is left for them after this one, which is then spent; stripped of them it keeps or gets a text and leaves no rounds |
| SettingsSchema.NormalizeValue | src/extension_host/plugin_config.py:169-234 | the loop over the properties computes the normalisation |
| SettingsSchema.NormalizeAccepts | src/extension_host/plugin_config.py:54-234 | for a validated schema, normalising fails exactly on documents that are not acceptable; defaults never make it fail |
| SettingsSchema.NormalizeTwice | src/extension_host/plugin_config.py:169-234 | normalising is idempotent, for schemas of any depth |
| SettingsSchema.NormalizeExtends | src/extension_host/plugin_config.py:169-234 | the result holds every supplied leaf unchanged |
| SettingsSchema.SparseIsExact | src/extension_host/plugin_config.py:247-267 | sparse validation gives back the very document it accepts |
| SettingsSchema.FullIsSparseAndComplete | src/extension_host/plugin_config.py:169-267 | full validation passes exactly when sparse validation does and nothing required is missing |
| SettingsSchema.StartSchemaIsValid | src/extension_host/plugin_config.py:270-286 | the schema used at start is valid whenever the schema is |
| SettingsSchema.ResolveAccepts | src/extension_host/plugin_config.py:270-286 | at start, saved settings pass exactly when they pass sparsely and each required property is saved, provided by the environment or defaulted |
| SettingsSchema.ResolvedKeys | src/extension_host/plugin_config.py:270-286 | at start, a saved value wins over the environment, and the environment over the default |
| SettingsSecrets.AcceptedIsBounded | src/extension_host/plugin_config.py:169-234 | whatever normalising lets through lies, as a number, between the bounds of its property, at any depth |
| SettingsSecrets.RedactSettings | src/extension_host/plugin_config.py:289-322 | the loop computes the redaction |
| SettingsSecrets.PreservePasswords | src/extension_host/plugin_config.py:141-166 | the loop computes the restoring of blank passwords |
| SettingsSecrets.PreserveKeepsLeaves | src/extension_host/plugin_config.py:141-166 | every leaf of an edit is kept, whatever is stored, but for blanks at stored passwords, which become the stored value |
| SettingsSecrets.PreserveAddsNothing | src/extension_host/plugin_config.py:141-166 | restoring adds nothing but at and below such blanks |
| SettingsSecrets.RoundTrip | src/extension_host/plugin_config.py:141-322 | restoring a redacted document against itself gives it back if and only if everything blanked is a current password or was blank, and everything is declared |
| SettingsSecrets.PasswordsAreRecoverable | src/extension_host/plugin_config.py:289-341 | that holds for every declared document when only current passwords are sensitive |
| SettingsSecrets.SparseIsDeclared | src/extension_host/plugin_config.py:247-267 | what sparse validation accepts is declared in that sense |
| SettingsSecrets.RedactHidesSecretsOnly | src/extension_host/plugin_config.py:289-322 | two declared documents redact alike if and only if they differ at most at sensitive paths and passwords |
| SettingsSecrets.RedactMasksExactly | src/extension_host/plugin_config.py:289-322 | a sensitive path shows at most a blank in every document if and only if no leaf of the current schema lies above it |
| SettingsSecrets.PasswordPathsAt | src/extension_host/plugin_config.py:325-341 | the password paths are exactly the paths of password leaves |
| SettingsStore.PluginConfigStore.Save | src/extension_host/plugin_config.py:429-443 | an edit is restored, checked sparsely and against the start, and only then stored with its password paths; every leaf of it is then stored, but for blanks at stored passwords, which stay as stored; on an error nothing changes; other plugins are untouched |
| SettingsStore.SavedAddsNothing | src/extension_host/plugin_config.py:429-443 | a save stores nothing but the edit and what fills such blanks |
| SettingsStore.PluginConfigStore.Show | src/extension_host/plugin_management.py:363-379 | what an editor is shown |
| SettingsStore.SaveShownBack | src/extension_host/plugin_config.py:141-166 | saving back what was shown, unedited, keeps the saved settings if and only if they were recoverable |
| SettingsStore.SaveShownBackSameSchema | src/extension_host/plugin_config.py:429-443 | under one schema the saved settings always survive that |
| SettingsStore.FormerPasswordIsLost | src/extension_host/plugin_config.py:141-322 | a value saved as a password is blanked when the schema then declares it plain and the shown settings are saved back |
| SettingsStore.RunRecordsPasswords | src/extension_host/plugin_config.py:429-457 | over any run of saves under changing schemas, the recorded sensitive paths are those recorded before and the passwords of every successful save |
| SettingsStore.PasswordsStayHidden | src/extension_host/plugin_config.py:445-457 | a path that was a password at any earlier save, or is one now, never shows more than a blank, whatever the schema has become |
| ResourceIds.EffectiveTwice | src/extension_host/resource_ids.py:69-79 | prefixing an effective id again changes nothing |
| ResourceIds.EffectiveCollision | src/extension_host/resource_ids.py:69-79 | two ids get one effective id exactly when they are equal or one is the other with the prefix written out |
| ResourceIds.NormalizedTwice | src/extension_host/resource_ids.py:205-216 | normalising kinds and ids is idempotent, aliases included |
| ResourceIds.BuildPlan | src/extension_host/resource_ids.py:82-132 | a plan is built exactly when owner, prefix, kinds and ids are well formed and no two declarations of a kind get one effective id; it then maps each declaration |
| ResourceIds.ResolveInjective | src/extension_host/resource_ids.py:51-66 | in a plan, two references resolve alike exactly when they name the same local id |
| ResourceResolver.ResourceIdResolver.RegisterPlan | src/extension_host/resource_ids.py:142-166 | a plan is entered whole, or, on any clash, nothing changes |
| ResourceResolver.ResourceIdResolver.UnregisterPlan | src/extension_host/resource_ids.py:168-177 | the loop drops the plan and its own index entries |
| ResourceResolver.RunKeepsValid | src/extension_host/resource_ids.py:135-177 | after any calls the effective-id index is exactly the union of the registered plans |
| ResourceResolver.UnregisterUndoesRegister | src/extension_host/resource_ids.py:142-177 | unregistering restores the exact state before the registration |
| ResourceResolver.ResolveMatchesIndex | src/extension_host/resource_ids.py:179-202 | the index knows a mapping exactly when its owner's registered plan has it, and then the owner resolves to it |
| ResourceResolver.ResolveThenLookUp | src/extension_host/resource_ids.py:179-202 | looking up a resolved id gives the mapping of that plugin and that local id |
| ResourceRewrite.RewriteEveryDefinition | src/extension_host/resource_preparation.py:257-301 | the loop over definitions and their reference fields |
| ResourceRewrite.RewriteEveryItem | src/extension_host/resource_preparation.py:225-254 | the loop over the items of a list section |
| ResourceRewrite.RewriteWorkflowDefinition | src/extension_host/resource_preparation.py:379-431 | the workflow's own id and every node are rewritten, or the whole fails |
| ResourceRewrite.BuiltPlanCovers | src/extension_host/resource_preparation.py:112-168 | a plan built from a kind's ids resolves each of them and tells them apart |
| ResourceRewrite.DefinitionsKept | src/extension_host/resource_preparation.py:187-203 | renaming a section loses, adds and changes no definition |
| ResourceRewrite.ReferenceFollows | src/extension_host/resource_preparation.py:171-184 | a rewritten reference names a definition's new id exactly when it named that definition, or is undeclared and already equal to the new id; undeclared references are unchanged |
| ResourceRewrite.AgentKeepsItsPrompt | src/extension_host/resource_preparation.py:257-307 | an agent finds its prompt after rewriting exactly when its template named one before or is not bound to hit one by accident |
| ResourceRewrite.GroupedRewritten | src/extension_host/resource_preparation.py:308-362 | every skill or rule definition is found under its new id with its references rewritten, and the groups are rewritten one by one |
| ResourceFiles.BuiltPlanFits | src/extension_host/resource_preparation.py:112-168 | a plan built from at least the ids that the files of a plugin define tells them apart, in every file and across files, in dict and list sections alike |
| ResourceReferences.EveryPlaceRewritten | src/extension_host/resource_preparation.py:187-376 | at every place of a document where resources are defined, each definition is found under its new id, rewritten, and there are no others |
| ResourceReferences.ItemsKept | src/extension_host/resource_preparation.py:225-254 | no item of a group or phrase list is lost, and two items share a new id exactly when they shared an old one |
| ResourceFiles.FindFollows | src/extension_host/resource_preparation.py:171-376 | at a place that is rewritten in every file, looking up a rewritten reference among all files gives the rewriting of what the reference found, exactly when it named a definition or is not bound to follow one by accident |
| ResourceReferences.HolderRewritten | src/extension_host/resource_preparation.py:225-431 | agents, skills, rules, groups, workflow nodes and both kinds of node parameters are found again where they have moved to, with each reference field rewritten on its own |
| ResourceReferences.ReferenceMoves | src/extension_host/resource_preparation.py:225-431 | every reference is found again in the rewritten documents, as its rewritten text, at the place its holder has moved to |
| ResourceFiles.EveryReferenceKeepsItsTarget | src/extension_host/resource_preparation.py:171-431 | namespacing preserves lookup: for every reference field of every file, the rewritten reference finds, among all rewritten files, the rewriting of its original target, exactly when it named a definition or is not bound to follow one by accident |
| ResourceReferences.EveryKindHasAPlace | src/extension_host/resource_preparation.py:257-431 | every reference field has a place where what it names is defined, so that the lookup above is one for each of them |
| ResourceLinks.EveryLinkHolds | src/extension_host/resource_preparation.py:257-431 | field by field, written out apart from the tables of the rewriting: the prompt and the visible skill and rule groups of an agent, the groups of skills and rules, the agents of rules, the members of both kinds of group, the agent of a node, and the scripts, workflow and sub-workflow of its parameters each find, after rewriting, the definition they found before, in the section of that name, changed in nothing but its own id and references |
| ResourceCounterexample.UndeclaredReferenceIsCaught | src/extension_host/resource_preparation.py:171-184 | a plugin whose agent names no prompt of its own, and does after rewriting |
| ResourceRewrite.OtherFieldsKept | src/extension_host/resource_preparation.py:257-376 | fields that are not references keep their values |
| ResourceRewrite.FieldRewritten | src/extension_host/resource_preparation.py:257-376 | each reference field gets its own rewriting, whatever stands around it |
| WorkflowSync.SyncOwnedFile | src/extension_host/workflow_provisioning.py:63-92 | one file: what is the user's own stays, anything else becomes the source's, and only what is the source's is recorded as installed |
| WorkflowSync.SyncWorkflow | src/extension_host/workflow_provisioning.py:152-219 | the loops over source files, stale files and compiled files compute the synchronised directory |
| WorkflowSync.RevisionsMirror | src/extension_host/workflow_provisioning.py:133-222 | without user edits, over any sequence of revisions, the target is exactly the latest revision, removals included |
| WorkflowSync.EditsSurvive | src/extension_host/workflow_provisioning.py:63-222 | a user's version of a file survives any revisions that do not ship that very version |
| WorkflowSync.SyncFollowsEdits | src/extension_host/workflow_provisioning.py:63-208 | a file is deleted exactly when it was dropped and not edited, and becomes the source's exactly when it was not edited into something else; one brought back after being orphaned stays as it is |
| WorkflowSync.OrphanStandsStill | src/extension_host/workflow_provisioning.py:133-222 | three synchronisations from nothing lead to a file that is as it was installed and is not updated by the revision that brings it back |
| WorkflowSync.SyncChangesOnlyItsOwn | src/extension_host/workflow_provisioning.py:63-222 | only compiled files and files as last installed ever change |
| WorkflowSync.SyncTwice | src/extension_host/workflow_provisioning.py:133-222 | synchronising twice with one source is synchronising once, marker included |
| WorkflowProvisioning.WorkflowDirectory.Provision | src/extension_host/workflow_provisioning.py:95-233 | all claims are synchronised in order up to the first conflict, then unclaimed workflows are deactivated; the warnings are exactly the orphaned files |
| WorkflowProvisioning.SyncedExactly | src/extension_host/workflow_provisioning.py:107-132 | it goes through exactly when no name is claimed twice and every claimed directory is free for its claimant |
| WorkflowProvisioning.ProvisionChangesOnlyClaims | src/extension_host/workflow_provisioning.py:95-233 | files change only in directories claimed by their own owner; others at most become inactive |
| WorkflowProvisioning.ProvisionTwice | src/extension_host/workflow_provisioning.py:95-233 | provisioning twice with the same claims is provisioning once |
| WorkflowProvisioning.ProvisionsMirror | src/extension_host/workflow_provisioning.py:95-233 | over any rounds without user edits, each with its own claims and active owners, a workflow holds exactly the latest source it was claimed with, while it and others come and go |
| ToolMatching.ToolRuns.Start | src/agent/session.py:1504-1533 | a start enters its run under its call id and its node id |
| ToolMatching.ToolRuns.Complete | src/agent/session.py:90-116 | a completion is resolved by call id, then node id, then name, and every entry of the run is purged |
| ToolMatching.MapsTrackOpenRuns | src/agent/session.py:1504-1645 | through any interleaving the three maps hold exactly the open runs, and are empty after the last completion |
| ToolMatching.CompletionsResolveToTheirStarts | src/agent/session.py:1555-1645 | every completion resolves to the run id given at its own start, whatever the order |
| ToolMatching.RunIdsConserved | src/agent/session.py:1504-1645 | the run ids started are, as a multiset, those resolved and those still open: none is lost or resolved twice |
| ToolSlots.SlotClaims.Resolve | src/agent/session.py:175-252 | a start claims a slot by call id, index, name and input, name, or any |
| ToolSlots.BestSlotIsClaimed | src/agent/session.py:175-252 | a start claims the free slot that fits best - by id, index, name and input, name - and the first of those; one whose name matches a free slot takes one of another name only when its id or index points there |
| ToolSlots.ClaimsAreDistinct | src/agent/session.py:175-252 | while there are as many slots as starts, every start claims a slot of the model's and none is claimed twice |
| ToolSlots.EverySlotIsClaimed | src/agent/session.py:175-252 | with as many starts as slots, every slot is claimed exactly once |
| ToolSlots.StartsFindTheirSlots | src/agent/session.py:175-252 | starts that each point at a slot of their own claim it, in any order |
| PluginLock.PrependUniqueRevision | src/plugin_system/store.py:808-825 | the loop keeps the first revision of each key, without the excluded key |
| PluginLock.PluginStore.InstallPlugin | src/plugin_system/store.py:69-122 | an install adds one record, or changes nothing |
| PluginLock.PluginStore.UpdatePlugin | src/plugin_system/store.py:124-195 | an update replaces one record, or changes nothing |
| PluginLock.PluginStore.RollbackPlugin | src/plugin_system/store.py:197-259 | a rollback replaces one record, or changes nothing |
| PluginLock.PluginStore.ApplyPendingActions | src/plugin_system/store.py:264-291 | removed plugins leave the lock and every other pending action is cleared |
| PluginLock.RunKeepsValid | src/plugin_system/store.py:69-297 | in every reachable lock no plugin repeats a revision, the active one is not in the history, non-empty prefixes are pairwise distinct, and each prefix is the override or what the active checkout declares |
| PluginLock.RevisionsConserved | src/plugin_system/store.py:124-291 | an update adds at most the new revision and drops none, a rollback keeps the set of revisions, and only an applied removal forgets any |
| PluginLock.UpdateActivates | src/plugin_system/store.py:124-195 | a successful update runs the fetched revision with the prefix it declares or the override; all earlier revisions stand behind it in order, the old active one first |
| PluginLock.RollbackActivates | src/plugin_system/store.py:197-259 | a successful rollback runs the newest revision of the history that is asked for; what it leaves heads the history, and the rest keeps its order |
| PluginLock.RollbackTwice | src/plugin_system/store.py:197-259 | two default rollbacks restore the active revision, the history and the prefix, when the checkout left behind is still usable |
| PluginLock.ApplyPendingTwice | src/plugin_system/store.py:264-291 | applying pending actions is idempotent and leaves none |
| TokenLedger.Session.RecordUsage | src/agent/session.py:1958-2167 | a call is entered once, or skipped as a replay |
| TokenLedger.Session.Restore | src/agent/session.py:2871-2898 | the restored counter covers every entry |
| TokenLedger.RunKeepsValid | src/agent/session.py:2084-2167 | after any calls, replays, failures and reloads each per-model field is the sum over that model's entries, no run is entered twice, and call ids increase |
| TokenLedger.EveryCallIsEntered | src/agent/session.py:1958-1961 | a run has an entry exactly when one of its calls was completed |
| TokenLedger.EntriesReadTheirCalls | src/agent/session.py:1963-2081 | every entry reads one completed call: each field from the field of that name, of the response before its metadata; a missing total is prompt plus completion; it is complete exactly when both of these were given and the numbers agree |
| TokenLedger.ReloadKeepsEntries | src/agent/session.py:2824-2898 | saving and restoring keeps all entries and sums and a counter that covers them |
| TokenLedger.CompleteTotalsAddUp | src/agent/session.py:1963-2081 | when all entries of a model are complete, its sums agree with each other |
| EnableCheck.PluginManagement.DependsOn | src/extension_host/plugin_management.py:546-565 | the stack search ends on any graph and finds exactly whether one plugin depends on another |
| EnableCheck.PluginManagement.RequiredBy | src/extension_host/plugin_management.py:546-572 | the dependents named are exactly the other enabled plugins that reach this one |
| EnableCheck.PluginManagement.DesiredEnabled | src/extension_host/plugin_management.py:524-544 | the recursive search on any graph marks exactly what the listed plugins reach |
| EnableCheck.PluginManagement.SetEnabled | src/extension_host/plugin_management.py:272-284 | disabling succeeds exactly when the plugin would not stay desired without its own entry; the list then loses exactly that entry |
| EnableCheck.DisablingTakesEffect | src/extension_host/plugin_management.py:524-582 | after a successful disable, nothing desired needs the plugin, and only what it reaches leaves the desired set |
| HistoryBisect.DiagnoseHistory | src/agent/content_safety.py:184-229 | for a filter that may answer anything, the loop computes the search, ends within ceil(log2 n) + 1 probes, and what it names was blocked alone after everything before it passed |
| HistoryBisect.HalvingsIsLogarithm | src/agent/content_safety.py:184-229 | that bound is the base-two logarithm rounded up |
| HistoryBisect.ExactFindsFirst | src/agent/content_safety.py:184-229 | with a filter that blocks exactly the probes holding a bad message, the first bad message is named, and none only when there is none |
| HistoryBisect.NamesWheneverBlocked | src/agent/content_safety.py:184-229 | for every monotone filter, a message is named in every blocked window if and only if every blocked window holds a message blocked on its own |
| HistoryBisect.SilenceIsRight | src/agent/content_safety.py:221-229 | for every monotone filter, naming none means that no message is blocked on its own, in every window, if and only if no window distracts |
| HistoryBisect.CombinationDistracts | src/agent/content_safety.py:184-229 | of four messages one is blocked on its own, and none is named |

## Left out

- Order of list sections: a managed list section is modelled by its items by id; the model does not capture in which order a save writes them.
- Malformed configuration files: sections of the wrong JSON kind, malformed override shapes, falsy ids and extra top-level keys of the override file are read as absent; JSON equality is Python's.
- Strict start-up: raising instead of degrading on the first broken extension, which ends the process.
- Registration, hooks, tools, processes and health checks of extensions: each outcome is a parameter.
- Repeated starts and stops: `Lifecycle` has a start begin on a host at rest and one stop on a host that was started, which is how the two entry points are used; the manager itself does not enforce it.
- DependencyResolution.ExtensionManager.LoadAndRegister: does not model the error texts of degraded extensions, because nothing depends on them.
- Messages: extra fields of a response are not modelled, content is text, and the framework's own merging of messages by id and its recursion limit are left out.
- AgentGraph.RunIsBounded: the deduplication of tools by name when the graph is built is left out, because it only fills a dictionary.
- Token estimates: exact rationals where the code divides floating-point numbers; the trimmer compares sums with a budget, so the two differ only where rounding does.
- URI settings: only the scheme test of the URL parser is modelled, without its trimming of control characters and its bracket errors.
- SettingsSchema.NormalizeValue: the item schema of an array is left out, because the code validates it with the schema but never applies it to a value.
- Settings files that are not valid JSON, not-a-number values, and the settings environment passed to processes.
- ResourceResolver.ResourceIdResolver.RegisterPlan: index laws are stated for plans that `BuildPlan` built, which are the only ones the code registers.
- ResourceIds.BuildPlan: the error for a single string given in place of an iterable of ids is not modelled, because the types exclude it.
- Group, phrase and workflow ids that are not strings: the code takes their Python text, the model refuses them.
- ResourceRewrite.AgentKeepsItsPrompt: stated for definitions that have the field; for others the code writes an explicit null, as the model does.
- EnableCheck.PluginManagement.SetEnabled: enabling a plugin that is marked for removal also cancels the removal, which `PluginLock` models on its own.
- Skill front matter, bundle copying and the staging of prepared resources: file operations.
- Workflow markers: paths that point outside the workflow's directory, and marker entries that are only written (source hash, current hash, reason). A content stands for its hash, so hashing is taken as injective.
- WorkflowSync.SyncWorkflow: removal of empty directories is not modelled, because directories are maps from paths to contents.
- Tool call slots: building them from a response with streamed parts; slots are given, with distinct indices.
- ToolMatching.ToolRuns.Start: the random suffix of a run id without a call id is a parameter; runs are assumed to get distinct run ids while both are open.
- PluginLock: git, manifests, checkout hashes and trust are parameters; source and subdirectory are one value that never changes.
- TokenLedger: timestamps, estimates, context sizes and display fields; the call id is its index, which determines it within a session.
- Workflow engine, compression, round tables, skill and rule loading, routes, events, logging, file atomicity, approval, cron and session flushing under cancellation are not part of this model.
