# Spectra Remote: a verified model

Spectra Remote lets a controller run a few read-only diagnostics on a Mac through an agent, and keeps a
provisioned Spectra binary up to date on that machine. This project models its logic in Dafny and proves what
the design relies on. `dafny verify dfyconfig.toml` checks everything; nothing here executes the original program.

## Layout

| files | what they model |
|---|---|
| `Common`, `Ordering`, `GoText` | small datatypes, Go's string order, and the parts of Go's `strings` and `filepath` that are used |
| `Prune` | retention of installed versions: the loops of `planPrune` and the declarative policy they compute |
| `Disk`, `Plans` | the provisioning root as a value, every file-system call as an atomic step, and install, update and rollback as lists of steps that a crash may cut anywhere |
| `Outcomes` | what a completed install or rollback leaves and when it is refused, said of the records, digests and binaries on the root |
| `CrashSafety`, `Recovery` | what every cut and every run keeps; what running an operation again does |
| `Concurrency` | any number of processes on one root, kept apart by the non-blocking file lock; their calls interleave, fail and are made good, and any of them may crash |
| `Provisioner` | install, rollback and status as the source runs them, one failing call after another, on a mutable root; each method is proved to leave the root at some cut of the plan in `Plans` |
| `Extract`, `Delivery` | the one-pass archive validator, source fallback, verification and the compatibility probe |
| `Installer` | delivery and commit put together: requests of a user over any network, with any calls failing |
| `Protocol`, `LocalSpectra`, `Agent` | requests, argument vectors and path checks, and the agent object with its capability cache and audit trail, proved equal to the function `Agent.Handle` |
| `CapabilityCache`, `AuditGrammar`, `Server` | the cache against an agent that probes every time, the grammar of the audit trail, and the request loop of a session |
| `Answers` | which requests the agent starts, what it executes for them and what it answers, said of the installed binary |
| `Sessions` | one agent object serving any number of sessions whose requests overlap, only the loads excluding each other |
| `BinaryIdentity` | the identity the agent reads of the provisioned binary, over the roots provisioning can produce |
| `Plist`, `FlagSet`, `LaunchAgent`, `AgentCommand` | the LaunchAgent printer, a reader that follows XML 1.0, Go's flag parser, and the start-up checks of the launched agent |
| `Limiter`, `Deadlines` | connection slots under every interleaving, and session deadlines |
| `Witnesses` | for each divergence listed below, a concrete input, or a run from an empty root, on the failing side |

## How to read the model

A file-system call takes effect at once and in program order (process crashes, not power loss). An operation is
the list of calls it would make on a given root; `Plans.Cut(w, d, op, k)` is the root after the first `k` of them.
`Plans.DiskAtCut` gives the link, `state.json` and `versions/` at every cut in closed form, and everything about
crashes is derived from it. The functions that mirror a body of the source (`Plans.Recorded`, `Plans.RollbackAllowed`,
`Extract.ValidateEntry`, `Delivery.CheckCapabilities`, `Agent.DiagnosticOutcome`, `Server.OnWire` and others) are each
tied by a theorem to a description that does not mention them, in `Outcomes`, `Answers` and beside them. The names that Go visits in an unspecified order (map iteration, directory listing)
are fields of the operation, so each statement covers every order. `Plans.World` holds what is decided elsewhere:
version syntax and order, SHA-256, and the gates a binary passes; `Delivery.ProvisioningWorld` instantiates the
gates with the modelled verification, extraction and probe, and `Installer.InstallRelease` shows that what delivery
hands to the commit has passed them. `valid("")` is false in every statement that needs
it, because the empty string is no version.

The agent sees an `Agent.World`: identity, probe and run are functions of the installation of the moment, so a
swap of the binary at any point, even inside a call, is a change of that moment.

## What the model shows about the code

These places behave differently from the documentation or from what one might expect; each is stated exactly.

- Retention grants half of the extra budget, rounded up, because the loop bound shrinks while the set grows
  (`internal/provision/store.go:194-198`; `docs/provisioning.md:43-45` promises all of it):
  `Prune.PruneMeetsFixedBudgetIff`; four versions with a budget of four lose one in
  `Witnesses.PruneDropsFromAFullBudget`.
- Re-running `install` for the version the link names does not repair an interrupted rollback to an older
  version, it is refused as a downgrade (`internal/provision/provision.go:129`, against
  `docs/provisioning.md:75-77`): `Recovery.RepairByInstallIff`, `Witnesses.RepairAfterRollbackIsRefused`.
  Re-running `rollback` does repair it: `Recovery.RollbackAgainIff`.
- A cut between the link switch and the state write of a first install is not reported as drift, since `Status`
  looks only when a current version is recorded (`internal/provision/provision.go:274`):
  `CrashSafety.DriftAfterCutIsExact`, `Witnesses.FirstInstallDriftIsSilent`.
- Reinstalling a version that is already there leaves it missing, and `current` dangling if it names it, between
  the two renames: `CrashSafety.LinkDanglesIff`, `CrashSafety.RecordedVersionIsMissingIff`,
  `Witnesses.ReinstallLeavesLinkDangling`.
- A prune that is cut leaves version directories without a record, which nothing but an install of that very version
  ever touches again: `Recovery.CutPruneLeavesOrphans`, `Recovery.OrphansAreNeverRemoved`,
  `Witnesses.CutPruneLeavesAnOrphan`.
- A failed probe is cached like a successful one and is served until the identity changes or `health` is asked:
  `CapabilityCache.FailureSticksUntilHealth`, `Witnesses.FailedProbeIsSticky`.
- Carriage returns in an option do not survive the property list, and characters outside XML make it unreadable
  although `Validate` accepts both: `AgentCommand.OptionsRoundTripIffClean`,
  `AgentCommand.ValidatedOptionsStartIffXml`, `Witnesses.ReturnBecomesNewline`,
  `Witnesses.ControlCharacterNeverStarts`.
- A run cap below one millisecond is exceeded, because the advertised timeout is at least one millisecond:
  `AgentCommand.RequestsEndBeforeTheSession`, `Witnesses.ShortCapIsExceeded`.

## Model

| member | source | states |
|---|---|---|
| `Prune.StateRecord.PlanPrune` | internal/provision/store.go:170-211 | editing the record in place yields the declarative pruned state, and the returned names are the dropped ones, each once |
| `Prune.GrantExtras` | internal/provision/store.go:194-198 | the loop that re-reads the size of the set grants exactly the first half of the budget, rounded up, of the ranked extras |
| `Prune.RankExtras` | internal/provision/store.go:182-193 | whatever the map order, the extras come out ranked by installation time and name, each once |
| `Prune.PruneKeepsPinned` | internal/provision/store.go:171-177 | current always survives, previous too when more than one version is kept, surviving metadata is untouched |
| `Prune.PruneKeepsNewestHalf` | internal/provision/store.go:188-198 | the surviving extras are min(number of extras, budget/2 rounded up) many and none was installed before a dropped one, the greater name winning a tie |
| `Prune.PruneNeverExceedsKeep` | internal/provision/store.go:170-211 | never more versions than the requested number, at least one |
| `Prune.PruneIsIdempotent` | internal/provision/store.go:170-211 | pruning a pruned state changes nothing and removes nothing |
| `Prune.PruneMeetsFixedBudgetIff` | internal/provision/store.go:194-198 | agrees with "fill the whole budget with the newest" iff the budget is at most 1 or all extras fit the granted half |
| `Plans.DiskAtCut` | internal/provision/provision.go:135-187 | link, state.json and versions/ after any prefix of the calls of any operation, in closed form |
| `Plans.PlanNeverStalls` | internal/provision/provision.go:135-187 | no call of an operation can fail because of what earlier calls of it, or a crash before it, left behind |
| `Plans.PrepareRun` | internal/provision/store.go:154-162 | clearing staging, entry by entry in any order, ends with an empty staging and touches nothing else |
| `Outcomes.ReadableIff` | internal/provision/store.go:37-72 | exactly which state files are read: none, or one of the known schema with well-formed versions and records for current and previous |
| `Outcomes.InstallCommitsIff` | internal/provision/provision.go:118-133 | an approved install goes through iff it does not downgrade, nor as an update stay where it is, on any readable root |
| `Outcomes.InstallOutcome` | internal/provision/provision.go:164-187 | from its state write on: link and current on the version, its binary and its digest and time recorded, the replaced version as previous (none with one version kept), other records unchanged; in the end exactly the versions that lost their record are gone |
| `Outcomes.RollbackCommitsIff` | internal/provision/provision.go:227-248 | a rollback goes through iff a previous version is recorded whose binary is there, has the recorded digest and passes the compatibility check, on any root |
| `Outcomes.RollbackOutcome` | internal/provision/provision.go:211-262 | on any readable root: no target of the recorded digest that fits, and the installation is untouched at every cut; otherwise current and previous swap, the link leads to that binary and no drift is reported |
| `Outcomes.UnreadableRootIsLeftAlone` | internal/provision/provision.go:86-89 | an unreadable state.json stops every operation before it touches link, state or versions/ |
| `Outcomes.RollbackUndoesInstall` | internal/provision/provision.go:164-262 | installing v over u and rolling back ends at current u, previous v and the link on u's unchanged binary iff that binary was genuine; otherwise the rollback changes nothing |
| `CrashSafety.SwitchIsAtomic` | internal/provision/provision.go:164-177 | at every cut link and state.json are each exactly old or new, never new state with old link, both untouched before activate |
| `CrashSafety.EveryRunKeepsInv` | internal/provision/store.go:37-72 | after every run with crashes and retries state.json is readable, current and previous differ and have metadata, previous implies current, every version's binary passed both gates |
| `CrashSafety.CutKeepsInv` | internal/provision/provision.go:135-187 | every cut of every operation keeps that invariant |
| `CrashSafety.InstallNeverDowngrades` | internal/provision/provision.go:118-133 | no cut of an install lowers the recorded current version, a completed update raises it |
| `CrashSafety.CurrentFallsOnlyByRollback` | internal/provision/provision.go:118-133 | over any run of installs and updates, cut anywhere, current never goes down |
| `CrashSafety.LinkBreaksExactlyBetweenRenames` | internal/provision/provision.go:146-160 | from a usable root, the link fails to resolve iff the cut falls between the two renames of an install of the linked version |
| `CrashSafety.RecordsBreakExactlyBetweenRenames` | internal/provision/provision.go:146-181 | a recorded version loses its binary iff the cut falls between the two renames of its own reinstallation |
| `CrashSafety.RecordedVersionIsMissingIff` | internal/provision/provision.go:146-181 | over every run, a recorded version lacks its binary iff a crash between its renames was not followed by an event that published it again |
| `CrashSafety.LinkDanglesIff` | internal/provision/provision.go:146-181 | over every run, the link dangles iff a crash that took the linked version away was not followed by an event that published it or switched the link; pruning never causes it |
| `CrashSafety.RootIsUsableIff` | internal/provision/provision.go:146-181 | over every run, link and all recorded versions are usable iff no such crash still shows |
| `CrashSafety.RecordedDigestsMatch` | internal/provision/provision.go:173-173 | with one binary per version, every recorded digest is that of the binary on disk |
| `CrashSafety.RollbackIsAvailable` | internal/provision/provision.go:230-247 | over every run, rollback passes all its checks iff a previous version is recorded that no crash has left without its binary |
| `CrashSafety.DriftIsExact` | internal/provision/provision.go:264-280 | for a state read from one reachable root and a link met on another, as without a lock, Status reports drift iff that state has a current version and that link is missing, dangling or names another |
| `CrashSafety.DriftAfterCutIsExact` | internal/provision/provision.go:264-280 | exactly which cuts of which operations are reported as drift afterwards |
| `Recovery.FullOutcome` | internal/provision/provision.go:135-187 | the link, state and versions/ of every completed operation |
| `Recovery.PruneIgnoresCurrentMetadata` | internal/provision/store.go:170-211 | the current version's own installation time plays no part in retention |
| `Recovery.RetryConverges` | internal/provision/provision.go:74-187 | cut an install anywhere and install again: current, previous, recorded versions and link end as if uninterrupted, wherever the cut fell; versions/ too iff the cut fell before the state write or left no directory to prune |
| `Recovery.RetriesConverge` | internal/provision/provision.go:74-187 | after any number of cut attempts a completed one leaves current, previous, recorded versions and link as if uninterrupted; versions/ too iff every cut fell before its state write or left no directory to prune |
| `Recovery.CutPruneLeavesOrphans` | internal/provision/store.go:213-225 | behind the state write, some version to prune is left as a directory without a record iff its removal had not ended and it was there |
| `Recovery.OrphansAreNeverRemoved` | internal/provision/store.go:199-219 | over any later run without an install of that version, such a directory stays, unchanged and unrecorded |
| `Recovery.TwoRollbacksRestore` | internal/provision/provision.go:211-262 | from a root whose link agrees with its state, two completed rollbacks restore state, link and versions/ |
| `Recovery.RollbackAgainIff` | internal/provision/provision.go:253-259 | a cut rollback that is run again ends like an uninterrupted one iff state.json was not yet renamed or the second run is refused |
| `Recovery.RepairByInstallIff` | internal/provision/provision.go:118-133 | exactly when installing the version the link names after a cut switch is accepted, and exactly when link and state agree and resolve afterwards, without drift |
| `Concurrency.InterleavingsAreSerializable` | internal/provision/store.go:146-168 | whatever N processes do, interleaved, crashing, failing and making good, running one at a time exactly the operations that got the lock, in that order and each begun by the process that held it, leaves the same link, state.json and versions/ |
| `Concurrency.UndoGoesBack` | internal/provision/provision.go:155-159 | between the calls of other processes too, making a failed call good leaves link, state.json and versions/ as some cut of the operation's own plan left them |
| `Concurrency.FailedRenamesAreMadeGood` | internal/provision/store.go:117-131 | in every interleaving a failed rename of current.new is followed by its removal, and a failed second rename of an install by the old version's return to versions/, nothing else changing |
| `Concurrency.InterleavingsKeepInv` | internal/provision/lock_unix.go:20-33 | every interleaving keeps the invariant of the root |
| `Concurrency.OnlyTheHolderActs` | internal/provision/lock_unix.go:20-33 | at most one process is between prepareRoot and unlock, nobody else changes the root, staging included, and who finds the lock held gives up at once |
| `Concurrency.CommitsBuildOnTheLatestState` | internal/provision/provision.go:82-90 | no lost update: state.json is only ever replaced, by the lock holder, with the successor of what it holds at that moment |
| `Installer.InstallRelease` | internal/provision/provision.go:74-116 | from a request to the committed root, over any network and with any calls failing: nothing is downloaded unless the recorded state allows the change; what is installed is what the network delivers and verification lets through; the root ends at a cut of that plan and keeps its invariant; without faults an allowed request succeeds iff something usable is delivered |
| `Installer.RollbackRelease` | internal/provision/provision.go:211-262 | a completed rollback links a binary whose probe says it is that version on this machine; the invariant is kept |
| `Provisioner.Root.Begin` | internal/provision/provision.go:79-93 | install up to the version check: it goes on to the download only for an allowed change, with the state it read, and leaves link, state.json and versions/ alone |
| `Installer.Fetch` | internal/provision/provision.go:94-105 | a binary comes out iff the network delivers a usable one under the configured keys, and then it has passed both gates |
| `Installer.Maintain` | internal/provision/provision.go:67-115 | after any sequence of requests on an empty root every binary under versions/v came out of an archive of a signed release of v and probes as v, on this system and architecture, with the interfaces demanded |
| `Provisioner.Root.Install` | internal/provision/provision.go:74-116 | the commit half, for a given delivery: with any calls failing the root ends at some cut of the plan; success means the whole plan and the version installed as `Outcomes.Installed` says; without faults a committing plan succeeds |
| `Provisioner.Root.CommitInstall` | internal/provision/provision.go:135-187 | the in-memory record becomes the pruned successor: current the new version, previous the replaced one, its digest and time recorded; the root follows the plan that writes exactly that record |
| `Provisioner.Root.Rollback` | internal/provision/provision.go:211-262 | with any calls failing the root ends at a cut of the plan; success means link and state on the previous version, whose binary has the recorded digest and fits; without such a binary it fails and changes nothing |
| `Provisioner.Root.SwitchTo` | internal/provision/provision.go:253-259 | activate and writeState, the link before the state: with any calls failing the root ends at a cut of the plan |
| `Provisioner.Root.SwapIn` | internal/provision/provision.go:146-163 | the two renames, with the old version put back when the second fails |
| `Provisioner.Root.Activate` | internal/provision/store.go:117-131 | the link switches in one call; every failure before it leaves link, state and versions/ alone |
| `Provisioner.Root.WriteState` | internal/provision/store.go:83-115 | state.json is replaced in one call |
| `Provisioner.Root.PrepareRoot` | internal/provision/store.go:154-162 | clears staging in directory order and recreates it, as far as the calls succeed |
| `Provisioner.Root.RemovePruned` | internal/provision/store.go:213-225 | removes the given versions one call at a time, stopping at the first failure |
| `Provisioner.Root.CleanStaging` | internal/provision/provision.go:195-209 | leaves link, state and versions/ alone and, without faults, staging empty |
| `Provisioner.Root.ReportStatus` | internal/provision/provision.go:264-280 | reads the state, and later the binary behind a link that may have moved on, as the status function says |
| `Extract.ExtractBinary` | internal/provision/extract.go:19-52 | one pass with early exits yields b iff every entry is safe by its path components and kind, the sizes sum to at most 1 GiB, and b is the body of the only file bin/spectra, within the limit; the missing-binary error comes exactly for readable archives without one |
| `Extract.ConsumeEntry` | internal/provision/extract.go:54-77 | keeps the running int64 total equal to the sum of sizes without overflow, and fails only on entries no continuation can make acceptable, each error for its own cause |
| `Extract.AcceptableIffHolds` | internal/provision/extract.go:19-95 | acceptance agrees with the description by components: regular files and directories only, no empty or absolute name, no .., everything below the expected directory, one binary |
| `Extract.EntryRefusals` | internal/provision/extract.go:79-95 | each entry error exactly for its own cause among the components and the kind |
| `Extract.AcceptedPathsStayBelow` | internal/provision/extract.go:79-95 | the cleaned path of every entry of an accepted archive lies below the expected directory |
| `Extract.AcceptancePermutes` | internal/provision/extract.go:19-95 | permuting the entries changes neither acceptance nor the extracted binary |
| `Delivery.FetchSource` | internal/provision/fetch.go:67-93 | what it returns is signed by a trusted key, names the requested version and matches the manifest's digest; nothing but the metadata is asked for before that manifest is trusted |
| `Delivery.UnsafeNamesAreRefused` | internal/provision/fetch.go:125-135 | an empty name, or one with a leading dot, a slash or characters that mean something in a URL, is refused whatever the network would say |
| `Delivery.SourceServesIff` | internal/provision/fetch.go:67-93 | a source yields a release iff metadata and archive come whole and within their limits, the signature and version are right and the digest matches |
| `Delivery.SourceUnreachableIff` | internal/provision/fetch.go:137-201 | the next source is tried iff a file was unreachable, missing, answered by a server error or broken off, after everything before it was in order |
| `Delivery.FetchRelease` | internal/provision/fetch.go:37-65 | the result is that of the first source that is not merely unreachable; each error exactly when its cause holds |
| `Delivery.ParsedKeysIff` | internal/provision/fetch.go:44-51 | the keys are used only if every configured key parses, in order |
| `Delivery.Deliver` | internal/provision/provision.go:94-105 | a binary comes out iff the first serving source's archive holds it and its probe says schema 1, this version, system and architecture, and the interfaces demanded |
| `Delivery.PassesCheckIff` | internal/provision/compat.go:62-103 | the compatibility check passes exactly the binaries whose probe answers all of that |
| `Delivery.VettedIffAuthentic` | internal/provision/provision.go:94-105 | what install lets through is exactly what a signed release of the version holds and what runs here as that version |
| `Delivery.EveryInstalledBinaryIsVetted` | internal/provision/provision.go:94-105 | over runs cut anywhere whose approved installs carry a vetted binary, every binary under versions/v is out of a signed release of v and probes as v on this machine |
| `Delivery.PreviousCanBeRestored` | internal/provision/provision.go:230-247 | with a deterministic probe, rollback is possible iff a previous version is recorded that no crash has left without its binary |
| `LocalSpectra.RelTestIsPrefix` | internal/agent/local_spectra.go:96-97 | the filepath.Rel test accepts exactly the paths below the root, component by component, names such as ..foo included |
| `LocalSpectra.ExtIsApp` | internal/agent/local_spectra.go:81-83 | the extension test accepts exactly the paths ending in .app |
| `LocalSpectra.ValidateAppPath` | internal/agent/local_spectra.go:73-103 | returns the resolved path iff it is absolute, resolvable, an .app directory and under an allowed root |
| `LocalSpectra.InspectArgv` | internal/agent/local_spectra.go:53-63 | an inspect command is --json and the resolved admissible paths in order, and exists iff all paths are admissible |
| `Agent.AgentServer.LoadCapabilities` | internal/agent/agent.go:182-198 | the cache fields and the probe follow the cache function |
| `Agent.AgentServer.Prepare` | internal/agent/agent.go:87-120 | decision, cache and probes of prepare, policy before parameters before compatibility |
| `Agent.AgentServer.RunPrepared` | internal/agent/agent.go:142-154 | dispatch of an accepted request: valid output of the executed command comes back under the given schema and version, anything else as a timeout or a failed execution; the fallback for other operations is never reached |
| `Agent.AgentServer.HealthManifest` | internal/agent/agent.go:212-237 | refreshes the cache and advertises what the probe and the policy allow |
| `Agent.AgentServer.HandleRequest` | internal/agent/agent.go:69-85 | response, cache and the whole event trail of one request equal the dispatch function |
| `Answers.AcceptedIff` | internal/agent/agent.go:87-140 | a well-formed request is accepted iff policy and parameters permit it and, for diagnostics, the probed binary offers it |
| `Answers.CalledIff` | internal/agent/agent.go:69-85 | a diagnostic is called iff its request is well formed, permitted and offered and its started record could be written |
| `Answers.CommandFollowsRequest` | internal/agent/local_spectra.go:24-103 | a snapshot asks for apps iff the request does; an inspect is executed iff every path is absolute and leads to an .app directory below an allowed root, and names the resolved paths in order |
| `Answers.AnswerIsTheOutput` | internal/agent/agent.go:254-266 | the answer is a diagnostic with schema s, version v and data iff the executed command put out that data as JSON other than null, and the capabilities its load returned say s and v |
| `Answers.FailedRunsAreTold` | internal/agent/agent.go:254-266 | a called diagnostic without an answer is a timeout iff its deadline was hit, or it failed or gave invalid output with the context expired; otherwise a failed execution |
| `Answers.RefusalCodes` | internal/agent/agent.go:69-140 | the code of every request that is not started, in the order of the checks |
| `Answers.HealthTells` | internal/agent/agent.go:212-237 | a started health request reports the probed version and, with their schemas, exactly the diagnostics the binary offers and the policy allows |
| `Answers.AnswersNameTheManifest` | internal/agent/agent.go:212-265 | in any run with honest identities, schema and version of every answer are those an answered health request reported for the same binary |
| `CapabilityCache.CacheHoldsLastFill` | internal/agent/agent.go:182-198 | the cache holds what the last filling load stored, and the loads since read the identity it stored |
| `CapabilityCache.CacheIsExactIffHonest` | internal/agent/agent.go:182-198 | every sequence of loads without swaps inside them is answered with a fresh probe iff equal identities imply equal probes |
| `CapabilityCache.StaleExactly` | internal/agent/agent.go:182-198 | with swaps anywhere, an answer is stale iff its load read one binary's identity and probed another, and the first one is back |
| `CapabilityCache.CacheFollowsHistory` | internal/agent/agent.go:166-210 | over any run of requests the cache is determined by the loads they cause, in order |
| `CapabilityCache.ServedFromLastFill` | internal/agent/agent.go:122-132 | every response of every run is that of an agent without a cache whose probe happens at the last fill |
| `CapabilityCache.CachingRefinesProbing` | internal/agent/agent.go:166-210 | for requests one after another, with swaps between them and honest identities, responses, audit records and executed diagnostics equal those of the agent that always probes; `Sessions.OverlappingSessionsRefineProbing` is the same for requests that overlap |
| `CapabilityCache.AdvertisedIffAccepted` | internal/agent/agent.go:212-237 | for any policy and probe, an operation is in the manifest iff a well-formed request for it passes prepare, with the same schema and version |
| `CapabilityCache.ManifestPredictsAcceptance` | internal/agent/agent.go:212-237 | in any run, the operations an answered health request reported tell exactly which well-formed requests are refused while the same binary is installed |
| `CapabilityCache.ReadyMeansKnown` | internal/agent/agent.go:142-154 | only the three known operations pass prepare, each with its parameters and the policy it needs |
| `CapabilityCache.FailureSticksUntilHealth` | internal/agent/agent.go:186-197 | a cached probe failure is served until the identity changes or health is asked, whatever the probe would say |
| `Sessions.SessionsAreLinearizable` | internal/agent/agent.go:69-85 | however the requests of N sessions overlap, split at load, started record, run and completion, each is answered as if handled alone on the cache its load met, which is what a prefix of the loads leaves; each session's part of the shared trail is what its requests leave alone, in order |
| `Sessions.OverlappingSessionsRefineProbing` | internal/agent/agent.go:182-198 | with honest identities and no swap inside a load, every response of every interleaving, and the events of its request, are those of the agent that always probes |
| `Sessions.SessionTrails` | internal/agent/agent.go:69-85 | in every interleaving each session's part of the shared trail is readable by the grammar at any moment, and a whole sentence whenever the session is between requests |
| `Sessions.OverlappingRunsAreBracketed` | internal/agent/agent.go:79-83 | in every interleaving a diagnostic of a session stands between its own recorded start and completion in that session's part of the trail |
| `AuditGrammar.RunsAreBracketed` | internal/agent/agent.go:79-83 | in any trail of the grammar a diagnostic stands directly between a recorded started and the completed of the same request |
| `AuditGrammar.OneRequestTrail` | internal/agent/agent.go:69-85 | every request leaves a sentence of the grammar whose last record agrees with the response's outcome and code |
| `AuditGrammar.LastRecordNamesRequest` | internal/agent/agent.go:268-280 | the last record has the request's ID and operation, is written unless its own write failed, and says rejected iff the request was not accepted |
| `AuditGrammar.OneRequestCommands` | internal/agent/local_spectra.go:24-71 | every command a request executes has one of the three shapes and the policy it needs |
| `AuditGrammar.FullSnapshotNeedsBothPolicies` | internal/agent/agent.go:107-120 | a snapshot command needs the snapshot policy, one without --no-apps both policies |
| `Server.WriteResponse` | internal/agent/server.go:41-47 | a response that fits is sent as it is, any other as a short failure with its ID, or nothing when that does not go out either |
| `Server.Serve` | internal/agent/server.go:15-39 | the loop over any stream equals the session function: cache, events, responses and how it ended |
| `Server.ResponsesFollowMessages` | internal/agent/server.go:15-39 | one response per message, in order, with the request's ID or, undecodable, as an invalid request; sent unchanged iff it fits, else as a failure for size |
| `Server.EndTellsTheFrame` | internal/agent/server.go:15-39 | exactly which frame ended the session and how, a write failing only if the peer was gone or neither response nor short failure fits; nothing follows an oversized message |
| `Server.SessionTrail` | internal/agent/server.go:28-34 | a session's audit trail is, request by request, a sentence of the grammar that agrees with that request's response |
| `Server.SentAgreesWithTrailIff` | internal/agent/server.go:28-47 | what the peer is told of a request agrees with its last audit record iff the response fitted or was a refusal for size itself |
| `Server.SessionRunsAreBracketed` | internal/agent/agent.go:79-83 | over whole sessions every diagnostic stands between its recorded start and its completion |
| `Server.SessionCommands` | internal/agent/local_spectra.go:24-71 | over whole sessions every executed command has one of the three shapes, inspect paths under an allowed root |
| `Plist.XmlEscape` | internal/agentinstall/install.go:248-266 | the loop computes the escaped text |
| `Plist.ReadEscaped` | internal/agentinstall/install.go:240-266 | reading escaped text with the five predefined entities gives back the original, for all text |
| `Plist.WriteDocument` | internal/agentinstall/install.go:216-229 | the document is the one the reader's round trip is proved about |
| `Plist.DocumentReadsAs` | internal/agentinstall/install.go:216-229 | every document reads as its job with line ends normalised, or not at all when a character is outside XML |
| `Plist.RoundTripIffClean` | internal/agentinstall/install.go:216-266 | the document gives back arguments and log paths iff their text is XML characters without carriage returns |
| `FlagSet.ParseFlags` | cmd/spectra-remote-agent/main.go:246-268 | the parse loop equals the recursive parser |
| `FlagSet.FlagFormsAgree` | cmd/spectra-remote-agent/main.go:246-268 | one or two dashes, and a value in the same or the next argument, set the same flag; a value flag without a value is an error |
| `FlagSet.BareFlags` | cmd/spectra-remote-agent/main.go:246-268 | a bare bool flag is set, an unknown name is an error |
| `FlagSet.FlagsEnd` | cmd/spectra-remote-agent/main.go:246-268 | parsing stops at the first argument that is no flag, and behind a double dash |
| `FlagSet.IntRoundTrip` | cmd/spectra-remote-agent/main.go:254-254 | a printed non-negative int is read back |
| `FlagSet.PrintedParsesBack` | cmd/spectra-remote-agent/main.go:246-268 | any list of printed flags, values of any text included, parses to exactly the assignments it stands for, in order |
| `LaunchAgent.ProgramArguments` | internal/agentinstall/install.go:190-215 | the argument list is the printed form of the options |
| `LaunchAgent.WritePlist` | internal/agentinstall/install.go:190-230 | the document holds those arguments and the log paths |
| `LaunchAgent.ArgumentsParseBack` | cmd/spectra-remote-agent/main.go:245-272 | parsing the arguments gives the options back: lists in order, defaults filled in |
| `AgentCommand.ParseTSNetOptions` | cmd/spectra-remote-agent/main.go:234-287 | the flag checks and exit codes follow the settings function |
| `AgentCommand.CommandLineIff` | cmd/spectra-remote-agent/main.go:234-287 | the command line is accepted iff it parses completely to acceptable flags and spectra is given or found, with the exit code of each failure |
| `AgentCommand.LaunchNormalizes` | cmd/spectra-remote-agent/main.go:118-126 | validated options come up as their line-end-normalised form, or not at all when a text is outside XML |
| `AgentCommand.OptionsRoundTripIffClean` | internal/agentinstall/install.go:150-230 | for all validated options the launched agent parses exactly the installed options iff their text is clean |
| `AgentCommand.ValidatedOptionsStartIffXml` | internal/agentinstall/install.go:150-187 | validated options pass every check of the launched agent iff their text can be written in XML |
| `AgentCommand.ValidatedOptionsStart` | cmd/spectra-remote-agent/main.go:333-351 | clean validated options run with the installed policy, slots, identity and allowlists, and a cap below the session timeout |
| `AgentCommand.ValidationIsExact` | internal/agentinstall/install.go:150-187 | of clean options with absolute program and state paths, a spectra path and a positive cap, exactly the valid ones come up as a running agent |
| `AgentCommand.RequestsEndBeforeTheSession` | internal/agent/agent.go:239-297 | no request of a validated agent is given as long as the session; exactly when one exceeds the cap; without a timeout of its own it gets the cap, to the millisecond |
| `AgentCommand.ShorterTimeoutsAreHonoured` | internal/agent/agent.go:287-297 | a request's own shorter timeout is used as it is, without overflow |
| `AgentCommand.UnusualCaps` | internal/agent/agent.go:239-252 | an agent without a cap gives three minutes, one with an excessive cap the protocol's limit |
| `Limiter.SlotsAreExact` | internal/transport/tsnet/tsnet.go:95-160 | in every interleaving tokens equal unreleased handlers and stay within the limit, every handler has a token to take back, a connection is turned away exactly when all slots are taken, none is left at the end |
| `Limiter.EverySlotComesBack` | internal/transport/tsnet/tsnet.go:103-111 | from any state after the loop stopped the handlers can finish and free every slot |
| `Limiter.Interleave` | internal/transport/tsnet/tsnet.go:95-160 | the limiter object called in the order of any interleaving answers and counts as the system does, and release is never called on an empty channel |
| `Limiter.ConnectionLimiter.TryAcquire` | internal/transport/tsnet/tsnet.go:151-158 | takes a slot iff one is free |
| `Deadlines.SessionConn.Read` | internal/transport/tsnet/tsnet.go:276-281 | a read that yields bytes ends before the session deadline |
| `Deadlines.SessionConn.Write` | internal/transport/tsnet/tsnet.go:283-288 | a write has a whole idle timeout, whatever the session deadline |
| `Deadlines.Drive` | internal/transport/tsnet/tsnet.go:276-288 | a connection driven through Read and Write, step by step, is the session over time that the next rows are about |
| `Deadlines.ProgressIsNotCutOff` | internal/transport/tsnet/tsnet.go:257-288 | over every run, the session is still open iff every read brought bytes within the idle timeout and before the deadline and every response was taken within the idle timeout |
| `Deadlines.SessionsArePunctual` | internal/transport/tsnet/tsnet.go:257-281 | over every run all bytes came in before the session deadline, and each message received was handled once or is still buffered |
| `Deadlines.OnlyBufferedRequestsAfterTheDeadline` | internal/transport/tsnet/tsnet.go:214-288 | past the deadline no run takes in another byte, handles at most the buffered messages, each started after the deadline, and stops |
| `Deadlines.LateResponsesAreDelivered` | internal/transport/tsnet/tsnet.go:265-274 | past the deadline, in every run, all buffered requests get their responses out iff the peer takes each within the idle timeout, though none would be in time for a capped deadline |
| `BinaryIdentity.SameIdentityIffAlike` | internal/agent/local_spectra.go:41-51 | two moments have the same identity text iff the same version is linked with equal size and modification time |
| `BinaryIdentity.HonestIff` | internal/agent/local_spectra.go:36-51 | identities are honest over a history iff no two different binaries of one version, alike in size and time, probe differently |
| `BinaryIdentity.ProvisionedIdentityIsHonest` | internal/agent/local_spectra.go:36-51 | on roots provisioning produces, cut anywhere, with one byte string per version, equal identities imply equal probes |
| `BinaryIdentity.ProvisionedAgentIsExact` | internal/agent/agent.go:166-210 | the caching agent of a provisioned machine equals the one that always probes, without assuming honest identities |
| `BinaryIdentity.SwitchChangesIdentity` | internal/agent/local_spectra.go:41-51 | a cut of any operation leaves the identity as it was iff the link, the size and the time are; only a reinstallation can then have changed the binary |
| `Witnesses.PruneDropsFromAFullBudget` | internal/provision/store.go:194-198 | keeping four of four versions drops one |
| `Witnesses.RepairAfterRollbackIsRefused` | internal/provision/provision.go:129-131 | a run from an empty root after which drift is reported and the documented repair is refused |
| `Witnesses.FirstInstallDriftIsSilent` | internal/provision/provision.go:274-278 | a run from an empty root with a link that no state names and no drift reported |
| `Witnesses.ReinstallLeavesLinkDangling` | internal/provision/provision.go:146-160 | a run from an empty root after which the link dangles |
| `Witnesses.CutPruneLeavesAnOrphan` | internal/provision/provision.go:175-180 | a run from an empty root that leaves an unrecorded directory |
| `Witnesses.FailedProbeIsSticky` | internal/agent/agent.go:186-197 | after one failed probe a request is refused that the agent without a cache answers |
| `Witnesses.ReturnBecomesNewline` | internal/agentinstall/install.go:248-266 | a validated host name with a carriage return comes up with a newline |
| `Witnesses.ControlCharacterNeverStarts` | internal/agentinstall/install.go:248-266 | a validated host name with a control character never comes up |
| `Witnesses.ShortCapIsExceeded` | internal/agent/agent.go:247-250 | a validated cap of half a millisecond gives every request a whole one |

## Left out

- Power loss and fsync order: calls take effect in program order and `syncDir` changes nothing; its failures are modelled.
- `Uninstall`: it unlinks the lock file while holding it, and leftovers of a crash make its last step fail.
- Temporary `state-*` files other than the newest, and their removal, since nothing reads them.
- The recursive removal of one staging entry is one step; `versions/` itself is assumed to exist.
- Modification times of binaries are given for each moment, whatever they are.
- Errors of calls whose result the source ignores appear only as calls without effect.
- Reading errors of `state.json` other than its absence, and the removal of the whole root by others.
- Version parsing and comparison (`release/v1`): a validity test and a rank, so any total preorder.
- JSON, gzip, tar headers, HTTP, redirects, TLS, PEM files and signatures: functions of the outside world.
- Texts of errors and logs.
- Process execution, process groups and output limits: the run of a command is a function of the installed binary and its arguments.
- Strings are sequences of Unicode code points; texts that are not valid UTF-8 are not part of this model.
- `filepath.EvalSymlinks` yields a cleaned component list; a replacement of a path between check and use is not modelled.
- Validation of requests (`protocol/v1`): a request carries the code its validation fails with, if any.
- Message framing and encoding: a response fits the size limit or not, for each response.
- How long a request waits for the cache lock: in `Sessions` a load happens at some moment between arrival and decision, in any order among the sessions, as one step.
- An error return with nothing to make good is a crash in `Concurrency`: the lock is released and nothing else happens. A removal under staging/ that fails ends the clean-up there, where the source goes on with the next entry.
- Peers, times and the failure log in audit records; the separate denial record of a rejected peer.
- The allowlist test of `authorize`, a single loop of comparisons.
- `time.Duration` texts: assumed to parse back; number texts that are not plain decimals are a function of the outside world.
- Log paths of the LaunchAgent derive from the home directory; here they are any two texts.
- `launchctl`, file modes, the Tailscale server, and how long a session may take in total.
- The controller, its command line and `serve-stdio`, which shares the parser and the agent.
