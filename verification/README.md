# Granger verification

A Dafny model of the parts of Granger whose correctness depends on whole runs or whole inputs, with
proofs of what those parts are for. `dafny verify dfyconfig.toml` checks everything.

**Generation renewal** (`Fleet`, `Publication`, `Renewal`, `RenewalSafety`, `RenewalProgress`,
`RenewalOutcome`, `RenewalPlan`, `Coordinator`, `RenewalTiming`). One operator machine signs numbered public bundles
and rolls each out to four nodes. `Publication` is one node: any number of deploy handlers in flight,
one atomic disk access per action, any of them dying anywhere. `Renewal` puts the coordinator's
memory, its journal, its store of signed bundles, the four nodes and the clock into one transition
system with crashes; `RenewalSafety` proves what every run keeps, `RenewalProgress` what can always
still be reached. `Coordinator.Runner` is `run_once` as code: a class over that world whose ghost trace
is a run of the transition system, with others acting between any two of its writes. `RenewalOutcome`
says, from the state it finds, what an undisturbed invocation comes to, `RenewalPlan` when the next one is
due.

**Verified update store** (`ManifestText`, `ManifestFields`, `ManifestSize`, `ReleaseManifest`,
`ReleaseRules`, `UpdateStore`, `UpdateSafety`, `UpdateTheorems`, `UpdatePreparation`, `UpdateRules`,
`UpdateLimit`, `UpdateTool`, `ProductVersion`).
Concurrent `set_policy` and `prepare` on one directory, each of the four commit writes a step, death after
any of them; manifests with their canonical text, its size and what its digest binds. `UpdateTool.Tool` is
the code over that world.

**Canonical JSON and base64url** (`CanonicalJson`, `CanonicalRoundTrip`, `CanonicalLimits`,
`CanonicalSpelling`, `Base64Url`). Printers, compact and indented, and the readers that undo them.

**Profile migration** (`ProfileTree`, `ProfileNames`, `ProfileCopy`, `Migration`, `MigrationProgress`,
`MigrationMeaning`). The recursive verified copy as a class that fills a staging directory entry by entry,
inside a transition system of staging, rename, marker and replay guard with crashes and reruns.

**Runtime manifest** (`RelativePath`, `RuntimeCollector`, `RuntimeManifest`, `RuntimeTheorems`,
`RuntimeRules`, `RuntimeFile`, `RuntimeLimit`) and **marker scan** (`MarkerScan`, `MarkerEncoding`). An integrity index against the tree it
describes, and against the file it is written to; a chunked scan against the whole file.

**Bridges** (`BridgeText`, `BridgeLine`, `BridgeGrammar`, `BridgeMeaning`, `BridgeTheorems`, `BridgeTorrc`,
`BridgeOutput`). Bridge lines parsed, stored, printed into a torrc text and parsed out of it again; the
parser against a grammar of the lines.

**Browser tab** (`NavigationState`, `NavigationSteps`, `NavigationSafety`, `NavigationHistory`,
`NavigationDisplay`, `NavigationTab`). The failure timers of a tab under any order of events; the handlers are methods of an
object whose whole life, as the event loop drives it, is a run of the state functions.

**Chromium flags** (`ChromiumFlags`, `FlagText`, `FlagSwitches`, `FlagTheorems`, `FlagStartup`,
`FlagSequence`, `FlagWords`, `FlagEnvironment`). Index-based edits of one string against edits of a list of tokens.

The modules called rules, meaning, grammar, spelling, names, encoding, output, fields, plan and display say
what the code accepts, writes and shows without using the functions that model the code, and prove that
these agree.

`Wrappers`, `Octets`, `Collections`, `Text`, `Chunks`, `Checklist` and `FileTree` are shared.

## Findings

Properties that the code does not have in the form one would expect, each with its exact condition.

- scripts/release_update.py:35-36: the canonical encoding is not injective on all Python strings. A high
  surrogate directly before a low one is printed like the character they spell
  (`CanonicalLimits.PairCollides`). `RoundTripIffPaired` and `SamePrintIffSameMerge` say exactly when.
- scripts/release_update.py:264 and 293: nothing bounds the canonical text that `prepare` keeps beside the
  artifact, while `verify_pending` reads at most 64 KiB of it (lines 26 and 51-53). An accepted manifest whose
  notes have many characters above U+FFFF is prepared, raises the high-water mark and is never returned
  (`UpdateLimit.PreparedButNeverReturned`, `OversizedUpdate`). `UpdateLimit.PreparedReturnedIff` says exactly
  when; up to 2648 such characters always fit (`ManifestSize.SidecarFits`).
- GrangerNetwork/tools/operator_renewal.py:184-199: the two-generation spread of a rollout holds only while
  no bundle expires before it completes. Every lapse adds at most one (`RenewalSafety.SpreadBound`), and can
  add one, without end (`RenewalProgress.SpreadIsUnbounded`).
- GrangerNetwork/tools/runtime_manifest.py:49-54: `_relative_path` accepts the single dot, which names no
  place below the package; no manifest created with it as a root loads (`RelativePath.DotIsAccepted`,
  `RuntimeTheorems.FreshAcceptedIff`).
- GrangerNetwork/tools/runtime_manifest.py:181-182: a fresh manifest can be too large to be loaded, which
  nothing checks when it is written (`RuntimeLimit.OversizedManifest`); `RuntimeLimit.FreshLoadsIff` says
  exactly when, `PlainManifestFits` when it cannot happen.
- granger/bridges/BridgeManager.cpp:240-249: a bridge whose transport token is the word `Bridge` is stored as
  a line that parses as a different bridge (`BridgeTheorems.BridgeTokenIsLost`, `ReparseIff`); out of a torrc
  text it is read correctly (`BridgeTorrc.TorrcReadsBack`).
- granger/core/BrandMigration.cpp:214-221: a link below a pruned cache directory does not abort the profile
  copy (`ProfileCopy.LinkInCacheIsNotMet`); the copy fails exactly on links the walk meets.
- granger/main.cpp:255: a flag is taken for present when its text merely stands within a token, so that
  `--lang=en-US` is not added behind `--lang=en-USX` (`FlagStartup.PartOfTokenIsEnough`, `FlagMeans`).
- granger/main.cpp:311-313: disabling a feature that is already disabled leaves it enabled if it also stands
  in the enabling switch, because the first half of the edit is not written back
  (`FlagStartup.StaysEnabledIff`).
- scripts/test-release-privacy.py:162: the marker scan sees every needle of up to 4097 bytes; for each longer
  one there is a file, read in full chunks, in which it is missed (`MarkerScan.LongNeedleMissed`).
- granger/browser/BrowserTab.cpp:109-116: the download-failure timer of a tab is not bound to a navigation,
  unlike the error-page timer. Its report belongs to the current one exactly when no load has started since
  it was set (`NavigationHistory.DownloadAwaitedSince`, `DownloadTimerOutlivesNavigation`).

## Model

| member | source | states |
|---|---|---|
| Publication.StepKeepsInv | GrangerNetwork/tools/operator_publication.py:134-194 | at most the lock holder is past the lock, and what a handler has checked against the installed bundle stays true until it publishes |
| Publication.StepAdvances | GrangerNetwork/tools/operator_publication.py:146-194 | whatever changes the installed bundle is the lock holder's publication of the bundle it was asked for: strictly newer, same identities, same policy |
| Publication.RunIsMonotone | GrangerNetwork/tools/operator_publication.py:134-194 | over any interleaving of handlers and deaths the installed generation never falls, and equal numbers at two moments mean equal bundles of the same fleet |
| RenewalSafety.StepKeepsInv | GrangerNetwork/tools/operator_renewal.py:117-223 | store, journal, memory, marks, nodes and requests in flight stay consistent over every write, node action, tick and crash |
| RenewalSafety.RunExtends | GrangerNetwork/tools/operator_renewal.py:117-223 | between any two states of a run the store only gains entries, and journal generation, completed floor and every node's generation do not fall |
| RenewalSafety.NoEquivocation | GrangerNetwork/tools/operator_renewal.py:117-223 | at any two moments and for any two of store, journal, coordinator memory, nodes and requests in flight, one generation number means one content |
| RenewalSafety.AlwaysLoadable | GrangerNetwork/tools/operator_renewal.py:117-134 | the checks made on journal and bundle at start never reject a state that crashes can leave behind |
| RenewalSafety.CollectAccepts | GrangerNetwork/tools/operator_renewal.py:136-153 | the generation and equivocation checks on node reports accept every reachable fleet |
| RenewalSafety.SignedOnlyAfterPredecessor | GrangerNetwork/tools/operator_renewal.py:184-199 | a signature is made only when the predecessor is installed on all four nodes or has expired, and only for a number not in the store |
| RenewalSafety.CompleteMeansDeployed | GrangerNetwork/tools/operator_renewal.py:206-215 | a journal that says complete means that every node runs exactly the journalled bundle |
| RenewalSafety.MarksAreTrue | GrangerNetwork/tools/operator_renewal.py:201-210 | a DEPLOYED or VERIFIED mark found after any crash is true of its node |
| RenewalSafety.SpreadBound | GrangerNetwork/tools/operator_renewal.py:155-215 | two nodes differ by at most one generation more than the lapses since the last completed one |
| RenewalSafety.NoLapseMeansNone | GrangerNetwork/tools/operator_renewal.py:184-199 | a run in which no invocation meets an expired incomplete bundle has no lapses |
| RenewalSafety.RolloutSpansTwoGenerations | GrangerNetwork/tools/operator_renewal.py:155-215 | in such runs any two nodes are at most one generation apart in every state |
| RenewalSafety.FleetNeverChanges | GrangerNetwork/tools/operator_publication.py:175-185 | peer identities and signed policy on every node are forever those of the first bundle |
| RenewalProgress.CanAlwaysComplete | GrangerNetwork/tools/operator_renewal.py:161-223 | from every reachable state some continuation completes a newer generation on all four nodes |
| RenewalProgress.SpreadIsUnbounded | GrangerNetwork/tools/operator_renewal.py:184-199 | the bound on the spread is exact: for every number of lapses a state with one generation more between two nodes can be reached from a uniform start |
| RenewalOutcome.HandledInstalls | GrangerNetwork/tools/operator_publication.py:134-194 | a handler left alone installs its bundle exactly if the lock is free, the request is whole and newer, identities and policy are those installed, and the bundle is valid for another minute |
| RenewalOutcome.ClearMeans | GrangerNetwork/tools/operator_renewal.py:161-215 | of a reachable fleet, nodes take the bundle an invocation aims at unless their lock is held or its validity is under a minute |
| RenewalOutcome.TargetIs | GrangerNetwork/tools/operator_renewal.py:176-199 | a stored successor is taken up first; a bundle of stated number, life, identities and policy is signed exactly when what is complete is due or what would be deployed has expired |
| RenewalOutcome.ClearIff | GrangerNetwork/tools/operator_renewal.py:184-215 | on a reachable fleet nothing else is needed: six hours of life and descriptors that outlive it, or a valid old bundle; a free lock and a minute left where it is not installed; a healthy report from every node |
| RenewalPlan.WindowIs | GrangerNetwork/tools/operator_renewal.py:131-133 | the window opens a third of the bundle's life before its end, not less than ten minutes and not more than six hours, and the jitter earlier |
| RenewalPlan.StepKeepsPlan | GrangerNetwork/tools/operator_renewal.py:117-223 | in every reachable state a journal that says complete plans for the opening of the window of the bundle it names, with a jitter of at most 300 |
| RenewalPlan.SignedOnlyWhenDue | GrangerNetwork/tools/operator_renewal.py:184-199 | in no run is a bundle succeeded before its window has opened, unless it has expired |
| RenewalPlan.FailedRetries | GrangerNetwork/tools/operator_renewal.py:216-220 | the retries wait 30, 60, 120, 240, 480, 960 and then 1800 seconds, and less than a fifth of that more |
| Coordinator.CrashAnywhere | GrangerNetwork/tools/operator_renewal.py:161-163 | cutting a run after any state by a crash gives a run again |
| Coordinator.Runner.Begin | GrangerNetwork/tools/operator_renewal.py:164-175 | exactly when an invocation has nothing to do, and that it then leaves the store alone and, when nothing is due, plans the next attempt for the window start |
| Coordinator.Runner.CollectAndAdopt | GrangerNetwork/tools/operator_renewal.py:176-183 | a successor left signed but unjournalled is taken up as it is; the store does not change |
| Coordinator.Runner.SignIfCalledFor | GrangerNetwork/tools/operator_renewal.py:184-200 | undisturbed: which bundle is aimed at, and exactly when there is one |
| Coordinator.Runner.Request | GrangerNetwork/tools/operator_renewal.py:261-265 | an undisturbed request leaves the node with the tip exactly when it can take it, and touches no other node |
| Coordinator.Runner.Deploy | GrangerNetwork/tools/operator_renewal.py:201-205 | success means that the node runs the tip and the journal has its mark; undisturbed, it succeeds exactly when the node takes the tip |
| Coordinator.Runner.Verify | GrangerNetwork/tools/operator_renewal.py:267-282 | accepts exactly a node that runs the tip and in some poll reports itself running, connected, with four peers and a ready table |
| Coordinator.Runner.Attempt | GrangerNetwork/tools/operator_renewal.py:169-215 | an attempt ends complete with no failure counted and the next one planned for the opening of its bundle's window, or without counting one; undisturbed it succeeds exactly when the target is clear |
| Coordinator.Runner.GiveUp | GrangerNetwork/tools/operator_renewal.py:216-222 | counts one more failure up to eight and plans the retry within the stated delay for that count |
| Coordinator.Runner.RunOnce | GrangerNetwork/tools/operator_renewal.py:161-223 | every state on the way is one of the protocol's and the lock is free at the end; which outcome arises, exactly; PASS means complete and the journalled bundle on every node; behind PASS and NOT_DUE the next attempt is planned for the opening of the window, written out in issue, expiry and jitter, behind the issue and two hours before the end from six hours on, and every later load computes the same |
| RenewalTiming.FailureDelay | GrangerNetwork/tools/operator_renewal.py:217-220 | the delay behind a failure lies in 30 to 2159 seconds |
| RenewalTiming.WindowLeavesTwoHours | GrangerNetwork/tools/operator_renewal.py:131-133 | bundles of six hours or more become due after issue and at least 7200 seconds before expiry |
| RenewalTiming.SleepUntilDue | GrangerNetwork/tools/operator_renewal.py:314 | the watch loop wakes never before the planned time and less than five seconds after it |
| RenewalTiming.SleepIs | GrangerNetwork/tools/operator_renewal.py:314 | one sleep lasts for the time left, but five seconds at least and five minutes at most |
| RenewalTiming.DrawnIff | GrangerNetwork/tools/operator_renewal.py:216-220 | the steps of such a series are exactly what the journal of a failed attempt and the watch loop make of one |
| RenewalTiming.StartsByLatest | GrangerNetwork/tools/operator_renewal.py:308-314 | a bound on when each of a series of failing attempts has started at the latest |
| RenewalTiming.NineAttemptsBeforeExpiry | GrangerNetwork/tools/operator_renewal.py:191-220 | nine instantly failing attempts start before such a bundle expires, for all random draws |
| RenewalTiming.SignedNeverOutlivesDescriptors | GrangerNetwork/tools/operator_bundle.py:101-107 | what is signed lives 6 to 24 hours and no longer than any router descriptor it lists |
| UpdateSafety.StepKeepsInv | scripts/release_update.py:214-269 | history, directory and every prepare in flight stay consistent over every write, lock, policy or trust change and death |
| UpdateTheorems.HighWaterNeverFalls | scripts/release_update.py:229-239 | the high-water record is never lost and never falls in sequence or in the number that its version makes, six digits a component |
| UpdateTheorems.OneManifestPerSequence | scripts/release_update.py:229-239 | no sequence number is accepted for two manifests in one history: two accepted under it are read back as the same, and are the same where their notes pair no surrogates |
| UpdateTheorems.AtMostTwoArtifacts | scripts/release_update.py:224-228 | no history ever holds a third prepared artifact |
| UpdateTheorems.LimitNeverStopsRerun | scripts/release_update.py:225-228 | once an artifact is in place the limit never again stops its manifest |
| UpdateTheorems.EqualPoliciesMeanNoChange | scripts/release_update.py:117-140 | two equal policy reads mean that no change was committed between them, not even there and back |
| UpdateTheorems.ActivationUnderConsent | scripts/release_update.py:218-269 | pending is written only if the user approved or the policy says auto, under a policy that stood unchanged from the first read of it to that write |
| UpdateTheorems.VerifyPendingExactly | scripts/release_update.py:282-311 | in every reachable state: what is returned is the artifact of the manifest accepted last, whole and newer than the current version; and exactly when something is, the 64 KiB that the sidecar may have included |
| UpdateTheorems.CommitFollowsWrites | scripts/release_update.py:262-268 | each commit step is possible behind the ones before it and leads from the world of k writes to that of k + 1 |
| UpdateTheorems.RerunConverges | scripts/release_update.py:262-268 | repeating the commit on what any number of its writes left is stopped by neither limit nor rollback check and ends in the undisturbed directory |
| UpdateTheorems.DeathOutcome | scripts/release_update.py:262-311 | after a death behind each write: the old update intact, or blocked, or the new one exactly if its sidecar is within 64 KiB and circumstances allow |
| UpdateTool.TakeChunks | scripts/release_update.py:242-253 | bytes are taken exactly when size and digest are the manifest's; a surplus is the error reported first |
| UpdateTool.LocksExclude | scripts/release_update.py:224-257 | no other process's action writes what a holder of the locks relies on |
| UpdateTool.Tool.ChoosePolicy | scripts/release_update.py:130-140 | a change is refused for the first that fails of consent, lock and revision below 2^63, otherwise raises the revision by one; a refusal changes nothing |
| UpdateTool.Tool.Examine | scripts/release_update.py:218-222 | the refusals before the preparation lock, exactly, and what a pass records |
| UpdateTool.Tool.TakeLock | scripts/release_update.py:224-239 | busy, limit, rollback or equivocation, in that order, or the lock |
| UpdateTool.Tool.TakeCandidate | scripts/release_update.py:240-254 | the candidate holds exactly the manifest's bytes, or why it does not |
| UpdateTool.Tool.Reconsider | scripts/release_update.py:257-261 | consent, trust and manifest compared once more under the policy lock |
| UpdateTool.Tool.Commit | scripts/release_update.py:262-268 | with others acting between the writes, the directory is the one the four writes alone leave |
| UpdateTool.Tool.Settle | scripts/release_update.py:224-261 | from the lock to the decision to commit; undisturbed, exactly which refusal |
| UpdateTool.Tool.Prepare | scripts/release_update.py:214-269 | success means a newer version, written out records for high-water and pending, and the artifact's bytes under their name; locks are free again; undisturbed, the answer is the first failing entry of the ordered list of all checks, a refusal writes nothing and success leaves the whole directory that the four writes make of the old one |
| ReleaseRules.VerdictIsFirstFault | scripts/release_update.py:174-204 | a manifest file is judged by the first failing entry of a list of conditions in plain numbers: size, schema, signature, bounds, validity, platform, version order, artifact, certificate and notes |
| ReleaseRules.ThumbprintIff | scripts/release_update.py:164-169 | the certificate of the trust is named by forty hexadecimal digits, small or capital |
| UpdateRules.RefusalIsFirstFault | scripts/release_update.py:214-261 | a preparation is refused exactly for the first failing entry of the list from consent to the second look at the manifest |
| UpdateRules.FourFiles | scripts/release_update.py:262-268 | the four writes set artifact and sidecar under one name and both records, and nothing else |
| UpdateRules.PendingVerdict | scripts/release_update.py:282-311 | verify_pending answers for the first failing entry of its list, and otherwise with the artifact that pending names |
| UpdatePreparation.PrepareAlone | scripts/release_update.py:214-269 | whatever no check refuses can run through, in protocol steps, to the directory of the four writes, with locks and runs as before |
| UpdatePreparation.RerunAfterDeath | scripts/release_update.py:214-269 | a run on which a commit dies behind any of its writes and the same preparation, started anew, is refused by no check and ends in the directory the commit would have left |
| UpdateLimit.PreparedReturnedIff | scripts/release_update.py:264-293 | an undisturbed preparation is returned in the circumstances in which it was prepared exactly when its canonical text, a stated sum over the fields, is within 64 KiB, as it is with few characters above U+FFFF |
| UpdateLimit.BlockedWhileTooLarge | scripts/release_update.py:282-293 | in no reachable state is anything returned while the high-water manifest's canonical text is above 64 KiB |
| UpdateLimit.PreparedButNeverReturned | scripts/release_update.py:264-293 | any update nothing refuses can be given notes with which it is prepared all the same, from a readable file, and is returned in no reachable state with its high-water mark |
| UpdateLimit.OversizedUpdate | scripts/release_update.py:264-293 | from the empty directory, under any trust, such an update and the run that prepares it are exhibited |
| UpdateTool.Tool.CheckPending | scripts/release_update.py:282-311 | the chunked check answers for the first failing entry of the list, and success means the unaltered artifact of the manifest accepted last, newer in numbers than the current version and read from a sidecar within 64 KiB |
| ManifestText.NamesInOrder | scripts/release_update.py:35-36 | the twelve names of a manifest stand in the order of `sort_keys` |
| ManifestText.SidecarReadsBack | scripts/release_update.py:264-293 | the sidecar is read back as the manifest with its surrogate pairs merged, under the same digest |
| ManifestText.SameDigestIff | scripts/release_update.py:223 | two manifests have one digest exactly when they are read back as the same manifest |
| ManifestText.DigestBinds | scripts/release_update.py:223 | equal digests mean equal manifests where the notes pair no surrogates |
| ReleaseManifest.JudgedAlike | scripts/release_update.py:174-204 | a manifest whose notes have passed is accepted or refused alike in its own file and in its sidecar |
| ManifestSize.SizeIsTextSize | scripts/release_update.py:35-36 | the size of the canonical text is the stated sum over the fields |
| ManifestSize.SidecarFits | scripts/release_update.py:198-203 | an accepted manifest with at most 2648 characters above U+FFFF in its notes has a canonical text of at most 64 KiB |
| ManifestSize.DirectTextReads | scripts/release_update.py:48-57 | a manifest whose notes are written without escapes is read as that manifest |
| ManifestSize.WideNotesDoNotFit | scripts/release_update.py:198-204 | any accepted manifest stays accepted and readable from a file of at most 64 KiB with notes that make its canonical text larger |
| ProductVersion.ParseIffFormat | scripts/release_update.py:143-146 | every triple below a million has exactly one accepted text, and no other text is accepted |
| ProductVersion.LessIsNumber | scripts/release_update.py:143-146 | versions compare as numbers of six digits a component, the major first |
| ProductVersion.NumberOfFormat | scripts/release_update.py:143-146 | the text of a triple has the number of that triple |
| CanonicalRoundTrip.TextReadsBack | scripts/release_update.py:35-54 | a document printed in either layout, compact or indented, is read back as it was where no text pairs surrogates (RFC 8259 sections 4, 6 and 7) |
| CanonicalSpelling.PrintIsSpelled | scripts/release_update.py:35-36 | what is printed is spelled as stated without the printer: brackets, commas, colons and line starts, plain decimal numbers, two-character escapes for seven characters, printable ASCII as it is, and the UTF-16 units of all else in four lower-case hexadecimal digits (RFC 8259 sections 2 to 7) |
| CanonicalSpelling.CanonicalIsSpelled | scripts/release_update.py:35-36 | so is the canonical encoding of every value |
| CanonicalSpelling.WrittenInOrder | scripts/release_update.py:35-36 | an object is written with its own fields, each once, in the code-point order of their names |
| ManifestFields.CanonicalFields | scripts/release_update.py:176-177 | the canonical text of a manifest reads as the twelve named fields, each with its own value, in order |
| CanonicalLimits.CanonicalIsAscii | scripts/release_update.py:35-36 | the encoding is ASCII, whatever the document |
| CanonicalLimits.RoundTripIffPaired | scripts/release_update.py:35-59 | reading back gives the document exactly when no key or text has a high surrogate before a low one |
| CanonicalLimits.ReadsAsMerged | scripts/release_update.py:35-54 | whatever is printed is read back as the document with its surrogate pairs merged, names, order and repetitions kept |
| CanonicalLimits.SamePrintIffSameMerge | scripts/release_update.py:35-36 | two whole documents are printed alike exactly when merging makes them equal |
| CanonicalLimits.SameCodeIffSameMerge | scripts/release_update.py:35-36 | two values are encoded alike exactly when what is written of them, names in order, merges to the same document |
| CanonicalLimits.CanonicalInjective | scripts/release_update.py:35-36 | equal encodings mean equal values, where no text pairs surrogates |
| CanonicalLimits.PairCollides | scripts/release_update.py:35-36 | two different documents with one encoding |
| CanonicalLimits.RejectedIffRepeated | scripts/release_update.py:39-54 | a printed document is rejected exactly when some object in it, at whatever depth, names a field twice once surrogate pairs are merged |
| CanonicalLimits.TakePairs | scripts/release_update.py:39-45 | the fields of one object are refused exactly when two share a name, and otherwise are exactly the dictionary |
| Base64Url.UnpackOfPack | scripts/release_update.py:149-158 | regrouping eight-bit bytes into six-bit letters is undone, for every length |
| Base64Url.DecodeIffEncode | scripts/release_update.py:149-158 | of all texts exactly the encoding is accepted for a byte string of the required size (RFC 4648 sections 3.5 and 5) |
| Base64Url.LeftoverBitsRefused | scripts/release_update.py:149-158 | non-zero trailing bits, which the plain decoder ignores, are refused |
| ProfileTree.InsideIsNesting | granger/core/BrandMigration.cpp:74-81 | the textual test is nesting of directories, component by component, regardless of case |
| ProfileTree.LastPartDecides | granger/core/BrandMigration.cpp:97-120 | for entries the walk meets, looking at all parts of the path is looking at the last |
| ProfileTree.PrunedHoldsKept | granger/core/BrandMigration.cpp:205-234 | pruning ephemeral entries at every depth leaves exactly the kept files and directories with their contents |
| ProfileNames.PassedOverIff | granger/core/BrandMigration.cpp:113-119 | a name is passed over exactly if, in any case of letters, it is the guard, LOCK or DevToolsActivePort, begins with Singleton, or ends with .lock or .tmp |
| ProfileNames.SuffixIff | granger/core/BrandMigration.cpp:118-119 | the suffix test is met exactly by a text that ends in those letters, small or capital |
| ProfileNames.NameDecides | granger/core/BrandMigration.cpp:211-232 | in a directory that is copied kind and name decide: staged, listed as skipped, refused or passed over silently |
| ProfileNames.StagedByName | granger/core/BrandMigration.cpp:194-234 | what is staged below a directory is exactly what kinds and names of entries call for, level by level |
| ProfileCopy.ImageIsUnique | granger/core/BrandMigration.cpp:194-234 | a tree has one image: two staging directories that hold it are equal |
| ProfileCopy.LinkInCacheIsNotMet | granger/core/BrandMigration.cpp:214-223 | a link that does not stop the copy |
| ProfileCopy.Stage.CopyVerifiedFile | granger/core/BrandMigration.cpp:142-192 | success means that the disk holds the source's bytes under that name and the byte count grew by their number |
| ProfileCopy.Stage.CopyEntry | granger/core/BrandMigration.cpp:211-232 | one entry adds exactly what is staged at or below it; it fails undisturbed only on a link met |
| ProfileCopy.Stage.Prune | granger/core/BrandMigration.cpp:218-221 | a topmost ephemeral entry is listed once and nothing of it staged |
| ProfileCopy.Stage.CopyLeaf | granger/core/BrandMigration.cpp:225-231 | a file is staged and counted; anything neither file nor directory is passed over |
| ProfileCopy.Stage.CopyTree | granger/core/BrandMigration.cpp:194-234 | stages exactly the kept entries below the directory, lists the topmost ephemeral ones, and fails, without I/O faults, exactly on a link met; at every level names alone, letter by letter, decide which |
| Migration.StepKeepsInv | granger/core/BrandMigration.cpp:397-500 | staging, current root, legacy profile and run stay consistent over every write, failure and crash |
| Migration.SiteIsWhole | granger/core/BrandMigration.cpp:397-500 | at every moment the current root is absent, empty or a complete verified copy with a truthful marker; an imported mark means the copy is there |
| Migration.DataNeverTouched | granger/core/BrandMigration.cpp:420-449 | data in the current root is never changed |
| Migration.ConsumedMeansIdle | granger/core/BrandMigration.cpp:419-455 | no run is ever in progress over a profile already imported |
| Migration.NeverImportedTwice | granger/core/BrandMigration.cpp:438-455 | after the import no later run copies or changes anything, even if the user deletes or replaces the current root |
| Migration.LegacyRetained | granger/core/BrandMigration.cpp:287-325 | the legacy tree differs from the original at most by its replay guard |
| Migration.GuardChangesNothingElse | granger/core/BrandMigration.cpp:287-325 | the guard alters no other entry and nothing a copy would carry |
| MigrationProgress.RerunImports | granger/core/BrandMigration.cpp:397-500 | from every state a crash can leave, a rerun can complete the import |
| MigrationProgress.ImportReachableIff | granger/core/BrandMigration.cpp:397-500 | reruns converge: from every reachable state the imported one can be reached exactly when no link is met and both markers find their place |
| Migration.Migrator.CopyProfile | granger/core/BrandMigration.cpp:472-479 | a copy that succeeds is the profile's image with a true report |
| Migration.Migrator.MarkStage | granger/core/BrandMigration.cpp:236-262 | with its marker the staged copy is a complete one; undisturbed it fails exactly when the marker's place is taken |
| Migration.Migrator.StageCopy | granger/core/BrandMigration.cpp:463-479 | the staging directory holds the image, or the run is over and the current root as it was |
| Migration.Migrator.PrepareStage | granger/core/BrandMigration.cpp:463-479 | success means a complete copy in staging and the current root as it was; undisturbed, exactly when nothing in the profile stands in the way |
| Migration.Migrator.ActivateStage | granger/core/BrandMigration.cpp:480-490 | the complete copy becomes the current root in one step, or the root stays absent |
| Migration.Migrator.Import | granger/core/BrandMigration.cpp:457-490 | success means an activated complete copy, failure an absent root |
| Migration.Migrator.WriteGuard | granger/core/BrandMigration.cpp:287-325 | on success the profile counts as imported; nothing else changes, and undisturbed it fails exactly when something other than a file is in the guard's place |
| Migration.Migrator.MigrateData | granger/core/BrandMigration.cpp:397-500 | from any two roots: the exact undisturbed outcome; data in the root untouched, the root only ever replaced by a complete copy, the legacy profile changed by its guard only; on an imported profile nothing happens |
| MigrationMeaning.CompleteIsMarkedCopy | granger/core/BrandMigration.cpp:236-262 | a finished root holds exactly what names call for, with the bytes of the legacy files, and the marker with a true report in the state directory |
| MigrationMeaning.AnswerIsFirst | granger/core/BrandMigration.cpp:397-500 | the answer of an undisturbed run is the first that applies of a list of conditions on roots, marker, guard, data and links |
| RelativePath.RelativeIff | GrangerNetwork/tools/runtime_manifest.py:44-55 | accepted are exactly the portable texts all of whose components are proper names, and the single dot |
| RelativePath.DotIsAccepted | GrangerNetwork/tools/runtime_manifest.py:44-55 | the dot is accepted although it names no place below the root |
| Text.StartsWithIsNesting | GrangerNetwork/tools/runtime_manifest.py:62-65 | a prefix test with a closing separator is proper nesting of component lists |
| RuntimeManifest.NestingOfRoots | GrangerNetwork/tools/runtime_manifest.py:62-65 | between managed roots the prefix test is nesting of places, and a nested root sorts later |
| RuntimeManifest.LaterIsEnough | GrangerNetwork/tools/runtime_manifest.py:62-65 | comparing with later roots only finds a nesting exactly when any two roots nest |
| RuntimeManifest.RootsIffApart | GrangerNetwork/tools/runtime_manifest.py:58-66 | roots are accepted exactly when there is one, none twice and no two nested |
| RuntimeCollector.Collector.Walk | GrangerNetwork/tools/runtime_manifest.py:80-106 | every regular file below a directory is recorded once; failure means a link or special file, or too many records |
| RuntimeCollector.Collector.WalkRoot | GrangerNetwork/tools/runtime_manifest.py:72-106 | one root adds its segment, or the walk shows that the index cannot fit |
| RuntimeCollector.MetSoFar | GrangerNetwork/tools/runtime_manifest.py:98-106 | no complete index is shorter than what a partial walk has recorded |
| RuntimeCollector.SortedIsOrdered | GrangerNetwork/tools/runtime_manifest.py:107 | the final sort orders the records by path and loses none |
| RuntimeCollector.CollectFiles | GrangerNetwork/tools/runtime_manifest.py:69-108 | returns the ordered index of all files below all roots; each error only for its reason |
| RuntimeManifest.CheckRecords | GrangerNetwork/tools/runtime_manifest.py:220-235 | comparing neighbours accepts exactly the strictly sorted lists of acceptable records |
| RuntimeRules.PathIff | GrangerNetwork/tools/runtime_manifest.py:43-55 | a path is accepted exactly if it is the dot or names joined by slashes, of at most 512 UTF-8 bytes, without NUL, backslash and surrogates |
| RuntimeRules.LoadsIff | GrangerNetwork/tools/runtime_manifest.py:184-242 | a manifest loads exactly if its file has at most 4194304 bytes and header, roots, records, digest and release name meet conditions stated in characters, numbers and order |
| RuntimeRules.ContentIs | GrangerNetwork/tools/runtime_manifest.py:111-118 | the digest is over the five named fields with these values and no other |
| RuntimeRules.WrittenField | GrangerNetwork/tools/runtime_manifest.py:164-172 | the file holds the eight fields under their names, each with its own value |
| RuntimeTheorems.ConcatNoDup | GrangerNetwork/tools/runtime_manifest.py:72-106 | the joined segments of all roots repeat a file exactly when two segments share one |
| RuntimeTheorems.StrictIffNoDup | GrangerNetwork/tools/runtime_manifest.py:107-108 | a collected index is strictly sorted exactly when no file was met twice |
| RuntimeTheorems.ProperFilesOk | GrangerNetwork/tools/runtime_manifest.py:218-237 | below proper roots a collected index passes the record checks exactly when all names are portable |
| RuntimeTheorems.DotSpoilsFiles | GrangerNetwork/tools/runtime_manifest.py:44-66 | with the dot among the roots no non-empty index passes |
| RuntimeTheorems.FreshAcceptedIff | GrangerNetwork/tools/runtime_manifest.py:184-242 | a freshly created document is accepted exactly when the dot was not a root, there is a file and every path is portable |
| RuntimeFile.SizeIsPrintedSize | GrangerNetwork/tools/runtime_manifest.py:164-172 | the size of the written file is a sum of constants, escaped paths and digits over records and roots |
| RuntimeLimit.FreshLoadsIff | GrangerNetwork/tools/runtime_manifest.py:128-242 | a fresh manifest, written to a file, loads exactly when moreover that size is at most 4 MiB |
| RuntimeLimit.OversizedManifest | GrangerNetwork/tools/runtime_manifest.py:181-182 | a fresh manifest that meets every other condition and does not load, for either line end |
| RuntimeLimit.PlainManifestFits | GrangerNetwork/tools/runtime_manifest.py:181-182 | with plain ASCII paths and at most two thousand roots an acceptable manifest is always within the limit |
| RuntimeLimit.WrittenReadsBack | GrangerNetwork/tools/runtime_manifest.py:164-183 | the file of an acceptable manifest is read back as the document that was written |
| RuntimeLimit.NamesInOrder | GrangerNetwork/tools/runtime_manifest.py:170 | the fields are written in the order of their names |
| RuntimeTheorems.CompareExactly | GrangerNetwork/tools/runtime_manifest.py:262-277 | exact missing, unexpected and mismatch lists, and COMPLETE exactly when both indexes agree |
| RuntimeTheorems.CompleteIffUnchanged | GrangerNetwork/tools/runtime_manifest.py:245-290 | a package passes against its own manifest exactly when below the managed roots no file was added, removed or changed in size or digest |
| RuntimeTheorems.ContentBytesBind | GrangerNetwork/tools/runtime_manifest.py:111-125 | two loadable manifests with the same hashed bytes list the same files, roots, protocol and commit |
| MarkerScan.EncodedMarkers | scripts/test-release-privacy.py:105-111 | the needles are exactly the three encodings of every marker |
| MarkerEncoding.NeedlesAre | scripts/test-release-privacy.py:105-111 | a needle is its marker character by character in UTF-8 or in either order of UTF-16, bytes given by value (RFC 3629 section 3, RFC 2781 section 2) |
| MarkerScan.Utf16Size | scripts/test-release-privacy.py:109 | a marker takes at most twice its UTF-8 bytes in UTF-16 |
| MarkerScan.SampleIsWindow | scripts/test-release-privacy.py:128-162 | carry and chunk together are one window of the file, and so is what is carried on |
| MarkerScan.Report | scripts/test-release-privacy.py:133-137 | one sample adds the indexes it shows that were not reported before |
| MarkerScan.ScanFile | scripts/test-release-privacy.py:114-163 | each index is reported once, and exactly when a needle of it lies within some window |
| MarkerScan.SeenIffNearItsLastChunk | scripts/test-release-privacy.py:128-162 | an occurrence is seen exactly when it begins no further than the overlap before the chunk of its last byte |
| MarkerScan.ShortNeedlesAreFound | scripts/test-release-privacy.py:128-162 | for every way the reads split the file, needles of up to 4097 bytes are found exactly when the file has them |
| MarkerScan.ModerateMarkersAreFound | scripts/test-release-privacy.py:105-163 | so are all three encodings of a marker of up to 2048 UTF-8 bytes |
| MarkerScan.ReadsEnd | scripts/test-release-privacy.py:129 | full reads end at multiples of the chunk size |
| MarkerScan.LongNeedleMissed | scripts/test-release-privacy.py:128-162 | for each longer needle a file that holds it and hides it from the scan |
| MarkerScan.ScanRoots | scripts/test-release-privacy.py:206-232 | the summary counts files and bytes, lists exactly the findings of the files, and is ok exactly without any |
| BridgeText.CountAroundBreak | granger/bridges/BridgeManager.cpp:437-446 | text before and behind a line break counts as two lines |
| BridgeText.TrimmedHasNoBreak | granger/bridges/BridgeManager.cpp:437-446 | input with at most one line of text has no line break left once trimmed |
| BridgeMeaning.CountLines | granger/bridges/BridgeManager.cpp:437-443 | the loop counts the lines that hold text, more than one exactly if text stands on both sides of a break |
| BridgeLine.ParseOptions | granger/bridges/BridgeManager.cpp:521-537 | the option loop gathers tokens, parameters, cert and mode as the fold over tokens does |
| BridgeLine.CertIsParameter | granger/bridges/BridgeManager.cpp:522-537 | the two values kept apart agree with the parameter table; of repeated keys the last counts |
| BridgeMeaning.ParseAddressed | granger/bridges/BridgeManager.cpp:482-567 | from the address on: host, port, fingerprint and options are those of the tokens, and a refusal is for the first failing entry of the list of conditions |
| BridgeMeaning.ParseLine | granger/bridges/BridgeManager.cpp:435-575 | gives every line the meaning that the grammar gives it: its profile piece by piece, or the first thing that is wrong |
| BridgeMeaning.LineHolds | granger/bridges/BridgeManager.cpp:435-575 | the specified parser agrees with the grammar on every line, accepted or not |
| BridgeMeaning.FactsHold | granger/bridges/BridgeManager.cpp:482-567 | address, port range, host, fingerprint, certificate, mode, URL and version are asked for in this order, and the fingerprint is the token behind the address exactly if it holds no equals sign |
| BridgeMeaning.OptionsHold | granger/bridges/BridgeManager.cpp:521-537 | options are the key=value tokens in order, and each parameter is the last value of its key |
| BridgeMeaning.OctetsIff | granger/bridges/BridgeManager.cpp:198-207 | an IPv4 address is four numbers of up to three digits and at most 255 |
| BridgeMeaning.TrimOnly | granger/bridges/BridgeManager.cpp:242 | trimming is characterised: the one piece without white space at its ends and nothing but white space around it |
| BridgeGrammar.TokensCut | granger/bridges/BridgeManager.cpp:251-260 | tokens are the longest pieces without blanks, in order |
| BridgeGrammar.SeveralLinesIff | granger/bridges/BridgeManager.cpp:437-446 | more than one line of text is text on both sides of a break |
| BridgeGrammar.StripStrips | granger/bridges/BridgeManager.cpp:240-249 | the keyword is taken off exactly when it is followed by a blank, in any case of letters |
| BridgeTheorems.TokensBehindFirst | granger/bridges/BridgeManager.cpp:251-267 | dropping the first token keeps the others |
| BridgeTheorems.LineIsOneLine | granger/bridges/BridgeManager.cpp:435-575 | a stored line has no break and no surrounding white space |
| BridgeTheorems.ReparseIff | granger/bridges/BridgeManager.cpp:435-575 | a stored line parses to the same transport, host, port, fingerprint and options exactly when its first token is not the word Bridge |
| BridgeTheorems.BridgeTokenIsLost | granger/bridges/BridgeManager.cpp:240-249 | an accepted line whose stored form means another bridge |
| BridgeTheorems.PrefixedAgain | granger/bridges/BridgeManager.cpp:240-249 | behind its keyword every stored line means the same bridge |
| BridgeTorrc.GeneratePlugins | granger/bridges/BridgeManager.cpp:344-360 | one line per plugin transport in order of first use; refused exactly when a required plugin is missing |
| BridgeTorrc.PrintProfiles | granger/bridges/BridgeManager.cpp:362-367 | one line per profile; refused exactly when a stored line is blank |
| BridgeTorrc.GenerateTorrc | granger/bridges/BridgeManager.cpp:334-370 | when a text is generated, and that it is header, plugins and bridges joined by line breaks |
| BridgeOutput.PrintableIff | granger/bridges/BridgeManager.cpp:334-370 | a text is generated exactly if there is a profile, every plugin in use is found or not required, and every stored line shows text |
| BridgeOutput.KeysAreInUse | granger/bridges/BridgeManager.cpp:344-360 | plugin transports are listed each once, in the order of their first use |
| BridgeOutput.TextHolds | granger/bridges/BridgeManager.cpp:334-390 | the text is the title, UseBridges 1, a line or a comment for each plugin in use, and each stored line behind its keyword |
| BridgeTorrc.TorrcReadsBack | granger/bridges/BridgeManager.cpp:334-370 | the bridge lines of a text generated from parsed profiles parse back, in order, to the same bridges |
| BridgeTorrc.Manager.Put | granger/bridges/BridgeManager.cpp:307-314 | a profile replaces the one with its line in place or joins at the end |
| BridgeTorrc.Manager.CreateProfile | granger/bridges/BridgeManager.cpp:304-317 | a refused line changes nothing, an accepted one is stored, lines stay distinct |
| BridgeTorrc.InsertedHolds | granger/bridges/BridgeManager.cpp:304-317 | exactly the profile of the same line is displaced |
| BridgeTorrc.InsertedIsDistinct | granger/bridges/BridgeManager.cpp:304-317 | no two stored profiles share a line |
| NavigationSafety.StepKeepsInv | granger/browser/BrowserTab.cpp:118-211 | an armed error-page timer means a pending failure of the current navigation with an address, no internal page and no download; an armed watchdog means loading; the redirect chain stays short and without immediate repeats |
| NavigationSafety.RunKeepsInv | granger/browser/BrowserTab.cpp:118-211 | so in every state that any order of events leads to |
| NavigationSafety.FollowKeepsChain | granger/browser/BrowserTab.cpp:205-209 | at most 24 entries, no two neighbours equal |
| NavigationSafety.OnlyLoadingStopsTheErrorPage | granger/browser/BrowserTab.cpp:120-130 | of the callback's six guards only the loading one can stop it; else the page appears unless the view moved on |
| NavigationSafety.LoadingCanStopIt | granger/browser/BrowserTab.cpp:120-124 | a run in which that guard is what stops it |
| NavigationSafety.PendingSince | granger/browser/BrowserTab.cpp:842-862 | a running timer goes back to one recorded failure and ran since without interruption in one navigation |
| NavigationSafety.ErrorPageIsCurrent | granger/browser/BrowserTab.cpp:118-148 | every error page the timer puts up is for a failure of the navigation that is current when it appears |
| NavigationSafety.ShownTabIsSettled | granger/browser/BrowserTab.cpp:127-148 | behind the page nothing is pending, loading or timed, and its address is the displayed and stable one |
| NavigationSafety.OnlyTheTimerShows | granger/browser/BrowserTab.cpp:118-148 | no other event shows the timer's error page |
| NavigationHistory.SameNavigationIff | granger/browser/BrowserTab.cpp:175-189 | two moments belong to one navigation exactly when no load started between them |
| NavigationHistory.DownloadAwaitedSince | granger/browser/BrowserTab.cpp:109-116 | a running download timer goes back to one failed load, for whose address it ran ever since; it belongs to the current navigation exactly when no load started after that |
| NavigationHistory.DownloadTimerOutlivesNavigation | granger/browser/BrowserTab.cpp:109-116 | a run in which the timer reports into the next navigation and takes that navigation's own download mark |
| NavigationHistory.InternalPageStays | granger/browser/BrowserTab.cpp:474-518 | an internal page stays, with no error page over it and none on the way, exactly until the next request |
| NavigationHistory.WatchedSince | granger/browser/BrowserTab.cpp:175-189 | a running watchdog goes back to the start of the current navigation, and the load has gone on ever since |
| NavigationHistory.OnlyAPageStopsTheWatchdog | granger/browser/BrowserTab.cpp:150-173 | of the watchdog's two guards only the internal page can stop it; otherwise the stalled load gives way to a settled page |
| NavigationHistory.DownloadShowsLastPage | granger/browser/BrowserTab.cpp:542-558 | when a download begins the tab shows again the page it last reached, whatever happened in between, and nothing is pending |
| NavigationHistory.DownloadSilencesFailures | granger/browser/BrowserTab.cpp:542-558 | behind the start of a download no failure is announced until a new request or the end of one failed load |
| NavigationHistory.FailedLoadEndsInErrorPage | granger/browser/BrowserTab.cpp:657-697 | a failed load that is no download ends in an error page for the failure first announced, exactly if the view has not moved |
| NavigationHistory.ServerPageIsKept | granger/browser/BrowserTab.cpp:658-671 | once the server has answered with an error, the end of that load keeps the server's page, whatever else was announced |
| NavigationHistory.ChainIsNewestVisited | granger/browser/BrowserTab.cpp:195-211 | the chain holds the newest 24 of all web addresses visited since the request |
| NavigationDisplay.FailureTimerShows | granger/browser/BrowserTab.cpp:120-150 | the failure timer ends in the page for the recorded failure exactly if that still stands and the view has not moved; otherwise nothing shows |
| NavigationDisplay.FailureShows | granger/browser/BrowserTab.cpp:676-708 | a failed load nobody reacts to ends in the page last reached if a download explains it, and otherwise in a recorded failure |
| NavigationDisplay.EndShows | granger/browser/BrowserTab.cpp:709-723 | a page that was reached shows with its address and title and becomes the one that comes back |
| NavigationDisplay.CrashShows | granger/browser/BrowserTab.cpp:864-889 | a crash of the page's process shows the crash page for the address requested, whatever the tab is doing |
| NavigationSteps.EventChanges | granger/browser/BrowserTab.cpp:109-211 | what each event may change: navigations are counted by started loads, pages leave by requests, timers and marks only as told |
| NavigationTab.BrowserTab.Shorten | granger/browser/BrowserTab.cpp:209 | removing from the front one by one leaves the newest 24 |
| NavigationTab.BrowserTab.React | granger/browser/BrowserTab.cpp:673-675 | whatever listeners call before the handler goes on |
| NavigationTab.EventLoop.Deliver | granger/browser/BrowserTab.cpp:109-211 | the life of the tab object is a run, so its state always meets the invariant, and an error page that comes up is for a failure recorded before in that very navigation |
| FlagEnvironment.Environment.EraseVariants | granger/main.cpp:275-278 | the entries left are those that are no variant of the feature, in order |
| FlagEnvironment.Environment.EraseSwitch | granger/main.cpp:279-288 | an emptied switch goes with one separating space |
| FlagEnvironment.Environment.EraseEnabled | granger/main.cpp:270-294 | the first half of the edit, by indexes |
| FlagEnvironment.Environment.AppendFlag | granger/main.cpp:252-263 | on well-formed flags a plain flag becomes the last token unless it stands within one already |
| FlagEnvironment.Environment.AppendDisabledFeature | granger/main.cpp:265-317 | a feature not disabled before becomes the last disabled one and is enabled no more; all other tokens keep their order |
| FlagEnvironment.Environment.ApplyStartup | granger/main.cpp:415-471 | the three startup functions on empty flags leave one switch with all their features and otherwise exactly their flags, in order |
| FlagTheorems.DisablingRefines | granger/main.cpp:265-317 | on well-formed flags the index edit is the edit of the token list, or nothing where the feature was disabled already |
| FlagWords.VariantIff | granger/main.cpp:277-279 | an entry is about a feature exactly if it is the feature, or goes on with < or : |
| FlagWords.FeaturesAre | granger/main.cpp:415-471 | the features that startup disables, in order |
| FlagWords.FlagsAre | granger/main.cpp:415-471 | the flags that startup adds, in order |
| FlagStartup.DisablingMeans | granger/main.cpp:265-317 | the feature is last of the disabled ones, the enabled ones lose it and its variants only, all other tokens keep their order |
| FlagStartup.SecondCallChangesNothing | granger/main.cpp:265-317 | disabling once more leaves the variable as it is |
| FlagStartup.StaysEnabledIff | granger/main.cpp:296-317 | the feature stays enabled exactly when it was both disabled and enabled before |
| FlagStartup.ContainedIff | granger/main.cpp:254-257 | the test for presence is met exactly when the text stands somewhere within a token |
| FlagStartup.FlagMeans | granger/main.cpp:252-263 | a plain flag is added as last token exactly when it stands within none; otherwise nothing changes |
| FlagStartup.PartOfTokenIsEnough | granger/main.cpp:254-257 | a flag that is taken for present and is no token |
| FlagStartup.StartupDisables | granger/main.cpp:252-317 | after any sequence of calls the disabled list has grown by exactly the named features in order |
| FlagSequence.FlagsInOrder | granger/main.cpp:252-317 | from empty flags, long flags of which none begins an earlier one are, besides the one switch, exactly the tokens, in the order of the calls |
| FlagSequence.StartupFromEmpty | granger/main.cpp:415-471 | the startup functions leave one list of their features and otherwise exactly their flags, both in order and each once |

## Left out

Whole areas:

- Cryptography: SHA-256 is an injective constructor in the renewal protocol, the update store and the
  migration, and an arbitrary function with 64 hex digits in the runtime manifest; a signature is a
  field that says which key it verifies under; Authenticode and the wire handshake are answers from
  outside.
- SSH, subprocesses, systemd activation (`_activate`), file permissions, fsync and temporary files.
- User interface, localization, HTML of internal pages, letterboxing, response headers, smoke runners.
- `_separate_roots`, authority pins and the create path of `operator_bundle.py`: plain checks on paths and
  files that the protocol does not depend on.
- `apply_after_exit` beyond `verify_pending`: it holds the preparation lock and runs the installer on
  Windows.
- Loss or editing of persisted state files by hand.

Renewal:

- Fleet.Config: one value stands for the four files of a bundle, which the signed one commits to by hash.
- Publication.StepKeepsInv: a request that repeats the installed generation ends its handler; activation of
  the running node is not modelled.
- Coordinator.Runner.CollectAndAdopt: that descriptors are signed and current, and the shortest descriptor
  life, are inputs; a fault may be raised at any observation.
- Coordinator.Runner.SignIfCalledFor: `bundle` is not read again after signing; what is signed is valid then.
- Coordinator.Runner.Verify: the final fetch through the browser's recovery path may fault but is not modelled.
- Coordinator.Runner.Deploy: a handler that is refused while another one installs the same bundle counts as
  an answer, since the node then runs it.
- RenewalTiming.NineAttemptsBeforeExpiry: attempts take no time, as the statement says.

Update store:

- UpdateStore.Store: revision 0 stands for the absent policy file; unreadable or malformed state files are not
  modelled. The other state files hold a few hundred bytes, so that only manifests can meet the size limit.
- ReleaseManifest.CheckManifest: fields have the right types, and texts other than the notes hold no lone
  surrogates, which every check refuses anyway.
- ManifestText.CanonicalText: the 64 digits of the artifact's digest are a placeholder in the text; the digest
  itself, and the key under which the signature verifies, stand beside it in what is hashed.
- UpdateTool.Tool.CheckPending: policy and trust are read twice as inputs; other writes to the directory during
  the check are excluded, as they are under the lock that `apply_after_exit` holds.
- CanonicalRoundTrip.TextReadsBack: numbers are integers, no floating point; byte-order marks and nesting depth
  of the reader are not modelled, and its size limits where the files are read (`ReleaseManifest.CheckFile`,
  `RuntimeManifest.Loads`).

Migration:

- Migration.Codec: the two JSON markers are any encoding that is read back as completed and current.
- Migration.SiteIsWhole: one migration process at a time; a crash inside the copy leaves any partial staging
  directory, and nobody removes it later.
- Migration.NeverImportedTwice: the user acts between runs, not during one.
- ProfileTree.InsideIsNesting: paths are absolute, normal and without trailing separators; case folding is that
  of ASCII letters, here and for ephemeral names.
- ProfileCopy.Stage.CopyTree: entries come in any order, names that differ only in case are different names.
- Migration.Migrator.WriteGuard: a dangling link in the guard's place counts as a link.
- Migration of settings (`QSettings`) and of registry entries.

Runtime manifest and scan:

- RuntimeCollector.CollectFiles: a link in the middle of a managed root's path counts as a missing root; of
  several faults the first met is not fixed, directories being visited in any order.
- RuntimeManifest.Loads: the parsed document with the size of its file; unreadable files and the order of errors
  are left out, and the `expected_*` comparisons of `verify_manifest` are simple equality checks.
- RuntimeLimit.PlainManifestFits: the bound is for paths of printable ASCII without quotation marks; other
  paths have the exact condition of `RuntimeLimit.FreshLoadsIff`.
- RuntimeTheorems.CompleteIffUnchanged: for two packages with names as a file system gives them; equal digests
  are equal hash values, not equal contents.
- MarkerScan.EncodedMarkers: markers are texts, which is what decoding their UTF-8 bytes gives.
- MarkerScan.ScanFile: regular-expression rules, the UTF-16 pass and the exception for one library are left out.
- MarkerScan.ScanRoots: names of private-state files and the enumeration of files are left out.

Bridges:

- BridgeLine.Parse: lower-casing, decimal numbers, IPv6 and URL validity are answers of the `Host`; text is a
  sequence of characters, not UTF-16 units; keyword and hostname patterns fold case as ASCII does.
- BridgeMeaning.ParseLine: name, address family and time of creation of a profile are left out.
- BridgeTorrc.GeneratePlugins: looking up an executable is one answer per transport, a path or an error without
  line breaks.

Tab and flags:

- NavigationState.Tab: addresses are texts; trimming, display form, scheme and download suffixes are answers of
  `Urls`; the fields are one record.
- NavigationState.Event: listeners react by public calls only; load progress and title changes are left out.
- FlagTheorems.DisablingRefines: for strings in which a switch occurs twice or inside a token only the text edit
  itself is stated.
- FlagSequence.StartupFromEmpty: flags that are set elsewhere, such as the proxy, are left out.
