# Permission manager and IPC policies: a verified model

This project models the permission manager service of the OpenHarmony lite security subsystem and its
IPC authentication component, and proves what their callers rely on.

**Permission manager.** Running tasks are kept in a linked list, one node per uid, each with its own
array of permissions. The list is a cache over one permission file per package. Loading a package fills
it, checks are answered from it, grants and revokes change it under a mutex and then rewrite the file
without the mutex. Installs and upgrades remove duplicate requests in place, merge them with the old file
and write the result. Files hold a JSON tree in which the flags are decimal text.

**IPC authentication.** A service's access policy lives in static tables. One function compiles it into
an array for the service manager; another evaluates it directly.

How the parts fit:

- `PermissionCodec`, `Decimal`: the file format as a JSON tree, its encoder and the server's decoder.
- `PmsModel`: the service on values. `Step` gives the exact outcome of every call when allocations and
  file accesses succeed.
- `FileFormat`, `Outcomes`: the file format and every call in literal terms, with keys as text, limits and
  return codes as numbers, and states field by field. They fix what the definitions above compute.
- `TaskList`, `HalModel`, `PermissionFile`, `Installer`, `Capabilities`, `Pms`: the service as it is
  written, with heap nodes, arrays, loops, the mutex, and allocations and file accesses that may fail.
  Every method is proved against `PmsModel`: its exact effect on success, what a failure may leave, and,
  on a HAL that is `reliable`, the exact return code and state. `live` is the set of allocated blocks:
  each method states which blocks it leaves allocated, and a block can only be freed while it is live.
- `FileSync`, `PackageTasks`, `Coherence`, `Store`, `TaskMap`, `Installation`: theorems about `PmsModel`
  over all calls and all runs. Coherence of cache and files is proved package by package.
- `Interleaving`, `InterleavedCoherence`, `UnlockedSyncs`, `LostUpdates`, `LoadRaces`, `InstallRaces`: the
  service as a transition system whose steps are locked memory steps, whole-file reads and whole-file
  writes, any of which may fail, and what holds in every reachable state. A call that runs uninterrupted
  is proved to be the `PmsModel` step.
- `Witnesses`: concrete runs on which the conditions of these theorems fail.
- `ClientDecoder`: the client library's own decoder of the same text.
- `IpcPolicies`, `IpcAuth`: policies, their translation and their evaluation.

Results that are not what one might expect:

- A file that stores a granted value other than 0 or 1 as a number is read as that number but written
  back as true. Coherence of a package therefore needs a file without such entries (`StorableAt`);
  `SyncMatchesIff` says exactly when a grant, revoke or flags update keeps a task matching its file, and
  `NumericGrantBreaksCoherence` gives a failing run for a grant and one for a flags update. Every file the
  service itself writes is storable (`RunKeepsGoodStore`, `InstallStores`).
- Installing, upgrading or deleting a running package does not touch its task. `InstallMatchesIff` says
  exactly when the task still matches the new file, and `RemovalNeverMatches` that it never matches after
  a delete; `InstallWhileRunning` has a run for each.
- Overlapping updates of one file never damage its shape, but a completed change can be lost.
  `BothChangesSurviveIff` says exactly when, for all orders of the reads and writes of two updates;
  `LoadedRaceMatchesIff` adds that a loaded task then keeps both grants, so cache and file disagree with no
  update pending and no access failed. `GrantLost` is such a run.
- A package that is loaded during a grant or revoke can miss it for good: `LoadRaceMatchesIff` says exactly
  when, `RevokeMissesLoad` is a run. An upgrade that overlaps a grant can take it back, or be taken back by
  it: `DecisionSurvivesInstallIff`, `UpgradeTakesGrantBack`.
- A file update or install that has read the file before a delete recreates it: `DeletedStaysDeletedIff`,
  `DeletedFileReturns`.
- Of two tasks of one package a grant, by package name or by uid, reaches one only. `TwinMatchesIff` says
  exactly when the other one still matches the file: when the permission already had that value.
  `TwinLeftBehind` has a run for each kind of grant.
- A translated policy for a bundle that does not resolve reads as uid 0, which the evaluation does not
  accept (`TranslationPreservesMeaning`, `UnresolvedBundleAdmitsZero`).
- A service set up in two tables is translated from the first only but evaluated in both;
  `StrategyMissesIff` says exactly for which uids the two paths then differ, and `SecondTableMissed` gives
  such tables.
- The interface header describes the check of a permission as answering 1 if it is granted and 0
  otherwise; the code answers -1 when the uid is not loaded or has no such permission, and whatever number a
  file stores as granted. The model follows the code. `DocumentedAnswerIff` says exactly when the answer is the documented one, and
  `NothingLoadedAnswersMinusOne` gives states where it is not.
- A short write reports an error and still removes the file, and a failed unlink makes an empty install
  report success while a delete reports the error. The theorems about calls of `PmsModel` take accesses to
  succeed; the contracts in `Pms` and the fault steps of `Interleaving` cover the rest.

## Model

| member | source | states |
|---|---|---|
| Decimal.FormatFitsBuffer | services/pms/src/pms_impl.c:259-271 | the decimal text of every 32-bit flags value has 1 to 11 characters, so it fits the 16-byte buffer and that error path is never taken |
| Decimal.AtoiOfFormat | services/pms/src/pms_impl.c:163-172 | reading the decimal text back gives the same flags for every 32-bit value, negative ones included |
| Decimal.FormatMeaning | services/pms/src/pms_impl.c:259-271 | the written text is a minus sign for negative values only, then decimal digits of the value without leading zero |
| Decimal.AtoiMeaning | services/pms/src/pms_impl.c:163-172 | reading skips white space, takes one sign and the digits up to the first other character, and gives that number reduced to 32 bits |
| FileFormat.EntryMeaning | services/pms/src/pms_impl.c:144-172 | an entry with its first "name", "desc", "isGranted" and "flags" decodes to their values in those places; error 16 for a field that is no string, 17 for 64 or more name or 128 or more description characters |
| FileFormat.EntryMissesField | services/pms/src/pms_impl.c:144-172 | a missing field is error 16, unless only "flags" is missing and a text is too long |
| FileFormat.EntryDecodesIff | services/pms/src/pms_impl.c:144-172 | exactly which nodes decode, by literal keys and limits |
| FileFormat.FileMeaning | services/pms/src/pms_impl.c:175-213 | the file is the decoded children of its first "permissions" field in order, or the error of the first bad one |
| FileFormat.FileWithoutPermissions | services/pms/src/pms_impl.c:175-190 | a file without that field has no permissions, which is no error |
| FileFormat.ClientEntryMeaning | services/pms_client/perm_client.c:236-256 | the client reads the same three fields with the same limits and errors |
| FileFormat.ClientFileMeaning | services/pms_client/perm_client.c:206-258 | the client decodes exactly an array of at most 1000 elements, and otherwise reports error 16 |
| FileFormat.EncodeMeaning | services/pms/src/pms_impl.c:232-278 | the written tree is one field "permissions" with one object per entry, of exactly the four literal keys and the entry's values |
| FileFormat.QueryMeaning | services/pms/src/pms_impl.c:288-327 | a read gives the decoded file, or error 12 for a path over 1024 bytes, 21 for a missing file, 24 for an invalid path, 16 for text that does not parse, in that order |
| PermissionCodec.ReadEntryTree | services/pms/src/pms_impl.c:144-172 | an entry with the four fields decodes to them exactly when name and description fit their buffers, and otherwise fails with the copy error |
| PermissionCodec.FirstErrorReported | services/pms/src/pms_impl.c:193-209 | decoding stops with the error of the first item that fails |
| PermissionCodec.ReadBack | services/pms/src/pms_impl.c:175-278 | writing and reading any list whose texts fit gives the same names, descriptions and flags, with granted reduced to 0 or 1 |
| PermissionCodec.RoundTrip | services/pms/src/pms_impl.c:175-278 | a list survives a write and a read if and only if all names are under 64 bytes, descriptions under 128 and granted values 0 or 1 |
| PermissionCodec.DecodedFits | services/pms/src/pms_impl.c:144-161 | whatever decodes has texts that fit, so only its granted values decide whether it survives another write |
| Installation.FirstOccurrencesNames | services/pms/src/pms_impl.c:465-481 | duplicate removal loses no name and adds none |
| Installation.FirstOccurrencesDistinct | services/pms/src/pms_impl.c:465-481 | after duplicate removal names are pairwise distinct |
| Installation.FirstOccurrencesOrder | services/pms/src/pms_impl.c:465-481 | the kept requests are the first of their name, in strictly increasing original positions |
| Installation.InheritedMeaning | services/pms/src/pms_impl.c:426-436 | the merge loop yields the default when no old entry has the name, and otherwise the granted value of the last old entry that has it |
| Installation.InheritedIsLookup | services/pms/src/pms_impl.c:426-436 | with distinct names on file the inherited value is the one every lookup by name answers with |
| Installation.DefaultGrantedMeaning | services/pms/src/pms_impl.c:426-431 | the default is 1 if and only if the first catalogue entry of the name is a system grant; 0 for a user grant and for a name not in the catalogue |
| Outcomes.FirstOccurrencesMeaning | services/pms/src/pms_impl.c:465-482 | duplicate removal keeps exactly the requests that are first of their name, in order |
| Outcomes.SaveReturns | services/pms/src/pms_impl.c:398-485 | the return code of an install or upgrade by number, in the order of the checks; a failure changes nothing and an empty request removes the file |
| Outcomes.SaveStores | services/pms/src/pms_impl.c:398-485 | the literal tree a successful install or upgrade writes: one object per first request, flags "0", granted as the last old entry of the name or, when there is none, if and only if the first catalogue entry of the name is a system grant |
| PmsModel.ValidFlagsAreZeroOrTwo | services/pms/src/pms_impl.c:280-286 | the mask test on 32 bits passes exactly flags 0 and 2 |
| Outcomes.CheckOutcome | services/pms/src/pms_impl.c:592-601 | the answer is the granted value of the first entry of that name in the first task of the uid, -1 without one, 10 for a negative uid |
| Outcomes.LoadOutcome | services/pms/src/pms_impl.c:536-582 | the return code by number, and exactly when and where the decoded list becomes a task |
| Outcomes.UnLoadOutcome | services/pms/src/pms_impl.c:584-590 | exactly the first task of the uid goes |
| Outcomes.DeleteOutcome | services/pms/src/pms_impl.c:487-508 | the file goes, present or not, unless the path is over 1024 bytes, which is error 12 |
| Outcomes.ChangedMeaning | services/pms/src/pms_impl.c:613-642 | a change sets the granted value or the flags of the first entry of that name to the value passed, and no other field of any entry |
| Outcomes.SyncMeaning | services/pms/src/pms_impl.c:603-649 | after a sync of a readable file that has something to alter, the first entry of that name reads with the value passed, all other granted values are reduced to 0 or 1, nothing else differs; with nothing to alter no file changes |
| Outcomes.FlagsOutcome | services/pms/src/pms_impl.c:603-742 | a flags update stores the flags passed, which must be 0 or 2; otherwise error 10 and no change |
| Outcomes.GrantOutcome | services/pms/src/pms_impl.c:651-689 | a grant or revoke by package sets the first entry of that name in the first task of the package, and then the file; return codes by number |
| Outcomes.GrantRuntimeOutcome | services/pms/src/pms_impl.c:691-733 | the same by uid, with error 26 when the uid is not loaded |
| FileSync.SyncReadsAsChanged | services/pms/src/pms_impl.c:603-649 | after a grant, revoke or flags sync a file whose granted values are 0 or 1 reads as the list with the first entry of that name changed, the same as if it were always written, and no other file changes |
| FileSync.SyncReadsAs | services/pms/src/pms_impl.c:603-649 | what any readable file reads as after a sync, granted values outside 0 and 1 included, and that no other file changes |
| FileSync.SyncsCommute | services/pms/src/pms_impl.c:603-649 | for every readable file, completed syncs commute unless they set the same field of the same permission, and then the later wins, up to the reduction of granted values a write makes |
| Coherence.StepKeepsPkgCoherent | services/pms/src/pms_impl.c:398-742 | every call keeps the package coherent when it is allowed as far as that package goes: at most one task, matching its file in names and granted values, and a file that survives another write. Other packages may hold anything and be called in any way |
| Coherence.MatchingTaskAnswers | services/pms/src/pms_impl.c:592-601 | a check of a uid whose task matches its file answers what the file says, for every name |
| Coherence.RunStaysPkgCoherent | services/pms/src/pms_impl.c:398-742 | after any sequence of calls that is allowed towards one package, its task matches its file and every check of its uid agrees with it, whatever the other calls are |
| Coherence.RunStaysCoherent | services/pms/src/pms_impl.c:398-742 | corollary for every package at once |
| Coherence.CoherentMeaning | services/pms/src/pms_impl.c:398-742 | coherence of every package is: one task per uid and per package, every task matching its file, and files that survive another write |
| Coherence.RunKeepsUidsUnique | services/pms/src/pms_impl.c:536-590 | uids are pairwise distinct in every state of every run; Pms.Pms.Valid has the same for the heap list under arbitrary failures |
| Coherence.ReloadedState | services/pms/src/pms_impl.c:536-590 | unloading a task that matches its file and loading its package again moves it to the front with the list read from its file |
| Coherence.ReloadIsTransparent | services/pms/src/pms_impl.c:536-601 | such a reload changes no file and no answer of any check, whatever the other tasks and files are like |
| Coherence.UnloadedUidIsGone | services/pms/src/perm_operate.c:66-96 | deleting a task removes exactly that position and later lookups of its uid fail |
| Coherence.SyncMatchesIff | services/pms/src/pms_impl.c:603-742 | a completed grant, revoke or flags update leaves a matching task matching if and only if nothing had to be written or every granted value written is 0 or 1 |
| Coherence.NumericGrantBreaksCoherence | services/pms/src/pms_impl.c:144-161 | with a numeric granted value of 2 on file, a load followed by a grant, and a load followed by a flags update, leave cache and file in disagreement |
| Coherence.TwinMatchesIff | services/pms/src/pms_impl.c:603-649 | of two tasks of one package that match its file, a sync of a grant to the one leaves the other matching if and only if the permission already had that value |
| Coherence.GrantLeavesTwinMatchingIff | services/pms/src/pms_impl.c:651-669 | a grant by package name changes the first task only; any other task of the package still matches the file if and only if nothing changed |
| Coherence.RuntimeGrantLeavesTwinMatchingIff | services/pms/src/pms_impl.c:691-733 | the same for a grant by uid, whichever of the tasks it reaches |
| Coherence.DocumentedAnswerIff | interfaces/kits/pms_interface.h:58 | the check answers 1 or 0 as documented if and only if the uid, not negative, is loaded, its task names the permission and that entry has a granted value of 0 or 1 |
| Coherence.NothingLoadedAnswersMinusOne | services/pms/src/perm_operate.c:23-39 | before anything is loaded every check answers -1 where 0 is documented |
| Store.StepKeepsGoodFile | services/pms/src/pms_impl.c:382-742 | every call keeps each single file good, whatever the other files are like |
| Store.StepKeepsGoodStore | services/pms/src/pms_impl.c:382-742 | every call keeps the store invariant |
| Store.RunKeepsGoodStore | services/pms/src/pms_impl.c:382-742 | in every run from an empty store each file decodes to a non-empty list within the HAL limit, with distinct names, texts that fit, granted 0 or 1 and flags 0 or 2 |
| Store.GoodListMeaning | services/pms/src/pms_impl.c:382-485 | what good means: 1 to the limit entries, distinct names, texts under 64 and 128 characters, granted 0 or 1, flags 0 or 2 |
| Store.StepTouchesOneFile | services/pms/src/pms_impl.c:398-742 | when file accesses succeed, a call changes no file but its package's, and none when it reports an error (a failed write may also remove the file, pms_impl.c:77-80; Pms.FileSync states that case) |
| Store.RemovedPackageLoadsNothing | services/pms/src/pms_impl.c:454-556 | when file accesses succeed, delete and an empty install are the same; afterwards the file is missing and a load succeeds without adding a task (after a failed unlink an empty install still reports success and delete reports the error) |
| Store.InstallStores | services/pms/src/pms_impl.c:398-485 | from every store, a successful install stores exactly the merge of the first occurrences with the old list, granted values reduced to 0 or 1, leaves a good file and touches no other file and no task |
| Store.InstallMeaning | services/pms/src/pms_impl.c:398-485 | from every store, that list is the first occurrences in order, with default flags and the granted value of the last old entry of that name, or, when there is none, 1 if and only if the first catalogue entry of the name is a system grant |
| Store.UpgradeKeepsGrants | services/pms/src/pms_impl.c:398-485 | over a good file of that package, or none, an upgrade keeps for each name the granted value that lookups by name answer with, and a fresh install takes it from the catalogue |
| Store.InstallMatchesIff | services/pms/src/pms_impl.c:398-485 | a successful install or upgrade of a loaded package leaves its task matching if and only if the request, duplicates removed, has the task's names in its order and each granted value is kept: the catalogue default for a fresh install, 0 or 1 for an upgrade |
| Store.RemovalNeverMatches | services/pms/src/pms_impl.c:454-508 | a successful delete, or install with an empty request, never leaves a loaded task matching |
| Store.RunLeavesDecision | services/pms/src/pms_impl.c:407-742 | a stored granted value stays through any run of upgrades that keep the name and of calls that do not decide about it, whatever they return; only that one file needs to be good, and file accesses succeed |
| Store.DecisionSurvives | services/pms/src/pms_impl.c:407-689 | a successful grant or revoke, by package or by uid, is what the file says after any such run |
| Store.UpgradeIsIdempotent | services/pms/src/pms_impl.c:398-485 | repeating an upgrade changes nothing, from every state |
| TaskMap.LookupIsMapLookup | services/pms/src/perm_operate.c:86-96 | looking a uid up in the list is looking it up in the map from uid to task |
| TaskMap.MapOfWithoutUid | services/pms/src/perm_operate.c:66-84 | deleting a task removes exactly its uid from the map |
| TaskMap.MapOfModified | services/pms/src/perm_operate.c:41-54 | modifying a task changes exactly its uid's entry |
| TaskMap.StepRefinesMap | services/pms/src/pms_impl.c:536-733 | every call acts on the list as the corresponding map update |
| TaskList.SegmentBlockCount | services/pms/src/perm_operate.c:56-84 | the list owns exactly one memory block per node and one per non-empty permission array |
| TaskList.SplitAt | services/pms/src/perm_operate.c:86-96 | the nodes before a found node form a segment disjoint from the rest |
| TaskList.Join | services/pms/src/perm_operate.c:66-84 | two disjoint segments that meet hold the concatenation of their tasks |
| TaskList.TList.PermissionIsGranted | services/pms/src/perm_operate.c:23-39 | the answer is the granted value of the first entry of that name in the uid's task, or -1 |
| TaskList.TList.ModifyPermission | services/pms/src/perm_operate.c:41-54 | in place, only the first entry of that name in that node's array changes, and the result says whether there was one |
| TaskList.TList.AddTask | services/pms/src/perm_operate.c:56-64 | the node becomes the first task and the list stays acyclic with disjoint blocks |
| TaskList.TList.DeleteTask | services/pms/src/perm_operate.c:66-84 | removes and frees exactly the first node of that uid with its array, all others stay in order |
| TaskList.TList.GetTaskWithUid | services/pms/src/perm_operate.c:86-96 | finds the node of the first task of that uid |
| TaskList.TList.GetTaskWithPkgName | services/pms/src/perm_operate.c:98-108 | finds the node of the first task of that package |
| PermissionFile.ConcatString | services/pms/src/pms_impl.c:43-66 | a new block with the concatenation, or nothing when it exceeds 1024 bytes or memory is short |
| PermissionFile.WriteString | services/pms/src/pms_impl.c:68-82 | on success the file has the new text; error 13 leaves it untouched, error 15 removed or unreadable, and no other file changes |
| PermissionFile.ReadString | services/pms/src/pms_impl.c:85-124 | the file's contents in a new block, or an error with nothing left allocated |
| PermissionFile.QueryPermissionString | services/pms/src/pms_impl.c:288-314 | the file's contents, or the error for a path too long, a missing file or an invalid path, in that order |
| PermissionFile.ParsePermissions | services/pms/src/pms_impl.c:175-213 | a new array with exactly the decoded entries, or the first error with the array freed |
| PermissionFile.QueryPermission | services/pms/src/pms_impl.c:316-327 | the decoded file, with only the returned array left allocated |
| PermissionFile.WritePermissions | services/pms/src/pms_impl.c:215-230 | the tree is on file on success; nothing stays allocated on any path |
| PermissionFile.SavePermissions | services/pms/src/pms_impl.c:232-278 | the file becomes the encoding of exactly the first permNum entries |
| Installer.RemoveDuplicates | services/pms/src/pms_impl.c:465-482 | in place, the front of the array becomes the first occurrences of the request; slots past the request keep their value, and without memory for the marks the array is unchanged |
| Installer.MarkRepetitions | services/pms/src/pms_impl.c:476-480 | flags exactly the later slots that repeat the name |
| Installer.InheritGranted | services/pms/src/pms_impl.c:426-436 | the granted value of the last old entry of that name, and when there is none 1 if and only if the first catalogue entry of the name is a system grant |
| Installer.UpdateAppPermission | services/pms/src/pms_impl.c:398-442 | writes exactly the merged list, or fails with the first applicable error and nothing left allocated |
| Pms.Pms.BlocksAreAccountedFor | services/pms/src/perm_operate.c:56-84 | in every state of the service the allocated blocks are one per task, one per non-empty permission array and the buffers lent to callers, whatever failed before |
| Pms.Pms.LoadPermissions | services/pms/src/pms_impl.c:536-582 | adds the task read from file, or changes nothing when the uid is loaded, the file is missing or anything fails; mutex released, only the list's own blocks gained |
| Pms.Pms.UnLoadPermissions | services/pms/src/pms_impl.c:584-590 | removes the uid's task and frees exactly its blocks |
| Pms.Pms.CheckPermissionStat | services/pms/src/pms_impl.c:592-601 | answers from the list and changes nothing |
| Pms.ChangeEntry | services/pms/src/pms_impl.c:613-619 | changes the first entry of that name and reports whether its field had another value |
| Pms.FileSync | services/pms/src/pms_impl.c:603-649 | the file update of grants, revokes and flags, exact on success, with nothing left allocated |
| Pms.Pms.ChangePermission | services/pms/src/pms_impl.c:651-689 | the task list always changes as specified; the file does when the sync succeeds; only that package's file can be affected |
| Pms.Pms.ChangeRuntimePermission | services/pms/src/pms_impl.c:691-733 | the same for a running task, on the file of the task's package |
| Pms.Pms.UpdatePermissionFlags | services/pms/src/pms_impl.c:735-742 | changes flags on file only, and only to valid values |
| Pms.Pms.SaveOrUpdatePermissions | services/pms/src/pms_impl.c:444-485 | stores the merged first occurrences, or reports the first applicable error; the caller's array starts with the first occurrences |
| Pms.Pms.DeletePermissions | services/pms/src/pms_impl.c:487-508 | removes the file, succeeding when there is none |
| Capabilities.CapsOfMeaning | services/pms/src/pms_impl.c:351-362 | the capability list picks, in file order, exactly the permissions that have a bound capability |
| Capabilities.CapOfMeaning | services/pms/src/pms_impl.c:351-362 | a name's capability is that of its first catalogue entry whose cap is not 0xFFFFFFFF, and none when there is no such entry |
| Capabilities.FindCap | services/pms/src/pms_impl.c:355-361 | finds exactly that capability |
| Capabilities.CollectCaps | services/pms/src/pms_impl.c:351-362 | fills the front of the array within its bounds with that list |
| Capabilities.QueryAppCapabilities | services/pms/src/pms_impl.c:329-380 | an exactly sized array with that list, never containing 0xFFFFFFFF, and no other block left allocated |
| Interleaving.UninterruptedGrant | services/pms/src/pms_impl.c:651-669 | run alone, the memory, read and write steps of a grant are the sequential call |
| Interleaving.UninterruptedRuntimeGrant | services/pms/src/pms_impl.c:691-711 | the same for a runtime grant |
| Interleaving.UninterruptedFlagsUpdate | services/pms/src/pms_impl.c:735-742 | the same for a flags update |
| Interleaving.UninterruptedLoad | services/pms/src/pms_impl.c:536-582 | the same for a load |
| Interleaving.AbortedLoad | services/pms/src/pms_impl.c:559-575 | a load that fails after its read leaves everything as it was |
| Interleaving.UninterruptedSave | services/pms/src/pms_impl.c:398-485 | the same for an install |
| Interleaving.MutexExcludes | services/pms/src/pms_impl.c:536-711 | while a load holds the mutex no load, unload or memory step of a grant is taken |
| Interleaving.UninterruptedUnLoad | services/pms/src/pms_impl.c:584-590 | an unload is one step |
| Interleaving.UninterruptedDelete | services/pms/src/pms_impl.c:487-508 | a delete is one step |
| Interleaving.FailuresAreTheServices | services/pms/src/pms_impl.c:68-82 | the damage of a failing access here is exactly what a failing write may leave in the service |
| InterleavedCoherence.NextKeepsView | services/pms/src/pms_impl.c:444-742 | every step of every call, failures included, keeps one package's invariant when the calls on that package do not overlap; steps on other packages are free |
| InterleavedCoherence.RunKeepsPkgInv | services/pms/src/pms_impl.c:444-742 | that invariant holds in every reachable state |
| InterleavedCoherence.NextKeepsLock | services/pms/src/pms_impl.c:536-733 | with no discipline, every step keeps uids unique, loads exclusive, and the uid of a load in progress free |
| InterleavedCoherence.EveryInterleavingKeepsUidsUnique | services/pms/src/pms_impl.c:536-590 | in every state of every interleaving no uid has two tasks |
| InterleavedCoherence.InterleavedCoherence | services/pms/src/pms_impl.c:651-733 | from the service's start, a package whose calls keep the discipline has at most one task in every reachable state, which, unless an update of its file has failed, matches its file or differs exactly by the one pending sync; other packages are free |
| InterleavedCoherence.ReachableIsCoherent | services/pms/src/pms_impl.c:444-742 | corollary for every package at once |
| InterleavedCoherence.AnswersRunAhead | services/pms/src/pms_impl.c:592-733 | in such a state a check answers what the file will read as once the pending sync is written |
| InterleavedCoherence.SyncRestoresMatch | services/pms/src/pms_impl.c:603-625 | a sync in progress leaves its package's task matching at its read when there is nothing to write, otherwise at its write |
| InterleavedCoherence.OthersKeepSyncing | services/pms/src/pms_impl.c:603-742 | no step of another call, failures included, disturbs a sync in progress |
| InterleavedCoherence.SyncCompletes | services/pms/src/pms_impl.c:603-649 | a sync whose accesses do not fail ends with the task matching its file, with any run of other calls before its read and between its read and its write |
| InterleavedCoherence.FailedSyncAwaits | services/pms/src/pms_impl.c:603-649 | a sync that fails without touching the file leaves the task ahead of the file by exactly the failed change |
| InterleavedCoherence.RepeatRestoresMatch | services/pms/src/pms_impl.c:603-733 | repeating the failed grant, by package or by uid, or the failed flags update restores the match |
| UnlockedSyncs.OverlappingSyncsKeepShape | services/pms/src/pms_impl.c:603-649 | however syncs of one package overlap, every readable file keeps its names and descriptions in order, and keeps valid flags, and granted values 0 or 1, if it had them |
| UnlockedSyncs.EveryInterleavingKeepsGoodStore | services/pms/src/pms_impl.c:382-742 | in every interleaving of all calls, with no discipline and any failures, every file that parses is good, and all files are good as long as no failed write leaves text that does not parse |
| UnlockedSyncs.DeletedStaysDeletedIff | services/pms/src/pms_impl.c:487-649 | a missing file stays missing through all runs that do not install the package if and only if no write to it is due |
| LostUpdates.RunShowsPlay | services/pms/src/pms_impl.c:603-649 | what any run does to a contested file depends only on the order of the reads and writes of the two syncs |
| LostUpdates.RaceOutcome | services/pms/src/pms_impl.c:603-649 | of all orders of two reads and two writes, exactly those where nothing is lost give the list with both changes; the others give the last writer's list |
| LostUpdates.BothChangesSurviveIff | services/pms/src/pms_impl.c:603-742 | the same in the running service, between any steps of other calls: both completed changes are on file if and only if one sync writes before the other reads, the last writer has nothing to write, or the other change has no effect |
| LostUpdates.BothNeededSurviveIff | services/pms/src/pms_impl.c:603-742 | when both syncs have something to write, the file has both changes if one writes before the other reads and otherwise exactly the last writer's list, which is a different one |
| LostUpdates.LoadedRaceMatchesIff | services/pms/src/pms_impl.c:603-733 | with any steps of other calls in between, a loaded task keeps both grants in every order, and matches its file at the end if and only if one sync writes before the other reads |
| LostUpdates.BothBegunByName | services/pms/src/pms_impl.c:651-733 | two grants by package that find a task first of its package, or by uid first of its uid, are the memory steps that race starts from |
| LostUpdates.BeginCommutes | services/pms/src/pms_impl.c:651-742 | a grant or flags update that begins after another call's read or write gives the same state as one that begins before it, so starting the race with both begun loses no schedule |
| LoadRaces.RunOfUpdate | services/pms/src/pms_impl.c:603-649 | what any run does to a file with one sync under way depends only on where the sync reads and writes |
| LoadRaces.LoadRaceMatchesIff | services/pms/src/pms_impl.c:536-649 | a load that overlaps a file update begun before it, with any steps of other calls in between, adds a task that matches the file at the end if and only if the update was written before the load read or makes no difference to names and granted values |
| LoadRaces.MakesNoDifferenceIff | services/pms/src/pms_impl.c:603-649 | for granted values 0 and 1 an update makes no such difference if and only if it is a flags update or the permission already has that value |
| InstallRaces.InstallRaceOutcome | services/pms/src/pms_impl.c:398-649 | what the file reads as after an install and a file update that overlap, in every order of their reads and writes after the install has its list |
| InstallRaces.DecisionSurvivesInstallIff | services/pms/src/pms_impl.c:398-689 | a grant that overlaps an upgrade which keeps the permission is on file afterwards if and only if the upgrade does not write last; if the upgrade writes between the grant's read and write, the file has the old names instead |
| InstallRaces.InstallCommutes | services/pms/src/pms_impl.c:398-649 | an install that begins after the update's read gives the same state as one that begins before it |
| InstallRaces.BeginCommutesWithInstall | services/pms/src/pms_impl.c:398-742 | an update that begins after the install has its list gives the same state as one that begins before it |
| Witnesses.InstallWhileRunning | services/pms/src/pms_impl.c:398-508 | a run with an upgrade that drops a permission, and one with a delete, after which the running task still grants it |
| Witnesses.TwinLeftBehind | services/pms/src/pms_impl.c:536-733 | a package loaded under two uids, and a grant by package and one by uid that each leave one task behind |
| Witnesses.GrantLost | services/pms/src/pms_impl.c:603-669 | a run from the service's start in which two grants complete, the task has both and the file one |
| Witnesses.DeletedFileReturns | services/pms/src/pms_impl.c:487-649 | a run in which a grant recreates a deleted file |
| Witnesses.RevokeMissesLoad | services/pms/src/pms_impl.c:536-689 | a run in which a package loaded during a revoke keeps the revoked permission |
| Witnesses.UpgradeTakesGrantBack | services/pms/src/pms_impl.c:398-669 | a run in which a completed grant is overwritten by an upgrade |
| ClientDecoder.DecodersAgree | services/pms_client/perm_client.c:206-258 | of all trees the server decodes, the client decodes exactly those whose permissions field is an array of at most 1000 entries, and reads the same names, descriptions and granted values |
| ClientDecoder.DecodersAgreeOnWritten | services/pms_client/perm_client.c:206-258 | every list the server writes from texts that fit is read alike by both if and only if it has at most 1000 entries |
| ClientDecoder.ParsePermissions | services/pms_client/perm_client.c:206-258 | a new array with the decoded entries or an error with nothing left allocated; the 32-bit size cannot overflow |
| IpcPolicies.TranslationOfOne | services/ipc_auth/src/ipc_auth_impl.c:75-104 | a translated entry accepts exactly what its policy accepts, and uid 0 besides when its bundle does not resolve |
| IpcPolicies.TranslationPreservesMeaning | services/ipc_auth/src/ipc_auth_impl.c:75-152 | the translated array accepts exactly the uids the eight slots accept, with the same exception |
| IpcPolicies.UnresolvedBundleAdmitsZero | services/ipc_auth/src/ipc_auth_impl.c:90-99 | an input on which the exception happens |
| IpcPolicies.SlotOrderDoesNotMatter | services/ipc_auth/src/ipc_auth_impl.c:243-253 | evaluation does not depend on the order of the slots, even when bundle lookups fail |
| IpcPolicies.PolicyMeaning | services/ipc_auth/src/ipc_auth_impl.c:201-241 | a policy accepts exactly: a uid in its range with both bounds, a uid in any of its eight fixed slots read as unsigned, or the uid of its bundle in builds with the application framework |
| IpcPolicies.FeatureMeaning | services/ipc_auth/src/ipc_auth_impl.c:243-253 | a feature accepts what any of its eight slots accepts |
| IpcPolicies.EachSlotAdmits | services/ipc_auth/src/ipc_auth_impl.c:201-209 | each of the eight fixed slots on its own admits its uid |
| IpcPolicies.TranslatedMeaning | services/ipc_auth/src/ipc_auth_impl.c:75-104 | the translated entry field by field, for each kind |
| IpcPolicies.TranslatedSlotsMeaning | services/ipc_auth/src/ipc_auth_impl.c:106-152 | the array has exactly one translated entry per slot that is set up, in slot order |
| IpcAuth.StrategyIsSound | services/ipc_auth/src/ipc_auth_impl.c:154-297 | for all tables, a strategy handed out accepts only uids the check accepts, up to the unresolved-bundle exception |
| IpcAuth.StrategyIsExact | services/ipc_auth/src/ipc_auth_impl.c:154-297 | when no service is in two tables it accepts exactly those uids |
| IpcAuth.NoStrategyNobodyAllowed | services/ipc_auth/src/ipc_auth_impl.c:154-297 | when a system service gets no strategy although memory is available, the check accepts nobody |
| IpcAuth.StrategyMissesIff | services/ipc_auth/src/ipc_auth_impl.c:154-297 | the check accepts a uid the strategy does not if and only if only a later table's policy for that service and feature accepts it |
| IpcAuth.SecondTableMissed | services/ipc_auth/src/ipc_auth_impl.c:154-297 | tables in which a service is set up twice, and a uid the check accepts and the strategy does not |
| IpcAuth.TableMeaning | services/ipc_auth/src/ipc_auth_impl.c:255-277 | a table accepts a uid if and only if some slot of the first such feature of its first such service does |
| IpcAuth.TableStrategyMeaning | services/ipc_auth/src/ipc_auth_impl.c:119-174 | the strategy of one table, with -3 without the service and -2 without the feature, a policy set up, or memory |
| IpcAuth.StrategyMeaning | services/ipc_auth/src/ipc_auth_impl.c:176-199 | 100 for a caller outside the listed uids; otherwise the first table that has the service decides and every failure is -2 |
| IpcAuth.IsUidValid | services/ipc_auth/src/ipc_auth_impl.c:36-44 | accepts exactly the listed system service uids |
| IpcAuth.IsUidFixed | services/ipc_auth/src/ipc_auth_impl.c:201-209 | accepts exactly the uids that equal one of the eight slots, or a negative slot plus 2 to the 32nd; unused slots count as 0 |
| IpcAuth.CheckPolicy | services/ipc_auth/src/ipc_auth_impl.c:211-241 | success exactly when the policy admits the uid, spelled out by kind; 101 for a bundle that does not resolve |
| IpcAuth.CheckFeaturePolicies | services/ipc_auth/src/ipc_auth_impl.c:243-253 | success exactly when some slot accepts the uid |
| IpcAuth.CheckSvcPolicies | services/ipc_auth/src/ipc_auth_impl.c:255-277 | success exactly when the first matching service entry's first matching feature accepts the uid |
| IpcAuth.IsCommunicationAllowed | services/ipc_auth/src/ipc_auth_impl.c:279-297 | success exactly when one of the three tables accepts the uid |
| IpcAuth.SetPolicy | services/ipc_auth/src/ipc_auth_impl.c:75-104 | fills that one output entry with the translated policy |
| IpcAuth.CountValid | services/ipc_auth/src/ipc_auth_impl.c:121-126 | the first pass counts exactly the entries the second pass fills |
| IpcAuth.SetPolicies | services/ipc_auth/src/ipc_auth_impl.c:119-152 | exactly the counted entries are filled with the valid policies in order |
| IpcAuth.SetPresetPolicies | services/ipc_auth/src/ipc_auth_impl.c:154-174 | the strategy of the first matching service entry's first matching feature, with the code's error for each way it can be missing |
| IpcAuth.GetCommunicationStrategy | services/ipc_auth/src/ipc_auth_impl.c:176-199 | the strategy of the first table that has the service, for system service uids only |

## Left out

- Text printing and parsing of JSON: cJSON is not part of this model; a file is a tree, or text that does not parse. Field names are compared exactly, and a failing cJSON allocation is one the code notices.
- Real file I/O and paths: files are a map from package identifier to contents; a short write leaves text that does not parse.
- PermissionFile.ParsePermissions: requires that the entries' total size fits a 32-bit allocation (at most 21474836 entries), because the code does not bound it; the HAL's maximum is assumed to respect the same limit.
- Decimal.Atoi: text whose number does not fit 32 bits is reduced to 32 bits; C leaves that case undefined.
- Pms.Pms.ChangeRuntimePermission: copies the package name while the mutex is held; the code reads it from the node after releasing the mutex, which differs only if the task is unloaded in between.
- Pms.Pms.ChangePermission: one method for grant and revoke, which differ in a constant; `Pms.FileSync` likewise stands for the granted and the flags sync, which differ in the field.
- Coherence.RunStaysPkgCoherent: assumes of that package that it runs under one uid, is not installed or deleted while loaded, and has a storable file; `TwinMatchesIff`, `InstallMatchesIff`, `RemovalNeverMatches` and `SyncMatchesIff` say exactly what happens otherwise.
- InterleavedCoherence.InterleavedCoherence: assumes besides that calls on that package do not overlap; `LostUpdates`, `LoadRaces` and `InstallRaces` say exactly what happens when two do.
- IpcPolicies.TransAccepts: how the receiver reads a translated entry is the service manager's code, which is not part of this model.
- InterleavedCoherence.RepeatRestoresMatch: the repeated call runs uninterrupted; other calls may be in progress meanwhile.
- Null pointer arguments and out-of-range enum arguments other than the install mode.
- The concrete policy tables, the product table and the permission catalogue: they are parameters, fixed during a run, as are the bundle manager's answers.
- Validity and restriction queries on the catalogue: a single scan each, with no state.
- Service registration, IPC marshalling, the caller checks of the proxies, the JS binding and logging.
- Leaks and freed memory in cJSON and in the IPC authentication component, which do not use the HAL's allocator.
