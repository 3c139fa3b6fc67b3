# Verified model of the CNaaS-NMS core

CNaaS-NMS configures campus switches. This project models the parts of it that many jobs
share and that have to stay consistent, and proves what they keep:

* **Live sync with commit-confirm** (`Joblock`, `SyncProtocol`, `SyncBookkeeping`, `SyncLocking`, `SyncTimers`,
  `SyncFreshness`, `SyncTheorems`, `SyncModes`, `SyncCrashes`, `SyncOutliers`). `sync_devices`, `confirm_devices` and `refresh_repo`
  jobs compete for the one `devices` row of the joblock table. The transition system has a clock,
  revert timers on the devices, device replies that can get lost, and uncaught exceptions at any point
  (`Crash`). Theorems hold for every interleaving of any number of jobs in the three confirm modes.
* **Job progress** (`JobProgress`): the Redis list, the buffer of the drain thread and the job row.
* **Settings** (`FilterYaml`, `MergeDict`, `Settings`, `SettingsInheritance`, `SettingsOrder`, `SettingsOrigins`, `SettingsFiles`,
  `SettingsErrors`, `SettingsBelow`, `SettingsExamples`, `Invalidation`, `InvalidationTheorems`, `InvalidationExact`, `InvalidationLimits`): how the
  files of a settings repository become the settings of a host, and when a device that a refresh leaves unmarked
  keeps its settings.
* **Settings checks** (`VlanCollisions`, `PrimaryGroup`).
* **Links, addresses and interfaces** (`Linknets`, `LinknetOutcome`, `LinknetRuns`, `LinknetPrediction`, `LinknetDedup`,
  `MgmtAddresses`, `MgmtTheorems`, `InterfaceDb`, `InterfaceIndex`).

Loops and updates of the source are methods and classes here; each is tied by its contract to a
function or relation on values, and the theorems are about those. `dafny verify dfyconfig.toml` checks all of it.

## Where the code does less than one would expect

Each of these is a proved statement about the model. Where a promise fails there is an input that shows it and
a theorem that says exactly when it holds.

* A distribution switch also gets the vxlans of the access switches below it. A change below
  `devices/<access switch>/` marks that switch only, so the distribution switch stays "synchronized"
  with other settings (`UnmarkedDistChanges`; `StudentsReachDist1` is one such change). The merged settings of an
  unmarked distribution switch stay as they were exactly when its own group or device files define `vxlans`, or
  every vxlan missing above is first offered below as it was before (`DistUnchangedIff`; `DistSettingsUnchangedIff` says
  the same of the settings after the schema).
* In mode 1 a confirm that comes after the deadline finds nothing pending, discards, and the host is still
  marked synchronized (`LateConfirmIsMarked`). `MarkedIsFresh` says this branch is the only way for a marked
  host not to run what was pushed, as long as it carried no timer when the job took the row. No early release
  during the last timeout is enough for that (`AloneAfterQuietTimeout`).
* When a confirm job fails on a host, or an exception handler releases the row, a timer outlives the row and
  a later job can mark a host that then rolls back (`UnconfirmedRelease`, `EarlyReleaseUndoesMark`). A mark can
  be undone exactly when a timer of another job is left on the host and leads to another configuration
  (`MarkCanBeUndoneIff`); after a confirm job, exactly when the timer of its sync job is left
  (`RollsBackAfterConfirmIff`).
* A job that ends with an uncaught exception after it took the row leaves the row in the table (`CrashLeavesRow`).
  The row is there in every later state, and no job gets it again, exactly when its job, or the confirm job it was
  handed to, ended that way; every other state can go on without an exception until the row is released
  (`RowIsStuckIff`).
* The two halves of the "same link" condition of `update_linknets` are equal, so a row with its ends swapped is
  deleted and recreated (`SwappedRowIsRecreated`, `SwappedExample`); a row survives exactly when the local device is
  its a side (`RowStaysIff`). The lookup raises exactly when the two ends lie on two links (`LookupFailsIff`,
  `LookupExample`).
* A dry run of `update_linknets` uses the position in the LLDP list as the offset into the free networks, so an
  ignored or unaddressed neighbour listed first shifts the prefixes it shows (`UnknownNeighborShifts`), and it never
  shows the prefix an existing fabric link keeps (`DryRunMissesExistingLink`). `PredictionIff` says exactly when the
  live run returns what the dry run showed, `FirstCablingIff` what that comes to without existing links.
* Committed secondary management addresses are not among the taken ones, so the next device can get the same one
  (`TwoInitsShareSecondary`); it does exactly when that address is the next free one for a search that does not
  see it (`SecondaryRepeatsIff`).
* The documented inheritance (`docs/reporef/index.rst:94-95`: global, fabric, core/dist/access, group, device) is
  not the order of the code: `global/routing.yml` and `global/vxlans.yml` are read after the fabric and type
  files, and a model specific interface file after the group files. `GlobalOverridesFabric` is a repository where
  this shows, and `DocumentedOrderIff` says for which keys it does.
* The existence of a model specific interface file is looked up under one name and the file is read under another.
  The two names are the same exactly when the model name has no white space (`ModelNamesAgreeIff`); for every model
  name that has some there is a repository in order whose settings fail to load (`ModelFileIsMissed`).
  `FileNotFoundIff` says exactly when settings fail for a missing file.
* All three group files are recorded under the origin `groups->...->base_system.yml`, so a key of a group's
  `interfaces.yml` is reported to come from a file that does not have it (`GroupInterfacesAreMisreported`). Two files
  of a host share a name exactly when both are group files (`OriginNamesFileIff`), and the reported origin tells
  which file decided a key exactly when that file is no group file (`OriginIdentifiesIff`).
* The interface index is unique exactly up to component 99 (`ReadBackIffBounded`, `OneHundredCollides`).
* Port names with colons can make two cables look like one (`ColonsConfuse`): exactly when one port is the other
  followed by a colon and the host at the far end (`SameKeyOfIff`). A list is deduplicated rightly exactly when no two
  of its cables share a joined string (`ExactIff`).
* When the job row is gone, the devices taken off the progress list are lost (`UpdateDeviceProgress`).

## Model

| member | source | states |
|---|---|---|
| Joblock.JoblockTable.AcquireLock | src/cnaas_nms/db/joblock.py:37-44 | refuses exactly when the name is taken, raises exactly when the name is free and the job id taken, otherwise adds the one row; names stay unique |
| Joblock.JoblockTable.ReleaseLock | src/cnaas_nms/db/joblock.py:47-60 | removes exactly the row found by id, else by name, and raises exactly when there is none, or when neither is given |
| SyncBookkeeping.ClassifyHosts | src/cnaas_nms/devicehandler/sync_devices.py:914-937 | the two lists hold each host with and without a diff once, and no failed host |
| SyncBookkeeping.DeviceTable.MarkAfterPush | src/cnaas_nms/devicehandler/sync_devices.py:949-967 | the loops change the synchronized flag of exactly the hosts the protocol step says |
| SyncBookkeeping.DeviceTable.MarkAfterConfirm | src/cnaas_nms/devicehandler/sync_devices.py:805-817 | confirmed hosts are marked, every other host of the confirm job is unmarked, nothing else changes |
| SyncLocking.LockStep | src/cnaas_nms/devicehandler/sync_devices.py:881-912 | every step of every job keeps the lock invariant |
| SyncLocking.MutualExclusion | src/cnaas_nms/db/git.py:89-132 | over every run at most one row exists and at most one sync, confirm or refresh job is in its critical section, under its own row or the one handed to it |
| SyncLocking.ReleasedExactlyOnce | src/cnaas_nms/devicehandler/sync_devices.py:968-976 | on paths without uncaught exception the row of a job is inserted once and deleted once, by itself or by its confirm job |
| SyncLocking.ReleaseNeverFails | src/cnaas_nms/devicehandler/sync_devices.py:1009-1034 | no release in any run meets a missing row |
| SyncCrashes.StuckForGood | src/cnaas_nms/devicehandler/sync_devices.py:881-895 | while a row has no job in its critical section it stays, and nobody takes or releases a row |
| SyncCrashes.CriticalReleases | src/cnaas_nms/devicehandler/sync_devices.py:949-1034 | whatever a job in its critical section has done so far, it can go on without any exception until its row is released |
| SyncCrashes.RowIsStuckIff | src/cnaas_nms/devicehandler/sync_devices.py:881-1034 | in every reachable state the row stays for good exactly when its job, or the confirm job it handed it to, ended with an uncaught exception; otherwise a continuation without exceptions releases it |
| SyncTimers.TimerStep | src/cnaas_nms/devicehandler/sync_devices.py:435-486 | every step keeps: a live timer belongs to a job that may still confirm it, sleeps it out or released early |
| SyncTimers.NoTimerAfterSleep | src/cnaas_nms/devicehandler/sync_devices.py:968-976 | after the sleep of the full timeout no revert timer is left on any device, whoever armed it |
| SyncFreshness.FreshStep | src/cnaas_nms/devicehandler/sync_devices.py:435-486 | every step keeps the relation between what a host runs, what the job wanted and what it ran before |
| SyncFreshness.InvFromStart | src/cnaas_nms/devicehandler/sync_devices.py:825-1036 | the three invariants hold in every reachable state |
| SyncFreshness.MarkedIsExact | src/cnaas_nms/devicehandler/sync_devices.py:949-967 | no step sets the flag for any host other than those the three marking places name |
| SyncFreshness.MarkedHasNoOwnTimer | src/cnaas_nms/devicehandler/sync_devices.py:805-817 | a host just marked by a sync or confirm job has no revert timer of that job |
| SyncTheorems.OrphanTimersComeFromEarlyReleases | src/cnaas_nms/devicehandler/sync_devices.py:779-791 | a timer without a row stems from a release in an exception handler or after a failed confirm |
| SyncTheorems.NoTimerOutlivesOwnRelease | src/cnaas_nms/devicehandler/sync_devices.py:968-1021 | when sync_devices itself releases the row after a completed run none of its commits is still pending, and after the sleep nobody's is |
| SyncTheorems.HarmlessStaysPut | src/cnaas_nms/devicehandler/sync_devices.py:435-470 | a host whose timers, if any, lead to what it runs keeps its configuration until the next commit on it |
| SyncTheorems.CanChangeIff | src/cnaas_nms/devicehandler/sync_devices.py:435-470 | without a commit on it a host can come to run something else exactly when a timer on it leads to another configuration |
| SyncTheorems.MarkCanBeUndoneIff | src/cnaas_nms/devicehandler/sync_devices.py:949-967 | after any marking step of any run a roll back is possible exactly when a timer of another job is left that leads elsewhere |
| SyncTheorems.AloneAfterQuietTimeout | src/cnaas_nms/devicehandler/sync_devices.py:881-912 | a job that takes the row when no row was released early during the last timeout finds no timer on its hosts |
| SyncTheorems.MarkedIsFresh | src/cnaas_nms/devicehandler/sync_devices.py:949-967 | a marked host that carried no timer when the row was taken cannot roll back later, and runs what was wanted exactly when its confirm was not late |
| SyncTheorems.ModeTwoRollsBack | src/cnaas_nms/devicehandler/sync_devices.py:1009-1017 | after a failed mode 2 run no timer is left when the row goes; a host that carried no timer when the row was taken is back on the configuration it had then if it can hold a commit, and keeps the new one if it confirmed on its own |
| SyncTheorems.RollsBackAfterConfirmIff | src/cnaas_nms/devicehandler/sync_devices.py:793-820 | when a confirm job lets the row go, a host can still roll back exactly when the timer of the sync job is left on it, and a confirmed host has none |
| SyncOutliers.LateConfirmIsMarked | src/cnaas_nms/devicehandler/sync_devices.py:463-467 | a reachable state where a marked host runs the old text after a late confirm |
| SyncOutliers.UnconfirmedRelease | src/cnaas_nms/devicehandler/sync_devices.py:805-820 | a reachable state with an armed timer and no row after a failed confirm |
| SyncOutliers.EarlyReleaseUndoesMark | src/cnaas_nms/devicehandler/sync_devices.py:963-967 | in a reachable state another job marks the host, and the next step, the clock reaching the deadline, rolls it back |
| SyncOutliers.CrashLeavesRow | src/cnaas_nms/devicehandler/sync_devices.py:881-912 | a reachable state where a crashed sync holds the row, which then is in every later state |
| SyncModes.NewSyncMode | src/cnaas_nms/devicehandler/sync_devices.py:379-386 | in every state a new job has the mode asked for if that is 0, 1 or 2, else the configured one if that is, else 1 |
| SyncModes.DefaultModeArms | src/cnaas_nms/devicehandler/sync_devices.py:435-470 | whatever happens after the start of a job without a valid mode of its own or in the settings, every commit of it arms a timer back to what the host ran, due after the timeout |
| SyncModes.ModeStays | src/cnaas_nms/devicehandler/sync_devices.py:379-386 | a job keeps its mode, and what it pushes, over every run |
| SyncModes.CommitArmsIff | src/cnaas_nms/devicehandler/sync_devices.py:450-452 | a commit changes the text, and arms a revert timer in every mode but 0 |
| SyncModes.CommitLeadsTo | src/cnaas_nms/devicehandler/sync_devices.py:453-470 | where the commit of a host leads: left open in mode 2 on EOS and JunOS, else confirmed in the task, and nothing to confirm in mode 0 |
| SyncModes.ConfirmInTaskLeadsTo | src/cnaas_nms/devicehandler/sync_devices.py:463-467 | the confirm in the task takes the timer of its own job, or finds none and discards |
| SyncModes.ConfirmHostLeadsTo | src/cnaas_nms/devicehandler/sync_devices.py:473-486 | the confirm job takes the timer of its sync job off EOS and JunOS devices and fails where it is gone; other devices are left alone |
| SyncModes.AsksFiveTimes | src/cnaas_nms/devicehandler/sync_devices.py:883-893 | a sync asks for the row five times and then raises, a refresh asks once |
| SyncModes.InsertTakesIff | src/cnaas_nms/db/joblock.py:37-44 | an insert succeeds exactly when neither the name nor the job id is in the table; otherwise the job ends with the exception of the constraint |
| SyncModes.AfterPush | src/cnaas_nms/devicehandler/sync_devices.py:968-976 | where a job goes after the push: mode 2 keeps the row, mode 1 keeps it for the timeout if a host failed, and the row goes at once in every other case |
| SyncModes.AfterSettled | src/cnaas_nms/devicehandler/sync_devices.py:1009-1034 | mode 2: a failed host means waiting for the timers, no change means release, and otherwise a confirm job for exactly the changed hosts |
| SyncModes.WaitEndsIff | src/cnaas_nms/devicehandler/sync_devices.py:1031-1034 | a sync job goes on exactly when its confirm job has ended, well or not |
| SyncModes.MarkedIff | src/cnaas_nms/devicehandler/sync_devices.py:949-967 | which hosts each step of a run marks, by mode and by what became of the host |
| SyncModes.UnconfirmedIsUnmarked | src/cnaas_nms/devicehandler/sync_devices.py:805-817 | a host of the confirm job ends up marked exactly when it was confirmed |
| SyncModes.EarlyIff | src/cnaas_nms/devicehandler/sync_devices.py:779-791 | what counts as an early release: an exception handler, or a confirm job that did not confirm every host |
| SyncCrashes.CrashStrands | src/cnaas_nms/devicehandler/sync_devices.py:881-1034 | a worker can die in the middle of any job that works under a row, and then the row stays in every later state and no job gets one |
| JobProgress.StepKeepsInv | src/cnaas_nms/scheduler/wrapper.py:26-45 | each push, pop and write conserves the devices in row, buffer and list together |
| JobProgress.ProgressIsConserved | src/cnaas_nms/scheduler/wrapper.py:69-97 | in every run nothing is lost or doubled, and when the thread has ended the row holds exactly what was pushed |
| JobProgress.RowOnlyGrows | src/cnaas_nms/scheduler/wrapper.py:33-39 | what the job row once shows stays, in its order |
| JobProgress.ThreadEnds | src/cnaas_nms/scheduler/wrapper.py:42-45 | after the stop event the thread always has a step and a bounded number of them |
| JobProgress.PassMovesList | src/cnaas_nms/scheduler/wrapper.py:26-39 | a pass nobody interferes with moves the list, head first, to the end of the row |
| JobProgress.ProgressStore.UpdateDeviceProgress | src/cnaas_nms/scheduler/wrapper.py:26-39 | one pass moves the whole list to the end of the row; it raises exactly when there is something to move and no row, and the list is then lost |
| FilterYaml.FilterYamldata | src/cnaas_nms/db/settings.py:463-524 | raises exactly on a selector above the cut-off that is neither empty nor a list, otherwise returns the filtered data |
| FilterYaml.FilterList | src/cnaas_nms/db/settings.py:479-485 | the loop over a list keeps the filtered items that are not empty, in order, or raises with the first that does |
| FilterYaml.FilterDict | src/cnaas_nms/db/settings.py:486-522 | the loop over a dictionary keeps empty values and selectors, filters the rest, and drops it when selectors are there and none matches |
| FilterYaml.FilterIsClean | src/cnaas_nms/db/settings.py:499-522 | no dictionary above the cut-off keeps selectors that all fail to match |
| FilterYaml.FixedIffClean | src/cnaas_nms/db/settings.py:463-524 | exactly the clean data passes unaltered |
| FilterYaml.FilterIsIdempotent | src/cnaas_nms/db/settings.py:463-524 | filtering twice is filtering once, at every depth |
| FilterYaml.FilterShrinks | src/cnaas_nms/db/settings.py:463-524 | the result is a sub-structure of the data |
| FilterYaml.MoreGroupsKeepMore | src/cnaas_nms/db/settings.py:503-505 | with more groups the result has every item it had with fewer |
| FilterYaml.ItemsKept | src/cnaas_nms/db/settings.py:479-485 | a strictly increasing index map takes the filtered list onto exactly the items whose own filtered form is not empty: each is kept as often as it occurs, in order, and nothing else is there |
| FilterYaml.DictStaysIff | src/cnaas_nms/db/settings.py:493-522 | a dictionary stays exactly when it has neither groups nor devices, or one of its groups is among those given, or its devices name the host |
| FilterYaml.ValueKeptIff | src/cnaas_nms/db/settings.py:493-518 | inside it selectors and empty values are kept as they are, and any other value in its filtered form unless that is empty |
| FilterYaml.FilterReaches | src/cnaas_nms/db/settings.py:463-485 | the filter works alike inside any number of dictionaries up to the cut-off |
| FilterYaml.RaisesIff | src/cnaas_nms/db/settings.py:497-515 | the filter raises exactly when a path above the cut-off leads to groups or devices that are neither empty nor a list |
| MergeDict.MergeDictOrigin | src/cnaas_nms/tools/mergedict.py:6-22 | fails exactly when an inherited key has no origin, otherwise the override wins and every key names its layer |
| MergeDict.Fold | src/cnaas_nms/db/settings.py:564-571 | folding layers keeps the keys of data and origin equal |
| MergeDict.LastLayerWins | src/cnaas_nms/tools/mergedict.py:11-21 | the last layer that defines a key gives its value and its origin |
| Settings.ReadSettings | src/cnaas_nms/db/settings.py:424-460 | a successful read leaves every key with an origin, so the lookup of the previous origin never fails |
| Settings.ReadAllIsFold | src/cnaas_nms/db/settings.py:574-687 | reading files one after another is folding what each of them contributes |
| Settings.LastFileWins | src/cnaas_nms/db/settings.py:548-687 | the last file read that defines a key gives its value and is its origin |
| Settings.GetDownstreamDependencies | src/cnaas_nms/db/settings.py:527-545 | adds what each access switch below hands over in turn, existing vxlans first, and stops at the first failure |
| Settings.AddVxlans | src/cnaas_nms/db/settings.py:542-544 | existing vxlans win over those of a downstream switch, and it fails only when there is something to add and no dictionary to add to |
| SettingsInheritance.SettingComesFrom | src/cnaas_nms/db/settings.py:548-707 | the name under which the last file that defines a key was read is its reported origin, and that file gives the value handed to the schema, except that downstream switches add to vxlans from above (InvalidationExact.VxlanComesFrom) |
| SettingsInheritance.DownstreamAddsVxlans | src/cnaas_nms/db/settings.py:527-545 | downstream switches change neither the origins nor any other key |
| SettingsInheritance.DocumentedOrderIff | docs/reporef/index.rst:94-95 | the file of the highest documented level decides a key exactly when no late global file meets a fabric or type file for it and no model file meets a group file |
| SettingsExamples.GlobalOverridesFabric | src/cnaas_nms/db/settings.py:583-613 | a repository where a domain name of the fabric loses to the one of global/routing.yml, against the documented order, whatever the schema as long as it accepts the name |
| SettingsInheritance.ReadIffProvided | src/cnaas_nms/db/settings.py:574-687 | exactly the files the layout provides for the host are read |
| SettingsOrder.ReadInOrder | src/cnaas_nms/db/settings.py:574-687 | every file is read in its own place of the order: global base, fabric, type, global routing and vxlans, group, device or model |
| SettingsOrder.ModelFileIsRead | src/cnaas_nms/db/settings.py:668-687 | a distribution or core switch with a model, no directory of its own and the model file there under the sanitized name reads it as the last of its files |
| SettingsExamples.CoreReadsModelFile | src/cnaas_nms/db/settings.py:668-687 | the core switch core1 of model DCS-7050 takes its interfaces from core/interfaces_dcs-7050.yml, whatever the schema as long as it accepts them |
| SettingsOrder.NamedAndFiltered | src/cnaas_nms/db/settings.py:574-687 | under which name each file is recorded, and for which groups and host it is filtered |
| SettingsOrder.FilteredUpToHundred | src/cnaas_nms/db/settings.py:463-478 | data for other groups is dropped from a filtered file inside up to 99 dictionaries, and comes through inside a hundred |
| SettingsOrder.DefaultsRemain | src/cnaas_nms/db/settings.py:564-571 | a key no file defines is there exactly if it is one of the six defaults, with its empty value and the origin default |
| SettingsOrder.NothingFromBelow | src/cnaas_nms/db/settings.py:527-533 | a device that is no distribution switch takes nothing from its neighbours |
| SettingsOrder.BelowInOrder | src/cnaas_nms/db/settings.py:533-540 | the switches asked are exactly the access switches among the neighbours, in their order |
| SettingsBelow.VxlanFromBelowIff | src/cnaas_nms/db/settings.py:527-545 | a distribution switch without vxlans files of its own has a vxlan of the levels above as it is there, and any other exactly as the first access neighbour has it whose own settings have that name |
| SettingsErrors.LayoutErrorIff | src/cnaas_nms/db/settings.py:110-148 | settings fail for the layout exactly when one of the eight files, the two directories, or a file of a device or group of the settings is missing |
| SettingsErrors.FileErrorIff | src/cnaas_nms/db/settings.py:424-460 | when the file is missing, when the schema or the filter refuses it, and when all of it is for others: which error a single file gives, and no other |
| SettingsErrors.SchemaDecides | src/cnaas_nms/db/settings.py:698-707 | in a repository in order the settings fail as merging does, else as the schema decides over the merged dictionary, with the origins as merged |
| SettingsInheritance.GlobalFilesAreFiltered | src/cnaas_nms/db/settings.py:577-613 | a global file contributes nothing that selects only other groups or hosts |
| SettingsOrigins.OriginNamesFileIff | src/cnaas_nms/db/settings.py:574-687 | two of the files of a host are recorded under one name exactly when both are group files |
| SettingsOrigins.OriginIdentifiesIff | src/cnaas_nms/db/settings.py:622-643 | the reported origin of a setting tells the file that decided it exactly when that is no group file |
| SettingsOrigins.GroupOrigin | src/cnaas_nms/db/settings.py:622-643 | a setting of a group is always reported under the base_system.yml of the group |
| SettingsExamples.GroupInterfacesAreMisreported | src/cnaas_nms/db/settings.py:629-636 | a repository where interfaces given in the interfaces.yml of a group are reported to come from its empty base_system.yml |
| SettingsFiles.ReadAllLoadsIff | src/cnaas_nms/db/settings.py:424-460 | a list of files loads exactly when each is there and passes its own checks, whatever was merged before |
| SettingsFiles.FileNotFoundIff | src/cnaas_nms/db/settings.py:668-687 | in a verified layout settings fail for a missing file exactly when all that is read before loads and the model file is there under the sanitized and not under the lower-cased name |
| SettingsFiles.ModelNamesAgreeIff | src/cnaas_nms/db/settings.py:102-107 | the two names of a model file are the same exactly when the model name has no white space |
| SettingsFiles.SpacelessModelIsFound | src/cnaas_nms/db/settings.py:668-687 | without white space in the model name settings never fail for a missing file |
| SettingsExamples.ModelFileIsMissed | src/cnaas_nms/db/settings.py:668-687 | for every model name with white space a repository in order on which loading fails for a missing file |
| SettingsExamples.NamesOfDcs | src/cnaas_nms/db/settings.py:102-107 | for "DCS 7050" the names are dcs_7050 and "dcs 7050" |
| Invalidation.SettingsSyncstatus | src/cnaas_nms/db/git.py:365-410 | the early return and the growing sets give the types and hosts concerned by any changed file, in any order |
| Invalidation.RelevantMarks | src/cnaas_nms/db/git.py:374-404 | a change to any file or directory a host can read marks its type or the host |
| Invalidation.TypeMarkedIff | src/cnaas_nms/db/git.py:374-385 | a type is marked exactly when a changed path is global, in its own directory, or in fabric for distribution and core |
| Invalidation.HostMarkedIff | src/cnaas_nms/db/git.py:386-404 | a host is marked on its own exactly when nothing global changed and a path of its directory, or of that of its primary group, did |
| Invalidation.MarkedIffRelevant | src/cnaas_nms/db/git.py:365-410 | a valid host is marked, by type or by name, exactly when a changed path is one it can read |
| Invalidation.ReadsUnchanged | src/cnaas_nms/db/settings.py:574-687 | an unmarked host reads the same files with the same content before and after |
| InvalidationTheorems.InvalidationSound | src/cnaas_nms/db/git.py:365-410 | an unmarked access or core device has the same settings before and after; so has a distribution switch if each access switch below is unmarked too or gets its vxlans from global files alone (DistSettingsUnchangedIff has the exact condition) |
| InvalidationTheorems.UnscopedContribution | src/cnaas_nms/db/settings.py:540-544 | an access switch without scoped vxlans hands on the same vxlans although its own settings may change |
| InvalidationTheorems.FilesExist | src/cnaas_nms/db/settings.py:110-148 | a verified layout has every group and device file a host reads, except for the model file under its other name |
| InvalidationExact.DistUnchangedIff | src/cnaas_nms/db/settings.py:527-545 | the merged settings of an unmarked distribution switch stay exactly when a file of its own defines the vxlans, or every vxlan missing above is first offered below as before |
| InvalidationExact.DistSettingsUnchangedIff | src/cnaas_nms/db/settings.py:224-264 | the same holds for the settings after the schema, if the schema returns each vxlan on its own and what it returned once unaltered |
| InvalidationExact.AddAllSameIff | src/cnaas_nms/db/settings.py:540-544 | two lists of switches add the same exactly when they first offer the same for every name missing above |
| InvalidationExact.VxlanComesFrom | src/cnaas_nms/db/settings.py:540-544 | a vxlan of a distribution switch without vxlans files of its own is the one from above, else the first one offered below |
| InvalidationExact.NewNameBelowChanges | src/cnaas_nms/db/settings.py:224-264 | a vxlan name that is new below changes the settings also after the schema has filled in its defaults |
| InvalidationExact.SameBeforeSchema | src/cnaas_nms/db/settings.py:688-707 | the same merged settings give the same settings |
| InvalidationLimits.UnmarkedDistChanges | src/cnaas_nms/db/git.py:386-390 | giving an access switch its first vxlans marks it alone and changes the settings of the distribution switch above, for every schema under which the two load |
| InvalidationLimits.TwoSwitchesArePair | src/cnaas_nms/db/settings.py:811-840 | a repository and a device table with the built-in primary group to which this applies |
| InvalidationLimits.StudentsReachDist1 | src/cnaas_nms/db/settings.py:527-545 | there a vxlan in the file of acc1 marks acc1 only while dist1 loads before and after with other settings, for every schema that keeps vxlan names and accepts this vxlan as given and as returned |
| VlanCollisions.CheckVlanCollisions | src/cnaas_nms/db/settings.py:323-390 | accepts exactly the collision-free configurations; otherwise raises at the first vxlan that breaks a rule, for the first rule it breaks |
| VlanCollisions.CheckVxlan | src/cnaas_nms/db/settings.py:339-390 | one vxlan is accepted exactly when it fits with all before it, and refused for the first rule it breaks; the accumulators describe those before |
| VlanCollisions.CheckVni | src/cnaas_nms/db/settings.py:341-349 | a VNI belongs to one vxlan name |
| VlanCollisions.CheckVlanId | src/cnaas_nms/db/settings.py:351-374 | VLAN ids: one name when unique, "management" on management VLANs, once per device, outside the internal range |
| VlanCollisions.CheckVlanName | src/cnaas_nms/db/settings.py:376-390 | VLAN names are used once per access switch |
| VlanCollisions.VerdictIgnoresOrder | src/cnaas_nms/db/settings.py:336-339 | the verdict does not depend on the order of devices or vxlans, and dropping some keeps it |
| VlanCollisions.AcceptedIff | src/cnaas_nms/db/settings.py:323-390 | the five rules over the settings themselves: one name per VNI, one name per VLAN id when unique, ids once per device, outside low to high of the internal range, and names once per access switch |
| PrimaryGroup.CheckGroupPriorityCollisions | src/cnaas_nms/db/settings.py:393-415 | raises exactly when two named groups share a priority other than zero, naming the first such pair |
| PrimaryGroup.GetGroupsPriorities | src/cnaas_nms/db/settings.py:786-808 | each name has the priority of its last group that counts, and no other name is there |
| PrimaryGroup.GetGroups | src/cnaas_nms/db/settings.py:736-754 | the names of the matching groups in file order |
| PrimaryGroup.MemberIff | src/cnaas_nms/db/settings.py:744-753 | a name is listed exactly when a group of that name matches the host |
| PrimaryGroup.MembersInOrder | src/cnaas_nms/db/settings.py:744-754 | a strictly increasing index map takes the names onto exactly the named groups whose regex matches, or all named ones without a host |
| PrimaryGroup.FindPrimaryGroup | src/cnaas_nms/db/settings.py:822-827 | the first group of the sorted list that the host is in, or DEFAULT |
| PrimaryGroup.PrimaryGroupOf | src/cnaas_nms/db/settings.py:811-840 | for any order a descending sort may give: the unique matching group of greatest non-zero priority, or DEFAULT |
| Linknets.FindFreeInfraLinknet | src/cnaas_nms/devicehandler/underlay.py:55-74 | the offset counts free /31 networks from the first one |
| Linknets.FreeIsExact | src/cnaas_nms/devicehandler/underlay.py:66-74 | the free networks are exactly the unused ones of the pool, ascending |
| Linknets.LinknetTable.CreateLinknet | src/cnaas_nms/db/linknet.py:110-172 | creates the row or raises for a wrong device type or a broken unique constraint |
| Linknets.LinknetTable.UpdateLinknets | src/cnaas_nms/devicehandler/update.py:214-372 | the loop with its deletes, inserts and early exceptions is the fold of its turns |
| Linknets.CreateKeepsValid | src/cnaas_nms/db/linknet.py:155-172 | a new row keeps endpoints and networks unique and never breaks a constraint |
| Linknets.StepKeepsValid | src/cnaas_nms/devicehandler/update.py:287-360 | both commits of a loop turn, the delete and the insert, keep endpoints and networks unique |
| Linknets.LookupFailsIff | src/cnaas_nms/devicehandler/update.py:289-298 | the lookup raises exactly when the two ends are in use by two different links |
| Linknets.UpdateKeepsValid | src/cnaas_nms/devicehandler/update.py:254-372 | a whole run keeps them unique, also when it ends with an exception |
| LinknetOutcome.OthersAreSkipped | src/cnaas_nms/devicehandler/update.py:254-285 | neighbours that are unknown, or in another state and not the MLAG peer, are passed over; a failing interface check raises before anything is changed |
| LinknetOutcome.StoredRowIsKept | src/cnaas_nms/devicehandler/update.py:299-331 | a link stored with the local device as its a side is returned as it is by a live run |
| LinknetOutcome.RowIsWritten | src/cnaas_nms/devicehandler/update.py:332-372 | otherwise the one row at either end goes, and the new row has the least free network exactly when local and remote type are each core or distribution and one is free; ValueError exactly when one was found and the stored type is neither |
| LinknetOutcome.CreatedRow | src/cnaas_nms/db/linknet.py:110-172 | the same of create_linknet on any table, where the constraints refuse a row that begins or ends as another does |
| LinknetOutcome.TurnLasts | src/cnaas_nms/devicehandler/update.py:254-372 | what a turn of a live run returned for a neighbour is its row at the end of the run |
| LinknetOutcome.DryTurnShows | src/cnaas_nms/devicehandler/update.py:338-371 | a dry turn shows the free network at the position of the neighbour, for core and distribution devices only |
| LinknetOutcome.DistToCore | src/cnaas_nms/devicehandler/update.py:338-345 | a distribution device with a new core neighbour gets the first /31 of the pool |
| LinknetRuns.SecondRunIsIdle | src/cnaas_nms/devicehandler/update.py:299-331 | a second live run with the same LLDP data leaves the table, ids and prefixes included, and returns the same list |
| LinknetRuns.RunSettlesAll | src/cnaas_nms/devicehandler/update.py:254-372 | after a live run every accepted neighbour has its row, the only one at its two ends |
| LinknetRuns.RunLeavesOthers | src/cnaas_nms/devicehandler/update.py:287-336 | rows no accepted neighbour touches come out as they were, also after an exception |
| LinknetRuns.SwappedRowIsRecreated | src/cnaas_nms/devicehandler/update.py:301-336 | a row with swapped ends is deleted and gets a new id |
| LinknetRuns.RowStaysIff | src/cnaas_nms/devicehandler/update.py:301-336 | the row found for a neighbour survives a live run exactly when the local device is its a side with the same ends |
| LinknetRuns.SwappedExample | src/cnaas_nms/devicehandler/update.py:301-336 | a table with one swapped row and the row that replaces it |
| LinknetRuns.LookupExample | src/cnaas_nms/devicehandler/update.py:289-298 | a valid table with two links at the two ends of a cable now seen |
| LinknetRuns.DryRunIsFresh | src/cnaas_nms/devicehandler/update.py:342-344 | a dry run changes nothing and shows unused, pairwise distinct prefixes |
| LinknetPrediction.DryRunReturnsIff | src/cnaas_nms/devicehandler/update.py:254-298 | a dry run raises nothing exactly when every accepted neighbour has a checked interface and one existing link at most |
| LinknetPrediction.PredictionIff | src/cnaas_nms/devicehandler/update.py:338-372 | over any valid table both runs return, and the same list, exactly when every link kept has no network and none is shown for it, and every new fabric link takes the network of its own position with none freed before that, or no network is left at all |
| LinknetPrediction.FirstCablingIff | src/cnaas_nms/devicehandler/update.py:342-344 | without existing links the lists are the same exactly when each accepted fabric neighbour has as many of its kind before it as neighbours of any kind, or at least as many as there are free networks |
| LinknetPrediction.UnknownNeighborShifts | src/cnaas_nms/devicehandler/update.py:254-260 | an unknown neighbour listed first makes the dry run show the second free network where the live run takes the first |
| LinknetRuns.DryRunMissesExistingLink | src/cnaas_nms/devicehandler/update.py:299-331 | for an existing fabric link a dry run never shows the prefix the live run keeps |
| LinknetDedup.DeduplicateLinknetDicts | src/cnaas_nms/db/linknet.py:79-107 | exactly the first link of every cable, in order, if and only if no two of these share a joined string; always what comparing the joined strings leaves |
| LinknetDedup.ExactIff | src/cnaas_nms/db/linknet.py:86-105 | comparing joined strings keeps the first link of every cable if and only if no two of these share one |
| LinknetDedup.SafeNamesAreExact | src/cnaas_nms/db/linknet.py:86-102 | they share none when no host has a colon and no port embeds a host of the list |
| LinknetDedup.SameKeyOfIff | src/cnaas_nms/db/linknet.py:86-102 | links between hosts without colons have the same joined string exactly when their ends are the same or one a port goes on with a colon and the host at the other's far end |
| LinknetDedup.SameKeyIffSameCable | src/cnaas_nms/db/linknet.py:86-102 | the joined strings tell cables apart, in either direction, when no port embeds a host |
| LinknetDedup.ColonFreePortsAreSafe | src/cnaas_nms/db/linknet.py:86-102 | ports without colons embed no host |
| LinknetDedup.OneOfEach | src/cnaas_nms/db/linknet.py:79-107 | every cable of the list has exactly one link in the result |
| LinknetDedup.DeduplicatingTwice | src/cnaas_nms/db/linknet.py:79-107 | removing duplicates is idempotent |
| LinknetDedup.ColonsConfuse | src/cnaas_nms/db/linknet.py:86-102 | between valid host names two different cables can be taken for one, and the second is lost |
| MgmtAddresses.HostsAreUsable | src/cnaas_nms/db/mgmtdomain.py:117-118 | candidates are the usable addresses: both of a /31 (RFC 3021 section 2.1), else not the lowest, nor the IPv4 broadcast address |
| MgmtAddresses.PickIsLeast | src/cnaas_nms/db/mgmtdomain.py:100-132 | the pick is the least untaken address past the reserved ones, and none exactly when all are taken or there is no network |
| MgmtAddresses.AddressTable.CleanReservations | src/cnaas_nms/db/reservedip.py:36-51 | removes exactly the rows of the device and the expired ones |
| MgmtAddresses.AddressTable.Reserve | src/cnaas_nms/devicehandler/init_device.py:518-543 | reserves the primary and in a dual-stack domain the secondary address, or only cleans |
| MgmtAddresses.AddressTable.FindFreeMgmtLoIp | src/cnaas_nms/devicehandler/underlay.py:29-52 | the least address of the loopback network that is neither used nor reserved |
| MgmtAddresses.AddressTable.FindFreeInfraIp | src/cnaas_nms/devicehandler/underlay.py:12-26 | the least address of the loopback network no device has as infra_ip |
| MgmtAddresses.AddressTable.ReserveFabric | src/cnaas_nms/devicehandler/init_device.py:730-740 | reserves the management address and takes the infrastructure address of a fabric device |
| MgmtAddresses.AddressTable.CommitToDevice | src/cnaas_nms/devicehandler/init_device.py:612-620 | the pick becomes the address of the device and its reservations go |
| MgmtAddresses.AddressTable.RollBack | src/cnaas_nms/devicehandler/init_device.py:601-610 | the reservations go and nothing else changes |
| MgmtTheorems.StepKeepsInv | src/cnaas_nms/devicehandler/init_device.py:518-620 | every step keeps addresses, reservations and picks of different devices apart |
| MgmtTheorems.OneHolder | src/cnaas_nms/db/mgmtdomain.py:100-132 | in every reachable state a primary address has one holder, counting devices, reservations and running jobs |
| MgmtTheorems.InfraAddressesDiffer | src/cnaas_nms/devicehandler/underlay.py:12-26 | in every reachable state no two devices have the same infrastructure address |
| MgmtTheorems.StepLeavesOthers | src/cnaas_nms/db/reservedip.py:36-51 | a step for one device leaves the addresses and picks of all others, and of their reservations only those older than a day go |
| MgmtTheorems.ReserveGives | src/cnaas_nms/devicehandler/init_device.py:518-543 | what the device is left with when an address, two, or none can be reserved |
| MgmtTheorems.ReserveFabricGives | src/cnaas_nms/devicehandler/init_device.py:730-740 | the same for a fabric device: the least free loopback address, and the least free infrastructure address or none |
| MgmtTheorems.EndGives | src/cnaas_nms/devicehandler/init_device.py:601-620 | what commit, roll back, an abandoned job and a deleted device leave of addresses, reservations and picks |
| MgmtTheorems.SecondaryRepeatsIff | src/cnaas_nms/db/mgmtdomain.py:100-132 | in any state the secondary address picked is one another device already has exactly when it is the next address that is neither reserved nor anybody's primary one |
| MgmtTheorems.TwoInitsShareSecondary | src/cnaas_nms/db/mgmtdomain.py:123-132 | two devices initialized in turn in 10.0.0.0/24 and fd00::/64 get different primary addresses and the same secondary one |
| InterfaceDb.InterfaceTable.UpdateInterfacedbWorker | src/cnaas_nms/devicehandler/update.py:28-109 | the table afterwards and the returned list, for every combination of replace and delete_all |
| InterfaceDb.SecondRunIsIdle | src/cnaas_nms/devicehandler/update.py:66-109 | running again changes nothing, and without replace writes nothing |
| InterfaceDb.WrittenIff | src/cnaas_nms/devicehandler/update.py:77-92 | the returned list has exactly the written rows as they are in the table afterwards |
| InterfaceDb.RowAfterwards | src/cnaas_nms/devicehandler/update.py:66-109 | the row of any interface name after a run: uplink, else MLAG, else access with the data it had, when written; as it was when not; gone when it vanished and is neither uplink nor MLAG |
| InterfaceDb.WrittenInOrder | src/cnaas_nms/devicehandler/update.py:66-92 | the written rows are listed in the order of the interfaces, each once |
| InterfaceDb.ProtectedRowsOutlive | src/cnaas_nms/devicehandler/update.py:94-107 | uplink and MLAG rows of a vanished interface survive any number of runs |
| InterfaceIndex.InterfaceIndexNum | src/cnaas_nms/db/interface.py:62-90 | raises exactly when the name does not match, else going through the groups backwards gives the base 100 value of the components that are there |
| InterfaceIndex.NamesAreMatched | src/cnaas_nms/db/interface.py:76-81 | letters followed by one to four numbers with slashes between them match, and the groups are those numbers |
| InterfaceIndex.MatchedIff | src/cnaas_nms/db/interface.py:76-81 | the exact language: letters and dashes, then one to four numbers, each with a slash after it or not |
| InterfaceIndex.NamesAreOrdered | src/cnaas_nms/db/interface.py:62-90 | for such names with numbers up to 99 the index is the same exactly when the numbers are, and orders them |
| InterfaceIndex.IndexOrders | src/cnaas_nms/db/interface.py:62-90 | with components up to 99 the index orders shorter names first, then by component, and tells any two apart |
| InterfaceIndex.ReadBackIffBounded | src/cnaas_nms/db/interface.py:82-90 | the components can be read back from the index exactly when all are at most 99 |
| InterfaceIndex.OneHundredCollides | src/cnaas_nms/db/interface.py:62-90 | Ethernet100 and Ethernet0/0 have the same index |

## Assumptions

* Sync: a revert timer belongs to the configure session of one job; a confirm without anything pending raises on
  EOS and JunOS and does nothing elsewhere; the timeout is positive. A device keeps the timers of several jobs side
  by side, and a later commit leaves the earlier ones armed; this matters only after an early release, because
  otherwise no job meets the timer of another (`AloneAfterQuietTimeout`). The query and the insert of `acquire_lock`
  are separate steps, and the unique constraints decide a race between them. Marks are part of the transaction
  that ends with the release. A timeout in `wait_for_job_completion` is an uncaught exception. The exception
  handler of `confirm_devices` releases the row and then fails on an unassigned variable, as written. Nobody
  deletes lock rows by hand or aborts a scheduled confirm job.
* Settings: the changed set names every path that differs. Renames that git lists only under the new name, paths with
  spaces and a fresh clone (an empty set) are outside of it. Group membership, group names and primary groups are
  given as functions of `groups.yml` (`MarkedIffRelevant` takes no group to have an empty name); the schema check is a
  function of the merged dictionary that treats the `vxlans` key on its own (`NewNameBelowChanges` also takes it to
  keep the vxlan names, and `DistSettingsUnchangedIff` to return each vxlan on its own and unaltered the second time,
  as `model_dump` does). White space and letter case in model names are those of ASCII. The neighbours of a device
  come in a fixed order.
* Addresses: choosing and reserving is one step, one initialization runs per device, and no reservation of a
  running initialization is a day old. Addresses given by hand are not modelled.
* Links: the stored networks are /31 networks of the pool's grid or not addressed; a /31 stands for its two host
  addresses. In the theorems about two runs (`LinknetRuns`, `LinknetPrediction`) no two neighbours are listed under
  one interface or lead to the same remote port, and none is the device itself.
* Interfaces: a name does not end in a newline, which the `$` of the regular expression would let pass.
* Progress: devices are pushed before the job function returns, and one thread drains the list.

## Left out

- Nornir, NAPALM, Jinja and certificates: devices only commit, confirm, revert or fail.
- SQLAlchemy, PostgreSQL, Redis, APScheduler and uwsgi: only table contents, constraints, commit points and list operations are kept; cache lifetimes are ignored.
- Dry-run syncs: they do not take the row and are not part of the locking and freshness claims.
- Config hashes, `post_sync_update_cofighash`, change scores, auto-push, sync events and websocket events.
- Git operations, template repositories and `template_syncstatus`.
- YAML details: floats, keys that are not strings and the order of dictionary keys.
- `get_settings` without a hostname or without a device type.
- Pydantic schemas, regular expressions and host name rules are parameters.
- Flask endpoints, authentication, plugins, DHCP hooks, firmware upgrades and migrations.
- Hand-picked prefixes and addresses, `clear_locks`, and interface edits during a sync.
- InterfaceDb.InterfaceTable.UpdateInterfacedbWorker: does not model how the uplinks and the MLAG links are found; they are given, as are the physical interface names.
- PrimaryGroup.PrimaryGroupOf: the built-in sort is any order it may return, not an algorithm.
