# A verified model of XenCert's storage code

XenCert certifies storage for XenServer. Three parts of it keep state that has to stay right
whatever fails and whoever else is running, and they are what this project is about.

**Locks, reference counts and LVM volumes** (`src/XenCert/sm/lock.py`, `lvutil.py`).
A lock file is a kernel write lock with a re-entrant count on top; a reference count is a pair of
numbers in a file; a volume is switched on with the first reference and off with the last.
`FileLocks` has the lock protocol as a transition system of any number of processes and
`LockClasses` the classes that update their fields. `Activation` says what one whole call of
`activate` or `deactivate` does to the count and the volume of one reference, `ActivationProtocol`
takes the calls apart into single system calls and LVM commands of any number of processes, and
`ActivationProofs` and `ActivationTheorems` show that every interleaving amounts to whole calls one
after the other; `ActivationWitness` is a run in which things go wrong, `OuterContext` what a lock
context around a call does, `StaleCaches` what callers can see to so that nothing goes wrong, and
`SharedFiles` what becomes of references that share a count file. `Endings` says how a deactivation
ends, from what its process finds and is answered; `Outcomes` that every call in every run ends like
that, `Completions` that it can always end well, and `Directories` which directories are there. `CacheActivation` has the same
two calls as methods of one process.
`RefCounting` is the tree of count files, `LvmCache` the cache with its two indexes of tags.

**The metadata table** (`src/XenCert/sm/srmetadata.py`, `metadata.py`).
The table is text on a block device: a header sector with the length, the SR's own sectors, then
one slot of 1024 bytes for each VDI. `XmlText`, `SlotCodec` and `SrHeader` are the text formats and
their readers, `Dicts` Python's ordered dictionaries, `SlotTable` what the device reads as,
`LiveView` the map from uuid to record it stands for, `TableOps` the writes of each operation,
`TableTheorems` what each of them does to the map wherever it is cut off, `TableRuns` whole runs,
`SlotCuts` what is read of a record that does not fit its slot, `SlotGrowth` how records get longer,
`TableLimits` exactly when add, update and delete work and when the table is lost, `SpaceCheck` when
the dummy of the space check fits, `FailingInputs` and `LostTables` inputs and runs at which the
conditions below do not hold.
`TableScan`, `BlockRanges` and `MetadataHandler` are the handler itself, loops and writes on an
array.

**The disk pattern tester** (`src/diskdatatest/fdpattern.c`, `atomicio.c`) is `DiskPattern`: the
writer and the verifier with their global counters, on a device that is an array of slices.

Smaller modules: `ZeroOut` (zeroing a range of a disk), `Utf8` (cutting text at a number of bytes),
`FreeSpace` (how large a VDI fits), `MultipathConfig` (a parser), `LunRefresh` (bringing the LUNs on
a bus up to date), `Checkpoints` (what the tests count and report).

What commands answer, what a read or write call moves, when time is up and what another process
does next are parameters, so the theorems hold for all of them.

## What the proofs found

Where the code departs from what it is evidently meant to do, the model keeps the code and a
theorem says exactly when it meets the intention.

1. *Counted does not always mean switched on.* A `deactivate` of a reference that is not counted and
   whose volume is off, with a cache that says the volume is there, closed and on, takes a count
   **back** when LVM refuses to switch the volume off, so the reference ends up counted with its
   volume off. `Endings.DeactivateIsSafeExactly` says that this is the only way a call can
   lose it, in terms of what is known before the call; `ActivationTheorems.AlwaysSafeExactly` that
   it is the only way in any run; `StaleCaches.NobodyMisledNothingLost` that no run loses it in which
   nobody begins such a call; `ActivationWitness.CountedButOffIsReachable` is a run that does.
2. A failed `activate` leaves nothing counted, so it removes a binary reference that was there
   before (`Activation.FailedActivateRestoresExactly`, `Activation.FailedIsUncounted`).
3. A call inside an outer `LvmLockContext` can block for ever
   (`OuterContext.OuterContextDeadlocks`); calls without one cannot (`ActivationTheorems.NoDeadlock`).
4. `LVMCache.remove` shortens the list it walks over and `rename` leaves the tag index alone; the
   indexes stay in step exactly for at most one tag, and for none (`LvmCache.Cache.Remove`,
   which also says what is left behind, `LvmCache.Cache.Rename`); `create` exactly when the name
   had no tags (`LvmCache.Cache.Create`).
5. References that differ only in characters that are replaced share a count file but not a lock
   (`RefCounting.SharedFileExactly`), and can lose an update (`SharedFiles.SharedFileLosesUpdate`);
   references with files of their own cannot (`SharedFiles.ApartCallsAreAtomic`).
6. A VDI added into the slot of a deleted one inherits every tag it does not set itself
   (`TableTheorems.AddedRecordIsGivenExactly`, `FailingInputs.LocationIsInherited`). Adding a uuid
   that is live already is not noticed (`TableTheorems.UniqueAfterAddExactly`).
7. Long names are cut after they have been escaped. What is read back is the characters in front
   of the cut, unless the cut is inside an escaped character: then the slot, and with it the whole
   table, is unreadable (`SlotCodec.NamesReadExactly`, `FailingInputs.AmpersandsAreUnreadable`).
8. The place of a slot is written into its record when the record is updated or deleted, and
   nothing looks whether a record fits its slot. One that does not is cut when it is read, so it
   cannot be read, and with it the whole table (`SlotCuts.SlotReadsExactly`,
   `TableLimits.UnreadableIsLost`). Add, update and delete report no error then; when this happens,
   and that they do what they are meant to otherwise, is exact (`TableLimits.AddWorksExactly`,
   `UpdateWorksExactly`, `DeleteWorksExactly`, and in numbers `DeleteWorksInRunsExactly`). A record
   that just fits when it is added is lost with the table when it is deleted, unless it is the last
   (`LostTables.FullRecordCannotGo`). The space check can destroy a table in the same way, with a
   dummy that does not fit over what is left in a dead slot (`SpaceCheck.SpaceCheckLosesExactly`,
   `LostTables.CrowdedSlotCannotBeChecked`).
9. `getBlockAlignedRange` promises room for `length` bytes at `offset` and does not always have it
   (`BlockRanges.RangeHasRoomExactly`, `FailingInputs.NoRoomInRange`). Slots are aligned, so nothing
   comes of it here.
10. The free space that is reported can be too large. With `room` for the size less 8,527,872 bytes,
    it is not exactly when `room` is below 1,048,705 times 2,101,248, a little over 2 TiB, or below
    1,049,729 times that and within 512 bytes under, or two over, a multiple of 2,101,248
    (`FreeSpace.ReportIsEnoughExactly`).
11. The result of the NFS control path test is that of the last version of NFS; failures with the
    others only show in the count (`Checkpoints.NfsControlPathStressTests`).
12. `addVdi` leaves the dictionary it is given with its names escaped, unless a dead slot is reused
    or there is no markup in them, so using it for an update escapes them twice
    (`TableTheorems.AddLeavesNamesExactly`).
13. `spaceAvailableForVdis` ignores the number it is asked about and tries one VDI.

## Model

| member | source | states |
|---|---|---|
| FileLocks.ReleaseUndoesAcquire | src/XenCert/sm/lock.py:1114-1157 | a granted acquire followed by one release gives back the kernel's table, the count and the flag as they were, at any depth; an acquire is granted exactly when no other process has the lock |
| FileLocks.StepKeepsInv | src/XenCert/sm/lock.py:874-901 | every step of every process keeps: held exactly when the count is at least one, exactly when the kernel has the process as owner |
| FileLocks.MutualExclusion | src/XenCert/sm/lock.py:924-943 | after any run of any number of processes a lock has at most one holder, the kernel agrees, and held means counted |
| FileLocks.NestedLockSurvives | src/XenCert/sm/lock.py:1114-1157 | no step of any process takes a nested lock away before its depth is back at zero, and the count is the depth |
| FileLocks.OnlyOutermostReleaseFrees | src/XenCert/sm/lock.py:1147-1157 | the next step frees the lock in the kernel exactly when it brings the depth to zero |
| FileLocks.OppositeOrdersDeadlock | src/XenCert/sm/lock.py:1114-1125 | two processes that take two locks in opposite orders can both wait for ever |
| LockClasses.WriteLock.Trylock | src/XenCert/sm/lock.py:880-892 | the kernel's table and the flag change as the kernel's rule says, and the answer is whether they did |
| LockClasses.WriteLock.Lock | src/XenCert/sm/lock.py:874-878 | the blocking form: granted exactly when nobody else has the lock, otherwise nothing has changed |
| LockClasses.WriteLock.Unlock | src/XenCert/sm/lock.py:898-901 | the kernel drops the lock only if this process has it |
| LockClasses.WriteLock.Test | src/XenCert/sm/lock.py:903-912 | the process that holds the lock, if any does |
| LockClasses.LockImplementation.Acquire | src/XenCert/sm/lock.py:1114-1125 | the method does to table, flag and count what the function of the transition system says |
| LockClasses.LockImplementation.AcquireNoblock | src/XenCert/sm/lock.py:1127-1141 | the same, answering false instead of blocking |
| LockClasses.LockImplementation.Release | src/XenCert/sm/lock.py:1147-1157 | the same for release |
| LockClasses.LockImplementation.Close | src/XenCert/sm/lock.py:1092-1101 | however deep the lock was held, it is free afterwards if this process had it |
| LockClasses.LvmLockContext.Enter | src/XenCert/sm/lvutil.py:124-129 | a read-only command takes no lock; any other takes it once more |
| LockClasses.LvmLockContext.Exit | src/XenCert/sm/lvutil.py:131-133 | gives back exactly what Enter took |
| LockClasses.NestedContexts | src/XenCert/sm/lvutil.py:110-133 | an inner context does not give the lock up; the outer exit leaves everything as it was |
| LockClasses.LockRegistry.New | src/XenCert/sm/lock.py:933-943 | the registered instance, made on the first call for the file that the name and the namespace say, with no other entry touched; refused for the names the assertions refuse |
| LockClasses.LockRegistry.OneInstancePerFile | src/XenCert/sm/lock.py:933-966 | two different keys of the registry never stand for the same lock file |
| RefCounting.SharedFileExactly | src/XenCert/sm/lock.py:151-160 | two objects of a namespace share a count file exactly when they differ only in underscores and replaced characters |
| RefCounting.GetThenPut | src/XenCert/sm/lock.py:40-57 | a put undoes a get, file and all, except for a second binary get; other objects are left alone |
| RefCounting.RefCounter.WriteCount | src/XenCert/sm/lock.py:224-236 | writes the file, or answers false exactly when its directory is missing |
| RefCounting.RefCounter.RemoveObject | src/XenCert/sm/lock.py:172-192 | the file goes, the directory with its last file, and the tree stays tidy |
| RefCounting.RefCounter.Store | src/XenCert/sm/lock.py:137-147 | the retry loop ends, the object has the new pair, and a file exists exactly for a pair that is not zero |
| RefCounting.RefCounter.Check | src/XenCert/sm/lock.py:69-73 | the stored pair, zero when there is no file |
| RefCounting.RefCounter.AdjustCount | src/XenCert/sm/lock.py:101-126 | the clamped sum is stored and its total returned; the binary count stays zero or one |
| RefCounting.RefCounter.GetRef | src/XenCert/sm/lock.py:40-47 | one more of its kind, and the new total |
| RefCounting.RefCounter.PutRef | src/XenCert/sm/lock.py:49-57 | one less of its kind, never below zero, and the new total |
| RefCounting.RefCounter.SetCounts | src/XenCert/sm/lock.py:59-67 | refuses a binary count above one and then changes nothing |
| RefCounting.RefCounter.ResetNamespace | src/XenCert/sm/lock.py:194-209 | every file of the namespace and its directory are gone, every other file is as it was |
| Activation.EventKeepsSafeExactly | src/XenCert/sm/lock.py:643-698 | a call keeps "counted means switched on" exactly when it is not a reverted deactivation of an uncounted reference whose volume is off |
| Activation.DeactivateAlwaysSafeExactly | src/XenCert/sm/lock.py:658-698 | a deactivation is safe whatever the cache says and LVM answers exactly when the reference is counted or its volume is on beforehand |
| Activation.HistorySafeExactly | src/XenCert/sm/lock.py:643-698 | every point of a history is safe exactly when no such deactivation is in it |
| Activation.StaleDeactivateBreaksSafety | src/XenCert/sm/lock.py:685-694 | the history of three calls after which the count is one and the volume off |
| Activation.FailedActivateRestoresExactly | src/XenCert/sm/lock.py:647-653 | put undoes get after a failure, except for the only binary reference |
| Activation.RevertedDeactivateRestoresExactly | src/XenCert/sm/lock.py:662-694 | get undoes put after a failure exactly when there was something to give up |
| Activation.CountIsBalance | src/XenCert/sm/lock.py:101-126 | the normal count is what was taken minus what was given up, over any history that never gives up what was not taken |
| Activation.FailedIsUncounted | src/XenCert/sm/lock.py:647-653 | after a failed activation nothing is counted |
| Activation.BinaryIsLastWord | src/XenCert/sm/lock.py:101-126 | over any history the binary count only remembers the last call about the binary reference, or the start when there was none |
| ActivationProofs.OneInSection | src/XenCert/sm/lock.py:644-655 | two processes inside the section of the same reference are the same process |
| ActivationTheorems.StepKeepsInv | src/XenCert/sm/lock.py:643-698 | every system call or LVM command of every process keeps the invariant that ties count files, directories, volumes, locks and half-done calls to the finished calls |
| ActivationTheorems.RunKeepsInv | src/XenCert/sm/lock.py:643-698 | so does every run |
| ActivationTheorems.CallsAreAtomic | src/XenCert/sm/lock.py:101-192 | whenever a reference's lock is free, its file and its volume are exactly what its finished calls make of them one after the other, while others make and remove the directory |
| ActivationTheorems.LogIsPossible | src/XenCert/sm/lock.py:643-698 | the finished calls of a reference are a history the code can have, in every reachable state |
| ActivationTheorems.AlwaysSafeExactly | src/XenCert/sm/lock.py:643-698 | counted has meant switched on after each finished call of any run exactly when none was a reverted deactivation of an uncounted reference with its volume off |
| ActivationTheorems.CountedMeansActive | src/XenCert/sm/lock.py:643-698 | a counted reference whose lock is free has its volume on, whatever failed before, but for that one case; the binary count is zero or one |
| ActivationTheorems.NoUpdateIsLost | src/XenCert/sm/lock.py:101-126 | the stored count is the number of references taken minus those given up, over all processes |
| ActivationTheorems.SectionsExclude | src/XenCert/sm/lock.py:643-698 | two processes are never in the section of one reference, and nobody reads a half-written count file |
| ActivationTheorems.LvmOwnerRuns | src/XenCert/sm/lvutil.py:206-209 | the owner of the LVM lock is running a command, not waiting for anything |
| ActivationTheorems.RefOwnerInSection | src/XenCert/sm/lock.py:644-655 | the owner of a reference's lock is inside that reference's section |
| ActivationTheorems.NoDeadlock | src/XenCert/sm/lock.py:643-698 | while any call is under way, some process with a call under way can move on whatever LVM answers |
| ActivationWitness.CountedButOffIsReachable | src/XenCert/sm/lock.py:657-698 | for any two processes and any reference there is a run after which the reference is counted, its lock free, and its volume off |
| Outcomes.StepHeeds | src/XenCert/sm/lock.py:643-698 | every step of a process keeps it on the way that what it has been told leads to |
| Outcomes.CallsEndAsTold | src/XenCert/sm/lock.py:643-711 | in any run each call finds the counts that the finished calls left, ends as these, its cache and the answers it has had say, and leaves a cache that is as it was told, with the flag of the volume it has switched |
| Completions.LastReferenceCanGo | src/XenCert/sm/lock.py:657-698 | from every reachable state a process whose locks are free can by itself give up the last reference and switch the volume off, if its cache knows the volume, whatever it says of it, after any number of failed commands |
| Completions.FirstReferenceCanCome | src/XenCert/sm/lock.py:643-655 | and take the first one and switch the volume on |
| Directories.DirectoriesAreNeeded | src/XenCert/sm/lock.py:137-192 | in every reachable state a count file has its directory, and a directory has a count file unless a call is just making or removing one |
| OuterContext.StepIsOwn | src/XenCert/sm/lock.py:643-698 | a step of one process takes no lock away from another and moves no other |
| OuterContext.InsideWaits | src/XenCert/sm/lvutil.py:124-133 | inside an outer context the lock of the volume manager is taken again and given back once, and is still held when the call asks for its reference |
| OuterContext.CrossedForEver | src/XenCert/sm/lock.py:643-698 | a process that holds that lock and waits for a reference, and one that holds the reference and waits for that lock, stay so over every run of any processes |
| OuterContext.OuterContextDeadlocks | src/XenCert/sm/lvutil.py:110-133 | for any two processes and any reference there is a reachable state from which a call inside an outer context leads to that |
| StaleCaches.StepKeepsAware | src/XenCert/sm/lock.py:657-698 | every step of every process that does not begin a misled deactivation keeps: no deactivation of an uncounted reference whose volume is off is going to take a count, and none has |
| StaleCaches.NobodyMisledNothingLost | src/XenCert/sm/lock.py:657-698 | in a run in which nobody begins to deactivate an uncounted reference, its volume off, with a cache that says it is there, closed and on, a counted reference always has its volume on |
| SharedFiles.StepIsKeyed | src/XenCert/sm/lock.py:151-160 | for references whose files differ each step on the files as they are named is the step on a file for each reference |
| SharedFiles.ApartCallsAreAtomic | src/XenCert/sm/lock.py:101-192 | so whenever the lock of one of them is free, its file and its volume are what its finished calls make of them |
| SharedFiles.SharedFileLosesUpdate | src/XenCert/sm/lock.py:151-160 | for any two references that share a file there is a run in which two processes each count themselves as the first, and the file says one |
| CacheActivation.Volumes.SwitchOn | src/XenCert/sm/lvutil.py:141-161 | lvchange is run again exactly while it fails with a retryable error, at most ten times; the volume is on afterwards exactly when it was, or a command has succeeded or left it on |
| CacheActivation.Volumes.SwitchOff | src/XenCert/sm/lvutil.py:322-338 | gives up only after ten failed commands, and then the volume is as it was |
| Endings.EndsExactly | src/XenCert/sm/lock.py:657-698 | which counts, which cache and which answers of lvs and lvchange make a deactivation end in which way: given up for good exactly when the volume is known to be closed and lvchange succeeds, taken back exactly when it is known to be closed and on, lvchange fails and lvs still lists it |
| Endings.DeactivateIsSafeExactly | src/XenCert/sm/lock.py:657-698 | a deactivation is safe whatever lvs, telling the truth, and lvchange answer exactly when the reference is counted, or its volume is on, or the cache does not say that the volume is there, closed and on |
| CacheActivation.Activator.Activate | src/XenCert/sm/lock.py:643-704 | the method is one atomic activation for its reference, the one the last lvchange decides, leaves all others alone, and gives the lock back; the cache then says on for a volume that has been switched on, and is otherwise as it was; a KeyError exactly for a volume that came on and is not in the cache |
| CacheActivation.Activator.Ready | src/XenCert/sm/lock.py:665-684 | one refresh exactly when the cache says open, and ready exactly for a volume that is then known and closed |
| CacheActivation.Activator.Finish | src/XenCert/sm/lock.py:685-711 | what a switched-off, a refused and a vanished volume do to the count and to the cache, and which of them it is |
| CacheActivation.Activator.Deactivate | src/XenCert/sm/lock.py:657-711 | the method is one atomic deactivation for its reference, the one the cache, the two lists and the last lvchange decide, leaves all others alone, and gives the lock back; the cache is as it was, as lvs has listed it last, or with the volume off that has been switched off |
| LvmCache.AddingAgrees | src/XenCert/sm/lock.py:797-802 | tagging a volume keeps the indexes in step, for every tag and volume with multiplicities |
| LvmCache.RemovingAgrees | src/XenCert/sm/lock.py:804-806 | so does removing a tag it has |
| LvmCache.OverwritingAgreesExactly | src/XenCert/sm/lock.py:609-616 | giving a name a new entry keeps them in step exactly when the old entry had no tags |
| LvmCache.RenamingAgreesExactly | src/XenCert/sm/lock.py:627-633 | renaming keeps them in step exactly for a volume without tags |
| LvmCache.DroppingAgreesExactly | src/XenCert/sm/lock.py:619-624 | dropping an entry keeps them in step exactly when it has no tags left |
| LvmCache.HiddenIsTagged | src/XenCert/sm/lock.py:777-785 | with the indexes in step a volume is hidden exactly when it is listed under the hidden tag |
| LvmCache.Cache.AddTag | src/XenCert/sm/lock.py:797-802 | both indexes get the entry, and stay in step |
| LvmCache.Cache.RemoveTag | src/XenCert/sm/lock.py:804-806 | both indexes lose the first entry, and stay in step |
| LvmCache.LoadedAre | src/XenCert/sm/lock.py:587-602 | the lines of lvs as a map: a volume for each name, with the size, the tags, and whether it is active, open and readonly as the last line of that name says |
| LvmCache.Cache.Refresh | src/XenCert/sm/lock.py:574-603 | the cache is exactly what lvs lists, field by field, and in step whatever it was before; a failed command changes nothing |
| LvmCache.Cache.Create | src/XenCert/sm/lock.py:609-616 | the new entry, and in step afterwards exactly when the overwritten one had no tags |
| LvmCache.Cache.SweepTags | src/XenCert/sm/lock.py:622-623 | the loop leaves exactly the tags at odd positions, half of them rounded down |
| LvmCache.Cache.Remove | src/XenCert/sm/lock.py:619-624 | the volume stays listed under exactly those, every other volume is in step, and all is in step exactly for at most one tag |
| LvmCache.Cache.Rename | src/XenCert/sm/lock.py:627-633 | the entry moves, and in step afterwards exactly for no tags |
| LvmCache.Cache.SetHidden | src/XenCert/sm/lock.py:717-724 | both indexes change together, and a volume that is not hidden cannot be shown |
| LvmCache.Cache.GetHidden | src/XenCert/sm/lock.py:777-778 | whether the volume has the hidden tag |
| LvmCache.Cache.GetTagged | src/XenCert/sm/lock.py:781-785 | each volume as often as it has the tag |
| XmlText.EscapeRoundTrip | src/XenCert/sm/srmetadata.py:537-540 | what has been escaped means the original text |
| XmlText.MarkupIsEscaped | src/XenCert/sm/srmetadata.py:537-540 | the three characters that are escaped and what they become; all others stay |
| XmlText.EscapedHasNoMarkup | src/XenCert/sm/srmetadata.py:537-540 | escaped text has no angle brackets |
| XmlText.CutReadsExactly | src/XenCert/sm/srmetadata.py:541-565 | escaped text that has been cut can be read exactly when the cut is between two characters, and then means those before it |
| XmlText.TrimmedReads | src/XenCert/sm/metadata.py:61-68 | text without blanks at its ends is read as it is meant |
| XmlText.ElementParses | src/XenCert/sm/metadata.py:48-80 | an element with an XML name is read back, with its text stripped, exactly when its text is character data and not blank |
| SlotCodec.FirstSectorText | src/XenCert/sm/srmetadata.py:52-58 | the first sector, character by character |
| SlotCodec.FirstSectorIsOneSector | src/XenCert/sm/srmetadata.py:52-60 | with the limit of 445 and the cut to half of it the first sector is 512 characters for names of any length |
| SlotCodec.LimitIsRoom | src/XenCert/sm/srmetadata.py:59-60 | names are cut exactly when they do not fit the first sector |
| SlotCodec.NamesWrittenExactly | src/XenCert/sm/srmetadata.py:541-565 | names that fit the first sector are written whole; of names that do not, each is written up to half of the room |
| SlotCodec.SlotLengthExactly | src/XenCert/sm/srmetadata.py:529-584 | the text for a slot is 1024 characters exactly when the second sector holds its tags |
| SlotCodec.ElementsParse | src/XenCert/sm/metadata.py:48-80 | a run of plain elements is read back in order, one tag each |
| SlotCodec.FirstSectorParses | src/XenCert/sm/srmetadata.py:383-391 | the first sector is read as its two names, exactly when both can be, whatever is behind it |
| SlotCodec.TwoSectorsParse | src/XenCert/sm/srmetadata.py:383-391 | two generated sectors are read back exactly when both names can be, padding and all |
| SlotCodec.ShownReads | src/XenCert/sm/srmetadata.py:537-565 | what is written of a name is read exactly when it is not cut inside a character, and then as what is left of the name |
| SlotCodec.RoundTrip | src/XenCert/sm/srmetadata.py:529-584 | a record that fits is read back from its slot with what is left of its names, names with markup in them included |
| SlotCodec.NamesReadExactly | src/XenCert/sm/srmetadata.py:541-565 | the slot is read exactly when neither name is cut inside an escaped character, and gives the record with the characters in front of the cuts |
| SlotCodec.FittingNamesStay | src/XenCert/sm/srmetadata.py:541-542 | names that fit the first sector when they are escaped are not changed |
| SlotCodec.StoredIs | src/XenCert/sm/srmetadata.py:571-582 | what is read back is the same map but for the names, marked as deleted or not, and can be written again without a second cut |
| SlotCuts.CutElementsFail | src/XenCert/sm/metadata.py:48-80 | a run of elements with its closing tag, cut at any character, cannot be read |
| SlotCuts.SlotReadsExactly | src/XenCert/sm/srmetadata.py:380-391 | for every record: its slot is read as the record with what is left of its names exactly when neither name is cut inside a character and the rest fits, and cannot be read otherwise |
| SrHeader.DecRoundTrip | src/XenCert/sm/srmetadata.py:198-205 | a length that has been printed reads as itself |
| SrHeader.HeaderRoundTrip | src/XenCert/sm/srmetadata.py:138-158 | the header sector, padded, stripped and split, gives the length it was built for |
| SrHeader.HeaderLength | src/XenCert/sm/srmetadata.py:138-148 | the header fits its sector for every length of at most ten digits |
| SrHeader.EmptyHeader | src/XenCert/sm/srmetadata.py:138-148 | the header of an empty table, character by character |
| SlotTable.ReadsOneWay | src/XenCert/sm/srmetadata.py:351-391 | a device holds at most one table |
| SlotTable.WriteIsLocal | src/XenCert/sm/srmetadata.py:95-107 | a write leaves every stretch of the device before and behind its blocks as it was |
| SlotTable.SlotWriteReads | src/XenCert/sm/srmetadata.py:325-326 | a slot written in place changes that record of the table and not a character of any other slot |
| SlotTable.SlotBehindReads | src/XenCert/sm/srmetadata.py:325-332 | a slot written behind the end is not seen |
| SlotTable.ShrinkReads | src/XenCert/sm/srmetadata.py:266-270 | a smaller length in the header cuts the table off at any slot |
| SlotTable.GrowReads | src/XenCert/sm/srmetadata.py:328-332 | a larger length takes in the slot that was written behind the end |
| LiveView.PutLive | src/XenCert/sm/srmetadata.py:430-440 | replacing a dead slot or one of the same uuid changes the map at that uuid only |
| LiveView.AppendLive | src/XenCert/sm/srmetadata.py:304-333 | a new slot with a new uuid adds that uuid to the map |
| LiveView.PutDead | src/XenCert/sm/srmetadata.py:253-263 | a tombstone takes exactly its uuid from the map |
| LiveView.DropDead | src/XenCert/sm/srmetadata.py:266-270 | cutting off a dead last slot leaves the map alone |
| TableOps.AddRecordMap | src/XenCert/sm/srmetadata.py:292-296 | what add writes is the new record over what the dead one had, with its place |
| TableOps.UpdateRecordMap | src/XenCert/sm/srmetadata.py:292-296 | what update writes is the given tags over the stored ones, and can be stored again |
| TableOps.TombstoneMap | src/XenCert/sm/srmetadata.py:262-263 | a tombstone is the record itself, marked as deleted, with its place |
| TableTheorems.StoredView | src/XenCert/sm/srmetadata.py:529-584 | the record that is read back is the one that was written, with what is left of its names |
| TableTheorems.AddedRecordIsGivenExactly | src/XenCert/sm/srmetadata.py:311-320 | the new record is what was passed in exactly when no dead slot is reused or the dead record has no tag of its own |
| TableTheorems.UniqueAfterAddExactly | src/XenCert/sm/srmetadata.py:304-333 | live uuids stay apart exactly when the new one was not live |
| TableTheorems.AddLeaves | src/XenCert/sm/srmetadata.py:282-283 | what becomes of the dictionary that add is given: the mark and, unless a dead slot is reused, the names escaped and cut |
| TableTheorems.AddLeavesNamesExactly | src/XenCert/sm/srmetadata.py:537-540 | names that fit are left as they were exactly when a dead slot is reused or neither has markup in it |
| TableTheorems.AddIsAtomic | src/XenCert/sm/srmetadata.py:325-332 | after each of its two writes the device holds a table in order, the old one or the new one; the map gains one uuid, with names stored whole if they fit, and no other slot changes |
| TableTheorems.UpdateIsAtomic | src/XenCert/sm/srmetadata.py:430-440 | one write; the map changes at one uuid, tag by tag, with names stored whole if they fit, and no other slot changes |
| TableTheorems.DeleteIsAtomic | src/XenCert/sm/srmetadata.py:253-270 | the map loses one uuid and no other slot changes; after each of its writes the map is already the new one, if the tombstone can be read |
| TableLimits.UnreadableIsLost | src/XenCert/sm/srmetadata.py:379-391 | a device with one slot that cannot be read in front of its end holds no table |
| TableLimits.AddWorksExactly | src/XenCert/sm/srmetadata.py:304-337 | for any record: add ends well with the new table exactly when the record can be stored, its uuid is new, and there is room; no table is left exactly when it is written and cannot be stored; an error leaves the device as it was |
| TableLimits.UpdateWorksExactly | src/XenCert/sm/srmetadata.py:430-444 | the same for update: exactly when the uuid is live and the record can be stored |
| TableLimits.DeleteWorksExactly | src/XenCert/sm/srmetadata.py:253-276 | the same for delete: exactly when the tombstone can be written and either stored or, for the last slot, cut off |
| TableLimits.DeleteIsAtomicExactly | src/XenCert/sm/srmetadata.py:253-270 | the new map is there after each write of such a delete exactly when the tombstone can be stored |
| TableLimits.DeleteWorksInRunsExactly | src/XenCert/sm/srmetadata.py:253-276 | after any run from a formatted device the same in numbers: the length of the record with its place and mark, the slot it is in, and the size of the device |
| TableRuns.StepRefines | src/XenCert/sm/srmetadata.py:253-337 | each operation does to the map what it means; checking for space means nothing and never lengthens the table |
| TableRuns.AddedSlotIsLive | src/XenCert/sm/srmetadata.py:311-316 | a slot is added only when every slot is live |
| TableRuns.CheckSpaceKeeps | src/XenCert/sm/srmetadata.py:497-523 | adding the dummy and deleting it leaves the map as it was and the table no longer |
| TableRuns.RunRefines | src/XenCert/sm/srmetadata.py:253-443 | over any run the header says 2048 and 1024 for each slot, the table stays in order, and every operation does what it means |
| TableRuns.RunSettles | src/XenCert/sm/srmetadata.py:541-565 | after any run from a formatted device every name fits, so no name is ever cut twice |
| TableRuns.SlotsAreBounded | src/XenCert/sm/srmetadata.py:253-337 | from a formatted device there are never more slots than VDIs were live at some time before |
| SpaceCheck.TombstoneFits | src/XenCert/sm/srmetadata.py:497-523 | the tombstone of the dummy fits its slot when there is room for the place |
| SpaceCheck.AddedDummy | src/XenCert/sm/srmetadata.py:311-320 | what the check writes: the dummy, over what was left in a dead slot |
| SpaceCheck.SpaceCheckAllowedExactly | src/XenCert/sm/srmetadata.py:497-523 | for a uuid not in use the dummy can be added, and deleted again, exactly when there is room for one more slot or, in a dead slot, for the dummy together with what was left there |
| SpaceCheck.SpaceCheckLosesExactly | src/XenCert/sm/srmetadata.py:304-332 | adding the dummy leaves no table exactly when it can be written and there is no such room, which happens over a dead slot only |
| SpaceCheck.MergeGrows | src/XenCert/sm/srmetadata.py:295-296 | by how much writing over a record lengthens its second sector, tag by tag |
| SpaceCheck.SpaceLeftInSlot | src/XenCert/sm/srmetadata.py:304-332 | whether a dead slot has room for the dummy, from what is left in it |
| SlotGrowth.SetGrows | src/XenCert/sm/srmetadata.py:577-580 | by how much setting a tag lengthens the second sector |
| SlotGrowth.TombstoneStorableExactly | src/XenCert/sm/srmetadata.py:262-263 | a tombstone can be stored exactly when the second sector has room for the place and the mark as well |
| SlotGrowth.WritableExactly | src/XenCert/sm/srmetadata.py:95-107 | a record can be written exactly when all the blocks it takes are on the device |
| FailingInputs.LocationIsInherited | src/XenCert/sm/srmetadata.py:311-320 | a VDI added over a dead one with a location has that location |
| FailingInputs.AmpersandsAreUnreadable | src/XenCert/sm/srmetadata.py:541-565 | a record with a label of ninety ampersands makes its slot unreadable |
| FailingInputs.NoRoomInRange | src/XenCert/sm/srmetadata.py:121-135 | the range for 512 bytes at 511 ends at 512 |
| LostTables.FullRecordCannotGo | src/XenCert/sm/srmetadata.py:253-276 | on any formatted device with room for two records: after adding one whose second sector takes 492 to 512 characters, and another, deleting the first reports no error and no table is left |
| LostTables.CrowdedSlotCannotBeChecked | src/XenCert/sm/srmetadata.py:497-523 | the same for one that takes 281 to 491 characters and is deleted: the dummy of the space check is then written over what is left, and no table is left |
| BlockRanges.AlignedRange | src/XenCert/sm/srmetadata.py:123-135 | the range starts with the block of the offset and has as few whole blocks as hold the length |
| BlockRanges.RangeHasRoomExactly | src/XenCert/sm/srmetadata.py:121-135 | there is room for the length at the offset exactly when the last block has as much left over as the first has in front of it |
| TableScan.ScansFind | src/XenCert/sm/srmetadata.py:403-416 | a scan for a uuid stops at the live record with it, a scan for a deleted record at the first dead one |
| TableScan.EntriesAre | src/XenCert/sm/srmetadata.py:393-401 | a scan returns the records before its end that it does not skip, and no others |
| TableScan.LastEntry | src/XenCert/sm/srmetadata.py:403-418 | the record a scan stops at is the last it returns |
| TableScan.Overwrite | src/XenCert/sm/srmetadata.py:295-296 | the loop overwrites tag by tag |
| TableScan.AppendSectors | src/XenCert/sm/srmetadata.py:298-300 | both sectors of a record for a range of one slot, and nothing once the range is full |
| TableScan.GenerateVdis | src/XenCert/sm/srmetadata.py:279-302 | for the slot of a record, that record overwritten; for an offset without record, the new record |
| MetadataHandler.DummyIsHidden | src/XenCert/sm/srmetadata.py:379-391 | when the dummy has been written and does not fit, the scan that is to delete it fails |
| MetadataHandler.Handler.FileWrite | src/XenCert/sm/srmetadata.py:95-107 | exactly the padded text is written, or nothing |
| MetadataHandler.Handler.UpdateLength | src/XenCert/sm/srmetadata.py:181-195 | the header sector is rewritten for the length |
| MetadataHandler.ScansNeed | src/XenCert/sm/srmetadata.py:393-416 | which tags a scan needs of a record |
| MetadataHandler.Handler.Scan | src/XenCert/sm/srmetadata.py:351-427 | on a device that holds a table the loop finds what the scan of that table is to find; on any device it fails exactly when the length cannot be read or a slot that no slot in front of it keeps it from reading cannot be, or lacks a tag it needs |
| MetadataHandler.Handler.UpdateVdi | src/XenCert/sm/srmetadata.py:430-444 | result, device and the sequence of writes are those of the update; when the scan fails nothing is written |
| MetadataHandler.Handler.AddVdi | src/XenCert/sm/srmetadata.py:304-337 | the same for add: the slot first, the length after it; and what becomes of the dictionary |
| MetadataHandler.Handler.DeleteVdi | src/XenCert/sm/srmetadata.py:253-276 | the same for delete: the tombstone first; nothing and no error for an unknown uuid, an error and nothing written when the scan fails |
| MetadataHandler.Handler.SpaceAvailable | src/XenCert/sm/srmetadata.py:497-523 | gets through exactly when there is room, and the device is then that of adding the dummy and deleting it; otherwise the device is as it was or holds no table |
| Utf8.UnicTrunc | src/XenCert/sm/util.py:573-589 | the largest boundary between characters that is within the limit in bytes |
| Utf8.EncodeRoundTrip | src/XenCert/sm/util.py:573-589 | the size of a character is the number of its bytes, from which it is read back |
| Utf8.CutIsTruncation | src/XenCert/sm/srmetadata.py:543-552 | for single bytes that is where names are cut |
| DiskPattern.NoErrorsExactly | src/diskdatatest/fdpattern.c:176-200 | no errors are counted exactly when every sector of the prefix holds the pattern |
| DiskPattern.CorruptionIsLocal | src/diskdatatest/fdpattern.c:176-214 | changing one sector changes the count by what that sector is worth and nothing else |
| DiskPattern.ForeignRunExactly | src/diskdatatest/fdpattern.c:151-160 | a sector of another run passes exactly when the iterators agree modulo 2^64 |
| DiskPattern.SlicesFillSector | src/diskdatatest/fdpattern.c:58 | the slices of a sector are its 512 bytes |
| DiskPattern.MisplacedSectorIsBad | src/diskdatatest/fdpattern.c:176-200 | a sector found in the place of another is always counted |
| DiskPattern.TransferCompleteExactly | src/diskdatatest/atomicio.c:46-61 | a transfer is complete exactly when some first calls, none of them failing or meeting the end of the file, move enough |
| DiskPattern.TransferEndsExactly | src/diskdatatest/atomicio.c:46-61 | the result is zero when the call that ends the transfer fails, and otherwise what the calls before it have moved |
| DiskPattern.Atomicio | src/diskdatatest/atomicio.c:35-62 | what has been moved is there in order, nothing else has changed, and the result is that much, or zero after an error |
| DiskPattern.TimeIsUpExactly | src/diskdatatest/fdpattern.c:307-337 | the loop ends behind a block exactly when the time is up or it was the last |
| DiskPattern.Tester.WriteBlock | src/diskdatatest/fdpattern.c:308-322 | succeeds exactly when the block is reached and moved in full, and then holds the closed form; nothing outside it changes |
| DiskPattern.Tester.CheckBlock | src/diskdatatest/fdpattern.c:308-330 | succeeds exactly when the block is reached and moved in full, and then the errors are the bad sectors of the longer prefix |
| DiskPattern.Tester.UpdateSect | src/diskdatatest/fdpattern.c:151-160 | the sector holds the closed form, the iterator has gone on by 32 modulo 2^64 |
| DiskPattern.Tester.UpdateBlock | src/diskdatatest/fdpattern.c:162-174 | the buffer holds the next block of the closed form |
| DiskPattern.Tester.VerifySect | src/diskdatatest/fdpattern.c:176-200 | one error exactly for a sector that differs from the closed form |
| DiskPattern.Tester.VerifyBlock | src/diskdatatest/fdpattern.c:202-214 | the errors so far are exactly the bad sectors of the prefix |
| DiskPattern.Tester.CheckFileSize | src/diskdatatest/fdpattern.c:265-276 | whether the whole test fits the device |
| DiskPattern.Tester.OpTestPattern | src/diskdatatest/fdpattern.c:285-343 | wherever time runs out, what was written is the closed form and nothing else has changed; what was verified is counted exactly; exit code zero exactly when the test fits and no block on the way fails |
| DiskPattern.AnyBlockSizeVerifies | src/diskdatatest/fdpattern.c:307-339 | verifying with another block size finds nothing wrong in any part of what was written |
| DiskPattern.DiskDataTest | src/XenCert/StorageHandlerUtil.py:871-899 | when the test raises and for which reason; the device afterwards is what the writer left with what happened to it in between; the number of bad sectors it raises with is exact, and it never raises about sectors when the device kept what was written, wherever the writer was stopped |
| ZeroOut.Disk.Dd | src/XenCert/sm/util.py:382-385 | a command that can fail at any byte zeroes its range or part of it, and succeeds exactly when nothing stops it |
| ZeroOut.Disk.ZeroHead | src/XenCert/sm/util.py:375-387 | the bytes in front of the first whole block, never more than asked for |
| ZeroOut.Disk.ZeroOut | src/XenCert/sm/util.py:371-408 | True: exactly the bytes of the range are zero and no other has changed; False: nothing outside the range has changed; True exactly when no command it needs fails; for every offset and length |
| FreeSpace.RoundUp | src/XenCert/sm/util.py:90-97 | the smallest positive multiple that is not below the value |
| FreeSpace.OverheadMonotone | src/XenCert/sm/vhdutil.py:59-76 | the overhead never falls with the size, through both roundings |
| FreeSpace.FreeSpaceIsEnough | src/XenCert/StorageHandlerUtil.py:170-174 | a VDI of the reported size, or of any smaller one, up to 2 TiB can be written in full |
| FreeSpace.FreeSpaceIsClose | src/XenCert/StorageHandlerUtil.py:170-174 | no VDI that can be written in full is larger than the report by more than the overhead of a 2 TiB one |
| FreeSpace.OverheadThresholds | src/XenCert/sm/vhdutil.py:59-76 | the overhead is that of 2 TiB up to 1,048,704 blocks, 4096 bytes more up to 1,049,728, and at least 8192 more above |
| FreeSpace.ReportIsEnoughExactly | src/XenCert/StorageHandlerUtil.py:170-174 | for every size with a report: a VDI of the reported size can be written in full exactly when the size is below a number a little over 2 TiB, or below a second one and just short of a whole number of blocks with bitmaps |
| FreeSpace.LargeSrIsOverstated | src/XenCert/StorageHandlerUtil.py:170-174 | so an SR of 4 TiB is reported to have more room than it has |
| MultipathConfig.ParseMultipathdConfig | src/XenCert/StorageHandlerUtil.py:725-755 | the loop computes what the lines mean, and fails exactly on a variable without a value |
| MultipathConfig.OtherLinesDoNothing | src/XenCert/StorageHandlerUtil.py:718-753 | lines that match none of the six patterns have no effect, wherever they are, in any input |
| MultipathConfig.ClassifiedExactly | src/XenCert/StorageHandlerUtil.py:718-723 | a line is taken for what the pattern says that it matches, and for nothing exactly when it matches none of the six |
| MultipathConfig.ParseFailsExactly | src/XenCert/StorageHandlerUtil.py:725-752 | parsing fails exactly when a line is about a section or a subsection before any has begun |
| MultipathConfig.LateAttribute | src/XenCert/StorageHandlerUtil.py:743-750 | an attribute behind the end of a subsection still goes to that subsection, wherever it has been put |
| MultipathConfig.LateEntry | src/XenCert/StorageHandlerUtil.py:732-752 | and one behind the end of a section to that section |
| MultipathConfig.ParseInvertsRender | src/XenCert/StorageHandlerUtil.py:700-755 | parsing the lines of a configuration, with lines that match nothing put in anywhere, gives it back, the last section of a name for that name |
| LunRefresh.RefreshedIs | src/XenCert/sm/scsiutil.py:290-333 | what should be on the bus: the reported LUNs and the root's, the root's untouched, the others under the ids they have; refreshing again changes nothing |
| LunRefresh.Bus.Settle | src/XenCert/sm/scsiutil.py:292-323 | a stale LUN goes, a changed one comes back under its id, and for the root's and an unchanged one no command is given |
| LunRefresh.Bus.Probe | src/XenCert/sm/scsiutil.py:325-331 | every LUN in the list is probed for in order and is there, the others are as they were |
| LunRefresh.Bus.Refresh | src/XenCert/sm/scsiutil.py:290-333 | the bus is as it should be; a LUN has been removed exactly when it was not the root's and stale or changed, once, and added exactly when it had changed or as often as it was reported beyond being there |
| Checkpoints.PlugAndUnplugPbds | src/XenCert/StorageHandlerUtil.py:417-439 | the number of rounds before the first exception |
| Checkpoints.PerformSrControlPathTests | src/XenCert/StorageHandlerUtil.py:606-679 | three checkpoints and True exactly when every step got through, two when only the first did |
| Checkpoints.RunIterations | src/XenCert/StorageHandler.py:2885-2953 | how far the iterations come, and one checkpoint for each creation, round and destruction that got through |
| Checkpoints.OneVersion | src/XenCert/StorageHandler.py:2885-2953 | what one version adds to the checkpoints and to their total, wherever it is stopped |
| Checkpoints.NfsControlPathStressTests | src/XenCert/StorageHandler.py:2885-2953 | never more checkpoints than the total, equal exactly when every step of every version got through; the result is that of the last version |
| Checkpoints.MpConfigVerificationTests | src/XenCert/StorageHandler.py:245-454 | never more checkpoints than the total, equal exactly when every failover, every restoration and all the rest succeeded; how many there are wherever an exception is raised; the result is whether none was |

## Left out

- ActivationTheorems.CountedMeansActive: requires that no call of the history gave up a count that did not exist while its cache was stale, because the code does not keep the property then (see finding 1); `StaleCaches.NobodyMisledNothingLost` has a condition on what callers do instead.
- ActivationProtocol: a process that dies in the middle of a call; `setReadonly`, which keeps its lock when an exception is raised; refreshes that list a volume twice. The retry loops of lvutil may run any number of times there; `CacheActivation` has their bounds. A volume that `lvs` no longer lists is known to the protocol only through the cache.
- SharedFiles: a process that reads a file another has just truncated stays where it is; in the code its call fails. That happens only to references that share a file.
- FileLocks: `Lock.cleanup`, `cleanupAll`, `clearAll` and forking, which break exclusion by design; EDEADLK from the kernel; the retries of `_open`.
- LvmCache: entries and lists are values in maps, so the sharing of a list that `getTagged` hands out is not modelled; sizes and the fields of a line of `lvs` are taken as parsed; `setSize` and `changeOpen` only assign a field.
- MetadataHandler: the operations are specified for a device that holds a readable table whose records have a uuid and the deleted mark; of a damaged one it is only said that nothing is written when the scan fails. A sector torn by a crash is not modelled. The SR's own three sectors are never written here. The parameters `offset` and `indexByUuid` of `getMetadataInternal` are not modelled.
- MetadataHandler.Handler.FileWrite: writes all or nothing, so a write that reaches past the end of the device in part is not modelled.
- MetadataHandler.Handler.Scan: does not parse the SR's own three sectors, which makes the code fail when they are unreadable.
- MetadataHandler.Handler.AddVdi: what is left of the dictionary when add fails is not said.
- MetadataHandler.Handler.SpaceAvailable: for a uuid that is not in use, of at most 36 characters without markup, such as `gen_uuid` makes.
- TableTheorems.AddIsAtomic: requires that the second sector holds the tags, that no name is cut inside an escaped character, and that the uuid is not live; `TableLimits.AddWorksExactly` says that it does nothing of the kind otherwise, and what it does instead.
- XmlText.ElementParses: text that is blank and not empty counts as unreadable, where the code reads an empty dictionary instead of a string; no text of a record that is trimmed is. Tags are XML names of single-byte characters without a prefix.
- SlotCodec.TwoSectorsParse: the same for names, as for `SlotCodec.FirstSectorParses`.
- SlotCodec: characters are single bytes; names and values are trimmed; NUL characters, other control characters, the normalisation of line ends and numeric character references are not modelled, nor values that are not strings. Lengths of tables have at most ten digits.
- Utf8.UnicTrunc: the code calls `decode` on a `str`, which fails in Python 3; the model computes what the function is documented to compute, on the text. Callers cut by characters, not by bytes, which is the same for single bytes only.
- DiskPattern: the size of the device is given; words are numbers below 2^64, not bytes; products of sizes do not overflow; logging and option parsing. `float` times are replaced by a choice whether time is up.
- ZeroOut.Disk.Dd: the path is a block device, as it is for its caller; a regular file is cut off where dd begins to write. Errors other than a failed command are not modelled.
- ZeroOut.Disk.ZeroOut: for a block device only, as for its commands.
- FreeSpace: division is floor division where the code divides floats; block and disk sizes below zero.
- MultipathConfig: a line has a newline at its end at most, as lines of output do.
- LunRefresh.Bus.Refresh: requires one entry for each present LUN and that every reported LUN exists, a bus on which nothing else happens; the glob patterns, which match a target number that merely begins with the same digit, and waiting for device nodes are not modelled.
- Checkpoints: the XenAPI calls are steps that get through or do not; what counts as one step is named in the data types.
- XenAPI, iSCSI login, multipathd, option parsing, logging, reports, the functional, data, pool and metadata test scripts, and regular-expression helpers: foreign calls or straight-line code that would only add easy members.
