# Verified models of the A.R.S firmware

Dafny models of the parts of the A.R.S firmware for the ESP32-S3 that hold real logic, with proofs of what they
guarantee. Code that changes state in place is modelled as classes and loops and proved against
specification functions; the theorems are about those functions, over every input, every history or
every point where power can fail. What the hardware, the drivers and the clock answer is a parameter of
each call (an oracle), so every theorem holds for all their answers.

| module | models |
|---|---|
| `Crc` | the nibble-table CRC-32 of LittleFS |
| `Namespace`, `FdTable` | the descriptor table of the LittleFS VFS layer: linked list, slot array and counter |
| `PathWalk` | creating and pruning the directories above a path through one mutated buffer |
| `Affine`, `AxisFit` | the least-squares touch calibration and its fallback, over exact reals |
| `TouchStore` | the two-slot store of the calibration |
| `IoExpander`, `ChipSelect` | the expander's shadow register, and the SD chip select cached on top of it |
| `SdResponse`, `SdInit` | the R1 wait and the SD initialisation protocol over any card and bus |
| `SecureFile` | write-beside-and-rename with a checksummed header |
| `NetManager` | Wi-Fi provisioning state, retry backoff and retry limit |
| `I2cBackoff` | error streak, backoff and recovery throttle of the shared I2C bus |
| `Folds`, `Powers`, `EspErr`, `Options` | left folds, powers of two, error codes and options shared by the others |

Check it with `dafny verify dfyconfig.toml` (Dafny 4.11).

## Where the code does less than it seems to

Where a member is named, it states the exact condition:

- From an erased store the calibration only ever uses slot B, so the second slot protects nothing
  (`TouchStore.OnlySlotB`, `TouchStore.NoRedundancyFromErased`); a store with two valid slots loses that
  protection with the first save that is cut short (`TouchStore.CutLosesRedundancy`); and once
  both slots are valid and one carries generation 2^32-1, a save that reports success is not the one
  loaded (`TouchStore.SavedIsLoaded`). Nor is one that failed once to read the newer slot
  (`TouchStore.MissedReadLosesSave`). A clear that fails halfway can bring an older calibration back
  (`TouchStore.FailedClear`).
- The secure save is crash-atomic exactly for paths that do not have 127 characters: the clipped
  temporary name of such a path is the path itself (`SecureFile.CrashAtomic`). Names of 124 to 126
  characters are clipped too but still differ from the path. The results of `fflush` and `fsync` are not
  looked at, so a success may not load back (`SecureFile.SuccessLoadsIffFlushed`).
- Rename refuses when either path is open, but not when an open file lies below a renamed directory
  (`FdTable.Efs.Rename`).
- In a filesystem registered without being mounted the array has size zero, doubling it changes nothing,
  and an allocation returns descriptor 0 outside the array (`FdTable.Efs.AllocateFd`).
- `close` rejects descriptors above the array size, not the array size itself, and does not look whether
  the slot is occupied: the one access leaves the table, the other finds no file, as after closing twice
  (`FdTable.Efs.Close`).
- A mount does not check the allocation of the descriptor array (`FdTable.Efs.constructor`).
- The directory walks clip the path to 63 characters, so ancestors from there on are neither created nor
  pruned (`PathWalk.ClipReaches`, `PathWalk.MkdirsOnPath`, `PathWalk.RmdirsOnPath`).
- The expander driver reports ready without having reached the device when the bus is busy on all three
  probe attempts (`IoExpander.ReadyUnanswered`).
- The chip-select early return does what a rewrite would do to pin 4, but a rewrite would also deliver
  requests for other pins whose own transmit had failed (`ChipSelect.EarlyReturnIsRewrite`).
- A failed lock, a failed chip select or a failed transfer means that a command attempt never reaches the
  wire; the trace records every attempt and whether it was sent. Once CMD8 was refused with 0x05, a CMD55
  answered 0x05 counts as accepted, and two CMD55 attempts in a row whose response byte has bit 2 set lead
  to CMD1, although 0xFF passes that test: a card that never refused CMD55, or was never sent it, is then
  initialised as MMC (`SdInit.FlaggedIsRefusal`, `SdInit.InitWithoutCmd55`).
- Once eight retries are counted, the next request cancels the pending one, and then no retry timer is
  armed again until an IP address or new credentials arrive (`NetManager.LimitCancelsPending`,
  `NetManager.SpentStaysSpent`). The watchdog replaces any pending wait by 5 ms
  (`NetManager.WatchdogCutsWait`).
- Four successes do not clear the I2C backoff once the 32-bit streak has wrapped
  (`I2cBackoff.WrappedStreakSticks`).

## Model

| member | source | states |
|---|---|---|
| `Crc.LfsCrc` | components/joltwallet__littlefs/src/lfs_config.c:12-28 | the nibble-table loop returns the bit-serial reflected CRC-32 of the buffer, for every start value and every buffer |
| `Crc.TableIsFourShifts` | components/joltwallet__littlefs/src/lfs_config.c:13-18 | one table lookup equals four shifts of the register by the polynomial, for every register value |
| `Crc.NibbleStep` | components/joltwallet__littlefs/src/lfs_config.c:23-24 | one half of the loop body equals feeding four message bits one at a time |
| `Crc.ByteStep` | components/joltwallet__littlefs/src/lfs_config.c:22-25 | the loop body, low nibble first, equals feeding the eight bits of a byte |
| `Crc.Absorb` | components/joltwallet__littlefs/src/lfs_config.c:12-28 | feeding up to 32 bits is XOR-ing their word into the register and shifting that often |
| `Crc.Linear` | components/joltwallet__littlefs/src/lfs_config.c:12-28 | the CRC is XOR-linear in register and message together |
| `Crc.Chainable` | components/joltwallet__littlefs/src/lfs_config.c:12-28 | two calls over two buffers equal one call over their concatenation |
| `Crc.RegisterInjective` | components/joltwallet__littlefs/src/lfs_config.c:22-25 | over one and the same message, different start values end in different values |
| `Crc.BurstDetected` | components/joltwallet__littlefs/src/lfs_config.c:12-28 | two bit strings that differ only inside a window of at most 32 bits have equal CRCs if and only if they are equal |
| `Crc.WindowDetected` | components/joltwallet__littlefs/src/lfs_config.c:12-28 | two messages of one length that differ only inside four consecutive bytes have equal CRCs if and only if they are equal |
| `Crc.FiveBytesMissed` | components/joltwallet__littlefs/src/lfs_config.c:12-28 | four bytes is sharp: in any surroundings two different five-byte windows share a CRC |
| `Crc.Residue` | components/joltwallet__littlefs/src/lfs_config.c:12-28 | a message followed by its own CRC, low byte first, has CRC zero |
| `FdTable.Efs.constructor` | components/joltwallet__littlefs/src/esp_littlefs.c:1163-1170 | a mounted table: empty list, four empty slots, list, array and counter in agreement exactly when the unchecked allocation of the array succeeded; otherwise a size of four with no slots |
| `FdTable.Efs.GrowIfFull` | components/joltwallet__littlefs/src/esp_littlefs.c:1262-1275 | exactly when the array is full it becomes twice its size, or 65535 if that is less; old entries keep their index, new ones are empty |
| `FdTable.FreeSlotExists` | components/joltwallet__littlefs/src/esp_littlefs.c:1262-1319 | pigeonhole: whenever list and array agree and the list is shorter than the array, a slot is free |
| `FdTable.CountIsLength` | components/joltwallet__littlefs/src/esp_littlefs.c:1229-1241 | whenever list and array hold the same nodes, the number of occupied slots is the length of the list |
| `FdTable.Efs.FirstFree` | components/joltwallet__littlefs/src/esp_littlefs.c:1313-1319 | the scan returns the lowest free index, and finds one if and only if the counter is below the array size |
| `FdTable.Efs.AllocateFd` | components/joltwallet__littlefs/src/esp_littlefs.c:1251-1325 | fails exactly when an allocation fails; otherwise returns the lowest free index below the array size, puts the new node at the head of the list and leaves every other descriptor on its node, across a growth too; with an array of size zero (never mounted) it returns 0 and breaks the agreement |
| `FdTable.Efs.FreeFd` | components/joltwallet__littlefs/src/esp_littlefs.c:1334-1401 | freeing an occupied slot always finds the node, never reports an inconsistent list, returns 0, unlinks exactly that node and clears exactly that slot |
| `FdTable.Efs.FreeFds` | components/joltwallet__littlefs/src/esp_littlefs.c:198-208 | unmount releases every node once, in list order, and leaves an empty table without slots |
| `FdTable.ComputeHash` | components/joltwallet__littlefs/src/esp_littlefs.c:1408-1415 | the shift-and-add loop with 32-bit wrap-around equals the multiply-by-33 hash |
| `FdTable.HashWrapsOnce` | components/joltwallet__littlefs/src/esp_littlefs.c:1408-1415 | wrapping at every step gives the unbounded polynomial hash modulo 2^32 |
| `FdTable.Efs.GetFdByName` | components/joltwallet__littlefs/src/esp_littlefs.c:1427-1447 | the search that stops after fdCount nodes and compares hashes first returns the first slot with that path, or -1 exactly when no slot has it |
| `FdTable.Efs.PathIsOpen` | components/joltwallet__littlefs/src/esp_littlefs.c:1427-1447 | the search succeeds if and only if some node of the list carries the path |
| `FdTable.Efs.Open` | components/joltwallet__littlefs/src/esp_littlefs.c:1452-1582 | succeeds exactly when both allocations and the device do, and the path is a regular file not asked for with both create and exclusive, or is absent and asked for with create, in which case a new file appears; then a fresh node named path heads the list in a slot that was free; otherwise list and namespace are as before; no other descriptor moves, and open files that all existed still do |
| `FdTable.Efs.Close` | components/joltwallet__littlefs/src/esp_littlefs.c:1767-1811 | for every descriptor in every state of the table: the access leaves the table if and only if it equals the array size, and finds no file if and only if the slot is empty; 0 is returned exactly for an occupied slot whose file closes, and then that slot and no other is freed |
| `FdTable.Efs.Unlink` | components/joltwallet__littlefs/src/esp_littlefs.c:1971-2020 | removes exactly a regular file that no descriptor has open; all open paths exist afterwards if and only if they did before |
| `FdTable.Efs.Rename` | components/joltwallet__littlefs/src/esp_littlefs.c:2022-2064 | renames exactly when neither path is open; an open path that exists still exists afterwards, file by file, if and only if it does not lie below a renamed directory, which the guard does not look at |
| `FdTable.RenameKeepsFiles` | components/joltwallet__littlefs/src/esp_littlefs.c:2022-2064 | file by file, a path that exists and is neither name survives a rename if and only if it is not below the source |
| `Namespace.RenameKeepsPath` | components/joltwallet__littlefs/src/esp_littlefs.c:2022-2064 | a path that is neither name survives a rename, unchanged, if and only if it is not below the source |
| `Namespace.RenamedExactly` | components/joltwallet__littlefs/src/esp_littlefs.c:2022-2064 | after a rename to another name, exactly these exist, with their kind: everything that did not move and is not the destination, and at the destination and each suffix below it what the source held at that suffix |
| `Namespace.RenameRoundTrip` | components/joltwallet__littlefs/src/esp_littlefs.c:2022-2064 | renaming to a free name that is not below the source succeeds, and renaming back restores the whole tree |
| `PathWalk.Mkdirs` | components/joltwallet__littlefs/src/esp_littlefs.c:2475-2487 | issues mkdir on exactly the proper ancestors of the path clipped to 63 characters, shortest first, with the buffer restored after each; on a device that refuses nothing the result about the whole path below holds |
| `PathWalk.Rmdirs` | components/joltwallet__littlefs/src/esp_littlefs.c:2501-2513 | issues rmdir on exactly those ancestors, longest first, with the result about the whole path below |
| `PathWalk.ClipReaches` | components/joltwallet__littlefs/src/esp_littlefs.c:2479 | the clipped walk visits every ancestor of the real path if and only if the path has no slash at index 63 or later |
| `PathWalk.MkdirsOnPath` | components/joltwallet__littlefs/src/esp_littlefs.c:2466-2487 | after mkdirs every ancestor of the real path is a directory if and only if none that it comes to was a file and each that it does not come to was a directory already; for paths without a slash from index 63 on, if and only if no ancestor was a file |
| `PathWalk.RmdirsOnPath` | components/joltwallet__littlefs/src/esp_littlefs.c:2489-2513 | after rmdirs no ancestor of the real path is an empty directory if and only if none of those it does not come to was one; for paths without a slash from index 63 on, always |
| `PathWalk.AncestorsAre` | components/joltwallet__littlefs/src/esp_littlefs.c:2480-2485 | the strings visited are exactly the prefixes that end before a slash other than the first character, in order of length |
| `PathWalk.CutString` | components/joltwallet__littlefs/src/esp_littlefs.c:2480-2485 | a NUL written over position p turns the buffer into the C string of the first p characters |
| `PathWalk.MkdirsReach` | components/joltwallet__littlefs/src/esp_littlefs.c:2466-2487 | on a device that refuses nothing, afterwards every ancestor is a directory if and only if none was a regular file; nothing but ancestor directories is added and nothing is lost |
| `PathWalk.EmptyIffOnlyChain` | components/joltwallet__littlefs/src/esp_littlefs.c:2501-2513 | once the longer ancestors are pruned, an ancestor is empty if and only if only ancestor directories lay below it |
| `PathWalk.RmdirsPrune` | components/joltwallet__littlefs/src/esp_littlefs.c:2489-2513 | on a device that refuses nothing, exactly the ancestor directories with nothing but ancestor directories below them are removed, and no remaining ancestor is an empty directory |
| `Affine.SolveNormalEquations` | components/touch_transform/touch_transform.c:126-177 | the adjugate solver refuses if and only if the determinant is below 1e-6 in size; otherwise it returns the one and only solution |
| `Affine.CramerScales` | components/touch_transform/touch_transform.c:140-162 | for every matrix, also a singular one, multiplying it with the scaled adjugate times b gives b scaled by the determinant |
| `Affine.NormalIsOptimal` | components/touch_transform/touch_transform.c:186-224 | for any samples and any other coefficients, the squared error of the solution is smaller by exactly the squared norm of the coefficient difference applied to the samples |
| `Affine.CrossIsNormal` | components/touch_transform/touch_transform.c:198-214 | the accumulated sums are the gradient of the squared error: its product with any direction is the cross term over all samples |
| `Affine.EnergyIsForm` | components/touch_transform/touch_transform.c:198-206 | the accumulated matrix is the quadratic form that sums the squared values at the samples |
| `Affine.SingularIffCollinear` | components/touch_transform/touch_transform.c:137-138 | the determinant of the normal equations is zero if and only if all raw points lie on one line |
| `Affine.ThresholdIsExact` | components/touch_transform/touch_transform.c:137-138 | on integer points the 1e-6 test fires for collinear points and for no others |
| `Affine.MinimizerUnique` | components/touch_transform/touch_transform.c:221-224 | away from collinear points only one coefficient triple minimises the squared error |
| `Affine.FitIsOnly` | components/touch_transform/touch_transform.c:221-229 | away from collinear points the solved pair of rows is a best fit and no other transform is |
| `Affine.SolveAffine` | components/touch_transform/touch_transform.c:179-260 | fewer than three points give INVALID_ARG, collinear points INVALID_STATE; in every other case one unique least-squares transform exists and is returned exactly when it validates, and then it maps different points to different images; targets equal to the raw points give the identity |
| `Affine.ValidMeans` | components/touch_transform/touch_transform.c:58-78 | validity in terms of the map alone: the image of the origin within 10000 on each axis, unit steps within 100, and the parallelogram of the unit steps with an area of at least 1e-6 |
| `Affine.IdentityFits` | components/touch_transform/touch_transform.c:179-260 | the identity fits targets equal to the raw points without error, and it validates |
| `Affine.ValidInjective` | components/touch_transform/touch_transform.c:73-76 | a transform that validates sends distinct points to distinct images |
| `Affine.ExactImageRecovered` | components/touch_transform/touch_transform.c:179-260 | targets that are an exact affine image of the raw points have that very map as a best fit, so the solver can return no other |
| `AxisFit.Box` | components/touch_transform/touch_transform.c:268-291 | the sentinel-initialised loop returns the lowest and the highest coordinate |
| `AxisFit.SolveFallback` | components/touch_transform/touch_transform.c:262-301 | each axis maps the box of the raw points exactly onto the box of the references; there is no finite result exactly when the raw box has no extent |
| `AxisFit.FallbackExact` | components/touch_transform/touch_transform.c:293-299 | the fallback reproduces every reference coordinate if and only if some line that does not fall does |
| `TouchStore.Nvs.Load` | components/touch_transform/touch_transform_storage.c:156-205 | what is loaded is the stored content of a slot read this time, with the magic, version 1, the checksum of its own fields, a valid transform, and a generation at least that of every slot that checks, slot A on a tie; absence is reported exactly when every slot that could be read is empty or fails one of the three checks, and rejection only for a newest record that does not validate |
| `TouchStore.ReadMeans` | components/touch_transform/touch_transform_storage.c:83-122 | a slot checks exactly when its record carries TCAL, version 1 and the checksum of magic, transform, version and generation |
| `TouchStore.OrientedMeans` | components/touch_transform/touch_transform_storage.c:250-258 | the flags that are stored: the three legacy ones, each in its place, exactly when none is given and legacy flags exist; the matrix is untouched |
| `TouchStore.GenerationAdvances` | components/touch_transform/touch_transform_storage.c:238-243 | the next generation is above every generation read until 2^32-1 is reached, and 1 from an empty store |
| `TouchStore.SaveThenLoad` | components/touch_transform/touch_transform_storage.c:156-278 | a complete save of a valid transform and a load after it both return OK and give that transform with its flags as the orientation rule leaves them, unless two valid slots have run out of generations |
| `TouchStore.WinnerIsNewest` | components/touch_transform/touch_transform_storage.c:133-154 | the slot choice returns exactly the record of highest generation among the slots that check, slot A on a tie |
| `TouchStore.Nvs.Save` | components/touch_transform/touch_transform_storage.c:221-278 | rejects an invalid transform; otherwise, after an open that may have erased the flash, the target slot chosen from the slots it could read, and only that one, is left alone, damaged or complete with the next generation; success is reported exactly for a complete write with its commit |
| `TouchStore.Nvs.Clear` | components/touch_transform/touch_transform_storage.c:280-295 | a clear that reports success leaves nothing to load; one that reports an error may have erased either slot, or with the flash both |
| `TouchStore.FailedClear` | components/touch_transform/touch_transform_storage.c:286-294 | a failed clear changes what is loaded next exactly when it erased the slot that was loaded, unless the other slot is left with the same record; so it can bring an older calibration back |
| `TouchStore.SavedIsLoaded` | components/touch_transform/touch_transform_storage.c:238-247 | a save that stores its record wins the next load exactly when no generation counter has reached 2^32-1 while both slots are valid or, if it could not read the record of the other slot, when that one is not newer than the new one, slot A winning ties; otherwise the record of the other slot is loaded |
| `TouchStore.MissedReadLosesSave` | components/touch_transform/touch_transform_storage.c:91-94 | with consecutive generations and the newer one in slot A, a save that fails once to read slot A reports success and the old record is loaded again |
| `TouchStore.TargetSparesWinner` | components/touch_transform/touch_transform_storage.c:133-154 | with both slots read, the save writes another slot than the winner if and only if both are valid with different generations |
| `TouchStore.RedundantSparesWinner` | components/touch_transform/touch_transform_storage.c:236-247 | with two valid slots of different generations, a winner in slot A is overwritten exactly when only it could be read, a winner in slot B exactly when slot A could not be |
| `TouchStore.OldOrNew` | components/touch_transform/touch_transform_storage.c:221-278 | whatever becomes of the write, the next load picks the old record or the new one as long as the save spares the winner, which with both slots read and of different generations it always does |
| `TouchStore.CutKeepsWinner` | components/touch_transform/touch_transform_storage.c:221-278 | a save cut short leaves the next load unchanged exactly when there was nothing to load, or it wrote another slot than the winner, or both held the same record; with both slots read, exactly when there was nothing, or both were valid with different generations or the same record |
| `TouchStore.OnlySlotB` | components/touch_transform/touch_transform_storage.c:244-247 | in every state reached from an erased store by saves, cut saves, failed reads, clears and flash erasures, slot A never holds a record and slot B only a valid transform |
| `TouchStore.NoRedundancyFromErased` | components/touch_transform/touch_transform_storage.c:221-278 | so in every such state a cut save loses the calibration, and a complete one is loaded back |
| `TouchStore.SingleStep` | components/touch_transform/touch_transform_storage.c:236-247 | a save turns one valid slot into two exactly when that slot is A, could not be read, and the new record is stored |
| `TouchStore.SingleForever` | components/touch_transform/touch_transform_storage.c:244-247 | from any state with at most one valid slot, every later state of every history in which saves can read slot A has at most one valid slot |
| `TouchStore.CutLosesRedundancy` | components/touch_transform/touch_transform_storage.c:244-247 | so a single cut save ends two-slot protection until a save cannot read slot A |
| `TouchStore.CompleteKeepsRedundancy` | components/touch_transform/touch_transform_storage.c:236-262 | a stored save takes two valid slots of different generations to the next generation exactly when it could read the slot that was winning |
| `TouchStore.SavesAlternate` | components/touch_transform/touch_transform_storage.c:238-247 | starting with two valid slots of different generations, complete saves that read both slots keep both valid and raise the generation by one each, every save is the one loaded next, and a save cut short at any point still loads the last complete one |
| `IoExpander.Expander.WriteShadow` | components/io_extension/io_extension.c:103-119 | pushes the whole shadow; the register changes only to the shadow; INVALID_STATE exactly without readiness, TIMEOUT exactly for a busy bus, FAIL exactly for a failed transfer, OK exactly for a delivery |
| `IoExpander.Expander.SetBitsLocked` | components/io_extension/io_extension.c:125-128 | raises the masked shadow bits and pushes, keeping the shadow change also when the push fails |
| `IoExpander.Expander.ClearBitsLocked` | components/io_extension/io_extension.c:130-133 | lowers the masked shadow bits and pushes, keeping the shadow change also when the push fails |
| `IoExpander.Expander.OutputWithReadback` | components/io_extension/io_extension.c:259-327 | changes one pin under the mutex, or nothing at all when the mutex is not got |
| `IoExpander.Expander.Initialize` | components/io_extension/io_extension.c:168-250 | the three-attempt probe loop makes the driver ready, with a shadow of all ones, unless setup fails or the last attempt that reached the bus was not answered; the register is not written |
| `IoExpander.InitOutcome` | components/io_extension/io_extension.c:213-248 | with a good setup, an answer to any of the three attempts makes the driver ready, and without one only three busy attempts do; then the shadow is all ones, and the register is what it was either way |
| `IoExpander.BitStep` | components/io_extension/io_extension.c:125-133 | after any call each shadow bit is what the call asked of its pin, and otherwise unchanged |
| `IoExpander.ShadowIsLastAsked` | components/io_extension/io_extension.c:103-133 | for every history and every pin, the shadow bit is the last level asked for since initialisation |
| `IoExpander.DeliveryCatchesUp` | components/io_extension/io_extension.c:103-119 | after any successful transmit the register equals the shadow on every pin, so a request whose own transmit failed is delivered by the next success |
| `IoExpander.RegisterWasShadow` | components/io_extension/io_extension.c:103-119 | at any moment the register holds its power-on value or a byte that was the shadow at some earlier moment |
| `IoExpander.ReadyUnanswered` | components/io_extension/io_extension.c:213-248 | an initialisation succeeds without an answer from the device exactly when the bus is busy three times; an unanswered probe followed only by busy attempts fails |
| `IoExpander.ReadyIffInit` | components/io_extension/io_extension.c:181-249 | over every history the driver is ready exactly when some initialisation with a good setup had a probe answered or found the bus busy on all three attempts |
| `ChipSelect.Driver.Lock` | components/sd/sd_host_extcs.c:272-297 | takes the two locks in order and gives the first back when the second is refused |
| `ChipSelect.Driver.Unlock` | components/sd/sd_host_extcs.c:299-308 | gives back exactly the locks the flags say are held |
| `ChipSelect.Driver.SetCs` | components/sd/sd_host_extcs.c:346-425 | computes the specified step: early return from the cache, two writes with one recovery between them, distrust after failure, and the last expander error |
| `ChipSelect.SetCsMeans` | components/sd/sd_host_extcs.c:346-425 | success means the real line is at the level asked for, also when nothing was written; failure after the locks leaves the cache distrusted |
| `ChipSelect.SetCsResult` | components/sd/sd_host_extcs.c:346-425 | with both locks, no early return and a ready expander, OK exactly when the first transmit is delivered, or recovery succeeds and the second one is; otherwise the error is that of the last transmit attempted, by how it failed |
| `ChipSelect.OtherPinsKept` | components/sd/sd_host_extcs.c:346-425 | no call changes the level asked for on any other pin |
| `ChipSelect.FaultOnFailure` | components/sd/sd_host_extcs.c:363-424 | a call that fails with both locks in hand leaves an expander error behind, and what is left is never OK |
| `ChipSelect.WillingSucceeds` | components/sd/sd_host_extcs.c:346-425 | with both locks to be had and a bus that delivers, every call on a ready expander succeeds, and none makes it less ready |
| `ChipSelect.LocksBalanced` | components/sd/sd_host_extcs.c:272-308 | every return path gives back exactly the locks it took |
| `ChipSelect.CacheSound` | components/sd/sd_host_extcs.c:346-425 | in every state reached by chip-select calls, mounts and calls of other tasks on other pins, a trusted known level is the level of the real output pin |
| `ChipSelect.OtherTaskOnPin` | components/sd/sd_host_extcs.c:360-375 | once another task has written the chip-select pin itself, the cache is sound if and only if it wrote the level already there |
| `ChipSelect.EarlyReturnIsRewrite` | components/sd/sd_host_extcs.c:360-375 | the early return and a rewrite leave the same pin and the same cache; they leave the same whole state if and only if no earlier request is undelivered |
| `SdResponse.Filter` | components/sd/sd_host_extcs.c:889-972 | the popcount, 0x5F and mask rules accept exactly 0x00, 0x01 and, where allowed, 0x05, and call every other byte noise |
| `SdResponse.WaitMeans` | components/sd/sd_host_extcs.c:889-972 | the wait succeeds exactly when, in time and before any failed transfer, a byte comes that is 0x00, 0x01 or, where allowed, 0x05 with the filter on, and any byte with bit 7 clear without it |
| `SdResponse.WaitForR1` | components/sd/sd_host_extcs.c:889-972 | the wait is a plain scan: it returns the first accepted byte among the samples the count and the deadline allow, a bus error at once, and at the end INVALID_RESPONSE if and only if some sample was not 0xFF, else TIMEOUT |
| `SdInit.Host.Assert` | components/sd/sd_host_extcs.c:579-590 | when the assertion succeeds the real output pin is low, also after anything other tasks do on their own pins in between |
| `SdInit.Host.SendCommand` | components/sd/sd_host_extcs.c:1487-1585 | every attempt is recorded with its true outcome; a frame goes out only while the real select line is low; once it is out, OK exactly when an accepted R1 begins within 64 bytes and the deadline and the rest of the response follows without a failed transfer, and then the buffer holds those bytes; a fault never touches a card already ready |
| `SdInit.Host.ReadWindow` | components/sd/sd_host_extcs.c:1139-1485 | CMD0 counts as answered if and only if 0x01 occurs in the window before any failed transfer |
| `SdInit.Host.LowSpeedInit` | components/sd/sd_host_extcs.c:1629-1980 | for every card, bus and clock: OK if and only if the final state is ready, if and only if the trace is a complete legal initialisation. A card that answers CMD0, echoes or refuses CMD8, accepts CMD55, is busy on CMD41 for any number of rounds and then ready, and answers CMD58 is initialised if the ready round begins before the deadline, with CMD58 last and HCS in every CMD41 exactly if CMD8 was echoed; if the deadline passes first, the result is TIMEOUT. A card that refuses CMD8 and CMD55 and answers CMD1 in time, busy any number of times first, is initialised by CMD1. A failure is a legal prefix with its reason: three CMD0 attempts or a select that failed; the deadline passed; or a ready CMD41 followed by exactly three CMD58 attempts, none answered ready |
| `SdInit.Host.ResetAndCmd0` | components/sd/sd_host_extcs.c:1139-1485 | an unanswered reset means no lock, a failed select, or exactly three attempts; with three, what was heard is reported exactly |
| `SdInit.Host.AppInit` | components/sd/sd_host_extcs.c:1791-1852 | the rounds end up only right after a CMD41 that reported ready, leave for CMD1 only after two flagged CMD55 attempts of a card that refused CMD8, and otherwise only at the deadline; a card that goes by a plan reaches its end |
| `SdInit.Host.ReadOcr` | components/sd/sd_host_extcs.c:1921-1967 | appends one to three CMD58 attempts and nothing else, stopping at the first answered ready; failure means three, none of them answered ready, and the error is that of the last |
| `SdInit.BusyCooperates` | components/sd/sd_host_extcs.c:1629-1980 | with rounds as long as their 50 ms delay, an SDHC card is of the first kind when it is busy for fewer than thirty rounds and of the one that times out when it is busy for thirty or more |
| `SdInit.PatternIsEcho` | components/sd/sd_host_extcs.c:1725-1729 | the 32-bit comparison with 0x1AA is equality of the four echoed bytes |
| `SdInit.CommandsInPlace` | components/sd/sd_host_extcs.c:1629-1980 | in any legal trace CMD41 comes right after an accepted CMD55 with HCS set if and only if CMD8 was echoed, CMD1 only after CMD8 was refused and two CMD55 attempts in a row were flagged, CMD58 only after CMD41 reported ready, only CMD0 before CMD0 is answered, every argument is the source constant, and every frame goes out with the select line low |
| `SdInit.SilentIsRetried` | components/sd/sd_host_extcs.c:1721-1780 | a first CMD8 that is silent is followed by a second CMD8 before anything else |
| `SdInit.PhaseRemembers` | components/sd/sd_host_extcs.c:1629-1980 | the phase of a trace determines whether CMD8 was echoed or refused, how often it was tried, how many CMD55 attempts in a row were flagged and what came last |
| `SdInit.CompletedTrace` | components/sd/sd_host_extcs.c:1629-1980 | a completed trace has CMD0 answered, one or two CMD8, and ends in CMD58 after a ready CMD41 with HCS exactly if CMD8 was echoed, or in CMD1 on a card that refused CMD8, after two flagged CMD55 attempts in a row |
| `SdInit.FlaggedIsRefusal` | components/sd/sd_host_extcs.c:1807-1825 | a CMD55 attempt whose response byte has bit 2 set is a refusal by the card if and only if the attempt returned OK, which the driver does not ask |
| `SdInit.SilentToMmc` | components/sd/sd_host_extcs.c:1807-1869 | after a refused CMD8, two CMD55 attempts that are unanswered or never sent lead the protocol to a complete initialisation by CMD1 |
| `SdInit.InitWithoutCmd55` | components/sd/sd_host_extcs.c:1629-1980 | a run of the driver that returns OK with CMD1 as its last command and no CMD55 frame on the wire |
| `SecureFile.Disk.Save` | components/storage_core/storage_core.c:30-80 | succeeds exactly when open, both writes and the rename do, and then the path holds what the flush kept of header and data; fixes the final files and every state the medium passes through |
| `SecureFile.Disk.Load` | components/storage_core/storage_core.c:82-147 | OK exactly when the file has the magic, its length field fits and the checksum of the bytes behind the header matches; NOT_FOUND exactly without the file, INVALID_SIZE exactly below 32 bytes, and for every other error the exact condition on the bytes; the expected version changes nothing |
| `SecureFile.SaveThenLoad` | components/storage_core/storage_core.c:30-147 | after a save that reports OK with a flush that synced, a load returns OK and exactly the data, whatever version it expects |
| `SecureFile.ImageLayout` | components/storage_core/storage_core.c:43-57 | the image is 32 bytes of header, then the data: the magic as the bytes 43 53 5A A5, version, checksum and length, low byte first, then zeros |
| `SecureFile.LoadExact` | components/storage_core/storage_core.c:95-146 | a load returns d if and only if memory is there and the file carries the magic, the length of d, d behind the header, and the checksum of d |
| `SecureFile.RoundTrip` | components/storage_core/storage_core.c:43-57 | a saved image loads back as exactly the data, for every length and version |
| `SecureFile.TruncationRefused` | components/storage_core/storage_core.c:95-131 | of all prefixes of an image only the whole image loads |
| `SecureFile.WordRoundTrip` | components/storage_core/storage_core.c:43-49 | the little-endian header fields read back as written |
| `SecureFile.TmpIsPath` | components/storage_core/storage_core.c:34-35 | the 128-byte name buffer makes the temporary file the file itself exactly for paths of 127 characters |
| `SecureFile.TmpShared` | components/storage_core/storage_core.c:34-35 | two paths share a temporary file if and only if both have at least 123 characters and their temporary names agree on the first 127 |
| `SecureFile.OthersUntouched` | components/storage_core/storage_core.c:37-75 | at every moment of a save any file but the temporary one is unchanged, except the saved path once the rename is done |
| `SecureFile.CrashAtomic` | components/storage_core/storage_core.c:37-75 | with the medium holding prefixes of the stream, power loss at any step leaves the old contents or the complete new image, if and only if the path does not have 127 characters |
| `SecureFile.CrashInPlace` | components/storage_core/storage_core.c:34-57 | for a path of 127 characters power can fail right after the open, or after the first header byte, with the old contents gone and only a proper prefix of the header in the file |
| `SecureFile.SuccessLoadsIffFlushed` | components/storage_core/storage_core.c:65-75 | after a reported success the data loads back if and only if the unchecked flush kept the whole stream |
| `SecureFile.HistoryKeepsLast` | components/storage_core/storage_core.c:30-80 | after any history of saves, failed saves and power losses, a path no save uses as its temporary name holds the image of its last renamed save |
| `SecureFile.HistoryLoadsLast` | components/storage_core/storage_core.c:30-147 | so a load returns the data of that save, or whatever the path held at the start |
| `NetManager.Manager.UpdateState` | components/net/src/net_manager.c:103-117 | posts an event exactly when state or reason changes |
| `NetManager.Manager.ScheduleRetry` | components/net/src/net_manager.c:314-341 | arms the timer only with credentials, a worker, a timer and fewer than eight counted retries; past the limit it only stops the pending one |
| `NetManager.Manager.StartStationIfProvisioned` | components/net/src/net_manager.c:282-312 | reports success exactly when there are credentials and the station runs afterwards; a failure is posted as NOT_PROVISIONED without credentials and FAILED with them, a fresh start as CONNECTING, and nothing else is posted |
| `NetManager.Manager.HandleDisconnected` | components/net/src/net_manager.c:392-418 | clears all link flags; posts WRONG_PASSWORD exactly for a failed or expired authentication and a handshake timeout, else FAILED; with autoconnect doubles the backoff up to 30 s and schedules |
| `NetManager.Manager.SetWifi` | components/net/src/net_manager.c:498-568 | succeeds exactly for names and passwords of legal length, stored where asked and applied; only then are backoff and retry count cleared |
| `NetManager.AcceptedMeans` | components/net/src/net_manager.c:498-568 | accepted credentials are set, with the backoff at 1000 ms and the count afresh; with a running station, autoconnect and a willing platform exactly one retry is counted, pending in 10 ms |
| `NetManager.Manager.ForgetWifi` | components/net/src/net_manager.c:726-752 | stops the timer, clears credentials and link, resets the backoff and keeps the retry count |
| `NetManager.Manager.constructor` | components/net/src/net_manager.c:599-711 | after start-up credentials are set exactly when they were found and applied, nothing is armed or counted, worker and watchdog exist only with a running station, and a station that failed to start has been reported |
| `NetManager.Manager.HandleStaStart` | components/net/src/net_manager.c:374-391 | without credentials or autoconnect changes nothing; otherwise posts CONNECTING, and exactly a connect call that fails touches the retry worker, arming the backoff when an attempt is left |
| `NetManager.Manager.HandleGotIp` | components/net/src/net_manager.c:419-444 | raises all link flags, resets backoff and retry count, stops the timer and posts CONNECTED |
| `NetManager.Manager.RunWatchdog` | components/net/src/net_manager.c:229-241 | schedules a retry after 5 ms exactly when there are credentials and no link |
| `NetManager.ProvisioningMeans` | components/net/src/net_manager.c:343-370 | changes nothing without credentials; touches the retry worker only with autoconnect and a station that runs afterwards, and then leaves a retry pending in 10 ms while attempts are left |
| `NetManager.AlwaysSound` | components/net/src/net_manager.c:103-117 | in every state of every history: a timer is armed only while credentials are set, at most eight retries are counted, CONNECTED means all link flags are up, and posted events never repeat and end in the current state |
| `NetManager.BackoffClosedForm` | components/net/src/net_manager.c:407-416 | with autoconnect on, the backoff is min(30000, 1000 * 2^k) for k disconnects since the last IP address, accepted credentials or forget |
| `NetManager.CountClosedForm` | components/net/src/net_manager.c:330-335 | the retry count is the number of retries asked for since it was cleared, capped at eight |
| `NetManager.ArmsMeans` | components/net/src/net_manager.c:314-341 | whatever event starts a timer, there are credentials, a worker, a timer and an attempt left, after a bring-up also a running station; the delay is 5 ms from the watchdog, 10 ms from a bring-up, and the backoff otherwise |
| `NetManager.StartsBounded` | components/net/src/net_manager.c:330-341 | in every history at most eight retry timers are started between two clearings of the count |
| `NetManager.LinkClosedForm` | components/net/src/net_manager.c:392-425 | all three link flags agree with the last IP address, disconnect or forget in the history |
| `NetManager.LimitCancelsPending` | components/net/src/net_manager.c:328-334 | once eight retries are counted, the next request cancels the retry still pending |
| `NetManager.SpentStaysSpent` | components/net/src/net_manager.c:330-334 | from then on no history without an IP address or accepted credentials arms a timer again |
| `NetManager.WatchdogCutsWait` | components/net/src/net_manager.c:235-238 | a watchdog tick while the link is down replaces the pending wait by 5 ms, however large the backoff |
| `I2cBackoff.Stats.NoteSuccess` | components/i2c/i2c_bus_shared.c:40-51 | counts successes only inside a streak; the fourth clears streak, count and backoff |
| `I2cBackoff.Stats.NoteError` | components/i2c/i2c_bus_shared.c:53-64 | extends the 32-bit streak, clears the success count and moves the backoff to its next value |
| `I2cBackoff.Stats.RecoverInternal` | components/i2c/i2c_bus_shared.c:198-214 | an unforced recovery within 200 ms of the last one is refused and changes nothing; every other one, the first included, takes place and notes its time, and only a forced one drops the backoff |
| `I2cBackoff.ClosedForm` | components/i2c/i2c_bus_shared.c:40-64 | for every history the streak is the errors since it last ended modulo 2^32, the success count is below four, and the backoff is 0 or min(T200, T10 * 2^(k-1)) for k errors since it was dropped |
| `I2cBackoff.BackoffNext` | components/i2c/i2c_bus_shared.c:58-63 | for every 32-bit tick rate the doubling never overflows and gives the next value of the closed form |
| `I2cBackoff.StreakZero` | components/i2c/i2c_bus_shared.c:40-64 | a zero streak comes with a non-zero backoff exactly when a positive multiple of 2^32 errors has been counted without the backoff being dropped; never in a history of fewer than 2^32 calls |
| `I2cBackoff.FourSuccessesRestore` | components/i2c/i2c_bus_shared.c:40-51 | from every reachable state four successes in a row clear the backoff if and only if the streak is non-zero or the backoff already zero |
| `I2cBackoff.WrappedStreakSticks` | components/i2c/i2c_bus_shared.c:42-56 | the exception is real: after 2^32 errors the streak reads zero, the backoff is at its maximum, and no number of successes clears it |
| `I2cBackoff.RecoveriesApart` | components/i2c/i2c_bus_shared.c:200-207 | an unforced recovery comes at least 200 ms after every recovery before it |
| `I2cBackoff.RecoversIff` | components/i2c/i2c_bus_shared.c:200-207 | a recovery takes place exactly when it is forced, the first one, or 200 ms or more after the last one |

## Left out

- FdTable.Efs.Open: mount state, flags other than create and exclusive, the post-open sync, attributes and timestamps; the outcome of `lfs_file_opencfg` beyond what the namespace decides is an oracle.
- FdTable.Efs.Rename: paths are exact keys; two spellings of one path ("a//b", "./a") are different keys, and the interplay of open descriptors with LittleFS metadata is not modelled.
- PathWalk.Mkdirs: the buffer length is the Kconfig default 64; the calls from open, unlink and rename that use mkdirs and rmdirs in the SPIFFS compatibility mode are not wired in, and an empty path is excluded: on it mkdirs starts past the end of the string and rmdirs before the buffer.
- Affine.SolveAffine: coefficients are exact reals; float rounding, overflow and non-finite values are not modelled, nor are the error metrics and the condition number.
- AxisFit.SolveFallback: coordinates are 32-bit but their differences do not wrap; the non-finite result of a division by a zero extent is an absent line.
- TouchStore.Nvs.Save: opening the namespace is one outcome, an error and whether the flash was erased; the legacy orientation flags, which the erase also loses and which are kept in step after a save, are not part of the state.
- IoExpander.Expander.OutputWithReadback: the reads that follow a good write are one outcome.
- ChipSelect.Driver.SetCs: the diagnostic readback and its statistics.
- SdInit.Host.LowSpeedInit: bit-level timing, the MISO health probes, clock raising and sequence statistics other than the flags; the frame's CRC byte. Chip-select calls around an attempt (dummy clocks, releases before CMD0) are arbitrary events before it, and other tasks are taken to leave the card's pin alone.
- SecureFile.Disk.Save: null pointers, and sizes above 32 bits; the checksum is any function of the data.
- SecureFile.Disk.Load: the allocation is one oracle, also for a length of 2^32-1; a read error looks like a short file.
- NetManager.Manager.UpdateState: posting an event is taken to succeed; the source only logs a failure.
- NetManager.AlwaysSound: handlers are atomic steps; races between the event task, the timer task and the watchdog task are not modelled.
- The expiry of a retry timer is an event without a method of its own: all it does is wake the worker, whose connect call does not touch the state.
- NetManager.Manager.SetWifi: the notification of the provisioning task is a separate later step; the manual connect without autoconnect has no effect on the state.
- I2cBackoff.Stats.RecoverInternal: the pin toggling and the re-initialisation are one outcome.
- The CRC inside the two stores (`esp_crc32_le`) and LittleFS itself (`lfs.c`) are not part of this model.
- Reading, writing, seeking, directory iteration and timestamps of the VFS layer: they use the table but do not change it.
- Applying a transform to a touch point and the orientation mapping: clamping and rounding of one expression.
- The user interface, display, web server, HTTP, SNTP and MQTT code, and the JSON and NVS wrappers: plumbing over libraries.
- `lfs_util.c` holds the same CRC a second time.
