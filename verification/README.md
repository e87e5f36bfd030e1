# MicroNT: a model of the kernel's in-memory state

MicroNT is a small x86-64 kernel. This project models the parts of it that live in memory and proves
what they keep:

- **Memory.** The page bitmap (`PmmSpec`, `Pmm`), the 4-level page tables whose frames come from that
  bitmap (`PageTables`, `MappingCosts`, `AddressSpaces`, `AccessRights`, `VirtualMemory`), and the calls
  that hand out user memory (`UserMemorySpec`, `UserMemory`). The heap shape is one tree of tables per address space,
  joined only at the places shared with the kernel. From it follow exactness (one call changes one
  page of one space), isolation over whole runs, which pages user mode may reach and write, that data
  frames are never table frames, and when each call succeeds in terms of free pages.
- **Scheduling and blocking.** Ready rings, sleep list, events, semaphores, mutants and process exit as
  one state machine: moves of threads between lists (`QueueSpec`, `QueueLaws`), the calls
  (`SchedulerSpec`, `SchedulerLaws`, `SchedulerRuns`, `SchedulerCalls`), and classes that do the same on linked structures
  in place (`Threads`, `SchedulerObject`, `WaitChains`, `KernelSync`).
- **The PE32+ loader.** Both export resolvers, section mapping and import patching (`PeFormat`,
  `PeMapping`, `PeImports`, `LoadedImages`, `PeLoader`, `PeLaws`).
- **The FAT image builders**, against an independent reader (`ByteBuffers`, `FatReader`,
  `FatDirectories`, `Fat32Spec`, `Fat32RoundTrip`, `Fat32Tables`, `Fat32Builder`, `Fat12Table`,
  `Fat12Spec`, `Fat12RoundTrip`, `Fat12Builder`), and in raw bytes (`FatFormat`).
- **The object manager** (`ObjectSpec`, `ObjectLaws`, `ObjectCalls`, `ObjectManager`) and the **KSYSTEM_TIME** publish
  order (`SystemTime`).

`AccessRights`, `SchedulerCalls`, `PeLaws`, `ObjectCalls` and `FatFormat` say what the operations compute
in terms of entries, rings, file words, slots and bytes with the constants written out, without the
functions that the specification and the in-place code share.

Each file is one module, named after it. A `…Spec` or law module works on values; the module with the
classes works in place, and its methods' contracts tie the new state to the specification functions.
`dafny verify dfyconfig.toml` checks everything.

## How to read the model

- A page-table entry is its 64-bit value; masks and flags are arithmetic on it. Frames are page numbers.
- A blocking call together with the context switch it ends in is one step. The code re-enables
  interrupts shortly before `Schedule`; the interleavings that this allows are not modelled.
- `Allowed` is what the kernel counts on from its callers: the main thread does not block or exit (it only
  yields, `kernel/core/kernel_main.cpp:1474-1499`), a released count fits 32 bits, a depth does not wrap.
  The classes of `KernelSync` do what the machine does for every other call too (`Sound`); only the
  invariant is then not promised.
- A context switch is the change of the current thread. CR3, MSRs, the TSS, TLB flushes and stacks are
  not part of this model.
- Stores and loads that the loader makes outside the file it was given are not checked by the code; the
  model ends such a walk with the status `Faulted`.
- The FAT readers are written from the Microsoft FAT specification (fatgen103, sections "FAT Data
  Structure" and "FAT Directory Structure") for 512-byte sectors and know nothing of the builders.
- Object headers are numbered in the order of allocation; the number stands for the address.

## What the proofs found

- The guard of NtAllocateVirtualMemory is right for every size up to 2^64 - cursor - 4096; above that the
  sum wraps, the guard passes, and the cursor moves to where it started or to 0 (`GuardExact`,
  `GuardFailsOnWrap`).
- The free-page count is exact if and only if no page is listed as available twice
  (`CountExactIffDisjoint`, `ListedTwiceCountsTwice`); the surplus stays.
- A release keeps a semaphore consistent if and only if the count fits 32 bits (`ReleaseKeepsSemaIff`,
  `FullSemaOverflows`); re-acquiring a mutant does if and only if the depth does not wrap
  (`ReacquireKeepsMutantIff`, `DeepMutantWraps`).
- Setting a manual-reset event that two or more threads wait for leaves it signaled with waiters, and
  nothing else does (`SetEventOverlap`).
- The eight rounds of mkdisk.py always end at (sectors + 95) / 130 sectors for a FAT32 table. It has an
  entry for every cluster if and only if (sectors - 32) mod 130 is between 3 and 128; otherwise the last
  clusters, four at most, have none and a file that reaches them is lost (`EstimateIs`, `TableCoversIff`,
  `LastClusterInTable`), as on a disk of 65 MB (`FullDiskLosesExtra`).
- In the FAT32 image a file is lost to its path if its name starts with the byte E5, as U+597D does in
  UTF-8: readers take the entry for a free one (`ExtrasReadBack`, `FreeNameIsLost`, `HaoTxtIsLost`).
- ".." of /EFI/ and /boot/ in the FAT32 image holds cluster 2; the FAT specification asks for 0 where the
  parent is the root directory (`Dots32`).
- A time slice is five ticks, but one that ends with nobody ready leaves the quantum at 0, and then no tick
  preempts the thread (`SliceLasts`, `SliceEnds`, `Ticked`).
- FAT12 files read back if and only if they are empty or their last cluster is at most 340
  (`Fat12RoundTrip.BootloaderReadsBack`, `KernelReadsBack`).
- Inside the last page with raw data, a mapped section shows what follows the raw data in the file
  instead of zeros (`PeMapping.SectionByte`, `LoadedSectionByte`).
- A namespace path of 64 characters or more outlives its object (`CreateExact`, `LongNameDangles`), and
  the end of an object takes away the entry of another one with the same name in its header
  (`DeathTakesName`).
- `kernel/include/memory.h:83-86` describes CreateUserPml4 differently from the code: the code copies
  the kernel's PML4 slots 1 to 511 and gives slot 0 a directory of its own with the kernel's four low
  entries. The model follows the code.
- TranslateInPml4's mask for 1 GB pages keeps bits 30 to 55; Intel SDM Vol. 3A, section 4.5, has 30 to
  51. The model follows the code.

## Model

| member | source | states |
|---|---|---|
| PmmSpec.AllocFailsIffExhausted | kernel/mm/physical_memory.cpp:88-99 | with page 0 reserved, AllocPage reports 0 exactly when no page is free; with page 0 free, a grant looks like a failure |
| PmmSpec.AllocMeans | kernel/mm/physical_memory.cpp:88-99 | the lowest free page is taken and its address answered; nothing happens if all pages are taken |
| PmmSpec.AllocManyMeans | kernel/mm/physical_memory.cpp:112-131 | the lowest n consecutive free pages are taken, and no others, and the address of the first is answered; nothing happens if there are none, or n is 0 |
| PmmSpec.FreeMeans | kernel/mm/physical_memory.cpp:101-110 | the flag of the page that holds the address is cleared, if there is such a page |
| PmmSpec.StepConserves | kernel/mm/physical_memory.cpp:88-131 | each call moves pages between free and held, keeps their union, and grants only pages that were free |
| PmmSpec.RunConserves | kernel/mm/physical_memory.cpp:88-131 | over any run that frees only held pages, no held page is granted again and free and held pages stay one fixed set |
| Pmm.CountExactIffDisjoint | kernel/mm/physical_memory.cpp:43-66 | the count of the boot loop equals the number of available pages exactly when no page is listed twice |
| Pmm.ListedTwiceCountsTwice | kernel/mm/physical_memory.cpp:43-66 | an input where it does not: two entries that list one page give a count of 2 |
| Pmm.RegionMeans | kernel/mm/physical_memory.cpp:43-60 | a page is made available exactly if it is below 8 GB and lies inside an available entry, with the ends computed in 64 bits |
| Pmm.BitmapPages | kernel/mm/physical_memory.cpp:67-76 | the pages taken back for the bitmap are those that hold a byte of its 256 KB |
| Pmm.Pmm.Init | kernel/mm/physical_memory.cpp:32-86 | exactly the available pages outside the bitmap and the first 2 MB are free; the count is exact iff regions are disjoint; a bad magic number leaves nothing free |
| Pmm.Pmm.AllocPage | kernel/mm/physical_memory.cpp:88-99 | the hinted scan returns the lowest free page of the whole bitmap, or 0 |
| Pmm.Pmm.FreePage | kernel/mm/physical_memory.cpp:101-110 | frees exactly that page if it was taken, else nothing; every page below the hint stays allocated |
| Pmm.Pmm.AllocPages | kernel/mm/physical_memory.cpp:112-131 | the run-counting scan returns the lowest run of free pages and takes exactly it, or 0 |
| PageTables.SamePageIff | kernel/mm/virtual_memory.cpp:33-36 | two addresses are the same page to a walk exactly when bits 12 to 47 agree |
| PageTables.PageTranslates | kernel/mm/virtual_memory.cpp:304-327 | a 4 KB, 2 MB or 1 GB page leads to the base in its entry plus the offset in the page |
| PageTables.WalkPlaces | kernel/mm/virtual_memory.cpp:304-327 | which tables a walk passes is fixed by the heap shape |
| PageTables.PageTableForKeeps | kernel/mm/virtual_memory.cpp:40-61 | making missing tables keeps the shape and every translation of every space, and costs one free frame for each table made |
| PageTables.PageTableForSucceeds | kernel/mm/virtual_memory.cpp:40-61 | the descents succeed exactly when no huge page is in the way and the missing tables fit in free memory |
| PageTables.MissingPlaces | kernel/mm/virtual_memory.cpp:40-61 | without a huge page in the way, the tables a walk lacks are the places on its path where the shape has none |
| MappingCosts.NextFits | kernel/syscall/syscall.cpp:1062-1072 | after the first pages of a list have been taken and mapped, the next one fits exactly if the list up to it fitted at the beginning |
| MappingCosts.PrefixFits | kernel/syscall/syscall.cpp:1062-1072 | a list of pages with its tables fits only if every beginning of it does, so the first failure decides |
| PageTables.MapPageIntoExact | kernel/mm/virtual_memory.cpp:249-262 | success is exactly that; then the raw entry is the page frame of phys, the flags and bit 0, and one page of one space (or of all that share it) shows it and nothing else changes; on failure nothing does; the shape holds; new tables are on the path to the page, each costs one free frame, and every entry that links one has bits 0 to 2 set |
| PageTables.MapPageIntoTranslates | kernel/mm/virtual_memory.cpp:249-327 | after success the page translates to the new frame plus offset and every other address as before |
| PageTables.ProtectPageIntoExact | kernel/mm/virtual_memory.cpp:270-286 | succeeds exactly on a mapped 4 KB page; its raw entry then has the old frame, the new flags and bit 0; changes that page only |
| PageTables.UnmapPageFromExact | kernel/mm/virtual_memory.cpp:331-343 | unmaps exactly one 4 KB page; a huge page or a missing table is left alone |
| PageTables.GetPteIntoAgrees | kernel/mm/virtual_memory.cpp:290-302 | the raw entry is present exactly when the walk finds a 4 KB page, and is the one it uses |
| AddressSpaces.BuildPageTables | boot/uefi/bootloader.cpp:239-265 | the loop fills six pages with the boot map |
| AddressSpaces.BootWf | boot/uefi/bootloader.cpp:239-265 | the boot map is a well-formed shape |
| AddressSpaces.BootIdentity | boot/uefi/bootloader.cpp:239-265 | every address below 4 GB translates to itself, nothing else is mapped |
| AddressSpaces.CreateStep | kernel/mm/virtual_memory.cpp:171-202 | CreateUserPml4 keeps every old view; the new space sees the kernel's shared places and nothing else; new tables were free frames |
| AddressSpaces.LowAgree | kernel/mm/virtual_memory.cpp:192-198 | all spaces translate every address below 4 GB alike |
| AddressSpaces.SameTables | kernel/mm/virtual_memory.cpp:304-327 | memories that agree on the tables translate alike, whatever else differs |
| AddressSpaces.MapSharedUserDataSplits | kernel/mm/virtual_memory.cpp:204-247 | splitting the 2 MB page changes the translation of the KUSER page only, in every space; it fails exactly when memory is exhausted |
| AddressSpaces.MapSharedUserDataMaps | kernel/mm/virtual_memory.cpp:223-226 | on a page already split it is a plain mapping of that page |
| AddressSpaces.RunWf | kernel/mm/virtual_memory.cpp:171-343 | the shape holds after any run of create, map, protect, unmap and share |
| AddressSpaces.RunKeepsView | kernel/mm/virtual_memory.cpp:171-343 | over any run that never touches its place, a page keeps its view |
| AddressSpaces.RunIsolates | kernel/mm/virtual_memory.cpp:171-343 | whatever other user spaces do at their private addresses, no page of a space changes |
| AddressSpaces.PrivateAddresses | kernel/mm/virtual_memory.cpp:182-198 | private is exactly: slot 0 from PDPT index 4 up, and the PML4 slots empty in the kernel's root at creation |
| AddressSpaces.RunLowAgree | kernel/mm/virtual_memory.cpp:171-343 | after any run every space agrees with the kernel below 4 GB |
| AddressSpaces.KuserVisibleEverywhere | kernel/mm/virtual_memory.cpp:204-247 | the KUSER page stays mapped to its frame in every space, later ones included, while no call targets that page |
| AccessRights.PrivateRights | kernel/mm/virtual_memory.cpp:40-61 | user mode may reach, or write, a private page exactly as the bits of its own entry say, since every entry on the way is open |
| AccessRights.MappedRights | kernel/mm/virtual_memory.cpp:249-262 | a private page just mapped has exactly the write and user rights its flags ask for |
| AccessRights.ProtectedRights | kernel/mm/virtual_memory.cpp:270-286 | so has one whose flags were changed |
| AccessRights.RunPathsOpen | kernel/mm/virtual_memory.cpp:171-343 | over any run the entries on the way to private pages stay open |
| AccessRights.RunRights | kernel/mm/virtual_memory.cpp:171-343 | over any run that does not target it, a private page keeps its rights |
| AccessRights.MappedRunRights | kernel/mm/virtual_memory.cpp:171-343 | so a page mapped with some flags has the rights they ask for after any such run |
| AccessRights.BootRights | boot/uefi/bootloader.cpp:239-265 | of the boot map user mode reaches nothing, and the kernel may write everything |
| AccessRights.SharedPageRights | kernel/mm/virtual_memory.cpp:204-247 | after MapSharedUserData the KUSER page is the only one of its 2 MB that user mode reaches, and it is read-only |
| AccessRights.NewSpaceRights | kernel/mm/virtual_memory.cpp:171-202 | a new space has the rights of the kernel below 4 GB, as far as the first entry of the kernel grants them |
| VirtualMemory.Vmm.MapPage | kernel/mm/virtual_memory.cpp:249-262 | the in-place code is MapPageInto, keeps the shape, succeeds exactly when no huge page is in the way and the tables fit, pays one free frame per table, and leaves the raw entry of frame, flags and bit 0 |
| VirtualMemory.Vmm.ProtectPage | kernel/mm/virtual_memory.cpp:270-286 | the in-place code is ProtectPageInto, keeps the shape, and leaves the raw entry of the old frame, the new flags and bit 0 |
| VirtualMemory.Vmm.UnmapPage | kernel/mm/virtual_memory.cpp:331-343 | the in-place code is UnmapPageFrom and keeps the shape |
| VirtualMemory.Vmm.CreateSpace | kernel/mm/virtual_memory.cpp:171-202 | the in-place code is CreateUserPml4; it fails exactly when fewer than two pages are free, changing nothing for anyone |
| VirtualMemory.Vmm.ShareUserData | kernel/mm/virtual_memory.cpp:204-247 | the in-place code is MapSharedUserData and keeps the shape |
| UserMemorySpec.GuardExact | kernel/syscall/syscall.cpp:1042-1058 | the guard is right for every size that does not wrap the sum, and wrong from there on |
| UserMemorySpec.GuardFailsOnWrap | kernel/syscall/syscall.cpp:1042-1058 | a size that passes the guard on a fresh process with no such range |
| UserMemorySpec.RangeIs | kernel/syscall/syscall.cpp:1042-1058 | below those sizes the range is the fewest pages that hold the request, and the cursor moves right behind it |
| UserMemorySpec.TranslateWithinPage | kernel/mm/virtual_memory.cpp:304-327 | inside a 4 KB page a mapping of any size is contiguous |
| UserMemorySpec.ReadUserBytes | kernel/syscall/syscall.cpp:196-212 | every byte returned is the one ReadUserByte gives; it stops short only at the first untranslatable address |
| UserMemorySpec.ReadUserByteMeans | kernel/syscall/syscall.cpp:172-175 | a byte read is that of the frame in the entry at the offset in the page, and 0 if nothing is mapped |
| UserMemorySpec.UserPageIsPrivate | kernel/mm/virtual_memory.cpp:182-198 | the user pages of a space are exactly its pages behind unshared tables: slot 0 from 4 GB up and every slot empty at creation |
| UserMemorySpec.AnonPageMapped | kernel/syscall/syscall.cpp:1062-1072 | a page mapped to a frame just taken has it to itself, and it is no page table |
| UserMemorySpec.ViewPageMapped | kernel/syscall/syscall.cpp:1260-1262 | mapping a section's frame leaves anonymous pages exclusive |
| UserMemorySpec.AnonymousExclusive | kernel/syscall/syscall.cpp:749-1076 | two private pages of any spaces with one frame, one of the pages anonymous, are the same page of the same space |
| UserMemorySpec.GrantsDisjoint | kernel/syscall/syscall.cpp:749-1265 | ranges handed out in one space share no address |
| UserMemory.MemoryCalls.CreateProcess | kernel/ps/process.cpp:270-282 | fails exactly if fewer than two pages are free; a new process has the whole window, all four PEB pages exactly if nine pages were free; no page of another space changes |
| UserMemory.MemoryCalls.SetupPeb | kernel/ps/process.cpp:85-178 | the four pages become exclusive ones, open to user mode for reading and writing, exactly if they and their tables fit; no other page changes; the PEB address is set exactly if a page was free |
| UserMemory.MemoryCalls.SetupTeb | kernel/ps/process.cpp:180-200 | no PEB, no TEB; else the next place is used up, and its page becomes an exclusive one exactly if it and its tables fit; no other page changes |
| UserMemory.MemoryCalls.NtAllocVm | kernel/syscall/syscall.cpp:1041-1076 | for sizes that do not wrap, success is exactly: size not 0, the guard passes, the pages and their tables fit in free memory; then the range starts at the old cursor, is exclusive, and user mode may read and write it; no page outside the range changes; the cursor moves whenever the guard passes |
| UserMemory.MemoryCalls.CarveStack | kernel/syscall/syscall.cpp:749-776 | four exclusive pages at the cursor that user mode may read and write, exactly if the window and free memory have room for them; no other page changes |
| UserMemory.MemoryCalls.NtCreateSection | kernel/syscall/syscall.cpp:1210-1230 | succeeds exactly if the size is 1 to 32 pages, a slot is unused and the pages are free; the first unused slot gets different pages that were free; slots in use keep theirs |
| UserMemory.MemoryCalls.NtMapView | kernel/syscall/syscall.cpp:1248-1265 | succeeds exactly if the handle is good, the window has room and the tables fit in free memory; then the view shows the frames of the section in order, at the cursor, for user mode to read and write; no page outside the range changes |
| UserMemory.RangeRights | kernel/syscall/syscall.cpp:1062-1072 | user mode may reach and write every page of such a range |
| QueueSpec.SwitchPlaced | kernel/ps/scheduler.cpp:104-132 | a switch hands over exactly when a thread is ready, and leaves every thread in one place |
| QueueSpec.MoveParked | kernel/ps/scheduler.cpp:26-54 | every legal move leaves each thread in exactly one list, the one its state names |
| QueueLaws.FirstComeFirstServed | kernel/syscall/syscall.cpp:699-728 | threads leave a wait list in the order they joined it |
| QueueLaws.RunsAfterExactlyItsTurn | kernel/ps/scheduler.cpp:43-54 | a thread at index k of its queue runs with switch k + 1, whatever arrives at its priority or below |
| QueueLaws.WakeMovesExact | kernel/ps/process.cpp:407-415 | n wake-ups take the first n waiters, in order, and ready each once |
| QueueLaws.RouseMovesExact | kernel/ps/scheduler.cpp:243-261 | the pass unlinks exactly the due sleepers, keeps the others in order, readies each once |
| SchedulerLaws.EffectPlaced | kernel/ps/scheduler.cpp:104-261 | every call leaves each thread in exactly one place |
| SchedulerLaws.BlockingNeedsAReadyThread | kernel/ps/scheduler.cpp:104-132 | a thread that blocks leaves the machine placed exactly when another is ready |
| SchedulerRuns.StepKeepsInvariant | kernel/ps/scheduler.cpp:26-261 | every allowed step keeps placement and all object invariants |
| SchedulerRuns.RunKeepsInvariant | kernel/ps/scheduler.cpp:26-261 | so does every run |
| SchedulerRuns.BootIsConsistent | kernel/ps/scheduler.cpp:59-78 | the state after Init and Start is consistent |
| SchedulerRuns.SetEventOverlap | kernel/sync/event.cpp:28-57 | an event is both signaled and waited for after EventSet exactly if it is manual-reset and had two waiters |
| SchedulerRuns.ReleaseKeepsSemaIff | kernel/syscall/syscall.cpp:1302-1315 | 0 <= count <= max and "waiters imply count 0" survive a release exactly when the sum fits 32 bits |
| SchedulerRuns.FullSemaOverflows | kernel/syscall/syscall.cpp:1311 | an input where it does not |
| SchedulerRuns.ReacquireKeepsMutantIff | kernel/syscall/syscall.cpp:706 | owner and depth stay consistent exactly when the depth does not wrap |
| SchedulerRuns.DeepMutantWraps | kernel/syscall/syscall.cpp:706 | an input where they do not |
| SchedulerRuns.RunConservesUnits | kernel/syscall/syscall.cpp:714-728 | initial plus released units are the count plus granted plus clamped ones, over every run |
| SchedulerRuns.RunServesInOrder | kernel/syscall/syscall.cpp:699-728 | semaphores and mutants serve first come, first served, over every run |
| SchedulerRuns.RunBoundsWaiting | kernel/ps/scheduler.cpp:104-132 | over every run a ready thread moves up one place per switch while higher queues stay empty |
| SchedulerRuns.WakesWhenDue | kernel/ps/scheduler.cpp:161-172 | the tick that reaches the deadline readies the sleeper |
| SchedulerRuns.SleepsThroughRun | kernel/ps/scheduler.cpp:217-261 | before the deadline a sleeper stays asleep, over every run |
| SchedulerRuns.SleepsExactly | kernel/ps/scheduler.cpp:217-261 | Sleep(ms) lasts ceil(ms / 10) - 1 further ticks and ends with the next one |
| SchedulerRuns.HolderRun | kernel/syscall/syscall.cpp:699-713 | over every run, whatever switches and calls of other threads it interleaves, a mutant stays with its holder while the holder has acquired it more often than released it, at exactly the difference as depth |
| SchedulerRuns.OthersBlock | kernel/syscall/syscall.cpp:699-713 | mutual exclusion: after every such run a wait of any other thread does not return; the caller joins the waiters at the back and another thread runs |
| SchedulerRuns.WaitersStay | kernel/syscall/syscall.cpp:1329-1344 | through every such run the waiters keep waiting, in the same places |
| SchedulerRuns.LastRelease | kernel/syscall/syscall.cpp:1335-1340 | the release that catches up with the acquisitions hands the mutant to the first waiter at depth 1, or frees it |
| SchedulerCalls.PushQueues | kernel/ps/scheduler.cpp:22-33 | a thread of priority 0, 1 or 2 goes to the back of that ring, any other to the back of ring 1 |
| SchedulerCalls.TopOrNobody | kernel/ps/scheduler.cpp:43-54 | QueuePop takes from ring 2 before 1 before 0, and finds nothing exactly if all are empty |
| SchedulerCalls.DispatchSwitches | kernel/ps/scheduler.cpp:104-154 | a switch takes the first thread of the highest ring that has one, with a quantum of 5; the thread it displaces goes to the back of the ring of its priority if it was running |
| SchedulerCalls.RunKeepsRanks | kernel/ps/scheduler.cpp:22-54 | over every allowed run each ready thread is in the ring of its priority |
| SchedulerCalls.WakeMovesRelease | kernel/ps/scheduler.cpp:200-206 | the first n waiters go to the back of their rings one by one, in order |
| SchedulerCalls.EventWaited | kernel/sync/event.cpp:71-106 | each outcome of a wait on an event: pass and reset, give up, or block at the front |
| SchedulerCalls.EventWasSet | kernel/sync/event.cpp:28-60 | each outcome of setting an event: the first waiter readied, or the event signaled |
| SchedulerCalls.EventWasReset | kernel/sync/event.cpp:62-66 | resetting clears the signal and nothing else |
| SchedulerCalls.SemaWaited | kernel/syscall/syscall.cpp:696-713 | each outcome of a wait on a semaphore: a unit less, give up, or block at the back |
| SchedulerCalls.SemaWasReleased | kernel/syscall/syscall.cpp:1302-1315 | units go to the waiters first, the rest to the count in 32 bits, up to the maximum |
| SchedulerCalls.MutantWaited | kernel/syscall/syscall.cpp:714-728 | each outcome of a wait on a mutant: taken, one deeper in 32 bits, or block at the back |
| SchedulerCalls.MutantWasReleased | kernel/syscall/syscall.cpp:1329-1344 | only the owner releases; at depth 0 the first waiter owns the mutant and is ready, or it is free |
| SchedulerCalls.ProcessWaited | kernel/syscall/syscall.cpp:683-695 | each outcome of a wait on a process: pass, give up, or block at the front |
| SchedulerCalls.ThreadExited | kernel/ps/process.cpp:397-424 | the thread is terminated and counted out; the last one makes the process exited and readies everybody who waits for that |
| SchedulerCalls.ThreadCreated | kernel/ps/process.cpp:288-338 | a new thread has NORMAL priority, is last in that ring, and is counted in its process |
| SchedulerCalls.PrioritySet | kernel/syscall/syscall.cpp:1198-1208 | levels 0 to 2 become the priority of the caller, any other is refused |
| SchedulerCalls.Yielded | kernel/ps/scheduler.cpp:178-182 | a yield is a switch and nothing else |
| SchedulerCalls.Slept | kernel/ps/scheduler.cpp:217-234 | the sleeper is first in the sleep list, due ceil(ms / 10) ticks from now, and a switch follows |
| SchedulerCalls.Ticked | kernel/ps/scheduler.cpp:161-176 | a tick readies who is due and burns one tick of the quantum; it switches when the quantum ends, and never while it is 0 |
| SchedulerCalls.WokenAreDue | kernel/ps/scheduler.cpp:243-261 | who wakes is exactly who sleeps with a deadline that has come |
| SchedulerCalls.SliceLasts | kernel/ps/scheduler.cpp:161-176 | while the quantum lasts, ticks leave the thread on the processor and count it down |
| SchedulerCalls.SliceEnds | kernel/ps/scheduler.cpp:161-176 | the tick that ends the quantum switches: five ticks after it got the processor, a thread that kept it goes behind its equals if anybody is ready |
| Threads.RingPushBack | kernel/ps/scheduler.cpp:26-33 | the node is linked last in its ring |
| Threads.RingRemove | kernel/ps/scheduler.cpp:35-41 | the node at an index is unlinked, the others stay in order; a node in no ring is left alone |
| SchedulerObject.Scheduler.QueuePop | kernel/ps/scheduler.cpp:43-54 | the first thread of the highest non-empty ring, unlinked |
| SchedulerObject.Scheduler.ScheduleInternal | kernel/ps/scheduler.cpp:104-154 | the linked code is the switch of the state machine (see SchedulerCalls.DispatchSwitches for what that is) |
| SchedulerObject.Scheduler.WakeSleepers | kernel/ps/scheduler.cpp:243-261 | the pointer-to-pointer loop is the pass of the state machine |
| SchedulerObject.Scheduler.Tick | kernel/ps/scheduler.cpp:161-172 | wakes sleepers, burns the quantum, and switches when it runs out |
| SchedulerObject.Scheduler.Sleep | kernel/ps/scheduler.cpp:217-234 | the thread joins the sleep list at the front and switches away |
| KernelSync.Kernel.constructor | kernel/ps/scheduler.cpp:59-78 | the linked structures at boot are the boot state |
| KernelSync.Kernel.EventSet | kernel/sync/event.cpp:28-57 | new state and result are the machine's step for it |
| KernelSync.Kernel.EventReset | kernel/sync/event.cpp:62-66 | likewise |
| KernelSync.Kernel.EventWait | kernel/sync/event.cpp:71-106 | likewise, for every call that blocks or not and whoever makes it; the invariant is kept unless the main thread blocks |
| KernelSync.Kernel.SemaWait | kernel/syscall/syscall.cpp:714-728 | likewise, whoever calls |
| KernelSync.Kernel.SemaRelease | kernel/syscall/syscall.cpp:1302-1315 | likewise for every count, with the 32-bit sum: the unlinking loop, then the clamped count; the invariant is kept if the sum fits |
| KernelSync.Kernel.MutantWait | kernel/syscall/syscall.cpp:699-713 | likewise, whoever calls, and at every depth: the 32-bit depth wraps; the invariant is kept if it does not |
| KernelSync.Kernel.MutantRelease | kernel/syscall/syscall.cpp:1329-1344 | likewise: hand-off to the first waiter |
| KernelSync.Kernel.ProcessWait | kernel/syscall/syscall.cpp:683-698 | likewise, whoever calls |
| KernelSync.Kernel.Schedule | kernel/ps/scheduler.cpp:178-182 | likewise: the yielding thread goes behind its equals and the next one runs |
| KernelSync.Kernel.Sleep | kernel/ps/scheduler.cpp:217-234 | likewise, whoever calls |
| KernelSync.Kernel.TimerTick | kernel/ps/scheduler.cpp:161-172 | likewise |
| KernelSync.Kernel.SetPriority | kernel/syscall/syscall.cpp:1198-1208 | likewise |
| KernelSync.Kernel.CreateThread | kernel/ps/process.cpp:288-338 | likewise: a new READY thread, counted in its process |
| KernelSync.Kernel.Terminate | kernel/ps/process.cpp:397-424 | likewise, whoever calls: the last thread of a process wakes every exit waiter |
| SystemTime.EqualHighsAreAPublishedValue | kernel/core/shareduserdata.cpp:34-43 | in every interleaving, equal upper halves mean that the pair read stands for one value only, which was published and is no older than the last value complete when the read began |
| SystemTime.TornReadIsDetected | kernel/core/shareduserdata.cpp:34-43 | an interleaving where the pair read was never published and the upper halves differ |
| SystemTime.KSystemTime.WriteSystemTime | kernel/core/shareduserdata.cpp:36-43 | the page shows, one store after the other, the three states of a write in the protocol; at the end the fields are the signed upper and the unsigned lower half of the value |
| PeFormat.RvaToOffFinds | kernel/ldr/pe_loader.cpp:94-105 | the section walk finds the section that holds an address, at the offset the file has it |
| PeFormat.SameBytes | kernel/ldr/pe_loader.cpp:159-222 | for addresses in the file part of sections, reading the image is reading the file |
| PeFormat.ResolversAgree | user/kernel32/kernel32.cpp:165-182 | on a well-formed image GetProcAddress equals FindExport for every name, and reads no unmapped byte for a name that ends |
| PeLaws.LoadMeans | kernel/ldr/pe_loader.cpp:80-137 | loads are little endian |
| PeLaws.StrEqMeans | kernel/ldr/pe_loader.cpp:29-32 | streq is true exactly if the bytes up to the first zero are the text |
| PeLaws.RvaToOffMeans | kernel/ldr/pe_loader.cpp:94-105 | an address has the file offset that the first section header covering it gives, in 32 bits, and 0 if none does |
| PeLaws.FindExportMeans | kernel/ldr/pe_loader.cpp:80-137 | the address is base plus RVA in 64 bits, where the RVA is the word at funcs + 4 * ordinal and the ordinal the half word at ords + 2 * i for the first name i that is the text; it is 0 if no name is, or a table is outside every section |
| PeLaws.GetProcAddressMeans | user/kernel32/kernel32.cpp:165-182 | the same on the mapped image, with the tables addressed from its base |
| PeMapping.SectionByte | kernel/ldr/pe_loader.cpp:201-216 | which byte of a section page comes from the file and which is zero |
| PeMapping.SectionSeen | kernel/ldr/pe_loader.cpp:201-216 | every mapped byte of every section of a laid-out image reads as that byte |
| PeMapping.ImageShows | kernel/ldr/pe_loader.cpp:159-222 | the laid-out image shows the header page and the file part of every section |
| PeImports.SlotWanted | kernel/ldr/pe_loader.cpp:247-302 | a walk that succeeds asks for every by-name slot of every descriptor the address that the named module exports under its thunk's name |
| PeImports.AppliedReadsBack | kernel/ldr/pe_loader.cpp:143-154 | stored in order, aligned distinct slots all read back their addresses, and other bytes of the image are as before |
| PeImports.AppliedElsewhere | kernel/ldr/pe_loader.cpp:143-154 | a byte of memory behind no slot keeps its value |
| PeImports.StoredReadsBack | kernel/ldr/pe_loader.cpp:143-154 | eight bytes stored through a translation are what a load at that address gives; no other byte of physical memory changes |
| LoadedImages.ReadsImage | kernel/mm/virtual_memory.cpp:304-327 | reading an image through the page tables reads its pages; no two of its bytes are one byte of memory |
| LoadedImages.ImageIsData | kernel/ldr/pe_loader.cpp:201-219 | no frame behind an image page is a page table |
| LoadedImages.LowBase | kernel/ldr/pe_loader.cpp:159-176 | every aligned base between 4 GB and 504 GB has private pages for every 32-bit address of an image |
| PeLoader.ResolveExport | kernel/ldr/pe_loader.cpp:80-137 | the loops are FindExport (see PeLaws.FindExportMeans) |
| PeLoader.ResolveProc | user/kernel32/kernel32.cpp:165-182 | the loop is GetProcAddress (see PeLaws.GetProcAddressMeans) |
| PeLoader.FillSectionPage | kernel/ldr/pe_loader.cpp:201-216 | the zeroing and copying loops fill the section page |
| PeLoader.Loader.RegisterModule | kernel/ldr/pe_loader.cpp:50-68 | append-only, full at 64, names cut to 31 bytes |
| PeLoader.Loader.MapSections | kernel/ldr/pe_loader.cpp:159-222 | succeeds exactly if the pages of the image and the tables they need fit in free memory; then the whole image is mapped on frames of its own, the header page read-only and each section page with the bits its section asks for; on either outcome no page outside the image changes |
| PeLoader.Loader.PatchIatSlot | kernel/ldr/pe_loader.cpp:143-154 | fails exactly if the address is not mapped; else a load at that address of the space then gives the value |
| PeLoader.Loader.ResolveImports | kernel/ldr/pe_loader.cpp:224-304 | the wanted slots are stored in order up to the first unmapped one, and the status says how the walk ended |
| PeLoader.Loader.LoadPe | kernel/ldr/pe_loader.cpp:317-352 | bad headers change nothing; else the status is: no resources if the image does not fit or a wanted slot is unmapped, and otherwise what the import walk ends with; success means laid out and patched, with the entry point; no page outside the image changes |
| PeLoader.Loader.LoadAndRegister | kernel/ldr/pe_loader.cpp:354-361 | likewise, and the module is registered |
| PeLoader.LoadedResolves | user/kernel32/kernel32.cpp:165-182 | after a load, GetProcAddress in the process equals FindExport on the file, imports patched or not |
| PeLoader.LoadedImports | kernel/ldr/pe_loader.cpp:224-304 | after a load, a by-name slot read in the process holds what the named module exports |
| PeLaws.LoadedImportsMean | kernel/ldr/pe_loader.cpp:224-304 | after a load the slot of a by-name import holds the address that the first module of that name exports under the text behind the hint |
| PeLaws.LoadedExportsMean | user/kernel32/kernel32.cpp:165-182 | after a load GetProcAddress gives, for every text, the address that the tables of the file say |
| PeLaws.HeadersMean | kernel/ldr/pe_loader.cpp:317-335 | the header checks pass exactly for a file of 64 bytes or more with the two magic numbers, machine 8664 and format 20B; the entry point is the word at +40 |
| PeLoader.LoadedRights | kernel/ldr/pe_loader.cpp:22-26 | after a load user mode reaches every section page and may write it exactly if bit 31 of the characteristics is set; the header page is read-only |
| PeLoader.LoadedSectionByte | kernel/ldr/pe_loader.cpp:201-216 | after a load, every section byte behind no slot reads as expected |
| PeLoader.LoadedTranslations | kernel/ldr/pe_loader.cpp:143-154 | the stores, applied to the memory that holds tables, change no translation of any space |
| PeLoader.LoadedElsewhere | kernel/ldr/pe_loader.cpp:143-154 | every byte of memory behind no slot is as it was laid out |
| FatReader.LinkedReads | tools/mkdisk.py:206-213 | a chain of consecutive clusters reads as one part of the data area |
| Fat32Spec.FilesApart | tools/mkdisk.py:183-193 | files take disjoint clusters behind the directories |
| Fat32Tables.BuildTable | tools/mkdisk.py:195-213 | the table links the directories and every file, as far as it goes; the two reserved entries are set and all other clusters are free |
| Fat32Tables.EstimateIs | tools/mkdisk.py:122-130 | eight rounds of estimation end at (sectors + 95) / 130, for every partition of 1000 sectors or more |
| Fat32Tables.TableCoversIff | tools/mkdisk.py:122-130 | the table has an entry for every cluster exactly if (sectors - 32) mod 130 is between 3 and 128; at most four are without |
| Fat32Builder.BuildBootDirectory | tools/mkdisk.py:255-268 | /boot/ lists the kernel and up to thirteen extra files |
| Fat32Builder.Build | tools/mkdisk.py:101-276 | a result is refused exactly if the partition has fewer than 65525 clusters or the contents of a file end outside it, which makes the result longer than the caller accepts (mkdisk.py:344); else the image holds boot sectors, FSInfo, equal tables, directories and contents, and zeros everywhere else |
| Fat32RoundTrip.BootloaderReadsBack | tools/mkdisk.py:248-271 | BOOTX64.EFI reads back through its path exactly if it is empty or the table reaches its last cluster |
| Fat32RoundTrip.KernelReadsBack | tools/mkdisk.py:255-272 | likewise for MICRONT.ELF |
| Fat32RoundTrip.ExtrasReadBack | tools/mkdisk.py:260-274 | every listed extra file reads back through its entry, exactly if it is empty or the table reaches its last cluster; its name leads to that entry exactly if it is a fresh one, and then so does its path |
| Fat32RoundTrip.ExtraFound | tools/mkdisk.py:260-268 | a name leads to its entry exactly if no name up to it starts with 0, it does not start with E5 or 05, and it is not a dot, the kernel or an earlier name |
| Fat32RoundTrip.FreeNameIsLost | tools/mkdisk.py:260-268 | a file whose name starts with E5 cannot be read through its path |
| Fat32RoundTrip.HaoTxtIsLost | tools/mkdisk.py:260-268 | an input that shows it |
| Fat32RoundTrip.RoundTrip | tools/mkdisk.py:101-276 | the paths of the mounted partition give back the bootloader, the kernel and every listed extra file with a fresh name, each exactly if the table reaches it; for the sizes of `TableCoversIff` all of them |
| Fat32RoundTrip.LastClusterInTable | tools/mkdisk.py:195-213 | a file that ends with the last cluster is in the table exactly for those sizes |
| Fat32RoundTrip.FullDiskLosesExtra | tools/mkdisk.py:122-213 | an input whose last file is lost, on the disk of 65 MB that 61 MB of bootloader and kernel get |
| Fat32RoundTrip.SameTables | tools/mkdisk.py:215-217 | the two copies of the table are equal |
| Fat12Table.StoreDecodes | tools/mkiso.py:158-167 | storing an entry gives it and keeps all others, shared byte or not |
| Fat12Table.Encode | tools/mkiso.py:153-167 | after the loop every entry that fits the table decodes to the dictionary's value, and the rest to 0 |
| Fat12Table.AllocChainLinks | tools/mkiso.py:140-143 | the chain is linked in order and ended; other entries stay |
| Fat12RoundTrip.Mounts | tools/mkiso.py:113-172 | what mounting gives; both copies of the table are equal |
| Fat12RoundTrip.BootloaderReadsBack | tools/mkiso.py:217-236 | BOOTX64.EFI reads back exactly if it is empty or its last cluster is at most 340, and is unreadable otherwise |
| Fat12RoundTrip.KernelReadsBack | tools/mkiso.py:225-238 | likewise for MICRONT.ELF |
| Fat12Builder.Build | tools/mkiso.py:77-241 | fails exactly from 65536 sectors up; else the image holds everything at its place, and zeros everywhere else |
| FatFormat.Paths32 | tools/mkdisk.py:219-268 | on a FAT32 partition "EFI/BOOT/BOOTX64.EFI" and "BOOT/MICRONT.ELF", spelled out, lead to the bootloader and the kernel, exactly if the table reaches them |
| FatFormat.Paths12 | tools/mkiso.py:196-236 | on a FAT12 image they do, exactly for clusters below 341 |
| FatFormat.EntryBytes | tools/mkdisk.py:223-231 | the bytes of a directory entry: padded name, attributes, cluster halves at 20 and 26, size at 28, zeros for the times |
| FatFormat.Dots32 | tools/mkdisk.py:233-256 | in the four directories "." is the cluster itself and ".." the parent: 0 for the root, 2, 3 and 2 |
| FatFormat.Entries32 | tools/mkdisk.py:233-256 | the other entries byte for byte: subdirectories in clusters 3, 4 and 5, the bootloader in cluster 6 with its size |
| FatFormat.BootEntries32 | tools/mkdisk.py:255-268 | /boot/ byte for byte: the kernel and up to thirteen extra files at their first clusters, each with its size |
| FatFormat.Reserved32 | tools/mkdisk.py:141-178 | boot sector and FSInfo word by word, and the backup in sector 6 |
| FatFormat.Table32 | tools/mkdisk.py:195-217 | the table word by word: reserved entries, directories, the chain of each file, zeros behind the last |
| FatFormat.SlackIsZero | tools/mkdisk.py:139-276 | the clusters of a file are zero behind its contents |
| FatFormat.PairWord | tools/mkiso.py:156-166 | two entries of a FAT12 table are the low and the high half of a 24-bit word |
| FatFormat.Size12 | tools/mkiso.py:105-111 | the image is the smallest multiple of four sectors that holds everything |
| FatFormat.Image12 | tools/mkiso.py:113-236 | FAT12 boot sector word by word, the dots of its directories, zeros in no part |
| FatFormat.Entries12 | tools/mkiso.py:199-230 | its directory entries byte for byte |
| ObjectSpec.HandleCodec | kernel/ob/object_manager.cpp:13-25 | the valid handles are exactly the codes of the table's slots, one each |
| ObjectLaws.TurnKeeps | kernel/ob/object_manager.cpp:203-364 | every call of a balanced client keeps the accounts |
| ObjectLaws.RunKeeps | kernel/ob/object_manager.cpp:203-364 | so does every run |
| ObjectLaws.RunAccounts | kernel/ob/object_manager.cpp:203-300 | after any balanced run HandleCount is the slots that hold the object, RefCount that plus the outstanding references, and OnClose has run, once, exactly if both are zero |
| ObjectLaws.RunNeverDangles | kernel/ob/object_manager.cpp:203-364 | after any balanced run no handle and no name leads to a dead object |
| ObjectLaws.OpenHandleKeeps | kernel/ob/object_manager.cpp:243-281 | while a handle is not closed it leads to its object, which lives |
| ObjectLaws.CreateExact | kernel/ob/object_manager.cpp:163-187 | allocating keeps the namespace in order exactly if the path fits the header or is not inserted |
| ObjectLaws.LongNameDangles | kernel/ob/object_manager.cpp:163-239 | a longer path leads to a dead object after the reference is given back |
| ObjectLaws.DeathTakesName | kernel/ob/object_manager.cpp:225-227 | the end of an object removes exactly the entry with its header's name, whoever holds it |
| ObjectCalls.Created | kernel/ob/object_manager.cpp:163-187 | a live object with one reference; up to 63 characters of the path in its header, the whole path in the namespace if possible |
| ObjectCalls.RawCreated | kernel/ob/object_manager.cpp:189-201 | the same without a type and without the namespace |
| ObjectCalls.Referenced | kernel/ob/object_manager.cpp:203-210 | one more reference of a live object, nothing else |
| ObjectCalls.NameRemoved | kernel/ob/object_manager.cpp:331-341 | the first entry with the path is cleared, nothing else |
| ObjectCalls.Dereferenced | kernel/ob/object_manager.cpp:212-239 | one reference less; the last one clears the magic number, takes the name along and calls OnClose once |
| ObjectCalls.Inserted | kernel/ob/object_manager.cpp:243-262 | the first free slot i holds object and access, the handle is 8 (i + 1), led nowhere before and leads to the object now; each failure changes nothing |
| ObjectCalls.InsertedIsFound | kernel/ob/object_manager.cpp:243-300 | a handle just handed out gives its object back, or a type mismatch exactly if another type is expected |
| ObjectCalls.HandleClosed | kernel/ob/object_manager.cpp:264-281 | the slot is free, and a live object loses a handle and a reference; a handle that is not open changes nothing |
| ObjectCalls.FoundByHandle | kernel/ob/object_manager.cpp:283-300 | the live object behind the handle, of the expected type, gains a reference; each failure changes nothing |
| ObjectCalls.NameInserted | kernel/ob/object_manager.cpp:304-329 | a new path of at most 127 characters that begins with a backslash takes the first free entry; each failure changes nothing |
| ObjectCalls.LookedUp | kernel/ob/object_manager.cpp:343-364 | the first entry with the path that leads to a live object decides: its object gains a reference, or the types differ; no such entry, no object |
| ObjectCalls.InsertedNameIsFound | kernel/ob/object_manager.cpp:304-364 | what was inserted under a path is what a lookup of it finds |
| ObjectManager.Manager.AllocateObject | kernel/ob/object_manager.cpp:163-187 | the in-place code is the machine's step |
| ObjectManager.Manager.ReferenceObject | kernel/ob/object_manager.cpp:203-210 | likewise |
| ObjectManager.Manager.DereferenceObject | kernel/ob/object_manager.cpp:212-239 | likewise, with the end of the object |
| ObjectManager.Manager.AllocHandle | kernel/ob/object_manager.cpp:27-37 | the scan takes the first free slot |
| ObjectManager.Manager.InsertObject | kernel/ob/object_manager.cpp:243-262 | the machine's step, its handle and its status (see ObjectCalls.Inserted) |
| ObjectManager.Manager.CloseHandle | kernel/ob/object_manager.cpp:264-281 | likewise |
| ObjectManager.Manager.ReferenceObjectByHandle | kernel/ob/object_manager.cpp:283-300 | likewise |
| ObjectManager.Manager.InsertObjectByName | kernel/ob/object_manager.cpp:304-329 | likewise: two scans, four outcomes |
| ObjectManager.Manager.RemoveObjectByName | kernel/ob/object_manager.cpp:331-341 | likewise |
| ObjectManager.Manager.LookupObjectByName | kernel/ob/object_manager.cpp:343-364 | the machine's step: dead objects are passed over (see ObjectCalls.LookedUp) |

## Left out

- Hardware and assembly: switch_context, CR3 and MSR writes, TLB flushes, interrupt controllers, timers; a switch is the change of the current thread.
- The window between re-enabling interrupts and `Schedule` in blocking calls: each such call is one step.
- KillProcess: it marks threads TERMINATED without unlinking them, so the placement invariant is about runs without it.
- NT_WAIT_MULTI polling, and finite timeouts of waits: EventWait, mutant and process waits ignore them, and the model follows.
- A preemption bound in ticks over whole runs: the quantum stays 0 if nothing was ready at expiry, so waiting is bounded in switches.
- Contents of pages given to user memory, sections and stacks: zeroing them is not modelled.
- NT_UNMAP_VIEW, NT_FREE_VM and NT_PROTECT_VM as system calls; unmapping and protecting a page are.
- Creation of events, semaphores, mutants and their handle ranges: the tables are given, and a handle is an index.
- Creation of kernel stacks and file-backed sections, and the bytes written to PEB and TEB pages: not part of this model.
- UserMemory.MemoryCalls.SetupTeb: a TEB address that has run out of PML4 slot 15, after 3968 threads of one process, has only the promise about the shape.
- Width of thread_count and of object reference counts: both are counted without wrap-around.
- s_total_pages, debug output and the module catalog of LoadLibrary.
- User mappings below 4 GB, which all spaces share, and frames at or above 4 GB, as targets of the loader and of the exclusivity promise.
- PeLoader.Loader.ResolveImports: a store to a frame that holds no data page is dropped, because an unaligned slot at the end of a page would go on in the physically next frame; the results about loaded images are for aligned slots inside the image.
- PeLoader.Loader.LoadPe: files of 4 GB or more, whose offsets would wrap in 32 bits, are outside the results about loaded images; writing the image base into the PEB is not part of this model.
- The execute-disable bit: the code never sets it, and no result is stated about execution.
- Fat32RoundTrip.RoundTrip: cluster numbers below 0x0FFFFFF8, that is less than 128 GB of contents; larger numbers would read as the end of a chain.
- Splitting and upper-casing names of extra files, VHD, MBR and CHS data, ISO 9660 and El Torito: not part of this model.
- The heap allocator: allocating an object never fails.
- Type registration of the object manager: a type is its index and whether it has an OnClose.
