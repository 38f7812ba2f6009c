# MiniLinux LAB kernel: a verified model

This project models the LAB build of MiniLinux in Dafny and proves what holds over every run of it: the
physical page allocator, the four-level page tables, the process lifecycle (spawn, wait, exit, fault,
round-robin preemption), the checked copies to and from user memory, the RamFS, the COM2 trace, the host
that folds that trace back into kernel state, and the browser page that polls the host.

`dafny verify dfyconfig.toml` checks everything.

## How it is built

Every part exists twice. A value model says what an operation computes; classes and loops do the same work in
place, as the source does, and are proved to be the value model step by step.

| layer | value model and its theory | in place |
|---|---|---|
| words and bytes of memory | `Words` | |
| pages (page.c) | `PageModel` | `PageAllocator` |
| address spaces (vm.c) | `PageTables` | `VirtualMemoryClass` |
| user memory (usercopy.c) | `UserCopy`, `Copies` | `LaboratoryClass` |
| files (ramfs.c, the copy loops of the user program) | `RamFs` | `FileCopy` |
| kernel (laboratory.c, interrupt.c) | `KernelModel` | `LaboratoryClass`, `PowerOn` |
| trace text (main.c) and line reassembly | `TraceText` | `TraceText`, `GuestClass` |
| host (lab_guest.py) | `HostModel` | `GuestClass` |
| polling (app.js, lab-server.py) | `PollModel` | `PollClass` |

The kernel theory is `Build` and `Spawning` (building a process), `Invariant` (what holds between steps),
`Replica` (what each record tells the host), `QuietSteps`, `Lifecycle`, `Exiting` (each step keeps the
invariant), `Safety` (whole runs), `Effects` and `StepTheorems` (what one step does to every slot and frame),
`RunTheorems`, `Delivery` and `Fairness`. `FirstEntry`, `SystemCalls` and `Clock` say what user mode finds: where
a new process enters, what every call leaves, what the clock, the console and the saved registers do.
`Observations` and `RecordText` are about the trace, and `RecordSizes` and `RunSizes` bound its text.

A step of the kernel is one entry through the interrupt table, with an arbitrary register frame and an
arbitrary vector, or one byte stored by the running program. The program itself is arbitrary, so any call with
any arguments and any exception may happen at any time; the run theorems hold of every sequence of such
inputs. Panic is a terminal state that carries its reason. CR3 is the field `root`
(`active` in the class). Physical memory is a sequence of frames of 512 words; bytes are taken from words in
little-endian order, so a byte store into a page table would corrupt it: that this never happens is a theorem,
not a convention.

What is assumed, and visible as requirements:

* usable memory-map entries do not overlap and lie below 2^52, and the boot root table lies in a frame outside
  usable memory (`PowerOn.LoaderOk`; only the exactness of the free count needs the first);
* for the host's replica of whole runs, registers are 64 bits wide, vectors are bytes, and there are fewer than
  2^32 spawns (`RunSizes.WordInputs`, `RunSizes.PID_LIMIT`); the length of a record then follows;
* epochs are never repeated and never empty (`PollModel.FreshEpochs`).

## Findings

| place | input | what happens, and when not |
|---|---|---|
| kernel/interrupt.c:16-17 | a user program other than init and the shell raises an exception whose vector is not 0, 6, 13 or 14, for instance 12 (#SS) by pushing through a stack pointer that is not canonical, or 1 (#DB) by setting TF | the whole kernel stops with "unexpected CPU exception", although docs/COUNTEREXAMPLES.md:12 asks that a user exception must not stop the kernel; docs/EXPERIENCE.md:75 notes that not every vector was covered. `StepTheorems.StackFaultStops` is the input; `StepTheorems.ExceptionContained` says that the program alone ends exactly for those four vectors. `Safety.RunSafe` and `Safety.Reachable` therefore say of every run that it stays up exactly as long as no input is one of these stops |

## Model

| member | source | states |
|---|---|---|
| PageModel.AllocFacts | kernel/memory/page.c:92-111 | page_alloc succeeds iff a page is free and takes the free frame nearest after the cursor; the cursor goes to the frame after it, around the end; nothing else changes but the count |
| PageModel.JustFreedWaits | kernel/memory/page.c:92-122 | next fit without the cursor: while another page is free, a page just given back is not the next one handed out |
| PageModel.ReleaseFacts | kernel/memory/page.c:113-122 | page_free accepts exactly a live page and moves exactly that frame from live to free |
| PageModel.CallsRefine | kernel/memory/page.c:92-131 | over any sequence of allocations and frees the state array is the abstract set of live frames; an allocation never answers a live or unmanaged frame and is refused only when all managed frames are live |
| PageModel.ReleasedExactly | kernel/laboratory.c:73-81 | giving back a list, from either end, succeeds exactly when it names live pages, each once |
| PageAllocator.Allocator.Init | kernel/memory/page.c:18-90 | page_init succeeds iff every usable entry is aligned and does not wrap, something is usable, the direct map reaches it and some entry has room for the state array; a frame is then free iff it is usable and neither frame 0 nor part of the array; without overlaps the count is exact; no 64-bit sum or product wraps |
| PageAllocator.Allocator.FindHighest | kernel/memory/page.c:23-43 | the first pass accepts exactly the well-formed maps and finds the highest usable end |
| PageAllocator.Allocator.FindMetadata | kernel/memory/page.c:48-63 | the state array goes to the first usable entry with room for it, never over frame 0 |
| PageAllocator.FewestPages | kernel/memory/page.c:46-47 | the state array takes the fewest pages that hold a byte for each frame |
| PageAllocator.Allocator.Allocate | kernel/memory/page.c:92-111 | the scan over the array in place is the allocation of the model, and the cursor ends on the frame after the one taken |
| PageAllocator.Allocator.Deallocate | kernel/memory/page.c:113-122 | freeing in place is the release of the model; a refusal changes nothing |
| PageAllocator.Allocator.Data | kernel/memory/page.c:124-131 | a pointer is answered exactly for a live, aligned page |
| PageTables.LookupFacts | kernel/memory/vm.c:113-121 | on a tree the kernel built, vm_lookup is the flat map: frame, offset and rights of a mapped page, nothing for any other address, and never page 0 |
| PageTables.LookupEffective | kernel/memory/vm.c:69-83 | in arbitrary memory vm_lookup translates iff all four entries allow it, and the rights are those granted by all four levels together |
| PageTables.MapFacts | kernel/memory/vm.c:85-111 | vm_map succeeds iff its arguments are in order, the page is unmapped and the missing tables fit the free pages and the limit of 16; success adds exactly that mapping, failure at any depth changes no translation, every new table is recorded, and no other live page changes |
| PageTables.MapExactly | kernel/memory/vm.c:85-111 | when vm_map succeeds, in numbers: address, alignment, physical page, flags, free pages and the sixteen tables |
| PageTables.DescendFacts | kernel/memory/vm.c:94-104 | the table-making loop reaches the page's leaf table iff the missing tables can be made, keeping all translations |
| PageTables.SixteenTables | kernel/memory/vm.c:45-51 | new_table gives up exactly at sixteen tables or without a free page |
| PageTables.UnmapFacts | kernel/memory/vm.c:123-132 | vm_unmap succeeds iff the aligned page is mapped and removes exactly it |
| PageTables.CreateFacts | kernel/memory/vm.c:53-62 | vm_create takes one page or nothing; the new root maps nothing |
| PageTables.DestroyFacts | kernel/memory/vm.c:134-144 | vm_destroy refuses exactly a missing space and the active root, panics exactly when the record is not a list of live pages, each once, and otherwise gives back exactly the record |
| PageTables.EntryFormat | kernel/memory/vm.c:6-11 | the bits of the entries written, as numbers, and the nine address bits each level takes |
| PageTables.EntryBits | kernel/memory/vm.c:6-11 | which bits are the large-page bit, the frame, and the user bit a copied kernel entry loses |
| VirtualMemoryClass.VirtualMemory.NewTable | kernel/memory/vm.c:45-51 | zeroing a new table word by word and recording it is the step of the model |
| VirtualMemoryClass.VirtualMemory.Create | kernel/memory/vm.c:53-62 | the copy loop over the boot root in place |
| VirtualMemoryClass.VirtualMemory.LeafEntry | kernel/memory/vm.c:69-83 | the walk as a loop |
| VirtualMemoryClass.VirtualMemory.Lookup | kernel/memory/vm.c:113-121 | lookup on the mutable memory |
| VirtualMemoryClass.VirtualMemory.Map | kernel/memory/vm.c:85-111 | mapping in place, tables made on the way |
| VirtualMemoryClass.VirtualMemory.Unmap | kernel/memory/vm.c:123-132 | unmapping in place |
| VirtualMemoryClass.VirtualMemory.Destroy | kernel/memory/vm.c:134-144 | refused for the active root; tables freed from last to first; the ownership panic otherwise |
| UserCopy.UserRangeFacts | kernel/usercopy.c:6-20 | user_range accepts iff the length is at most 256, the range stays below 2^47 and every single byte is mapped for the user, and writable when writing |
| Copies.CopyOutFacts | kernel/laboratory.c:224-262 | a copy to an accepted buffer cannot fault, changes only user pages of the caller, and among all its addresses exactly the buffer, to exactly the bytes |
| Copies.CopyInFacts | kernel/laboratory.c:217-223 | reading an accepted buffer cannot fault and yields what the process itself would read |
| Copies.NoAliases | kernel/laboratory.c:66-105 | two addresses of one process never share a physical byte |
| RamFs.OpenFacts | kernel/ramfs.c:21-40 | -4 iff no file has the name, -5 iff the file exists and no slot is free, else a free slot at the beginning of that file |
| RamFs.OpenTakesFirst | kernel/ramfs.c:21-40 | it is the first file of the name and the lowest free slot |
| RamFs.CloseFacts | kernel/ramfs.c:53-57 | -3 iff the descriptor is not open; otherwise that slot alone is free |
| RamFs.ReadFacts | kernel/ramfs.c:42-51 | a read returns a prefix of what is left and leaves what follows it; offset <= size is kept; errors change nothing |
| RamFs.ChunksArePrefix | kernel/ramfs.c:21-57 | whatever the chunk sizes and the activity on other descriptors, the reads of one descriptor deliver consecutive pieces whose concatenation is a prefix of the file |
| FileCopy.OpenSlot | kernel/ramfs.c:21-40 | the nested searches in place |
| FileCopy.ReadSlot | kernel/ramfs.c:42-51 | reading in place |
| FileCopy.CloseSlot | kernel/ramfs.c:53-57 | closing in place |
| FileCopy.WriteBytes | user/laboratory.c:17-22 | pieces of at most 256 bytes add up to the text |
| FileCopy.Cat | user/laboratory.c:57-72 | cat terminates, prints what is left behind the descriptor it opened or the error text, and leaves every slot as it was or unused |
| FileCopy.CatPrintsFile | user/laboratory.c:57-72 | cat prints the bytes of the first file named by its argument, with or without the leading slash, and the error text iff there is none or no slot is free |
| FileCopy.CatHello | user/laboratory.c:57-72 | cat hello.txt and cat /hello.txt print "hello from ramfs" and a newline, cat empty.txt nothing |
| Build.MapOwnedFacts | kernel/laboratory.c:66-71 | map_owned succeeds iff one page and the missing tables are free; all it takes is recorded at every point of failure |
| Build.NineteenPages | kernel/laboratory.c:66-71 | the twentieth page is refused before anything is taken |
| Build.BuildFacts | kernel/laboratory.c:86-96 | building from any page of the layout on succeeds iff the whole price was free at the start; what is held is exactly what is recorded |
| Spawning.PrepareFacts | kernel/laboratory.c:83-105 | prepare succeeds iff code pages + 9 pages are free, and then leaves a complete process image with the fresh contents |
| Spawning.ReleaseFactsAll | kernel/laboratory.c:73-81 | release_pages of a recorded process that is not active cannot panic and gives back exactly its tables and pages |
| Spawning.SpawnFails | kernel/laboratory.c:107-120 | a spawn that runs out of memory, at whatever depth, answers -5 and restores the page states, the free count and every other slot |
| Spawning.SpawnSucceeds | kernel/laboratory.c:107-120 | a spawn with the price free answers the next pid with a complete, fresh, ready process, and its records tell the host everything about it |
| Effects.SpawnEffect | kernel/laboratory.c:107-120 | in every reachable state spawn succeeds iff a slot is unused and code pages + 9 pages are free; otherwise only the cursor and the next pid may move |
| FirstEntry.SpawnEntry | kernel/laboratory.c:97-105 | the process spawn leaves enters user mode at 0x400000, the first byte of the image, on a page it may execute and not write, with the last eight bytes of a writable zero stack under rsp, user selectors, interrupts on and every register 0; it has no open file and no slices |
| FirstEntry.BootEntry | kernel/laboratory.c:138-147 | the same of the process boot runs: pid 1 in slot 0, alone, with the clock at 0 and an empty console |
| Replica.MapEventsFacts | kernel/laboratory.c:38-53 | mappings_event of a live process never finds a mapping gone and emits exactly its layout |
| Replica.MapTraceTold | tools/lab_guest.py:154-157 | the map records build the host's table for a new process and repeat it for a known one |
| Replica.ProcessTold | tools/lab_guest.py:146-153 | a process record brings the host up to date about one process and disturbs no other |
| Replica.ProcessForgotten | tools/lab_guest.py:146-149 | a record with state 0 makes the host forget exactly that process |
| QuietSteps.ReadyFromFacts | kernel/laboratory.c:122-128 | next_ready answers the ready slot nearest after the current one, and finds one iff there is one |
| QuietSteps.TickKeeps | kernel/laboratory.c:149-159 | a tick from user mode keeps the invariant and never panics |
| Lifecycle.WaitKeeps | kernel/laboratory.c:191-206 | wait keeps the invariant whether it answers, reaps or blocks |
| Lifecycle.InspectKeeps | kernel/laboratory.c:55-64 | inspect changes nothing but the trace, and the host agrees afterwards as before |
| Exiting.ExitKeeps | kernel/laboratory.c:161-181 | the exit of init or shell is the documented panic; any other exit keeps the invariant, with the pages released only after another root is active |
| Exiting.ExitFamily | kernel/laboratory.c:164-174 | waking the waiting parent and ending the child together leave no waiter without a live child and no orphan |
| Invariant.SomeReady | kernel/laboratory.c:122-128 | from any waiting process the chain of awaited children, with growing pids, ends at a ready one |
| Safety.StepKeeps | kernel/interrupt.c:15-38 | from any state satisfying the invariant, a step panics iff its input is one of the listed stops, for exactly that reason, and otherwise the invariant holds again |
| Safety.BootFacts | kernel/laboratory.c:138-147 | task_start brings init up iff the image has 1 to 65536 bytes and its price is free, with the exact panic otherwise |
| Safety.RunSafe | kernel/interrupt.c:8-38 | for every sequence of inputs the kernel is up exactly when none of them was a listed stop, and then the invariant holds; otherwise it stopped at the first such input, for its reason |
| Safety.OnlyPanics | kernel/laboratory.c:46-181 | no run reaches any panic but "init or shell exited", an entry that is not from user code, and an unexpected exception; missing mappings, active roots, page and table ownership, no runnable shell and kernel faults are unreachable |
| Safety.Reachable | kernel/laboratory.c:138-278 | the same from power-on |
| Safety.SmallestMachine | kernel/laboratory.c:138-147 | for every image a machine with exactly its price in free frames boots into the invariant with none left, so the invariant is inhabited and the price is not too low |
| StepTheorems.OthersKept | kernel/laboratory.c:161-206 | a process that is not running changes in exactly two ways: woken with its child's status in rax, or reaped as a zombie by its parent; its saved frame is otherwise untouched |
| StepTheorems.CurrentAfter | kernel/laboratory.c:161-206 | what the running process becomes: ended with its status, waiting, ready with a reaped child's status or -3, or simply ready |
| StepTheorems.UnusedAfter | kernel/laboratory.c:107-120 | an unused slot stays unused or holds a child of the running process with the next pid |
| SystemCalls.QuestionCalls | kernel/laboratory.c:211-216 | calls 0 and 8 answer the pid and the program, a number that names no call -1, and nothing else changes |
| SystemCalls.TicksCall | kernel/laboratory.c:216 | call 2 leaves the clock in rax and nothing else |
| SystemCalls.WriteCall | kernel/laboratory.c:217-220 | if at most 256 bytes are all readable by the caller the console grows by exactly them, as the caller sees them, and rax is their number; otherwise nothing is written and rax is -2 |
| SystemCalls.OpenCall | kernel/laboratory.c:221-223 | the name is what the caller sees; the first file of that name in the lowest free slot, or -4, -5, -2 with nothing changed |
| SystemCalls.ReadCall | kernel/laboratory.c:224-226 | exactly the next piece of the file is in exactly the buffer, rax is its length and the offset moves past it; -2 and -3 change nothing |
| SystemCalls.CloseCall | kernel/laboratory.c:227 | the slot is free, or -3 |
| SystemCalls.SpawnCall | kernel/laboratory.c:228-233 | init may start the shell and the shell programs 2 to 6, others get -3; -5 without a slot or the price, with no page gone; otherwise the lowest unused slot holds the new process, the price is paid and rax is its pid |
| SystemCalls.WaitCall | kernel/laboratory.c:191-206 | the whole state after wait, for each of its three outcomes |
| SystemCalls.InputCall | kernel/laboratory.c:236-241 | the next character in the byte asked for, -6 when there is none, -2 when it may not be written |
| SystemCalls.ProcessCall | kernel/laboratory.c:242-251 | the buffer spells pid, parent, program, state, root and slices of the slot, or 0 and nothing changed |
| SystemCalls.FileCall | kernel/laboratory.c:252-254 | the buffer spells the zero-padded name and the size of the file, or 0 and nothing changed |
| SystemCalls.MemoryCall | kernel/laboratory.c:255-261 | the buffer spells the number of frames and of free ones |
| Clock.TickStep | kernel/laboratory.c:149-159 | a tick adds one to the clock and to the slices of the running slot alone, saves its registers as they were, chooses, and reports a switch |
| Clock.ClockAndConsole | kernel/laboratory.c:149-278 | in every step the clock moves with ticks alone, and the console grows by exactly an accepted text or the message of a fault |
| Clock.RegistersKept | kernel/laboratory.c:149-278 | a process that goes on keeps all its registers but rax after a call, all of them after a tick, and everything else of its slot but open files, slices and whether it waits |
| Clock.StoreStep | kernel/laboratory.c:83-105 | a store by the running program reaches exactly the byte its page tables let it write, and otherwise nothing |
| Clock.SlicesCount | kernel/laboratory.c:151 | slices change with ticks alone, by one, and only those of the running slot |
| Clock.RunClock | kernel/laboratory.c:149-278 | over every run the clock is the number of timer interrupts modulo 2^64, and the console is what the steps wrote, in order |
| Clock.TicksAreCounted | kernel/laboratory.c:216 | after any run from power-on, call 2 answers the number of timer interrupts there have been |
| StepTheorems.ExceptionContained | kernel/interrupt.c:15-38 | an exception raised by a program other than init and the shell ends that program alone, with status 128 + vector, exactly when its vector is 0, 6, 13 or 14; any other stops the kernel |
| StepTheorems.StackFaultStops | kernel/interrupt.c:16-17 | the concrete case: vector 12 from user mode stops the kernel |
| StepTheorems.MemoryKept | kernel/laboratory.c:208-278 | of the frames that are not free, live or unmanaged, a step changes only user pages of the running process: no page table, nothing another process sees, nothing outside the managed frames, which stay the same |
| RunTheorems.UnmanagedUntouched | kernel/memory/page.c:65-90 | over every run from power-on no frame outside the managed ones changes: neither those that hold the state array nor the boot root table |
| RunTheorems.KernelHalfShared | kernel/memory/vm.c:53-62 | in every reachable state root entries 256..511 of every live process are those of the boot root table as it stands in memory, without the user bit |
| RunTheorems.Isolation | kernel/laboratory.c:66-105 | no frame is mapped by two processes, twice in one, or as both user page and table; nothing is writable and executable |
| RunTheorems.MemoryIsPrivate | kernel/laboratory.c:208-278 | no step of one process, whatever it calls, stores or raises, changes a byte that another live process sees |
| RunTheorems.FreshImage | kernel/laboratory.c:83-105 | a spawned process reads the image followed by zeros at 0x400000 and zeros in data and stack, with code not writable, data and stack not executable, and nothing else mapped |
| RunTheorems.LivePages | kernel/memory/page.c:92-122 | the live frames number the price of a process times the ready and waiting processes |
| RunTheorems.PagesConserved | kernel/laboratory.c:107-181 | over every run from boot, free pages = free pages at boot - (code pages + 9) * live processes |
| RunTheorems.NeverStuck | kernel/laboratory.c:122-136 | the running slot is ready on its own page tables and next_ready always finds a slot |
| Observations.SnapshotIsExact | kernel/laboratory.c:55-64 | after call 15 the host also knows the slices of every process, which one runs, and the first word of the data page of each live one |
| Observations.EndReported | kernel/laboratory.c:161-189 | the end of a process reports the fault, the status, the woken parent, the slot and the pages left, in that order and no more |
| Observations.WaitReported | kernel/laboratory.c:191-206 | wait reports itself and the reaped or waiting slot |
| Observations.SpawnReported | kernel/laboratory.c:107-120 | a spawn reports itself, the slot, every mapping, the data word, the pages left and the call |
| Observations.EventsKept | tools/lab_guest.py:129-145 | which records become events, under which number, and that the window holds the last 2000 |
| Observations.RunningShown | tools/lab_guest.py:162-167 | a switch and a system call mark exactly one process as running |
| RecordText.RecordReadsBack | kernel/laboratory.c:19-53 | the line of any record, cut at its tabs and read by kind and position, gives the record back |
| RunSizes.TraceIsShort | kernel/main.c:113-127 | over every run with 64-bit registers and fewer than 2^32 spawns every number the kernel prints is a 64-bit word, so no line reaches the reader's limit |
| RecordSizes.StreamShort | tools/lab_guest.py:113-119 | a stream of records that print words never makes the reader give up |
| RunTheorems.ReplicaAgrees | tools/lab_guest.py:91-167 | after any run that is still up, from any chunking of the serial stream, the reader has neither failed nor raised and the host holds exactly the kernel's pids with parent, program, state and root, the exact mappings of every live process, and the page counts |
| Delivery.StatusDelivered | kernel/laboratory.c:161-206 | a process leaves its slot only when its status has just reached its parent's wait for that very pid |
| Delivery.DeliveryIsDeparture | kernel/laboratory.c:161-206 | a process goes away exactly by the delivery of its status: its parent waits for it and finds the zombie, or it ends while its parent waits for it |
| Delivery.DeliveredOnce | kernel/laboratory.c:161-206 | after the input that delivers the status of a pid, no later input of any run delivers one for that pid, and a later wait that names it answers -3 |
| Delivery.LaterWaits | kernel/laboratory.c:191-206 | waiting on a pid that is not a present child answers -3 |
| Delivery.ZombieKeeps | kernel/laboratory.c:191-199 | a zombie keeps its status until its own parent asks for it |
| Fairness.Selected | kernel/laboratory.c:122-136 | a scheduling decision selects the ready slot nearest after the running one; any other step keeps the running slot |
| Fairness.BoundedWaiting | kernel/laboratory.c:122-206 | a slot that stays ready is passed over by at most seven decisions in a row, whatever else happens |
| LaboratoryClass.Laboratory.ReportProcess | kernel/laboratory.c:26-30 | the record of one slot |
| LaboratoryClass.Laboratory.ReportMappings | kernel/laboratory.c:38-53 | the mapping loop and the data record in place |
| LaboratoryClass.Laboratory.InspectAll | kernel/laboratory.c:55-64 | the snapshot loop in place |
| LaboratoryClass.Laboratory.MapOwned | kernel/laboratory.c:66-71 | taking, recording, zeroing and mapping a page in place |
| LaboratoryClass.Laboratory.ReleaseTask | kernel/laboratory.c:73-81 | releasing tables and pages in place, with the three panics |
| LaboratoryClass.Laboratory.BuildPages | kernel/laboratory.c:86-96 | the code loop with its copies, then data and stack |
| LaboratoryClass.Laboratory.PrepareTask | kernel/laboratory.c:83-105 | prepare in place |
| LaboratoryClass.Laboratory.SpawnTask | kernel/laboratory.c:107-120 | spawn in place |
| LaboratoryClass.Laboratory.ReportSpawn | kernel/laboratory.c:115-116 | its records, with the mapping panic |
| LaboratoryClass.Laboratory.FindReady | kernel/laboratory.c:122-128 | the round-robin search as a loop |
| LaboratoryClass.Laboratory.SelectTask | kernel/laboratory.c:130-136 | CR3 follows the selected slot |
| LaboratoryClass.Laboratory.TaskStart | kernel/laboratory.c:138-147 | boot in place |
| LaboratoryClass.Laboratory.TaskTick | kernel/laboratory.c:149-159 | the tick in place |
| LaboratoryClass.Laboratory.TaskExit | kernel/laboratory.c:161-181 | the exit in place, in the order of the source |
| LaboratoryClass.Laboratory.FaultTask | kernel/laboratory.c:183-189 | a fault ends the process with 128 + vector |
| LaboratoryClass.Laboratory.WaitFor | kernel/laboratory.c:191-206 | wait in place |
| LaboratoryClass.Laboratory.CheckRange | kernel/usercopy.c:6-20 | the page-stepping check is the range check of the model |
| LaboratoryClass.Laboratory.CopyToUser | kernel/bytes.c:11-16 | memcpy through the active tables, byte by byte |
| LaboratoryClass.Laboratory.Serve | kernel/laboratory.c:213-264 | the switch over system calls |
| LaboratoryClass.Laboratory.SyscallDispatch | kernel/laboratory.c:208-278 | the dispatcher with its record and result |
| LaboratoryClass.Laboratory.Interrupt | kernel/interrupt.c:15-38 | one entry in place is one step of the model |
| PowerOn.StartLab | kernel/main.c:142-176 | from a memory map to a running init: it comes up iff page_init can succeed, the image fits and the spare frames of the map cover its price; then the invariant holds, the free count is the spare frames less that price, and no frame but the spare ones has changed |
| PowerOn.RunInputs | kernel/interrupt.c:8-38 | any run of the classes is the run of the model: up exactly as long as no input is a stop, and while it is up the invariant holds and no unmanaged frame has changed |
| TraceText.TraceNumber | kernel/main.c:116-122 | every uint64_t is printed within the 21-byte buffer as its decimal text |
| TraceText.TraceHex | kernel/main.c:123-127 | sixteen digits, highest first |
| TraceText.NumbersRoundTrip | kernel/main.c:113-127 | both texts of every uint64_t read back as the same value |
| TraceText.SplitJoin | tools/lab_guest.py:129-132 | splitting a record at tabs gives back its fields |
| TraceText.ChunksDoNotMatter | tools/lab_guest.py:113-119 | reassembly hands on the same lines for every chunking and never gives up on records of at most 4096 characters |
| TraceText.FeedLimit | tools/lab_guest.py:113-119 | a piece without a newline ends the reader exactly beyond 4096 characters |
| TraceText.RstripFacts | tools/lab_guest.py:130 | exactly the carriage returns at the end of a line go |
| HostModel.LineIsRecord | tools/lab_guest.py:129-167 | reading the text line of any kernel record does exactly what the record says |
| HostModel.RaisedKeepsTables | tools/lab_guest.py:129-167 | a line that raises changes no table and is at most counted and kept; a line that is no observation changes nothing |
| HostModel.TablesRaise | tools/lab_guest.py:146-167 | which counted records raise: numbers missing or no digit strings, no such program or state, too few fields |
| HostModel.StreamReplay | tools/lab_guest.py:91-167 | however a trace's stream is cut into chunks, the host ends with the fold of the trace |
| GuestClass.Guest.Handle | tools/lab_guest.py:129-167 | handling one line in place leaves exactly what the event function of the model leaves, also when it raises half way |
| GuestClass.Guest.Receive | tools/lab_guest.py:113-119 | one chunk: the tables are the fold of the lines handed on, up to and including one that raises; a raise ends the thread, and otherwise the reader is where the model's is |
| GuestClass.Guest.MarkRunning | tools/lab_guest.py:162-167 | the loop over processes sets exactly one as current |
| GuestClass.Observe | tools/lab_guest.py:91-127 | a guest fed any chunking of a trace raises nothing and ends with the fold of the trace |
| PollModel.PollAccepted | web/app.js:224-241 | a round trip with nothing in between is accepted unless the page knows another guest, and then leaves the page with exactly the server's window; a dropped one leaves it empty |
| PollModel.AlwaysSynced | web/app.js:224-241 | under every interleaving of lines, requests, answers on their way, lost answers and restarts both sides stay related, and whatever answer is on its way will leave them so |
| PollModel.SyncedFromStart | tools/lab-server.py:24-29 | this relation holds from the first guest and a fresh page on |
| PollModel.ReceivedWindow | web/app.js:224-241 | an answer received after any lines and restarts since it was cut is accepted iff the page knew no guest or that one, and then gives exactly the window at the cut |
| PollModel.SecondPollAccepted | web/app.js:238-239 | after a dropped answer the next poll of the same guest is accepted |
| PollModel.LineRecords | tools/lab_guest.py:134-145 | a line adds at most one event, under the next number, and leaves the window otherwise alone, also when it raises |
| PollModel.PageShowsTrace | tools/lab-server.py:60-68 | end to end: when the guest had seen the lines of a kernel trace at the cut, the accepted answer gives the page exactly that trace's window |
| PollClass.Bridge.Take | tools/lab_guest.py:113-119 | one line for the current guest's reader is the model's arrival; an exception ends the reader |
| PollClass.Bridge.State | tools/lab-server.py:60-68 | the event filter of a state request |
| PollClass.Page.PollServer | web/app.js:224-241 | poll on the page's globals, a failed request included |
| PollClass.Drive | web/app.js:224-255 | bridge, guest and page driven through any interleaving go exactly where the model goes, so with fresh epochs they are in step |

## Left out

- SpawnSucceeds: pids are natural numbers; the wrap of the 32-bit `next_pid` after 2^32 spawns is not modelled.
- Guest.Handle: `int()` is modelled on digit strings, all that the kernel writes; other texts Python accepts (signs, spaces, underscores) are taken as exceptions.
- ReplicaAgrees: as everywhere in the model pids are unbounded, so the 2^32 spawns are counted by the next pid. The host's `current` and `slices` are updated as in the source but not claimed to agree; they may lag by design (docs/LINUX.md:154).
- LaboratoryClass.Laboratory: slots and address spaces are values held in an array, so aliasing between `struct task` pointers is not captured; the open-file slots of a process are updated as a value there and in place in `FileCopy`.
- The two-process experiments of the earlier levels (kernel/task.c, kernel/user.c, kernel/syscall.c) use the same mechanisms with fixed expectations.
- Processor setup, descriptor tables, port I/O, timer programming and the TLB; an entry is a saved frame, CR3 a field, and the direct map an index into memory.
- The console: characters arrive as an input of the step and output is the sequence of bytes handed to the serial driver; the carriage return the driver puts before a newline, panic messages, the serial line status and the host's handling of console text are not modelled.
- QEMU, sockets, threads and HTTP around the host, and rendering, replay and command input of the page.
- Recovery from the end of init or shell: the source stops there, and so does the model.
