# Verified model of a small 64-bit teaching kernel

This Dafny project models the process core of the kernel, the data structures and drivers it stands on, the file
store, the page tables, the stopwatch and the boot image, and proves what the code promises about them.

## Layout

- `KernelModel` is the abstract kernel: one value holds the whole state, and every region that runs with interrupts
  disabled and every interrupt handler is one atomic step. A process that gave up the CPU inside such a region is
  resumed with interrupts still disabled; its continuation says where. `KernelInvariant` proves one invariant for
  every step and every run from boot. `KernelSafety`, `KernelRuns`, `KernelResponse`, `KernelQueues`, `KernelLeaks`
  and `KernelStranded` draw the conclusions. `KernelLaws` says aspect by aspect what every event does, without the
  functions that do it, and `KernelHistory` what a state says about the run that led to it.
- `LinkedLists`, `Queues` and `KernelHeap` are the same kernel in memory: control blocks with one shared link field,
  intrusive lists, byte rings, the process table, waiter pointers and page entries. Every method of
  `KernelHeap.Machine` takes memory that represents an abstract state to memory that represents the state after the
  abstract step. `KernelRefinement` puts them together: every run from boot, in memory, ends in memory that represents
  a reachable abstract state, so the results above hold of the pointer code.
- `Context` models registers and stack of the interrupt stubs, of the frame swap in `timeoutSchedule` and of
  `switchContext`.
- `FatLayout`, `FatSession` and `FileStore` refine the file store to a map from names to 4096-byte blocks and sizes;
  `FatRemount` shows what a second mount breaks.
- `Page` builds the page tables and walks them; `PIT` is the stopwatch; `BootImage` writes, loads and reads the image.
- `Common` and `Words` hold what they share: duplicate-free sequences, bytes, double words and C ints.

`dafny verify dfyconfig.toml` checks everything.

## Assumptions about callers and hardware

- One processor; interrupt gates keep interrupts disabled, so each region and handler is atomic.
- A process outside such a region runs with interrupts enabled. The system call gate is an interrupt gate
  (kernel/arch/Descriptor.c:45), so the system calls that sleep and exit (kernel/syscall/Syscall.c:31-38) are entered
  with interrupts disabled: there the model allows more interrupts than can occur.
- `getKey` is not called on an empty queue while another process is registered as waiting there; this is exactly what
  the protocol needs (`KernelSafety.GetKeyExactly`).
- `waitInterrupt` and `clearDiskInterruptFlag` are called only by the owner of the disk mutex.
- The shell (pid 0), the collector and idle do not exit; nobody exits while owning a mutex; idle makes no calls.
- When no slot is free `createProcess` prints a message and hangs with interrupts disabled; the model has no such step.
- Idle keeps the state byte RUNNING when it is preempted, so "RUNNING means running" is claimed for the others only.
- The tick count does not reach 2^64. C `int` arithmetic wraps at 32 bits.
- A file-store session begins with `format` and one `mount`; disk transfers succeed; names of files created have 1 to 23
  bytes, no NUL and do not begin with 0xE5; a cluster found lies inside the data region.
- Loader and kernel together have at most 1920 sectors, the boot sector file at most 512 bytes. Memory from 64 KB to
  1 MB is treated as plain memory.

## Where the code falls short of what it is for

- A sleep of more than 2^64 - 5 ms ends at the next tick: `KernelRuns.WakeTickExact` gives the exact condition.
- Mutex nesting beyond 65536 lets a single release free the mutex: `KernelQueues.GivesUpWhen`, `NestingOverflow`.
- An exit while 99 pids are queued loses a slot for good: `KernelLeaks.LosesExactly` and `LostForever`, with a run from
  boot that does, `SlotIsLost`, and the bound of 102 slots under which it cannot happen, `KernelQueues.RoomForExit`.
- A second consumer of `getKey` can make one of the two wait for good, the first if it is still blocked
  (`KernelStranded.StrandsBlocked`), itself if the first has been woken (`StrandsCaller`): no run wakes a process left
  like that (`StrandedForever`), and `ShellStranded` and `CallerStranded` are runs from boot that do it.
  `KernelSafety.GetKeyExactly` gives the exact condition under which a call keeps the protocol.
- Page entries from 256 MB up hold wrong addresses, since the upper half is shifted by 28 where 32 is meant; none of
  those pages is present right after `InitializePaging`: `Page.FrameIsItself`.
- After a second mount a new file can be given the cluster of another one: `FatRemount.RemountShares` is such a run of
  calls, and `CreateFromCursor` says, from the link table before the call, exactly when it happens.
- `deleteFile` does not look whether the entry it finds is in use. With a name that a free entry carries, such as the
  empty one on a fresh volume, it takes the directory's link away: `FileStore.FileSystem.DeleteFile` and
  `FatSession.DeleteExactly` give the exact condition, `FileStore.DeleteEmptyName` a run of calls.
- `loader/Page.h:11` and line 136 of the repository's README speak of 32 MB for the kernel; the code makes 64 MB present,
  and that is what is modelled.

## Model

| member | source | states |
|---|---|---|
| KernelInvariant.StepInv | kernel/proc/Process.c:36-263 | every atomic region and interrupt handler keeps the whole invariant: lists and state bytes agree, nobody blocked has missed its event, mutex owners are live, exited pids are distinct, U/S bits match the live user processes |
| KernelInvariant.RunInv | kernel/proc/Process.c:36-263 | so does every finite run of such steps |
| KernelInvariant.BootInv | kernel/proc/Process.c:159-173 | the state initScheduler leaves satisfies it, for any number of mutexes |
| KernelInvariant.ReachableInv | kernel/proc/Process.c:159-263 | hence every reachable state does |
| KernelInvariant.TickInv | kernel/proc/Process.c:141-157 | a timer interrupt keeps the invariant, though it takes nodes out of the sleep list while walking it and may preempt |
| KernelInvariant.WakeupInInterruptInv | kernel/proc/Process.c:65-79 | waking from an interrupt keeps it, with or without the immediate preemption of idle |
| KernelInvariant.AcquireInv | kernel/proc/Sync.c:23-39 | acquireLock keeps it on all three branches; a caller that blocks is on one wait list and nowhere else |
| KernelInvariant.ReleaseInv | kernel/proc/Sync.c:41-61 | releaseLock keeps it: the hand-over moves the first waiter from the wait list to the ready list as owner |
| KernelInvariant.KeyPressInv | kernel/drivers/Keyboard.c:147-155 | a key press keeps it although queue and waiter disagree between the enqueue and the wakeup |
| KernelInvariant.GetKeyInv | kernel/drivers/Keyboard.c:164-174 | one round of getKey's loop keeps it: it blocks only facing an empty queue |
| KernelInvariant.DiskIrqInv | kernel/drivers/Disk.c:26-36 | a disk interrupt keeps it: the flag is raised and the waiter, if blocked, released |
| KernelInvariant.AwaitDiskInv | kernel/drivers/Disk.c:72-83 | one round of waitInterrupt's loop keeps it: it blocks only under a lowered flag before the deadline |
| KernelInvariant.ExitInv | kernel/proc/Process.c:81-89 | exitProcess keeps it, whether or not the exit queue took the pid |
| KernelInvariant.CollectInv | kernel/proc/Process.c:105-116 | one round of the collector keeps it: it blocks only facing an empty queue, else frees one slot |
| KernelInvariant.CreateInv | kernel/proc/Process.c:175-227 | process creation keeps it for kernel processes, user processes and user programs |
| KernelInvariant.ProbeResult | kernel/proc/Process.c:176-185 | the probe never returns index 1024 or a slot in use, starting from any pidCountIdx up to 1024 |
| KernelSafety.ExactlyOnePlace | kernel/proc/Process.h:82-98 | in every reachable state a live process other than idle is in exactly one place, named by its state byte and its continuation: running, ready list, sleep list, one wait list, parked on the keyboard, parked collector; no list holds it twice |
| KernelSafety.NowhereElse | kernel/proc/Process.c:166-171 | idle and dead processes are on no list |
| KernelSafety.WorkConservation | kernel/proc/Process.c:36-45 | idle runs only while every other live process is blocked |
| KernelSafety.NoLostWakeup | kernel/drivers/Keyboard.c:164-174 | in every reachable state a blocked collector faces an empty exit queue, a blocked key waiter an empty key queue, and a blocked disk waiter a lowered flag, holding the disk mutex with the timer set to its deadline |
| KernelSafety.DiskWaitReturns | kernel/drivers/Disk.c:72-83 | a process back from its wait does not block again: the flag is up or the deadline has passed, and its waiter slot is cleared |
| KernelSafety.AcquireReturnsOwner | kernel/proc/Sync.c:33-38 | whoever comes back from a blocking acquireLock owns the mutex |
| KernelSafety.GetKeyExactly | kernel/drivers/Keyboard.c:164-174 | getKey keeps the protocol of all waiters if and only if nobody else is registered as waiting or a key is there to be taken, be the other one blocked or woken and not yet back |
| KernelStranded.StrandedForever | kernel/drivers/Keyboard.c:164-174 | a process blocked on no list and in no waiter slot stays so along every run, whoever calls getKey in it |
| KernelStranded.StrandedNowhere | kernel/drivers/Keyboard.c:164-174 | such a process is in none of the places where a process can be |
| KernelStranded.StrandsBlocked | kernel/drivers/Keyboard.c:169-171 | a consumer that waits over a blocked one leaves that one so |
| KernelStranded.StrandsNewcomer | kernel/drivers/Keyboard.c:169-171 | a consumer that resumes after another one has blocked over it, and is still blocked, leaves that other one so |
| KernelStranded.StrandsCaller | kernel/drivers/Keyboard.c:169-171 | hence a consumer that waits over one that has been woken, is next in the ready list and finds no key, is left so itself |
| KernelStranded.ShellStranded | kernel/drivers/Keyboard.c:164-174 | a run from boot of the first kind: the shell and a new process wait for a key, and in every continuation the shell stays blocked |
| KernelStranded.CallerStranded | kernel/drivers/Keyboard.c:164-174 | a run from boot of the second kind: the key that woke the shell is taken by the new process, which then waits, and in every continuation stays blocked |
| KernelSafety.ProbeOrder | kernel/proc/Process.c:176-185 | the probe visits the slots in order, takes the first free one, and gives up only after all 1024 |
| KernelSafety.PidSlots | kernel/proc/Process.c:175-198 | createProcess succeeds if and only if a slot is free, and the slot it takes belongs to no running, listed, waiting or uncollected process |
| KernelSafety.UserPages | kernel/proc/Process.c:91-101 | a page is open to ring 3 if and only if it is in the code area of a loaded program or in the stack window of a user process not yet collected; all of them lie in 48 to 64 MB |
| KernelSafety.GuardPages | kernel/proc/Process.h:61-68 | windows of different pids never meet, guard pages and the windows of kernel processes are never open |
| KernelLaws.StepLaws | kernel/proc/Process.c:36-263 | for every event at once: the running process and the ready list form a queue that waiting, exiting and preempted processes leave at the front and woken ones join at the back; who blocks, on what and until which tick; ticks; flags; slots and the next search; open pages |
| KernelLaws.LawsDecide | kernel/proc/Process.c:36-263 | these laws, those of mutexes and queues, and the invariant determine the state after every event, but for unused slots and the state byte of idle |
| KernelLaws.HandsOn | kernel/proc/Process.c:36-57 | a process that waits, exits, yields or meets a tick hands the CPU to the head of the ready list, and the rest keeps its order |
| KernelLaws.KeepsCpu | kernel/proc/Process.c:65-79 | any other event leaves the CPU where it is and only adds to the tail |
| KernelHistory.BootSays | kernel/proc/Process.c:159-173 | where every run begins: the shell runs, the collector is next, idle is aside, nothing is waiting |
| KernelHistory.TicksCounted | kernel/proc/Process.c:152-154 | in every run the tick count grows by the number of timer interrupts |
| KernelHistory.FlagStep | kernel/drivers/Disk.c:26-55 | a disk interrupt raises the flag of its channel whoever waits, and only clearDiskInterruptFlag lowers it |
| KernelHistory.FlagExactly | kernel/drivers/Disk.c:26-55 | in every run from boot a flag is up if and only if an interrupt of its channel has not been cleared since |
| KernelHistory.AwaitReports | kernel/drivers/Disk.c:60-83 | waitInterrupt returns at once with the flag up if and only if such an interrupt has come; otherwise it blocks for 100 ticks |
| KernelHistory.ResumeReports | kernel/drivers/Disk.c:72-83 | a process back from its wait returns, with the flag up if and only if such an interrupt has come, and otherwise not before its deadline |
| KernelHistory.WokenExactly | kernel/drivers/Disk.c:26-36 | a process waiting for the disk is woken by the interrupt of its channel, by the tick of its deadline, and by nothing else |
| KernelHistory.DiskWaitEnds | kernel/drivers/Disk.c:72-83 | along every run the wait lasts until whichever of the two comes first |
| KernelHistory.SlotsExactly | kernel/proc/Process.c:81-116 | in every run from boot a slot is in use if and only if it is one of the first three, or a creation took it and no collection has freed it since |
| KernelHistory.PageStep | kernel/proc/Process.c:91-116 | loading a program opens the code area, a user creation opens the window of its slot, collecting closes that window, nothing else opens or closes a page |
| KernelHistory.PagesExactly | kernel/proc/Process.c:200-227 | in every run from boot a page is open if and only if it is in the code area and a program has been loaded, or in the window of a slot filled by a user creation and not collected since |
| KernelRuns.StepReady | kernel/proc/Process.c:229-263 | no step takes a process out of the ready list or moves it back except by giving it the CPU, and a tick always does |
| KernelRuns.BoundedResponse | kernel/proc/Process.c:247-263 | a process with i processes ahead of it gets the CPU within i + 1 ticks, whatever else happens |
| KernelRuns.StablePartition | kernel/proc/Process.c:141-150 | wakeExpiredProcess is a stable partition: later sleepers stay in order, due ones become READY and are appended in order |
| KernelRuns.WakeTickExact | kernel/proc/Process.c:59-63 | the 64-bit arithmetic of sleepProcess gives the due tick if and only if ms + 4 does not wrap; otherwise the sleep ends at the next tick |
| KernelRuns.SleepWakesOnTime | kernel/proc/Process.c:59-63 | for every ms, in every run, the process stays blocked until tick EndTick, and that very tick releases it; EndTick is max(t + 1, t + ceil(ms / 5)) if and only if ms + 4 does not wrap |
| KernelRuns.SleepsUntilDue | kernel/proc/Process.c:141-157 | a sleeper is released by the tick that reaches its due time and by nothing else |
| KernelRuns.TickMonotone | kernel/proc/Process.c:152-154 | the tick count never decreases along a run |
| KernelResponse.WakePosition | kernel/proc/Process.c:141-157 | the tick that releases a sleeper puts it exactly behind the processes ready by then and the sleepers released with it that lay before it in the sleep list |
| KernelResponse.AheadBound | kernel/proc/Process.h:93-98 | at most 1022 processes are ahead of it |
| KernelResponse.SleepThenRuns | kernel/proc/Process.c:59-63 | sleep and dispatch composed: once released, the process has had the CPU after as many further ticks as processes were ahead of it |
| KernelResponse.SleepThenRunsWithin | kernel/proc/Process.c:59-63 | in numbers: at the latest 1022 ticks after the one that ends its sleep |
| KernelQueues.MutexFifo | kernel/proc/Sync.c:41-61 | the waiter at position i is at position i - r after r final releases, and final release number i + 1 makes it the owner: no overtaking |
| KernelQueues.MutexCountFromBoot | kernel/proc/Sync.c:23-61 | in every run count is the owner's acquires minus releases since it became owner, modulo 2^16; the mutex is free exactly at depth 0, and then nobody waits |
| KernelQueues.CountIsDepth | kernel/proc/Sync.c:27-49 | the same from any state that satisfies the invariant |
| KernelQueues.GivesUpWhen | kernel/proc/Sync.c:49-59 | a release gives the mutex up if and only if the depth is 1 modulo 2^16, so exactly at depth 1 while nesting stays within 65536 |
| KernelQueues.NestingOverflow | kernel/proc/Sync.h:6-10 | the 16-bit count does overflow: after 65537 acquires one release frees the mutex |
| KernelQueues.QueuesConserve | kernel/drivers/Keyboard.c:147-174 | over every run the keys taken out are, in order and once each, the keys accepted, the rest being in the ring; likewise exited pids and collected slots |
| KernelQueues.StepQueues | kernel/drivers/Keyboard.c:147-174 | what one step takes from the front and adds at the back of both queues |
| KernelQueues.ExitLeaksWhenFull | kernel/proc/Process.c:81-89 | exitProcess keeps every dead slot accounted for if and only if the exit queue has room, since the result of enQueue is ignored |
| KernelQueues.RoomForExit | kernel/proc/Process.h:70 | with at most 102 slots in use the exit queue always has room |
| KernelQueues.SlotsConserved | kernel/proc/Process.c:81-116 | in every run that keeps to 102 slots, slots in use are the live processes plus the queued pids |
| KernelQueues.CountSlots | kernel/proc/Process.c:81-116 | the same count in any state without a lost slot |
| KernelLeaks.LosesExactly | kernel/proc/Process.c:81-89 | an exit leaves a slot in use and unknown to the collector if and only if it was so before, or it is the exiting process's and the exit queue is full |
| KernelLeaks.LostForever | kernel/proc/Process.c:81-116 | no run ever gives such a slot back |
| KernelLeaks.SlotIsLost | kernel/proc/Process.c:81-117 | a run from boot that loses one: a hundred processes are created, the collector blocks, and all of them exit before it runs again |
| LinkedLists.LinkedList.constructor | kernel/lib/LinkedList.c:5-9 | an empty list |
| LinkedLists.LinkedList.Insert | kernel/lib/LinkedList.c:11-20 | appends the node; head, tail, count and links spell out the new sequence |
| LinkedLists.LinkedList.Remove | kernel/lib/LinkedList.c:34-58 | takes out the first node with the id and keeps the order of the rest, or answers NULL and changes nothing |
| LinkedLists.LinkedList.HeadRemove | kernel/lib/LinkedList.c:60-65 | pops the front, or answers NULL on an empty list |
| Queues.SlotsApart | kernel/lib/Queue.c:32-44 | different slots of the byte ring do not overlap, for any element size |
| Queues.KeepsOther | kernel/lib/Queue.c:32 | a write to one slot leaves the others' bytes alone |
| Queues.Queue.IsEmpty | kernel/lib/Queue.c:12-17 | empty exactly when the sequence held is empty |
| Queues.Queue.IsFull | kernel/lib/Queue.c:19-24 | full exactly at len - 1 elements |
| Queues.Queue.Enqueue | kernel/lib/Queue.c:26-36 | appends the element's bytes, or refuses exactly when full |
| Queues.Queue.Dequeue | kernel/lib/Queue.c:38-48 | returns and removes the oldest element, or refuses exactly when empty |
| KernelHeap.Machine.InitScheduler | kernel/proc/Process.c:159-173 | control blocks, links, table and rings in memory end up representing the abstract boot state |
| KernelHeap.Machine.ScheduleBlocked | kernel/proc/Process.c:35-45 | the pointer code hands the CPU over as the abstract step does |
| KernelHeap.Machine.BlockRunningProcess | kernel/proc/Process.c:47-50 | BLOCKED and off the CPU |
| KernelHeap.Machine.SleepUntilTick | kernel/proc/Process.c:52-57 | wake-up tick stored, node linked into the sleep list, CPU handed over |
| KernelHeap.Machine.SleepProcess | kernel/proc/Process.c:59-63 | refines the abstract sleep step |
| KernelHeap.Machine.WakeupProcess | kernel/proc/Process.c:65-72 | refines the abstract wakeup; no-op exactly for NULL and for processes not BLOCKED |
| KernelHeap.Machine.WakeupProcessInInterrupt | kernel/proc/Process.c:74-79 | refines the abstract wakeup from an interrupt |
| KernelHeap.Machine.WakeExpiredProcess | kernel/proc/Process.c:141-150 | the walk that unlinks nodes under itself refines the abstract one |
| KernelHeap.Machine.TimerInterruptHandler | kernel/proc/Process.c:152-157 | refines the timer step |
| KernelHeap.Machine.TimeoutSchedule | kernel/proc/Process.c:247-263 | refines preemption, idle kept off the ready list and RUNNING |
| KernelHeap.Machine.Schedule | kernel/proc/Process.c:229-244 | refines the voluntary yield |
| KernelHeap.Machine.AcquireLock | kernel/proc/Sync.c:23-39 | refines the abstract acquire |
| KernelHeap.Machine.ReleaseLock | kernel/proc/Sync.c:41-61 | refines the abstract release |
| KernelHeap.Machine.InputQueue | kernel/drivers/Keyboard.c:149-154 | refines the key press step for a scan code that maps to a character |
| KernelHeap.Machine.GetQueue | kernel/drivers/Keyboard.c:157-162 | refines the non-blocking read; the byte returned is the oldest key |
| KernelHeap.Machine.GetKey | kernel/drivers/Keyboard.c:164-174 | refines getKey up to its block, if it blocks |
| KernelHeap.Machine.ResumeGetKey | kernel/drivers/Keyboard.c:167-173 | refines the rest of getKey after a block |
| KernelHeap.Machine.DiskInterruptHandler | kernel/drivers/Disk.c:26-36 | refines the disk interrupt of either channel |
| KernelHeap.Machine.ClearDiskInterruptFlag | kernel/drivers/Disk.c:51-56 | lowers the flag of one channel only |
| KernelHeap.Machine.WaitInterrupt | kernel/drivers/Disk.c:72-83 | refines waitInterrupt with interrupts enabled, up to its block |
| KernelHeap.Machine.ResumeWaitInterrupt | kernel/drivers/Disk.c:73-83 | refines the rest of waitInterrupt after a block |
| KernelHeap.Machine.ProbeSlot | kernel/proc/Process.c:176-185 | moves pidCountIdx to the slot the abstract probe finds, or reports that there is none |
| KernelHeap.Machine.CreateProcess | kernel/proc/Process.c:175-198 | refines creation; the block returned is the one of the slot found |
| KernelHeap.Machine.SetPageUserAccess | kernel/proc/Process.c:91-101 | on the machine's own page tables, for pages below 64 MB: the open pages of the abstract state change as called for |
| KernelHeap.Machine.RingThreeSees | kernel/proc/Process.c:91-101 | while the kernel runs, the 4-level walk sends every address below 64 MB to itself and lets user mode through exactly in the open pages of the abstract state |
| KernelHeap.Machine.CreateUserProcess | kernel/proc/Process.c:200-216 | refines creation of a user process with its stack window opened |
| KernelHeap.Machine.RunUserProgram | kernel/proc/Process.c:218-227 | refines loading a program; NULL exactly for an image larger than 1 MB |
| KernelHeap.Machine.ExitProcess | kernel/proc/Process.c:81-89 | refines the exit step |
| KernelHeap.Machine.TryCollect | kernel/proc/Process.c:105-116 | refines one round of the collector |
| KernelHeap.Machine.ResumeCollector | kernel/proc/Process.c:107-116 | refines the round after a block |
| KernelRefinement.Perform | kernel/proc/Process.c:36-263 | for every event, the code that serves it takes memory representing a state to memory representing the next state |
| KernelRefinement.PerformAll | kernel/proc/Process.c:36-263 | so it does along every run |
| KernelRefinement.BootAndRun | kernel/proc/Process.c:159-263 | every run from the memory initScheduler leaves ends in memory that represents a reachable state |
| Context.Cpu.SaveReg | kernel/arch/Handler.asm:6-35 | leaves all registers of the process below the frame, in the order of ProcessContext |
| Context.Cpu.LoadReg | kernel/arch/Handler.asm:37-60 | restores every register from a complete frame |
| Context.Dispatcher.SwapFrame | kernel/proc/Process.c:252-262 | the two copies park the interrupted process and put the next one's context into the frame; every other context is untouched |
| Context.Dispatcher.Interrupt | kernel/arch/Handler.asm:62-70 | transparent preemption: an entire interrupt, whether or not it switches, leaves the view of every process unchanged, the view being the CPU for the running process and the saved context for the others |
| Context.Dispatcher.SwitchContext | kernel/arch/ContextSwitching.asm:55-95 | the caller will resume just after its call with all registers as they were but the arithmetic flags; every other view is unchanged |
| Context.ContextsApart | kernel/proc/Process.h:82-91 | the packed contexts of different slots and the interrupt frame do not overlap |
| FatLayout.LinkPut | kernel/fs/FAT.c:111-116 | storing a link changes that link of the volume and no byte outside its four |
| FatLayout.DirPut | kernel/fs/FAT.c:155-157 | storing a directory entry changes that entry and no byte outside its 32 |
| FatLayout.BlockPut | kernel/fs/FAT.c:122-124 | writing a cluster changes that cluster and no byte outside it |
| FatLayout.EntryReads | kernel/fs/FAT.c:147-153 | an entry reads back as the name, size and cluster put into it, from the bytes they belong in |
| FatLayout.EntryErased | kernel/fs/FAT.c:170-171 | an erased entry differs in the first byte of its name and in its cluster only, is free and matches no valid name |
| FatSession.CreateFs | kernel/fs/FAT.c:139-157 | creating keeps the volume a file system, now with the new name added |
| FatSession.DeleteFs | kernel/fs/FAT.c:168-172 | deleting keeps it one, with the name removed |
| FatSession.WriteFs | kernel/fs/FAT.c:206-210 | writing keeps it one, with one block and size replaced |
| FatSession.ValidHasNoFreeMatch | kernel/fs/FAT.c:167-171 | no free entry carries a valid name |
| FatSession.DeleteExactly | kernel/fs/FAT.c:167-172 | what deleteFile does, whichever entry with the name it finds, leaves a sound volume if and only if no free entry carries the name; otherwise the directory loses its link |
| FatSession.EmptyNameMatches | kernel/fs/FAT.c:72-76 | on every volume as format leaves it the empty name is that of a free entry |
| FatSession.BlankFs | kernel/fs/FAT.c:72-83 | such a volume, with directory and table cleared but for the first link, is a file system without files |
| FatSession.CreatedOnDisk | kernel/fs/FAT.c:139-157 | createFile's two writes to the disk are, on the volume, one new entry and one set link |
| FatSession.DeletedOnDisk | kernel/fs/FAT.c:168-172 | deleteFile's two writes are one erased entry and one cleared link |
| FatSession.FileCount | kernel/fs/FAT.c:101-110 | at most 128 files, and a free entry exactly while there are fewer |
| FatSession.SearchFresh | kernel/fs/FAT.c:87-99 | the cluster returned, though its own link is not the one looked at, is fresh and not the directory's |
| FatSession.RoomToCreate | kernel/fs/FAT.c:87-99 | the search succeeds while 128 clusters remain beyond bestIdx and the directory has room |
| FatRemount.SearchIs | kernel/fs/FAT.c:89-96 | the cluster a search returns, read off the link table before the call: the cursor plus the index of the first zero link in its sector |
| FatRemount.CreateFromCursor | kernel/fs/FAT.c:139-157 | from any cursor inside the table and with room for a file, createFile gets that cluster, and gives the new file a cluster of its own if and only if the link there is 0; otherwise some file already has it |
| FatRemount.RemountShares | kernel/fs/FAT.c:27-49 | on any disk just formatted, and any four names createFile accepts in turn: create two files, delete the first, mount again, create two more; the searches return these entries and clusters at every step, and the last file has the cluster of the second |
| FileStore.LinkSectorsSized | kernel/fs/FAT.c:53-57 | from ten sectors up the link table has an entry for every cluster |
| FileStore.LinkSectorsExact | kernel/fs/FAT.c:53-57 | it has as many sectors as a link for every remaining sector takes, and all but one sector in 128, and nine more, are left for clusters |
| FileStore.FileSystem.FindFreeClusterAndUpdate | kernel/fs/FAT.c:87-99 | ends as the specified search does, with the new bestIdx |
| FileStore.FileSystem.FindFreeDirectoryEntryAndUpdate | kernel/fs/FAT.c:101-110 | the first free entry from bestRootDirIdx round; -1 exactly when none is free |
| FileStore.FileSystem.SetClusterLinkTable | kernel/fs/FAT.c:111-116 | changes one link of the disk |
| FileStore.FileSystem.CreateFile | kernel/fs/FAT.c:126-158 | insert of an empty file over whatever its cluster held, by exactly two writes: into the first free entry from the cursor on, for the cluster the search returns, where both cursors then stand; no change to the disk if the name exists, the directory is full, no cluster is found or nothing is mounted, and the cursors then stay, or stand where the searches end |
| FileStore.FileSystem.DeleteFile | kernel/fs/FAT.c:160-177 | removal of the name, for every name; the session stays sound if and only if no free entry carries it, otherwise the directory's link is cleared |
| FileStore.DeleteEmptyName | kernel/fs/FAT.c:160-177 | a run of calls that clears it, on disks of every size: format, mount, delete the empty name |
| FileStore.FileSystem.ReadFile | kernel/fs/FAT.c:181-196 | lookup, for every name: size and block of the file, or -1 and an untouched buffer |
| FileStore.FileSystem.WriteFile | kernel/fs/FAT.c:198-215 | update of one file with the block and size, by exactly two writes, or FALSE and no change to the disk, for every name |
| FileStore.FileSystem.Format | kernel/fs/FAT.c:51-85 | leaves a blank volume under a boot sector without code whose fields give the clusters, the size of the link table, neither more nor less than needed, and the places; the data behind the directory stays; under a mounted file system of the same size the files are gone and the session goes on |
| FileStore.CreateFirst | kernel/fs/FAT.c:27-158 | format, mount and create any valid name, on every disk from 18 sectors up, ends with that one file, empty, in the first entry and cluster 1 |
| FileStore.FileSystem.Mount | kernel/fs/FAT.c:27-49 | succeeds exactly on the signature; on a formatted disk a session without files begins |
| Page.OrDisjoint | loader/Page.c:15-16 | bitwise or of non-overlapping parts is their sum |
| Page.InitializePML4Table | loader/Page.c:13-22 | one entry for the pointer table, 511 empty ones |
| Page.InitializePageDirectoryPointerTable | loader/Page.c:24-36 | four entries for the directories, 508 empty ones |
| Page.InitializePageDirectoryTable | loader/Page.c:38-47 | 2048 entries, one for each page table |
| Page.InitializePageTable | loader/Page.c:49-70 | 2^20 entries, the first 16384 present, those from 2 GB up not executable |
| Page.InitializePaging | loader/Page.c:4-9 | all four tables stand together: none overwrites another |
| Page.SetPageUserAccess | kernel/proc/Process.c:91-101 | the user bit of every page of the range is set or cleared; no other bit and no other entry changes |
| Page.WindowTables | kernel/proc/Process.c:91-101 | the tables stay as built but for the pages so opened or closed |
| Page.AddressMap | loader/Page.c:4-70 | the walk of section 4.5 of Intel SDM Vol. 3A sends every address below 64 MB to itself, writable, executable, user-accessible exactly in the pages opened, and no other 48-bit address anywhere |
| Page.LowMap | loader/Page.c:49-57 | the half of it below 64 MB, from the entries that nothing overwrites later |
| Page.FrameIsItself | loader/Page.c:60-68 | the address in a page entry is the page's own if and only if it is below 256 MB, because of the shift by 28 |
| PIT.MsExact | kernel/drivers/PIT.c:8-10 | msToClock is the whole number of clocks if and only if that number fits an int |
| PIT.UsExact | kernel/drivers/PIT.c:4-6 | the same for usToClock |
| PIT.DeltaIsGap | kernel/drivers/PIT.c:38-41 | two reads give the clocks between them modulo the reload value, 0x10000 included |
| PIT.MeasuredExact | kernel/drivers/PIT.c:36-45 | the sum never exceeds the true time and equals it if and only if every poll came less than one reload after the one before |
| PIT.Timer.InitializePIT | kernel/drivers/PIT.c:14-22 | the driver's copy of the reload value is what the device was given, for every int |
| PIT.Stopwatch.GetElapsedClock | kernel/drivers/PIT.c:37-45 | returns that sum, in 32 bits |
| PIT.WaitStatus | kernel/drivers/Disk.c:86-95 | a timeout means the limit really passed, however late the polls; success means the status matched |
| BootImage.PatchKeepsFirst | tools/imagemaker/ImageMaker.c:111-115 | patching leaves the block the first match, with the counts in it, and changes nothing else |
| BootImage.CountsFit | tools/imagemaker/ImageMaker.c:111-115 | the image tells its reader the true counts if and only if loader and kernel together have fewer than 65536 sectors |
| BootImage.ImageMaker.AppendFile | tools/imagemaker/ImageMaker.c:52-80 | appends the file byte for byte, behind it zeros up to the next whole sector and no further, and counts the sectors |
| BootImage.ImageMaker.WriteBootInfo | tools/imagemaker/ImageMaker.c:83-117 | patches the two counts of the block, and no other byte, if and only if the boot sector has exactly one signature; every refusal leaves the image alone |
| BootImage.ImageMaker.MakeImage | tools/imagemaker/ImageMaker.c:35-40 | for any three files: an image exactly if the first sector of their whole sectors has one signature, else those sectors unpatched |
| BootImage.ImageSays | tools/imagemaker/ImageMaker.c:29-41 | what any such image tells a reader that takes the first match; where loader and kernel stand in it byte for byte; that its first sector is the boot file but for the counts |
| BootImage.SectorPlace | boot/BootLoader.asm:59-74 | sector i is loaded at 64 KB + 512 i if and only if i is below 1920, and on top of the boot sector exactly for i = 1982 modulo 2048 |
| BootImage.Machine.ReadDisk | boot/BootLoader.asm:57-74 | the sectors behind the boot sector stand at 64 KB in order; nothing below is touched |
| BootImage.Machine.FindBootInfo | loader/32bit.c:16-31 | the first match, or null if there is none |
| BootImage.Machine.CopyIA32ModeImage | loader/32bit.c:33-46 | the sectors behind the loader's stand at 6 MB; nothing below is touched |
| BootImage.Boot | loader/32bit.c:16-46 | round trip: for every image ImageMaker accepts, the kernel file stands at 6 MB byte for byte, then zeros to the next whole sector; the loader stands at 64 KB and the boot sector at 0x7C00 |

## Left out

- KernelHeap.Machine.CreateProcess: does not model the initial register values (kernel/proc/Process.c:124-138) nor the Present-bit change of kernel/proc/Process.c:193-194, which concerns pages from 64 MB up.
- KernelHeap.Machine.TryCollect: does not model the Present-bit change of kernel/proc/Process.c:113-114, for the same reason.
- KernelHeap.Machine.RunUserProgram: does not model the copy of the image into the code area.
- KernelHeap.Machine.CreateUserProcess: does not model the ring 3 register values (kernel/proc/Process.c:205-212).
- KernelHeap.Machine.SetPageUserAccess: does not model the TLB flush.
- KernelHeap.Machine.ScheduleBlocked: does not model the kernel stack pointer kept in the TSS; the register switch is in `Context`.
- KernelHeap.Machine.Schedule: likewise.
- KernelHeap.Machine.TimeoutSchedule: likewise; the copies of the frame are `Context.Dispatcher.SwapFrame`.
- KernelHeap.Machine.InputQueue: does not model the scan-code table; it starts from the character.
- KernelHeap.Machine.WaitInterrupt: does not model the branch for disabled interrupts (kernel/drivers/Disk.c:62-71), the same polling loop as `PIT.WaitStatus` with a flag for the status.
- Context.Dispatcher.Interrupt: models the C handler as arbitrary changes to the general registers and to the interrupt stack below the frame.
- Context.Dispatcher.SwitchContext: does not model the call with a null first argument, which only loads.
- PIT.Timer.InitializePIT: models the periodic mode only, counting down by one; one-shot mode and a BIOS that left the square-wave mode are not covered.
- PIT.WaitStatus: requires successive reads not to be whole reload periods apart, without which the loop need not end.
- FileStore.FileSystem.CreateFile: does not cover empty, overlong or 0xE5 names, nor a search that leaves the disk or the data region.
- FileStore.FileSystem.FindFreeClusterAndUpdate: does not cover a search that runs past the end of the disk.
- FileStore.FileSystem.Format: needs ten sectors, below which the writes would fail, and under a mounted file system a disk of the same size.
- FileStore.FileSystem.ReadSector: a flat sequence of bytes stands for the disk; transfers always succeed.
- FileStore.FileSystem.Mount: nothing is promised for a disk that has been used since it was formatted.
- Page.AddressMap: holds right after the tables are built; the kernel image copied over the entries above 2 GB and the present-bit changes above 64 MB come later, and then `Page.LowMap` is what remains.
- BootImage.Machine.ReadDisk: takes the count from the first block of the boot sector, where the boot loader uses a label of its own, and is not followed beyond 1920 sectors, where addresses wrap and it comes to overwrite itself.
- BootImage.Machine.CopyIA32ModeImage: likewise covers counts up to 1920 sectors.
- BootImage.Boot: likewise.
- The disk transfer loops, ATA registers and `waitDataRequest` of kernel/drivers/Disk.c: hardware plumbing around the protocol modelled.
- Shell, editor, screen output, system call dispatch and exceptions: thin layers over the core.
- GDT, IDT and TSS encoding, PIC and mode switching: hardware tables and port writes.
- kernel/mm/Memory.c: it prepares a bitmap and never allocates.
