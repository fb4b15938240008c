/** The process core of the kernel as one state machine.
  *
  * Every region the kernel runs with interrupts disabled, and every interrupt handler, is one
  * atomic step.  A process that gave up the CPU inside such a region is resumed with interrupts
  * still disabled; `cont` records where, so a running process whose `cont` is not `Free` must
  * finish its region (event `Resume`) before anything else can happen.
  */
module KernelModel {
  import opened Common
  import opened Words

  const PROCESS_MAXCOUNT: nat := 1024
  const EXIT_CAPACITY: nat := 99   // EXIT_QUEUE_COUNT - 1: one slot of the ring stays empty
  const KEY_CAPACITY: nat := 49    // QUEUE_COUNT - 1
  const SLOT_TIME: nat := 5
  const DISK_TIMEOUT_TICKS: nat := 100  // (WAIT_TIMEOUT_MS + SLOT_TIME - 1) / SLOT_TIME
  const WORD_LIMIT: nat := 0x1_0000
  const DISK_MUTEX: nat := 0

  /** A pid: the index of a slot of the process table. */
  type Pid = p: int | 0 <= p < PROCESS_MAXCOUNT
  /** A disk channel, FALSE (secondary) or TRUE (primary) used as an array index. */
  type Channel = ch: int | 0 <= ch < 2

  datatype ProcState = Ready | Running | Blocked | Exited

  /** Where a process continues when it is next given the CPU. */
  datatype Cont =
    | Free                                  // interrupts enabled, ordinary code
    | Yielding                              // returning from schedule
    | Sleeping                              // returning from sleepProcess
    | Locking(mutex: nat)                   // returning from acquireLock
    | Keying                                // in the retry loop of getKey
    | DiskWaiting(ch: Channel, deadline: nat)   // in the retry loop of waitInterrupt
    | Collecting                            // in the retry loop of garbageProcessCollector

  datatype Mutex = Mutex(owner: Option<Pid>, count: nat, waiters: seq<Pid>)

  // one entry for every slot of the process table
  type States = s: seq<ProcState> | |s| == PROCESS_MAXCOUNT witness seq(PROCESS_MAXCOUNT, i => Exited)
  type Conts = s: seq<Cont> | |s| == PROCESS_MAXCOUNT witness seq(PROCESS_MAXCOUNT, i => Free)
  type Ticks = s: seq<nat> | |s| == PROCESS_MAXCOUNT witness seq(PROCESS_MAXCOUNT, i => 0)
  type Marks = s: seq<bool> | |s| == PROCESS_MAXCOUNT witness seq(PROCESS_MAXCOUNT, i => false)
  // one entry for every disk channel
  type Flags = s: seq<bool> | |s| == 2 witness [false, false]
  type DiskWaiters = s: seq<Option<Pid>> | |s| == 2 witness [None, None]

  datatype Kernel = Kernel(
    running: Pid, idle: Pid, collector: Pid,
    ready: seq<Pid>, sleeping: seq<Pid>,
    st: States, wake: Ticks, cont: Conts, alloc: Marks, user: Marks,
    nextPid: nat, tick: nat, exits: seq<Pid>, mutexes: seq<Mutex>,
    keys: seq<Byte>, keyWaiter: Option<Pid>,
    flag: Flags, diskWaiter: DiskWaiters,
    program: bool, us: set<nat>)

  datatype Kind = KernelProcess | UserProcess | UserProgram

  datatype Event =
    // interrupts
    | Tick | KeyPress(key: Byte) | DiskIrq(irqCh: Channel)
    // calls of the running process
    | Yield | Sleep(ms: nat) | Acquire(mutex: nat) | Release(mutex: nat)
    | GetKey | PollKey | ClearFlag(ch: Channel) | AwaitDisk(ch: Channel)
    | Create(kind: Kind) | Exit | Collect
    // the rest of a region that was left by a context switch
    | Resume

  // ---------------------------------------------------------------- scheduler primitives

  /** wakeupProcess: a process that is not BLOCKED is left alone. */
  function Wakeup(k: Kernel, p: Pid): Kernel
  {
    if k.st[p] != Blocked then k
    else k.(sleeping := Remove(k.sleeping, p), st := k.st[p := Ready], ready := k.ready + [p])
  }

  /** scheduleBlocked: hand the CPU to the head of the ready list, or to idle. */
  function Dispatch(k: Kernel): Kernel
  {
    var next := if k.ready == [] then k.idle else k.ready[0];
    k.(ready := if k.ready == [] then [] else k.ready[1..], st := k.st[next := Running], running := next)
  }

  /** blockRunningProcess, called from the region that `c` names. */
  function Block(k: Kernel, c: Cont): Kernel
  {
    Dispatch(k.(st := k.st[k.running := Blocked], cont := k.cont[k.running := c]))
  }

  /** sleepUntilTick. */
  function SleepUntil(k: Kernel, tick: nat, c: Cont): Kernel
  {
    Block(k.(wake := k.wake[k.running := tick], sleeping := k.sleeping + [k.running]), c)
  }

  /** The running process goes to the tail of the ready list and the head takes the CPU. */
  function Rotate(k: Kernel): Kernel
    requires k.ready != []
  {
    var next := k.ready[0];
    k.(ready := k.ready[1..] + [k.running], st := k.st[k.running := Ready][next := Running], running := next)
  }

  /** timeoutSchedule: idle is replaced without being queued and keeps its state. */
  function Timeout(k: Kernel): Kernel
  {
    if k.ready == [] then k
    else if k.running != k.idle then Rotate(k)
    else Dispatch(k)
  }

  function WakeupInInterrupt(k: Kernel, p: Option<Pid>): Kernel
  {
    if p.None? || k.st[p.value] != Blocked then k
    else
      var w := Wakeup(k, p.value);
      if w.running == w.idle then Timeout(w) else w
  }

  /** wakeExpiredProcess over the nodes `ps` of the sleep list, front to back. */
  function WakeExpired(k: Kernel, ps: seq<Pid>): Kernel
    decreases |ps|
  {
    if ps == [] then k
    else WakeExpired(if k.tick >= k.wake[ps[0]] then Wakeup(k, ps[0]) else k, ps[1..])
  }

  /** The tick a sleep of `ms` milliseconds ends at, in 64-bit arithmetic. */
  function WakeTick(tick: nat, ms: nat): nat {
    (tick + (ms + SLOT_TIME - 1) % QWORD / SLOT_TIME) % QWORD
  }

  /** The probe of createProcess: the index it stops at, or None after PROCESS_MAXCOUNT retries. */
  function Probe(alloc: Marks, idx: nat, tries: nat): Option<nat>
    requires tries <= PROCESS_MAXCOUNT
    decreases PROCESS_MAXCOUNT - tries
  {
    if !alloc[idx % PROCESS_MAXCOUNT] then Some(idx)
    else if tries == PROCESS_MAXCOUNT then None
    else Probe(alloc, (idx + 1) % PROCESS_MAXCOUNT, tries + 1)
  }

  // ---------------------------------------------------------------- user-access pages

  const USER_CODE_ADDRESS: nat := 0x3000000
  const USER_CODE_SIZE: nat := 0x100000
  const USER_STACK_BASE: nat := 0x3100000
  const USER_STACK_SIZE: nat := 0x2000
  const USER_STACK_INTERVAL: nat := 0x3000
  const USER_MEMORY_END: nat := 0x4000000

  function PagesOf(start: nat, end: nat): set<nat> {
    set pg: nat | pg < end && start <= pg * 0x1000 < end
  }

  function StackPages(pid: Pid): set<nat> {
    PagesOf(USER_STACK_BASE + USER_STACK_INTERVAL * pid, USER_STACK_BASE + USER_STACK_INTERVAL * pid + USER_STACK_SIZE)
  }

  function CodePages(): set<nat> {
    PagesOf(USER_CODE_ADDRESS, USER_CODE_ADDRESS + USER_CODE_SIZE)
  }

  // ---------------------------------------------------------------- one function per region

  function TickStep(k: Kernel): Kernel
  {
    var w := WakeExpired(k.(tick := k.tick + 1), k.sleeping);
    Timeout(w)
  }

  function YieldStep(k: Kernel): Kernel
  {
    if k.ready == [] then k else Rotate(k.(cont := k.cont[k.running := Yielding]))
  }

  function AcquireStep(k: Kernel, m: nat): Kernel
    requires m < |k.mutexes|
  {
    var x := k.mutexes[m];
    if x.owner == Some(k.running) then k.(mutexes := k.mutexes[m := x.(count := (x.count + 1) % WORD_LIMIT)])
    else if x.owner.None? then k.(mutexes := k.mutexes[m := x.(owner := Some(k.running), count := 1)])
    else Block(k.(mutexes := k.mutexes[m := x.(waiters := x.waiters + [k.running])]), Locking(m))
  }

  function ReleaseStep(k: Kernel, m: nat): Kernel
    requires m < |k.mutexes|
  {
    var x := k.mutexes[m];
    if x.owner != Some(k.running) then k
    else if (x.count - 1) % WORD_LIMIT != 0 then
      k.(mutexes := k.mutexes[m := x.(count := (x.count - 1) % WORD_LIMIT)])
    else if x.waiters == [] then k.(mutexes := k.mutexes[m := Mutex(None, 0, [])])
    else
      var next := x.waiters[0];
      Wakeup(k.(mutexes := k.mutexes[m := Mutex(Some(next), 1, x.waiters[1..])]), next)
  }

  function KeyPressStep(k: Kernel, b: Byte): Kernel
  {
    var k1 := if |k.keys| < KEY_CAPACITY then k.(keys := k.keys + [b]) else k;
    WakeupInInterrupt(k1, k.keyWaiter)
  }

  /** One test of getKey's loop. */
  function GetKeyStep(k: Kernel): Kernel
  {
    if k.keys != [] then k.(keys := k.keys[1..])
    else Block(k.(keyWaiter := Some(k.running)), Keying)
  }

  function DiskIrqStep(k: Kernel, ch: Channel): Kernel
  {
    WakeupInInterrupt(k.(flag := k.flag[ch := true]), k.diskWaiter[ch])
  }

  /** One test of waitInterrupt's loop for a wait that ends at `deadline`. */
  function AwaitDiskStep(k: Kernel, ch: Channel, deadline: nat): Kernel
  {
    if k.flag[ch] || k.tick >= deadline then k
    else
      SleepUntil(k.(diskWaiter := k.diskWaiter[ch := Some(k.running)]), deadline, DiskWaiting(ch, deadline))
  }

  /** createProcess, createUserProcess and runUserProgram. */
  function CreateStep(k: Kernel, kind: Kind): Kernel
    requires CanCreate(k)
  {
    var p := Probe(k.alloc, k.nextPid, 0).value;
    k.(st := k.st[p := Ready], ready := k.ready + [p], alloc := k.alloc[p := true], cont := k.cont[p := Free],
       user := k.user[p := kind != KernelProcess], nextPid := p + 1, program := k.program || kind.UserProgram?,
       us := k.us + (if kind.UserProgram? then CodePages() else {}) + (if kind.KernelProcess? then {} else StackPages(p)))
  }

  /** exitProcess ignores whether the queue took the pid. */
  function ExitStep(k: Kernel): Kernel
  {
    var cur := k.running;
    var k1 := if |k.exits| < EXIT_CAPACITY then k.(exits := k.exits + [cur]) else k;
    var k2 := Wakeup(k1, k.collector);
    Dispatch(k2.(st := k2.st[cur := Exited], cont := k2.cont[cur := Free]))
  }

  /** One pass of the collector's outer loop. */
  function CollectStep(k: Kernel): Kernel
  {
    if k.exits == [] then Block(k, Collecting)
    else
      var p := k.exits[0];
      k.(exits := k.exits[1..], alloc := k.alloc[p := false], us := k.us - StackPages(p))
  }

  /** Back on the CPU after blocking: getKey and waitInterrupt clear their waiter slot first. */
  function Leave(k: Kernel): Kernel {
    var c := k.cont[k.running];
    k.(cont := k.cont[k.running := Free],
       keyWaiter := if c.Keying? then None else k.keyWaiter,
       diskWaiter := if c.DiskWaiting? then k.diskWaiter[c.ch := None] else k.diskWaiter)
  }

  /** The rest of an interrupted region: the loops test their condition again. */
  function ResumeStep(k: Kernel): Kernel {
    match k.cont[k.running]
    case Keying => GetKeyStep(Leave(k))
    case DiskWaiting(ch, deadline) => AwaitDiskStep(Leave(k), ch, deadline)
    case Collecting => CollectStep(Leave(k))
    case _ => Leave(k)
  }

  // ---------------------------------------------------------------- steps and runs

  predicate CanCreate(k: Kernel)
  {
    var p := Probe(k.alloc, k.nextPid, 0);
    p.Some? && p.value < PROCESS_MAXCOUNT
  }

  /** An ordinary process runs with interrupts enabled. */
  predicate Calls(k: Kernel)
  {
    k.cont[k.running] == Free && k.running != k.idle && k.running != k.collector
  }

  /** When an event can happen.  Beyond what the hardware and the code force, this states what the
    * kernel's callers keep to: no getKey on an empty queue while another process is registered as waiting
    * there, waitInterrupt and clearDiskInterruptFlag only under the disk mutex, and no exit of the shell,
    * or of a process that holds a mutex. */
  predicate Enabled(k: Kernel, e: Event) {
    match e
    case Tick => k.cont[k.running] == Free
    case KeyPress(_) => k.cont[k.running] == Free
    case DiskIrq(ch) => k.cont[k.running] == Free
    case Yield => Calls(k)
    case Sleep(ms) => Calls(k) && ms < QWORD
    case Acquire(m) => Calls(k) && m < |k.mutexes|
    case Release(m) => Calls(k) && m < |k.mutexes|
    case GetKey => Calls(k) && (k.keyWaiter.None? || k.keys != [])
    case PollKey => Calls(k)
    case ClearFlag(ch) => Calls(k) && OwnsDisk(k)
    case AwaitDisk(ch) => Calls(k) && OwnsDisk(k)
    case Create(_) => Calls(k) && CanCreate(k)
    case Exit => Calls(k) && k.running != 0 && forall m :: 0 <= m < |k.mutexes| ==> k.mutexes[m].owner != Some(k.running)
    case Collect => k.running == k.collector && k.cont[k.running] == Free
    case Resume => k.cont[k.running] != Free
  }

  predicate OwnsDisk(k: Kernel) {
    DISK_MUTEX < |k.mutexes| && k.mutexes[DISK_MUTEX].owner == Some(k.running)
  }

  function Step(k: Kernel, e: Event): Kernel
    requires Enabled(k, e)
  {
    match e
    case Tick => TickStep(k)
    case KeyPress(b) => KeyPressStep(k, b)
    case DiskIrq(ch) => DiskIrqStep(k, ch)
    case Yield => YieldStep(k)
    case Sleep(ms) => SleepUntil(k, WakeTick(k.tick, ms), Sleeping)
    case Acquire(m) => AcquireStep(k, m)
    case Release(m) => ReleaseStep(k, m)
    case GetKey => GetKeyStep(k)
    case PollKey => if k.keys == [] then k else k.(keys := k.keys[1..])
    case ClearFlag(ch) => k.(flag := k.flag[ch := false])
    case AwaitDisk(ch) => AwaitDiskStep(k, ch, k.tick + DISK_TIMEOUT_TICKS)
    case Create(kind) => CreateStep(k, kind)
    case Exit => ExitStep(k)
    case Collect => CollectStep(k)
    case Resume => ResumeStep(k)
  }

  /** `es` is a possible continuation of `k`. */
  predicate CanRun(k: Kernel, es: seq<Event>)
    decreases |es|
  {
    es == [] || (Enabled(k, es[0]) && CanRun(Step(k, es[0]), es[1..]))
  }

  function Run(k: Kernel, es: seq<Event>): Kernel
    requires CanRun(k, es)
    decreases |es|
  {
    if es == [] then k else Run(Step(k, es[0]), es[1..])
  }

  /** The state initScheduler leaves: the shell runs as pid 0, the collector (1) is ready and idle (2)
    * has been taken off the ready list again. */
  function Boot(mutexCount: nat): Kernel {
    Kernel(0, 2, 1, [1], [],
           seq(PROCESS_MAXCOUNT, i => if i == 0 then Running else if i < 3 then Ready else Exited),
           seq(PROCESS_MAXCOUNT, i => 0), seq(PROCESS_MAXCOUNT, i => Free),
           seq(PROCESS_MAXCOUNT, i => i < 3), seq(PROCESS_MAXCOUNT, i => false),
           3, 0, [], seq(mutexCount, i => Mutex(None, 0, [])),
           [], None, [false, false], [None, None], false, {})
  }
}
