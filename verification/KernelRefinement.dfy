/** The refinement over whole runs: memory that represents an abstract state goes on representing it, event by event,
  * from the memory initScheduler leaves. */
module KernelRefinement {
  import opened KernelModel
  import opened KernelInvariant
  import opened KernelHeap

  /** What the events' own conditions give. */
  lemma EventFacts(k: Kernel, e: Event)
    requires Enabled(k, e)
    ensures e.Acquire? ==> e.mutex < |k.mutexes|
    ensures e.Release? ==> e.mutex < |k.mutexes|
    ensures e.Collect? ==> Step(k, e) == CollectStep(k)
    ensures e.Resume? ==> Step(k, e) == ResumeStep(k) && k.cont[k.running] != Free
  {
    hide CollectStep, ResumeStep;
  }

  /** Whatever the event, the code that serves it takes memory representing `k` to memory representing the next state.
    * `c` says where a process resumes, as its saved context does. */
  method Perform(m: Machine, ghost k: Kernel, e: Event, c: Cont)
    requires m.Represents(k) && Ok(k) && Enabled(k, e) && (e.Resume? ==> c == k.cont[k.running])
    modifies m, m.queues, m.locks, m.pcbs, m.exitProcessQueue, m.exitProcessQueue.arr, m.keyQueue, m.keyQueue.arr
    modifies m.diskWaiter, m.interruptOccur, m.allocProcessTable, m.page
    ensures m.Represents(Step(k, e))
  {
    hide Machine.Represents, Machine.Wired, Machine.IsNew, Ok, Step, Enabled, CollectStep, ResumeStep, ListsOf, Apart;
    m.BlockSays(k, k.running);
    EventFacts(k, e);
    match e
    case Tick => m.TimerInterruptHandler(k);
    case KeyPress(b) => m.InputQueue(k, b);
    case DiskIrq(ch) => m.DiskInterruptHandler(k, ch);
    case Yield => m.Schedule(k);
    case Sleep(ms) => m.SleepProcess(k, ms);
    case Acquire(i) =>
      m.LockSays(k, i);
      m.AcquireLock(k, m.mutexes[i], i);
    case Release(i) =>
      m.LockSays(k, i);
      m.ReleaseLock(k, m.mutexes[i], i);
    case GetKey => var got, data := m.GetKey(k);
    case PollKey => var success, data := m.GetQueue(k);
    case ClearFlag(ch) => m.ClearDiskInterruptFlag(k, ch);
    case AwaitDisk(ch) => var done, result := m.WaitInterrupt(k, ch);
    case Create(kind) => Start(m, k, kind);
    case Exit => m.ExitProcess(k);
    case Collect => m.TryCollect(k);
    case Resume => Resumption(m, k, c);
  }

  method Start(m: Machine, ghost k: Kernel, kind: Kind)
    requires m.Represents(k) && Ok(k) && Enabled(k, Create(kind))
    modifies m, m.queues, m.pcbs, m.allocProcessTable, m.page
    ensures m.Represents(Step(k, Create(kind)))
  {
    hide Machine.Represents, Machine.Wired, Machine.IsNew, Ok, Step, Enabled, ListsOf, Apart;
    m.BlockSays(k, k.running);
    match kind {
      case KernelProcess => var pcb := m.CreateKernelProcess(k);
      case UserProcess => var pcb := m.CreateUser(k);
      case UserProgram => var pcb := m.RunUserProgram(k, 0);
    }
  }

  method Resumption(m: Machine, ghost k: Kernel, c: Cont)
    requires m.Represents(k) && Ok(k) && c == k.cont[k.running] && c != Free
    modifies m, m.queues, m.pcbs, m.exitProcessQueue, m.keyQueue, m.diskWaiter, m.allocProcessTable, m.page
    ensures m.Represents(ResumeStep(k))
  {
    hide Machine.Represents, Machine.Wired, Ok, ResumeStep, ListsOf, Apart;
    m.BlockSays(k, k.running);
    match c {
      case Keying => var got, data := m.ResumeGetKey(k);
      case DiskWaiting(ch, deadline) => var done, result := m.ResumeWaitInterrupt(k, ch, deadline);
      case Collecting => m.ResumeCollector(k);
      case Yielding => m.ResumeReturn(k);
      case Sleeping => m.ResumeReturn(k);
      case Locking(_) => m.ResumeReturn(k);
      case Free => assert false;
    }
  }

  /** `cs` are the places where the resumed processes of a run continue. */
  predicate Continues(k: Kernel, es: seq<Event>, cs: seq<Cont>)
    requires CanRun(k, es)
    decreases |es|
  {
    && |cs| == |es|
    && (es != [] ==> (es[0].Resume? ==> cs[0] == k.cont[k.running]) && Continues(Step(k, es[0]), es[1..], cs[1..]))
  }

  method PerformAll(m: Machine, ghost k: Kernel, es: seq<Event>, cs: seq<Cont>)
    requires m.Represents(k) && Ok(k) && CanRun(k, es) && Continues(k, es, cs)
    modifies m, m.queues, m.locks, m.pcbs, m.exitProcessQueue, m.exitProcessQueue.arr, m.keyQueue, m.keyQueue.arr
    modifies m.diskWaiter, m.interruptOccur, m.allocProcessTable, m.page
    ensures m.Represents(Run(k, es))
    decreases |es|
  {
    hide Machine.Represents, Ok, Step, Enabled;
    if es != [] {
      StepOk(k, es[0]);
      Perform(m, k, es[0], cs[0]);
      PerformAll(m, Step(k, es[0]), es[1..], cs[1..]);
    }
  }

  /** Every run from boot, in memory. */
  method BootAndRun(mutexCount: nat, es: seq<Event>, cs: seq<Cont>) returns (m: Machine)
    requires CanRun(Boot(mutexCount), es) && Continues(Boot(mutexCount), es, cs)
    ensures m.Represents(Run(Boot(mutexCount), es)) && Reachable(Run(Boot(mutexCount), es))
  {
    hide Machine.Represents, Machine.AtBoot, Ok, Step, Enabled, Boot, Inv;
    m := new Machine(mutexCount);
    m.InitScheduler(mutexCount);
    BootOk(mutexCount);
    PerformAll(m, Boot(mutexCount), es, cs);
  }

  lemma BootOk(mutexCount: nat)
    ensures Ok(Boot(mutexCount))
  {
    hide Ok, Pages, Boot;
    BootInv(mutexCount);
  }
}
