/** What a second consumer of getKey does when it may not be called: it leaves a process blocked where no run ever wakes
  * it. Both ways this comes about, each with a run from boot that gets there. */
module KernelStranded {
  import opened Common
  import opened Words
  import opened KernelModel
  import opened KernelInvariant
  import opened KernelSafety

  /** Blocked, on no list, not the CPU's, and not the disk's or the collector's to wake. */
  ghost predicate Parked(k: Kernel, p: Pid) {
    && k.alloc[p] && k.st[p] == Blocked && p != k.running && p != k.idle && p != k.collector
    && p !in k.ready && p !in k.sleeping && p !in k.exits && (forall m :: 0 <= m < |k.mutexes| ==> p !in k.mutexes[m].waiters)
    && (forall ch: Channel :: k.diskWaiter[ch] != Some(p))
  }

  /** Slot 0 stays in use, so that creation never runs off the table. */
  predicate ShellAlive(k: Kernel) { k.alloc[0] && 0 !in k.exits && k.nextPid <= PROCESS_MAXCOUNT }

  /** Blocked, and the keyboard would not wake it either. */
  ghost predicate Stranded(k: Kernel, p: Pid) { ShellAlive(k) && Parked(k, p) && k.keyWaiter != Some(p) }

  /** It is in none of the places where a process can be. */
  lemma StrandedNowhere(k: Kernel, p: Pid)
    requires Stranded(k, p)
    ensures forall place :: !At(k, p, place)
  {
    forall place ensures !At(k, p, place) {
      match place
      case InWaitList(m) => assert m < |k.mutexes| ==> p !in k.mutexes[m].waiters;
      case _ =>
    }
  }

  // ---------------------------------------------------------------- no step wakes it

  lemma {:induction false} WakeExpiredStranded(k: Kernel, ps: seq<Pid>, p: Pid)
    requires Stranded(k, p) && p !in ps
    ensures Stranded(WakeExpired(k, ps), p)
    decreases |ps|
  {
    hide Stranded;
    if ps != [] {
      if k.tick >= k.wake[ps[0]] {
        WakeupStranded(k, ps[0], p);
        WakeExpiredStranded(Wakeup(k, ps[0]), ps[1..], p);
      } else {
        WakeExpiredStranded(k, ps[1..], p);
      }
    }
  }

  lemma WakeupStranded(k: Kernel, q: Pid, p: Pid)
    requires Stranded(k, p) && q != p
    ensures Stranded(Wakeup(k, q), p)
  {
    RemoveKeepsOut(k.sleeping, q, p);
  }

  lemma {:induction false} RemoveKeepsOut(s: seq<Pid>, q: Pid, p: Pid)
    requires p !in s
    ensures p !in Common.Remove(s, q)
  {
    if s != [] && s[0] != q {
      RemoveKeepsOut(s[1..], q, p);
    }
  }

  lemma DispatchStranded(k: Kernel, p: Pid)
    requires Stranded(k, p)
    ensures Stranded(Dispatch(k), p)
  {
  }

  lemma RotateStranded(k: Kernel, p: Pid)
    requires Stranded(k, p) && k.ready != []
    ensures Stranded(Rotate(k), p)
  {
  }

  lemma TimeoutStranded(k: Kernel, p: Pid)
    requires Stranded(k, p)
    ensures Stranded(Timeout(k), p)
  {
    hide Stranded, Rotate, Dispatch;
    if k.ready != [] && k.running != k.idle {
      RotateStranded(k, p);
    } else {
      DispatchStranded(k, p);
    }
  }

  lemma TickStranded(k: Kernel, p: Pid)
    requires Stranded(k, p)
    ensures Stranded(TickStep(k), p)
  {
    hide WakeExpired, Timeout;
    var k1 := k.(tick := k.tick + 1);
    WakeExpiredStranded(k1, k.sleeping, p);
    TimeoutStranded(WakeExpired(k1, k.sleeping), p);
  }

  lemma InterruptStranded(k: Kernel, q: Option<Pid>, p: Pid)
    requires Stranded(k, p) && q != Some(p)
    ensures Stranded(WakeupInInterrupt(k, q), p)
  {
    hide Stranded, Wakeup, Timeout;
    if q.Some? && k.st[q.value] == Blocked {
      WakeupStranded(k, q.value, p);
      TimeoutStranded(Wakeup(k, q.value), p);
    }
  }

  lemma KeyPressStranded(k: Kernel, b: Byte, p: Pid)
    requires Stranded(k, p)
    ensures Stranded(KeyPressStep(k, b), p)
  {
    hide WakeupInInterrupt;
    InterruptStranded(if |k.keys| < KEY_CAPACITY then k.(keys := k.keys + [b]) else k, k.keyWaiter, p);
  }

  lemma DiskIrqStranded(k: Kernel, ch: Channel, p: Pid)
    requires Stranded(k, p)
    ensures Stranded(DiskIrqStep(k, ch), p)
  {
    hide WakeupInInterrupt;
    InterruptStranded(k.(flag := k.flag[ch := true]), k.diskWaiter[ch], p);
  }

  lemma BlockStranded(k: Kernel, c: Cont, p: Pid)
    requires Stranded(k, p)
    ensures Stranded(Block(k, c), p)
  {
    hide Dispatch;
    DispatchStranded(k.(st := k.st[k.running := Blocked], cont := k.cont[k.running := c]), p);
  }

  lemma SleepStranded(k: Kernel, t: nat, c: Cont, p: Pid)
    requires Stranded(k, p)
    ensures Stranded(SleepUntil(k, t, c), p)
  {
    hide Block;
    BlockStranded(k.(wake := k.wake[k.running := t], sleeping := k.sleeping + [k.running]), c, p);
  }

  lemma AcquireStranded(k: Kernel, m: nat, p: Pid)
    requires Stranded(k, p) && m < |k.mutexes|
    ensures Stranded(AcquireStep(k, m), p)
  {
    hide Block;
    var x := k.mutexes[m];
    BlockStranded(k.(mutexes := k.mutexes[m := x.(waiters := x.waiters + [k.running])]), Locking(m), p);
  }

  lemma ReleaseStranded(k: Kernel, m: nat, p: Pid)
    requires Stranded(k, p) && m < |k.mutexes|
    ensures Stranded(ReleaseStep(k, m), p)
  {
    hide Wakeup;
    var x := k.mutexes[m];
    if x.waiters != [] {
      WakeupStranded(k.(mutexes := k.mutexes[m := Mutex(Some(x.waiters[0]), 1, x.waiters[1..])]), x.waiters[0], p);
    }
  }

  lemma GetKeyStranded(k: Kernel, p: Pid)
    requires Stranded(k, p)
    ensures Stranded(GetKeyStep(k), p)
  {
    hide Block;
    BlockStranded(k.(keyWaiter := Some(k.running)), Keying, p);
  }

  lemma AwaitStranded(k: Kernel, ch: Channel, deadline: nat, p: Pid)
    requires Stranded(k, p)
    ensures Stranded(AwaitDiskStep(k, ch, deadline), p)
  {
    hide SleepUntil;
    SleepStranded(k.(diskWaiter := k.diskWaiter[ch := Some(k.running)]), deadline, DiskWaiting(ch, deadline), p);
  }

  lemma CreateStranded(k: Kernel, kind: Kind, p: Pid)
    requires Stranded(k, p) && CanCreate(k)
    ensures Stranded(CreateStep(k, kind), p)
  {
    hide Probe, CodePages, StackPages;
    ProbeResult(k.alloc, k.nextPid, 0);
  }

  lemma ExitStranded(k: Kernel, p: Pid)
    requires Stranded(k, p) && k.running != 0
    ensures Stranded(ExitStep(k), p)
  {
    hide Wakeup, Dispatch;
    var k1 := if |k.exits| < EXIT_CAPACITY then k.(exits := k.exits + [k.running]) else k;
    WakeupStranded(k1, k.collector, p);
    var k2 := Wakeup(k1, k.collector);
    DispatchStranded(k2.(st := k2.st[k.running := Exited], cont := k2.cont[k.running := Free]), p);
  }

  lemma CollectStranded(k: Kernel, p: Pid)
    requires Stranded(k, p)
    ensures Stranded(CollectStep(k), p)
  {
    hide Block, StackPages;
    BlockStranded(k, Collecting, p);
  }

  lemma ResumeStranded(k: Kernel, p: Pid)
    requires Stranded(k, p)
    ensures Stranded(ResumeStep(k), p)
  {
    hide GetKeyStep, AwaitDiskStep, CollectStep;
    var w := Leave(k);
    assert Stranded(w, p);
    match k.cont[k.running]
    case Keying => GetKeyStranded(w, p);
    case DiskWaiting(ch, deadline) => AwaitStranded(w, ch, deadline, p);
    case Collecting => CollectStranded(w, p);
    case _ =>
  }

  lemma StepStranded(k: Kernel, e: Event, p: Pid)
    requires Enabled(k, e) && Stranded(k, p)
    ensures Stranded(Step(k, e), p)
  {
    hide TickStep, KeyPressStep, DiskIrqStep, SleepUntil, AcquireStep, ReleaseStep, GetKeyStep, AwaitDiskStep, CreateStep,
      ExitStep, CollectStep, ResumeStep, Rotate, WakeTick, CanCreate;
    match e
    case Tick => TickStranded(k, p);
    case KeyPress(b) => KeyPressStranded(k, b, p);
    case DiskIrq(ch) => DiskIrqStranded(k, ch, p);
    case Yield => YieldStranded(k, p);
    case Sleep(ms) => SleepStranded(k, WakeTick(k.tick, ms), Sleeping, p);
    case Acquire(m) => AcquireStranded(k, m, p);
    case Release(m) => ReleaseStranded(k, m, p);
    case GetKey => GetKeyStranded(k, p);
    case AwaitDisk(ch) => AwaitStranded(k, ch, k.tick + DISK_TIMEOUT_TICKS, p);
    case Create(kind) => CreateStranded(k, kind, p);
    case Exit => ExitStranded(k, p);
    case Collect => CollectStranded(k, p);
    case Resume => ResumeStranded(k, p);
    case _ =>
  }

  lemma YieldStranded(k: Kernel, p: Pid)
    requires Stranded(k, p)
    ensures Stranded(YieldStep(k), p)
  {
    hide Rotate;
    if k.ready != [] {
      RotateStranded(k.(cont := k.cont[k.running := Yielding]), p);
    }
  }

  // ---------------------------------------------------------------- runs in which anybody may call getKey

  /** As `Enabled`, but getKey is called whether or not somebody waits there already. */
  predicate Possible(k: Kernel, e: Event) { if e.GetKey? then Calls(k) else Enabled(k, e) }

  function Next(k: Kernel, e: Event): Kernel
    requires Possible(k, e)
  {
    if e.GetKey? then GetKeyStep(k) else Step(k, e)
  }

  predicate CanGo(k: Kernel, es: seq<Event>)
    decreases |es|
  {
    es == [] || (Possible(k, es[0]) && CanGo(Next(k, es[0]), es[1..]))
  }

  function Go(k: Kernel, es: seq<Event>): Kernel
    requires CanGo(k, es)
    decreases |es|
  {
    if es == [] then k else Go(Next(k, es[0]), es[1..])
  }

  /** The runs of the model are among these. */
  lemma {:induction false} RunGoes(k: Kernel, es: seq<Event>)
    requires CanRun(k, es)
    ensures CanGo(k, es) && Go(k, es) == Run(k, es)
    decreases |es|
  {
    if es != [] {
      StepGoes(k, es[0]);
      hide Step, Enabled, Possible, Next;
      RunGoes(Step(k, es[0]), es[1..]);
    }
  }

  lemma StepGoes(k: Kernel, e: Event)
    requires Enabled(k, e)
    ensures Possible(k, e) && Next(k, e) == Step(k, e)
  {
  }

  lemma {:induction false} GoesOn(k: Kernel, a: seq<Event>, b: seq<Event>)
    requires CanGo(k, a) && CanGo(Go(k, a), b)
    ensures CanGo(k, a + b) && Go(k, a + b) == Go(Go(k, a), b)
    decreases |a|
  {
    hide Next, Possible;
    if a == [] {
      assert a + b == b;
    } else {
      GoesOn(Next(k, a[0]), a[1..], b);
      assert (a + b)[0] == a[0] && (a + b)[1..] == a[1..] + b;
    }
  }

  lemma NextStranded(k: Kernel, e: Event, p: Pid)
    requires Possible(k, e) && Stranded(k, p)
    ensures Stranded(Next(k, e), p)
  {
    hide Stranded, GetKeyStep, Step;
    if e.GetKey? {
      GetKeyStranded(k, p);
    } else {
      StepStranded(k, e, p);
    }
  }

  /** A stranded process waits for good: no run wakes it, whoever calls getKey in it. */
  lemma {:induction false} StrandedForever(k: Kernel, es: seq<Event>, p: Pid)
    requires CanGo(k, es) && Stranded(k, p)
    ensures Stranded(Go(k, es), p)
    decreases |es|
  {
    hide Next, Possible, Stranded;
    if es != [] {
      NextStranded(k, es[0], p);
      StrandedForever(Next(k, es[0]), es[1..], p);
    }
  }

  // ---------------------------------------------------------------- how it comes about

  lemma ShellLives(k: Kernel)
    requires Ok(k)
    ensures ShellAlive(k)
  {
    hide Lists, Continuations, Wakeups, Mutexes;
  }

  /** The key waiter, while it is blocked, and a running process that registers over it, are nowhere else. */
  lemma KeyWaiterParked(k: Kernel, p: Pid)
    requires Ok(k) && Calls(k) && k.keyWaiter == Some(p) && k.st[p] == Blocked
    ensures Parked(k, p) && k.keys == []
  {
    hide Mutexes;
    assert k.cont[p] == Keying;
    forall m | 0 <= m < |k.mutexes| ensures p !in k.mutexes[m].waiters {
      assert !Waits(k.mutexes, m, p);
    }
  }

  /** The first way: the process that waits is blocked when another one comes to wait over it. */
  lemma StrandsBlocked(k: Kernel, p: Pid)
    requires Ok(k) && Calls(k) && k.keyWaiter == Some(p) && k.st[p] == Blocked
    ensures Stranded(GetKeyStep(k), p)
  {
    hide Ok, Block;
    ShellLives(k);
    KeyWaiterParked(k, p);
    BlockStranded(k.(keyWaiter := Some(k.running)), Keying, p);
  }

  /** A process that blocks in getKey is parked, and registered. */
  lemma CallerParked(k: Kernel)
    requires Ok(k) && Calls(k) && k.keys == []
    ensures var w := GetKeyStep(k); Parked(w, k.running) && w.keyWaiter == Some(k.running) && ShellAlive(w)
  {
    hide Wakeups, Mutexes;
    assert k.running !in k.ready && k.running !in k.sleeping && k.running !in k.exits;
    forall m | 0 <= m < |k.mutexes| ensures k.running !in k.mutexes[m].waiters {
      assert !Waits(k.mutexes, m, k.running);
    }
  }

  /** The second way: the process that waited has been woken. When it resumes while the newcomer is still blocked, it
    * clears the newcomer's registration. */
  lemma StrandsNewcomer(k: Kernel, q: Pid)
    requires k.cont[k.running] == Keying && k.keyWaiter == Some(q) && Parked(k, q) && ShellAlive(k)
    ensures Stranded(ResumeStep(k), q)
  {
    hide GetKeyStep;
    GetKeyStranded(Leave(k), q);
  }

  /** It does so at once if it is next in the ready list. */
  lemma StrandsCaller(k: Kernel, p: Pid)
    requires Ok(k) && Calls(k) && k.keyWaiter == Some(p) && k.keys == [] && k.ready != [] && k.ready[0] == p
    ensures var w := GetKeyStep(k); Enabled(w, Resume) && Step(w, Resume) == ResumeStep(w) && Stranded(ResumeStep(w), k.running)
  {
    hide Parked, Stranded, ShellAlive, ResumeStep, Lists, Wakeups, Mutexes, Exits;
    CallerParked(k);
    assert k.cont[p] == Keying && p != k.running;
    StrandsNewcomer(GetKeyStep(k), k.running);
  }

  // ---------------------------------------------------------------- runs that get there

  /** The shell creates a process and waits for a key; the collector has nothing to do; the new process runs. */
  function WaiterBlocked(): seq<Event> { [Create(KernelProcess), GetKey, Collect] }

  /** Then a key comes, and the new process takes it before the shell does. */
  function WaiterWoken(): seq<Event> { WaiterBlocked() + [KeyPress(65), PollKey] }

  lemma BlockedRun()
    ensures CanRun(Boot(0), WaiterBlocked())
    ensures var k := Run(Boot(0), WaiterBlocked());
            && k.running == 3 && k.idle == 2 && k.collector == 1 && k.cont[3] == Free && k.st[0] == Blocked
            && k.ready == [] && k.keyWaiter == Some(0) && k.keys == []
  {
    hide Boot;
    FirstCreation();
    ShellWaits(Step(Boot(0), Create(KernelProcess)));
    assert WaiterBlocked()[0] == Create(KernelProcess) && WaiterBlocked()[1..] == [GetKey, Collect];
  }

  lemma FirstCreation()
    ensures Enabled(Boot(0), Create(KernelProcess))
    ensures var k := Step(Boot(0), Create(KernelProcess));
            && k.running == 0 && k.idle == 2 && k.collector == 1 && k.cont[0] == k.cont[1] == k.cont[3] == Free
            && k.ready == [1, 3] && k.keyWaiter == None && k.keys == [] && k.exits == []
  {
    hide CodePages, StackPages;
    assert Probe(Boot(0).alloc, Boot(0).nextPid, 0) == Some(3);
  }

  lemma ShellWaits(k: Kernel)
    requires k.running == 0 && k.idle == 2 && k.collector == 1 && k.cont[0] == k.cont[1] == k.cont[3] == Free
    requires k.ready == [1, 3] && k.keyWaiter == None && k.keys == [] && k.exits == []
    ensures CanRun(k, [GetKey, Collect])
    ensures var w := Run(k, [GetKey, Collect]);
            && w.running == 3 && w.idle == 2 && w.collector == 1 && w.cont[3] == Free && w.st[0] == Blocked
            && w.ready == [] && w.keyWaiter == Some(0) && w.keys == []
  {
    var k1 := Step(k, GetKey);
    assert k1.running == 1 && k1.ready == [3];
    var k2 := Step(k1, Collect);
    assert [GetKey, Collect][1..] == [Collect] && [Collect][1..] == [];
  }

  lemma WokenRun()
    ensures CanRun(Boot(0), WaiterWoken())
    ensures var k := Run(Boot(0), WaiterWoken());
            && k.running == 3 && k.idle == 2 && k.collector == 1 && k.cont[3] == Free
            && k.ready == [0] && k.keyWaiter == Some(0) && k.keys == []
  {
    hide Boot, WaiterBlocked;
    BlockedRun();
    var k := Run(Boot(0), WaiterBlocked());
    KeyTaken(k);
    RunsOn(Boot(0), WaiterBlocked(), [KeyPress(65), PollKey]);
  }

  lemma KeyTaken(k: Kernel)
    requires k.running == 3 && k.idle == 2 && k.collector == 1 && k.cont[3] == Free && k.st[0] == Blocked
    requires k.ready == [] && k.keyWaiter == Some(0) && k.keys == []
    ensures CanRun(k, [KeyPress(65), PollKey])
    ensures var w := Run(k, [KeyPress(65), PollKey]);
            && w.running == 3 && w.idle == 2 && w.collector == 1 && w.cont[3] == Free
            && w.ready == [0] && w.keyWaiter == Some(0) && w.keys == []
  {
    assert [KeyPress(65), PollKey][1..] == [PollKey] && [PollKey][1..] == [];
    assert Step(k, KeyPress(65)).keys == [65] && Step(k, KeyPress(65)).ready == [0];
  }

  lemma BootOk(es: seq<Event>)
    requires CanRun(Boot(0), es)
    ensures Ok(Run(Boot(0), es))
  {
    hide Boot, Ok, Pages, Run;
    BootInv(0);
    RunInv(Boot(0), es);
  }

  lemma GoesOnce(k: Kernel, e: Event)
    requires Possible(k, e)
    ensures CanGo(k, [e]) && Go(k, [e]) == Next(k, e)
  {
    assert [e][1..] == [];
  }

  /** The first way, from boot: the second caller of getKey leaves the shell blocked in every run that follows. */
  lemma ShellStranded(es: seq<Event>)
    ensures var called := WaiterBlocked() + [GetKey];
            && CanGo(Boot(0), called)
            && (CanGo(Go(Boot(0), called), es) ==> Stranded(Go(Go(Boot(0), called), es), 0))
  {
    hide Boot, WaiterBlocked, Step, GetKeyStep, Ok, Run, Stranded, CanRun, Go, CanGo;
    BlockedRun();
    BootOk(WaiterBlocked());
    RunGoes(Boot(0), WaiterBlocked());
    var k := Go(Boot(0), WaiterBlocked());
    StrandsBlocked(k, 0);
    GoesOnce(k, GetKey);
    GoesOn(Boot(0), WaiterBlocked(), [GetKey]);
    if CanGo(GetKeyStep(k), es) {
      StrandedForever(GetKeyStep(k), es, 0);
    }
  }

  /** The second way, from boot: the shell resumes and leaves the second caller blocked in every run that follows. */
  lemma CallerStranded(es: seq<Event>)
    ensures var resumed := WaiterWoken() + [GetKey] + [Resume];
            && CanGo(Boot(0), resumed)
            && (CanGo(Go(Boot(0), resumed), es) ==> Stranded(Go(Go(Boot(0), resumed), es), 3))
  {
    hide Boot, WaiterWoken, Step, GetKeyStep, ResumeStep, Ok, Run, Stranded, CanRun, Go, CanGo;
    WokenRun();
    BootOk(WaiterWoken());
    RunGoes(Boot(0), WaiterWoken());
    var k := Go(Boot(0), WaiterWoken());
    StrandsCaller(k, 0);
    var w := GetKeyStep(k);
    GoesOnce(k, GetKey);
    GoesOn(Boot(0), WaiterWoken(), [GetKey]);
    GoesOnce(w, Resume);
    GoesOn(Boot(0), WaiterWoken() + [GetKey], [Resume]);
    if CanGo(ResumeStep(w), es) {
      StrandedForever(ResumeStep(w), es, 3);
    }
  }
}
