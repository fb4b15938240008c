/** What exitProcess loses when the exit queue is full: a slot that no run gets back, and a run that loses one. */
module KernelLeaks {
  import opened Common
  import opened KernelModel
  import opened KernelInvariant

  /** The slot of a dead process of which the collector knows nothing. */
  predicate Lost(k: Kernel, p: Pid) { k.alloc[p] && k.st[p] == Exited && p !in k.exits }

  /** Lost, and nobody a step could put on or take off the CPU. */
  predicate Inert(k: Kernel, p: Pid) { Lost(k, p) && p !in k.ready && p != k.running && p != k.idle }

  lemma LostIsInert(k: Kernel, p: Pid)
    requires Ok(k) && Lost(k, p)
    ensures Inert(k, p)
  {
  }

  lemma {:induction false} WakeExpiredInert(k: Kernel, ps: seq<Pid>, p: Pid)
    requires Inert(k, p)
    ensures Inert(WakeExpired(k, ps), p)
    decreases |ps|
  {
    if ps != [] {
      WakeExpiredInert(if k.tick >= k.wake[ps[0]] then Wakeup(k, ps[0]) else k, ps[1..], p);
    }
  }

  lemma TickLost(k: Kernel, p: Pid)
    requires Inert(k, p)
    ensures Lost(TickStep(k), p)
  {
    hide WakeExpired;
    WakeExpiredInert(k.(tick := k.tick + 1), k.sleeping, p);
  }

  lemma InterruptLost(k: Kernel, e: Event, p: Pid)
    requires Enabled(k, e) && (e.KeyPress? || e.DiskIrq?) && Inert(k, p)
    ensures Lost(Step(k, e), p)
  {
    hide WakeExpired, ResumeStep, TickStep, CreateStep, ExitStep;
  }

  lemma CreateLost(k: Kernel, kind: Kind, p: Pid)
    requires CanCreate(k) && k.alloc[0] && k.nextPid <= PROCESS_MAXCOUNT && Inert(k, p)
    ensures Lost(CreateStep(k, kind), p)
  {
    hide Probe, CodePages, StackPages;
    ProbeResult(k.alloc, k.nextPid, 0);
  }

  lemma ExitLost(k: Kernel, p: Pid)
    requires Inert(k, p)
    ensures Lost(ExitStep(k), p)
  {
  }

  lemma ResumeLost(k: Kernel, p: Pid)
    requires Inert(k, p)
    ensures Lost(ResumeStep(k), p)
  {
    hide StackPages;
  }

  lemma CallLost(k: Kernel, e: Event, p: Pid)
    requires Enabled(k, e) && !(e.Tick? || e.Resume? || e.KeyPress? || e.DiskIrq? || e.Exit? || e.Create?) && Inert(k, p)
    ensures Lost(Step(k, e), p)
  {
    hide WakeExpired, ResumeStep, TickStep, KeyPressStep, DiskIrqStep, ExitStep, CreateStep, CollectStep, ReleaseStep;
    if e.Collect? {
      CollectLost(k, p);
    } else if e.Release? {
      ReleaseLost(k, e.mutex, p);
    }
  }

  lemma CollectLost(k: Kernel, p: Pid)
    requires Inert(k, p)
    ensures Lost(CollectStep(k), p)
  {
    hide StackPages;
  }

  lemma ReleaseLost(k: Kernel, m: nat, p: Pid)
    requires Inert(k, p) && m < |k.mutexes|
    ensures Lost(ReleaseStep(k, m), p)
  {
  }

  lemma StepLost(k: Kernel, e: Event, p: Pid)
    requires Ok(k) && Enabled(k, e) && Lost(k, p)
    ensures Lost(Step(k, e), p)
  {
    hide Ok, Lost, Inert, TickStep, ResumeStep, KeyPressStep, DiskIrqStep, CreateStep, ExitStep, CollectStep, ReleaseStep, Probe;
    LostIsInert(k, p);
    SlotZero(k);
    match e
    case Tick => TickLost(k, p);
    case Resume => ResumeLost(k, p);
    case KeyPress(_) => InterruptLost(k, e, p);
    case DiskIrq(_) => InterruptLost(k, e, p);
    case Create(kind) => CreateLost(k, kind, p);
    case Exit => ExitLost(k, p);
    case _ => CallLost(k, e, p);
  }

  /** A lost slot stays lost, whatever else happens. */
  lemma {:induction false} LostForever(k: Kernel, es: seq<Event>, p: Pid)
    requires Ok(k) && CanRun(k, es) && Lost(k, p)
    ensures Lost(Run(k, es), p)
    decreases |es|
  {
    hide Ok, Step, Enabled, Lost;
    if es != [] {
      StepOk(k, es[0]);
      StepLost(k, es[0], p);
      LostForever(Step(k, es[0]), es[1..], p);
    }
  }

  /** One exit loses the slot of the process that exits exactly if the exit queue is full, and no other slot. */
  lemma LosesExactly(k: Kernel, p: Pid)
    requires Ok(k) && Enabled(k, Exit)
    ensures Lost(Step(k, Exit), p) <==> Lost(k, p) || (p == k.running && |k.exits| >= EXIT_CAPACITY)
  {
    hide Ok, ExitStep;
    Exiting(k);
    ExitEffect(k);
  }

  lemma Exiting(k: Kernel)
    requires Ok(k) && Enabled(k, Exit)
    ensures k.running != k.idle && k.running != k.collector && k.running !in k.ready && k.running !in k.exits
    ensures k.alloc[k.running] && k.st[k.running] != Exited && k.st[k.idle] != Exited
    ensures forall p :: p in k.ready ==> k.st[p] == Ready
    ensures Step(k, Exit) == ExitStep(k)
  {
    hide Continuations, Wakeups, Mutexes, ExitStep;
  }

  lemma ExitEffect(k: Kernel)
    requires k.running != k.idle && k.running !in k.ready && k.running != k.collector && k.st[k.idle] != Exited
    requires forall p :: p in k.ready ==> k.st[p] == Ready
    ensures var w := ExitStep(k);
            && w.alloc == k.alloc && w.exits == (if |k.exits| < EXIT_CAPACITY then k.exits + [k.running] else k.exits)
            && w.st[k.running] == Exited && forall p: Pid :: p != k.running ==> (w.st[p] == Exited <==> k.st[p] == Exited)
  {
  }

  // ---------------------------------------------------------------- a run that loses a slot

  function Pids(from: nat, n: nat): (s: seq<Pid>)
    requires from + n <= PROCESS_MAXCOUNT
    ensures |s| == n && forall i :: 0 <= i < n ==> s[i] == from + i
  {
    seq(n, i requires 0 <= i < n => from + i)
  }

  function Repeat(e: Event, n: nat): seq<Event> { if n == 0 then [] else [e] + Repeat(e, n - 1) }

  /** The shell has created `n` processes since boot. */
  ghost predicate Born(k: Kernel, n: nat) {
    && n <= 100 && k.running == 0 && k.idle == 2 && k.collector == 1
    && k.ready == [1] + Pids(3, n) && k.sleeping == [] && k.exits == [] && k.mutexes == []
    && k.nextPid == 3 + n && (forall p: Pid :: k.alloc[p] <==> p < 3 + n)
    && (forall p: Pid :: k.cont[p] == Free) && (forall p: Pid :: 0 < p < 3 + n ==> k.st[p] == Ready)
  }

  lemma NextSlot(k: Kernel, n: nat)
    requires Born(k, n) && n < 100
    ensures Probe(k.alloc, k.nextPid, 0) == Some(3 + n)
  {
    hide Probe, Pids;
    ProbeFree(k.alloc, 3 + n);
  }

  lemma ProbeFree(alloc: Marks, i: nat)
    requires i < PROCESS_MAXCOUNT && !alloc[i]
    ensures Probe(alloc, i, 0) == Some(i)
  {
    assert i % PROCESS_MAXCOUNT == i;
  }

  lemma Creates(k: Kernel)
    requires Calls(k) && CanCreate(k)
    ensures Enabled(k, Create(KernelProcess)) && Step(k, Create(KernelProcess)) == CreateStep(k, KernelProcess)
  {
    hide CanCreate, CreateStep;
  }

  lemma BirthStep(k: Kernel, n: nat)
    requires Born(k, n) && n < 100
    ensures Enabled(k, Create(KernelProcess)) && Born(Step(k, Create(KernelProcess)), n + 1)
  {
    hide CodePages, StackPages, Probe, Step, Enabled;
    NextSlot(k, n);
    Creates(k);
    var w := CreateStep(k, KernelProcess);
    assert w.ready == [1] + Pids(3, n) + [3 + n] == [1] + Pids(3, n + 1);
  }

  lemma {:induction false} Births(k: Kernel, n: nat, m: nat)
    requires Born(k, n) && n + m <= 100
    ensures CanRun(k, Repeat(Create(KernelProcess), m)) && Born(Run(k, Repeat(Create(KernelProcess), m)), n + m)
    decreases m
  {
    hide Step, Enabled, Born;
    if m > 0 {
      BirthStep(k, n);
      Births(Step(k, Create(KernelProcess)), n + 1, m - 1);
      assert Repeat(Create(KernelProcess), m)[1..] == Repeat(Create(KernelProcess), m - 1);
    }
  }

  /** The collector waits, or has been woken, and `m` of the hundred have exited, one after the other. */
  ghost predicate Dying(k: Kernel, m: nat) {
    && m <= 99 && k.running == 3 + m && k.idle == 2 && k.collector == 1
    && k.ready == Pids(4 + m, 99 - m) + [0] + (if m > 0 then [1] else []) && k.sleeping == []
    && k.exits == Pids(3, m) && k.mutexes == [] && (forall p: Pid :: k.alloc[p] <==> p < 103)
    && k.st[1] == (if m > 0 then Ready else Blocked) && (forall p: Pid :: 3 + m <= p < 103 ==> k.cont[p] == Free)
  }

  lemma FirstDeath(k: Kernel)
    requires Born(k, 100)
    ensures CanRun(k, [Yield, Collect]) && Dying(Run(k, [Yield, Collect]), 0)
  {
    hide CodePages, StackPages;
    var w := Step(k, Yield);
    assert w.ready == Pids(3, 100) + [0] && w.running == 1;
    var u := Step(w, Collect);
    assert w.ready[1..] == Pids(4, 99) + [0] && w.ready[0] == 3;
    assert [Yield, Collect][1..] == [Collect] && [Collect][1..] == [];
    assert CanRun(w, [Collect]) && Run(w, [Collect]) == u;
  }

  lemma DeathStep(k: Kernel, m: nat)
    requires Dying(k, m) && m < 99
    ensures Enabled(k, Exit) && Dying(Step(k, Exit), m + 1)
  {
    var w := Step(k, Exit);
    assert Pids(4 + m, 99 - m)[0] == 4 + m && Pids(4 + m, 99 - m)[1..] == Pids(5 + m, 98 - m);
    assert k.ready[0] == 4 + m;
    assert w.ready == Pids(5 + m, 98 - m) + [0] + [1];
    assert w.exits == Pids(3, m) + [3 + m] == Pids(3, m + 1);
  }

  lemma {:induction false} Deaths(k: Kernel, m: nat, n: nat)
    requires Dying(k, m) && m + n <= 99
    ensures CanRun(k, Repeat(Exit, n)) && Dying(Run(k, Repeat(Exit, n)), m + n)
    decreases n
  {
    hide Step, Enabled, Dying;
    if n > 0 {
      DeathStep(k, m);
      Deaths(Step(k, Exit), m + 1, n - 1);
      assert Repeat(Exit, n)[1..] == Repeat(Exit, n - 1);
    }
  }

  /** The shell creates a hundred processes and yields, the collector finds nothing to do and blocks, and the processes
    * exit before a timer tick lets the collector run. */
  function LosingRun(): seq<Event> { Repeat(Create(KernelProcess), 100) + [Yield, Collect] + Repeat(Exit, 99) }

  /** It can happen: in this run from boot the hundredth exit loses a slot. */
  lemma SlotIsLost()
    ensures CanRun(Boot(0), LosingRun())
    ensures var k := Run(Boot(0), LosingRun());
            |k.exits| == EXIT_CAPACITY && Enabled(k, Exit) && Lost(Step(k, Exit), k.running)
  {
    hide Born, Dying, CanRun, Run, Repeat, Step, Enabled, Boot, Ok, Lost;
    BootBorn();
    var births, deaths := Repeat(Create(KernelProcess), 100), Repeat(Exit, 99);
    Births(Boot(0), 0, 100);
    var k1 := Run(Boot(0), births);
    FirstDeath(k1);
    RunsOn(Boot(0), births, [Yield, Collect]);
    var k2 := Run(k1, [Yield, Collect]);
    Deaths(k2, 0, 99);
    RunsOn(Boot(0), births + [Yield, Collect], deaths);
    var k := Run(Boot(0), LosingRun());
    BootInv(0);
    RunInv(Boot(0), LosingRun());
    InvOk(k);
    LastDeath(k);
    LosesExactly(k, k.running);
  }

  lemma BootBorn()
    ensures Born(Boot(0), 0)
  {
  }

  lemma LastDeath(k: Kernel)
    requires Dying(k, 99)
    ensures |k.exits| == EXIT_CAPACITY && Enabled(k, Exit)
  {
  }
}
