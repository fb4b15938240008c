/** Results about whole runs: bounded response, and when sleepers wake. */
module KernelRuns {
  import opened Common
  import opened Words
  import opened KernelModel
  import opened KernelInvariant

  // ---------------------------------------------------------------- bounded response

  function TickCount(es: seq<Event>): nat {
    if es == [] then 0 else (if es[0].Tick? then 1 else 0) + TickCount(es[1..])
  }

  /** Waking processes only appends to the ready list. */
  lemma {:induction false} WakeExpiredAppends(k: Kernel, ps: seq<Pid>)
    ensures k.ready <= WakeExpired(k, ps).ready
    decreases |ps|
  {
    if ps != [] {
      WakeExpiredAppends(if k.tick >= k.wake[ps[0]] then Wakeup(k, ps[0]) else k, ps[1..]);
    }
  }

  /** The ready list only grew at its tail. */
  predicate Keeps(k: Kernel, w: Kernel) { k.ready <= w.ready }

  /** The head of the ready list got the CPU and the rest only grew at the tail. */
  predicate Pops(k: Kernel, w: Kernel) {
    k.ready != [] && w.running == k.ready[0] && k.ready[1..] <= w.ready
  }

  lemma TickPops(k: Kernel)
    requires k.ready != [] && k.running != k.idle
    ensures Pops(k, TickStep(k))
  {
    var k1 := k.(tick := k.tick + 1);
    WakeExpiredAppends(k1, k.sleeping);
    WakeExpiredSame(k1, k.sleeping);
    hide WakeExpired;
  }

  lemma BlockPops(k: Kernel, c: Cont)
    requires k.ready != []
    ensures Pops(k, Block(k, c))
  {
  }

  lemma AwaitDiskPops(k: Kernel, ch: Channel, deadline: nat)
    requires k.ready != []
    ensures var w := AwaitDiskStep(k, ch, deadline); Keeps(k, w) || Pops(k, w)
  {
  }

  lemma WakeupKeeps(k: Kernel, p: Option<Pid>)
    requires k.running != k.idle
    ensures Keeps(k, WakeupInInterrupt(k, p))
  {
  }

  lemma ReleaseKeeps(k: Kernel, m: nat)
    requires m < |k.mutexes|
    ensures Keeps(k, ReleaseStep(k, m))
  {
  }

  lemma ExitPops(k: Kernel)
    requires k.ready != []
    ensures Pops(k, ExitStep(k))
  {
  }

  /** No step takes a process out of the ready list, or moves it back, except by giving it the CPU; a
    * tick always gives the head the CPU. */
  lemma StepReady(k: Kernel, e: Event)
    requires Enabled(k, e) && k.ready != [] && k.running != k.idle
    ensures var w := Step(k, e); Pops(k, w) || (Keeps(k, w) && !e.Tick?)
  {
    hide TickStep, KeyPressStep, DiskIrqStep, SleepUntil, ReleaseStep, GetKeyStep, AwaitDiskStep, ExitStep, CollectStep, Block;
    match e
    case Tick => TickPops(k);
    case KeyPress(b) => KeyPressKeeps(k, b);
    case DiskIrq(ch) => DiskIrqKeeps(k, ch);
    case Sleep(ms) => SleepPops(k, WakeTick(k.tick, ms));
    case Acquire(m) =>
      var x := k.mutexes[m];
      BlockPops(k.(mutexes := k.mutexes[m := x.(waiters := x.waiters + [k.running])]), Locking(m));
    case Release(m) => ReleaseKeeps(k, m);
    case GetKey => LoopReady(k, Keying);
    case AwaitDisk(ch) => LoopReady(k, DiskWaiting(ch, k.tick + DISK_TIMEOUT_TICKS));
    case Exit => ExitPops(k);
    case Collect => LoopReady(k, Collecting);
    case Resume => LoopReady(Leave(k), k.cont[k.running]);
    case _ =>
  }

  lemma KeyPressKeeps(k: Kernel, b: Byte)
    requires k.running != k.idle
    ensures Keeps(k, KeyPressStep(k, b))
  {
    WakeupKeeps(if |k.keys| < KEY_CAPACITY then k.(keys := k.keys + [b]) else k, k.keyWaiter);
  }

  lemma DiskIrqKeeps(k: Kernel, ch: Channel)
    requires k.running != k.idle
    ensures Keeps(k, DiskIrqStep(k, ch))
  {
    WakeupKeeps(k.(flag := k.flag[ch := true]), k.diskWaiter[ch]);
  }

  lemma SleepPops(k: Kernel, t: nat)
    requires k.ready != []
    ensures Pops(k, SleepUntil(k, t, Sleeping))
  {
  }

  lemma LoopReady(k: Kernel, c: Cont)
    requires k.ready != []
    ensures c.Keying? ==> var w := GetKeyStep(k); Pops(k, w) || Keeps(k, w)
    ensures c.DiskWaiting? ==> var w := AwaitDiskStep(k, c.ch, c.deadline); Pops(k, w) || Keeps(k, w)
    ensures c.Collecting? ==> var w := CollectStep(k); Pops(k, w) || Keeps(k, w)
  {
    if c.DiskWaiting? {
      AwaitDiskPops(k, c.ch, c.deadline);
    }
  }

  lemma ReadyMeansBusy(k: Kernel)
    requires Ok(k) && k.ready != []
    ensures k.running != k.idle
  {
  }

  /** The first j + 1 events of a run are its first event and then j more. */
  lemma RunPrefix(k: Kernel, es: seq<Event>, j: nat)
    requires es != [] && Enabled(k, es[0]) && j <= |es| - 1
    requires CanRun(Step(k, es[0]), es[1..][..j])
    ensures CanRun(k, es[..j + 1]) && Run(k, es[..j + 1]) == Run(Step(k, es[0]), es[1..][..j])
  {
    hide Step, Enabled;
    assert es[..j + 1][1..] == es[1..][..j];
  }

  /** A process with `i` processes ahead of it gets the CPU within i + 1 timer ticks. */
  lemma {:induction false} BoundedResponse(k: Kernel, es: seq<Event>, i: nat)
    requires Ok(k) && CanRun(k, es) && i < |k.ready| && TickCount(es) > i
    ensures exists j :: 0 <= j <= |es| && CanRun(k, es[..j]) && Run(k, es[..j]).running == k.ready[i]
    decreases |es|
  {
    var p := k.ready[i];
    var w := Step(k, es[0]);
    ReadyMeansBusy(k);
    StepReady(k, es[0]);
    StepOk(k, es[0]);
    hide Ok, Step, Enabled;
    if w.running == p {
      RunPrefix(k, es, 0);
    } else {
      var i' := if Keeps(k, w) && !es[0].Tick? then i else i - 1;
      assert w.ready[i'] == p;
      BoundedResponse(w, es[1..], i');
      var j :| 0 <= j <= |es| - 1 && CanRun(w, es[1..][..j]) && Run(w, es[1..][..j]).running == p;
      RunPrefix(k, es, j);
    }
  }

  // ---------------------------------------------------------------- sleeping

  /** The tick a sleep of `ms` milliseconds should end at: at least one tick, rounded up to whole slots. */
  function DueTick(now: nat, ms: nat): nat {
    var due := now + (ms + SLOT_TIME - 1) / SLOT_TIME;
    if due > now then due else now + 1
  }

  /** The tick a sleep that begins at tick `now` does end at: a wake-up tick already reached means the next tick. */
  function EndTick(now: nat, ms: nat): nat { if WakeTick(now, ms) > now then WakeTick(now, ms) else now + 1 }

  /** The 64-bit arithmetic of sleepProcess hits the due tick exactly when ms + 4 does not wrap; every
    * longer request returns at the next tick instead. */
  lemma WakeTickExact(now: nat, ms: nat)
    requires ms < QWORD && now + QWORD / SLOT_TIME + 1 < QWORD
    ensures now <= WakeTick(now, ms)
    ensures EndTick(now, ms) == DueTick(now, ms) <==> ms + SLOT_TIME - 1 < QWORD
    ensures ms + SLOT_TIME - 1 >= QWORD ==> EndTick(now, ms) == now + 1
  {
  }

  // the nodes of a sleep list whose wake-up tick has, or has not, been reached, in order
  function Due(tick: nat, wake: Ticks, ps: seq<Pid>): seq<Pid> {
    if ps == [] then [] else (if tick >= wake[ps[0]] then [ps[0]] else []) + Due(tick, wake, ps[1..])
  }

  function Later(tick: nat, wake: Ticks, ps: seq<Pid>): seq<Pid> {
    if ps == [] then [] else (if tick >= wake[ps[0]] then [] else [ps[0]]) + Later(tick, wake, ps[1..])
  }

  lemma {:induction false} DueLaterMembers(tick: nat, wake: Ticks, ps: seq<Pid>)
    ensures forall p: Pid :: p in Due(tick, wake, ps) <==> p in ps && tick >= wake[p]
    ensures forall p: Pid :: p in Later(tick, wake, ps) <==> p in ps && tick < wake[p]
  {
    if ps != [] {
      DueLaterMembers(tick, wake, ps[1..]);
      assert forall p: Pid :: p in ps <==> p == ps[0] || p in ps[1..];
    }
  }

  /** `w` is `k` after the nodes `ps` of its sleep list, those behind `kept`, have been visited: the later ones stay in
    * order, the due ones are READY and queued in order, and nobody else's state byte differs. */
  ghost predicate Partitioned(k: Kernel, kept: seq<Pid>, ps: seq<Pid>, w: Kernel) {
    && w.sleeping == kept + Later(k.tick, k.wake, ps) && w.ready == k.ready + Due(k.tick, k.wake, ps)
    && forall p: Pid :: w.st[p] == if p in ps && k.tick >= k.wake[p] then Ready else k.st[p]
  }

  /** wakeExpiredProcess, which takes nodes out of the list it walks, is a stable partition. */
  lemma {:induction false} StablePartition(k: Kernel, kept: seq<Pid>, ps: seq<Pid>)
    requires k.sleeping == kept + ps && NoDup(k.sleeping) && forall p :: p in ps ==> k.st[p] == Blocked
    ensures Partitioned(k, kept, ps, WakeExpired(k, ps))
    decreases |ps|
  {
    hide NoDup, Partitioned, Wakeup;
    if ps == [] {
      EmptyWalk(k, kept);
    } else {
      WakeOne(k, kept, ps);
      if k.tick >= k.wake[ps[0]] {
        StablePartition(Wakeup(k, ps[0]), kept, ps[1..]);
        DuePartition(k, kept, ps, WakeExpired(Wakeup(k, ps[0]), ps[1..]));
      } else {
        StablePartition(k, kept + [ps[0]], ps[1..]);
        LaterPartition(k, kept, ps, WakeExpired(k, ps[1..]));
      }
    }
  }

  lemma EmptyWalk(k: Kernel, kept: seq<Pid>)
    requires k.sleeping == kept + []
    ensures Partitioned(k, kept, [], k)
  {
  }

  /** The first node is due. */
  lemma DuePartition(k: Kernel, kept: seq<Pid>, ps: seq<Pid>, w: Kernel)
    requires ps != [] && k.tick >= k.wake[ps[0]] && Partitioned(Wakeup(k, ps[0]), kept, ps[1..], w)
    requires var k1 := Wakeup(k, ps[0]);
             k1.ready == k.ready + [ps[0]] && k1.tick == k.tick && k1.wake == k.wake && k1.st == k.st[ps[0] := Ready]
    ensures Partitioned(k, kept, ps, w)
  {
    hide Wakeup;
    var due := Due(k.tick, k.wake, ps[1..]);
    assert k.ready + [ps[0]] + due == k.ready + ([ps[0]] + due);
    assert ps == [ps[0]] + ps[1..];
  }

  /** The first node is not due. */
  lemma LaterPartition(k: Kernel, kept: seq<Pid>, ps: seq<Pid>, w: Kernel)
    requires ps != [] && k.tick < k.wake[ps[0]] && Partitioned(k, kept + [ps[0]], ps[1..], w)
    ensures Partitioned(k, kept, ps, w)
  {
    var later := Later(k.tick, k.wake, ps[1..]);
    assert kept + [ps[0]] + later == kept + ([ps[0]] + later);
    assert ps == [ps[0]] + ps[1..];
  }

  lemma WakeOne(k: Kernel, kept: seq<Pid>, ps: seq<Pid>)
    requires k.sleeping == kept + ps && ps != [] && NoDup(k.sleeping) && forall p :: p in ps ==> k.st[p] == Blocked
    ensures k.sleeping == kept + [ps[0]] + ps[1..]
    ensures var w := Wakeup(k, ps[0]);
            && w.sleeping == kept + ps[1..] && NoDup(w.sleeping) && w.ready == k.ready + [ps[0]]
            && w.tick == k.tick && w.wake == k.wake && w.st == k.st[ps[0] := Ready]
            && forall p :: p in ps[1..] ==> w.st[p] == Blocked && p != ps[0]
  {
    SplitAt(k.sleeping, kept, ps);
  }

  /** A duplicate-free list seen from the node the walk has reached. */
  lemma SplitAt(s: seq<Pid>, kept: seq<Pid>, ps: seq<Pid>)
    requires s == kept + ps && ps != [] && NoDup(s)
    ensures forall p :: p in ps[1..] ==> p != ps[0]
    ensures Remove(s, ps[0]) == kept + ps[1..] && NoDup(Remove(s, ps[0])) && s == kept + [ps[0]] + ps[1..]
  {
    assert s[|kept|] == ps[0];
    forall p | p in ps[1..] ensures p != ps[0] {
      var i :| 0 <= i < |ps[1..]| && ps[1..][i] == p;
      assert s[|kept| + 1 + i] == p;
    }
    RemoveAt(s, |kept|);
    RemoveNoDup(s, ps[0]);
  }

  /** Asleep in sleepProcess until tick `due`. */
  ghost predicate Asleep(k: Kernel, p: Pid, due: nat) {
    && p in k.sleeping && k.cont[p] == Sleeping && k.st[p] == Blocked
    && k.tick < due && (due == k.wake[p] || (k.wake[p] < due && due == k.tick + 1))
  }

  ghost predicate Awake(k: Kernel, p: Pid) { p !in k.sleeping && (k.st[p] == Ready || k.st[p] == Running) }

  lemma ExpiredOne(k: Kernel, p: Pid)
    requires NoDup(k.sleeping) && p in k.sleeping && p !in k.ready && forall q :: q in k.sleeping ==> k.st[q] == Blocked
    ensures var w := WakeExpired(k, k.sleeping);
            && w == k.(sleeping := w.sleeping, ready := w.ready, st := w.st)
            && if k.tick >= k.wake[p] then p !in w.sleeping && p in w.ready && w.st[p] == Ready
               else p in w.sleeping && p !in w.ready && w.st[p] == Blocked
  {
    StablePartition(k, [], k.sleeping);
    WakeExpiredSame(k, k.sleeping);
    DueLaterMembers(k.tick, k.wake, k.sleeping);
    hide WakeExpired, Due, Later;
    assert [] + Later(k.tick, k.wake, k.sleeping) == Later(k.tick, k.wake, k.sleeping);
  }

  lemma SleepersBlocked(k: Kernel)
    requires Ok(k)
    ensures NoDup(k.sleeping) && forall p :: p in k.sleeping ==> k.st[p] == Blocked && p != k.idle && p != k.running && p !in k.ready
  {
  }

  /** The timer releases a sleeper at its due tick and not before. */
  lemma TickAsleep(k: Kernel, p: Pid, due: nat)
    requires Ok(k) && Asleep(k, p, due)
    ensures var w := TickStep(k); w.tick == k.tick + 1 && if w.tick == due then Awake(w, p) else Asleep(w, p, due)
  {
    var k1 := k.(tick := k.tick + 1);
    SleepersBlocked(k);
    ExpiredOne(k1, p);
    hide Ok, WakeExpired, NoDup, Timeout;
    TimeoutAsleep(WakeExpired(k1, k.sleeping), p);
  }

  lemma TimeoutAsleep(k: Kernel, p: Pid)
    requires p != k.running && p != k.idle
    ensures var w := Timeout(k);
            && w.sleeping == k.sleeping && w.tick == k.tick && w.wake == k.wake && w.cont == k.cont
            && (p !in k.ready ==> w.st[p] == k.st[p]) && (k.st[p] == Ready ==> w.st[p] == Ready || w.st[p] == Running)
  {
  }

  /** Nothing of the sleeper `p` changes. */
  ghost predicate Undisturbed(k: Kernel, w: Kernel, p: Pid) {
    && (p in k.sleeping ==> p in w.sleeping)
    && w.cont[p] == k.cont[p] && w.st[p] == k.st[p] && w.wake[p] == k.wake[p] && w.tick == k.tick
  }

  lemma WakeupUndisturbed(k: Kernel, q: Pid, p: Pid)
    requires q != p && NoDup(k.sleeping)
    ensures Undisturbed(k, Wakeup(k, q), p)
  {
    RemoveNoDup(k.sleeping, q);
  }

  lemma InterruptUndisturbed(k: Kernel, q: Option<Pid>, p: Pid)
    requires q != Some(p) && NoDup(k.sleeping) && p != k.idle && p != k.running && p !in k.ready
    ensures Undisturbed(k, WakeupInInterrupt(k, q), p)
  {
    if q.Some? && k.st[q.value] == Blocked {
      WakeupUndisturbed(k, q.value, p);
    }
  }

  /** What the invariant says about a process asleep in sleepProcess: nobody else holds it. */
  lemma SleeperAlone(k: Kernel, p: Pid)
    requires Ok(k) && p in k.sleeping && k.cont[p] == Sleeping
    ensures p != k.running && p != k.idle && p != k.collector && p !in k.ready && NoDup(k.sleeping) && k.alloc[p]
    ensures k.keyWaiter != Some(p) && (forall ch: Channel :: k.diskWaiter[ch] != Some(p)) && k.nextPid <= PROCESS_MAXCOUNT && k.alloc[0]
    ensures forall m :: 0 <= m < |k.mutexes| && k.mutexes[m].waiters != [] ==> k.mutexes[m].waiters[0] != p
  {
    assert k.cont[k.running] != Sleeping || k.st[k.running] != Blocked;
    forall m | 0 <= m < |k.mutexes| && k.mutexes[m].waiters != [] ensures k.mutexes[m].waiters[0] != p {
      assert Waits(k.mutexes, m, k.mutexes[m].waiters[0]);
    }
  }

  /** Only the timer disturbs a sleeper. */
  lemma StepUndisturbed(k: Kernel, e: Event, p: Pid)
    requires Ok(k) && Enabled(k, e) && !e.Tick? && p in k.sleeping && k.cont[p] == Sleeping
    ensures Undisturbed(k, Step(k, e), p)
  {
    hide Ok, Undisturbed, TickStep, KeyPressStep, DiskIrqStep, YieldStep, SleepUntil, ReleaseStep, GetKeyStep, AwaitDiskStep, ExitStep, CollectStep, Block, NoDup, CreateStep,
      Wakeup, ResumeStep, AcquireStep;
    SleeperAlone(k, p);
    match e
    case Yield => YieldUndisturbed(k, p);
    case PollKey => PollUndisturbed(k, p);
    case ClearFlag(ch) => FlagUndisturbed(k, ch, p);
    case KeyPress(b) => KeyPressUndisturbed(k, b, p);
    case DiskIrq(ch) => DiskIrqUndisturbed(k, ch, p);
    case Sleep(ms) => SleepUndisturbed(k, WakeTick(k.tick, ms), Sleeping, p);
    case Acquire(m) => AcquireUndisturbed(k, m, p);
    case Release(m) => ReleaseUndisturbed(k, m, p);
    case GetKey => LoopUndisturbed(k, Keying, p);
    case AwaitDisk(ch) => LoopUndisturbed(k, DiskWaiting(ch, k.tick + DISK_TIMEOUT_TICKS), p);
    case Exit => ExitUndisturbed(k, p);
    case Collect => LoopUndisturbed(k, Collecting, p);
    case Create(kind) => CreateUndisturbed(k, kind, p);
    case Resume => ResumeUndisturbed(k, p);
  }

  lemma YieldUndisturbed(k: Kernel, p: Pid)
    requires p != k.running && p !in k.ready
    ensures Undisturbed(k, YieldStep(k), p)
  {
  }

  lemma PollUndisturbed(k: Kernel, p: Pid)
    ensures k.keys != [] ==> Undisturbed(k, k.(keys := k.keys[1..]), p)
    ensures Undisturbed(k, k, p)
  {
  }

  lemma FlagUndisturbed(k: Kernel, ch: Channel, p: Pid)
    ensures Undisturbed(k, k.(flag := k.flag[ch := false]), p)
  {
  }

  lemma AcquireUndisturbed(k: Kernel, m: nat, p: Pid)
    requires m < |k.mutexes| && p != k.idle && p != k.running && p !in k.ready
    ensures Undisturbed(k, AcquireStep(k, m), p)
  {
    hide Block;
    var x := k.mutexes[m];
    BlockUndisturbed(k.(mutexes := k.mutexes[m := x.(waiters := x.waiters + [k.running])]), Locking(m), p);
  }

  lemma ResumeUndisturbed(k: Kernel, p: Pid)
    requires p != k.idle && p != k.running && p !in k.ready
    ensures Undisturbed(k, ResumeStep(k), p)
  {
    hide GetKeyStep, AwaitDiskStep, CollectStep;
    LoopUndisturbed(Leave(k), k.cont[k.running], p);
  }

  lemma CreateUndisturbed(k: Kernel, kind: Kind, p: Pid)
    requires k.alloc[p] && k.alloc[0] && k.nextPid <= PROCESS_MAXCOUNT && CanCreate(k)
    ensures Undisturbed(k, CreateStep(k, kind), p)
  {
    ProbeResult(k.alloc, k.nextPid, 0);
    hide Probe, CodePages, StackPages;
  }

  lemma KeyPressUndisturbed(k: Kernel, b: Byte, p: Pid)
    requires k.keyWaiter != Some(p) && NoDup(k.sleeping) && p != k.idle && p != k.running && p !in k.ready
    ensures Undisturbed(k, KeyPressStep(k, b), p)
  {
    InterruptUndisturbed(if |k.keys| < KEY_CAPACITY then k.(keys := k.keys + [b]) else k, k.keyWaiter, p);
  }

  lemma DiskIrqUndisturbed(k: Kernel, ch: Channel, p: Pid)
    requires k.diskWaiter[ch] != Some(p) && NoDup(k.sleeping) && p != k.idle && p != k.running && p !in k.ready
    ensures Undisturbed(k, DiskIrqStep(k, ch), p)
  {
    InterruptUndisturbed(k.(flag := k.flag[ch := true]), k.diskWaiter[ch], p);
  }

  lemma BlockUndisturbed(k: Kernel, c: Cont, p: Pid)
    requires p != k.idle && p != k.running && p !in k.ready
    ensures Undisturbed(k, Block(k, c), p)
  {
  }

  lemma SleepUndisturbed(k: Kernel, t: nat, c: Cont, p: Pid)
    requires p != k.idle && p != k.running && p !in k.ready
    ensures Undisturbed(k, SleepUntil(k, t, c), p)
  {
  }

  lemma LoopUndisturbed(k: Kernel, c: Cont, p: Pid)
    requires p != k.idle && p != k.running && p !in k.ready
    ensures c.Keying? ==> Undisturbed(k, GetKeyStep(k), p)
    ensures c.DiskWaiting? ==> Undisturbed(k, AwaitDiskStep(k, c.ch, c.deadline), p)
    ensures c.Collecting? ==> Undisturbed(k, CollectStep(k), p)
  {
    hide Block, SleepUntil;
    BlockUndisturbed(k.(keyWaiter := Some(k.running)), Keying, p);
    BlockUndisturbed(k, Collecting, p);
    if c.DiskWaiting? {
      SleepUndisturbed(k.(diskWaiter := k.diskWaiter[c.ch := Some(k.running)]), c.deadline, c, p);
    }
  }

  lemma ReleaseUndisturbed(k: Kernel, m: nat, p: Pid)
    requires m < |k.mutexes| && NoDup(k.sleeping) && (k.mutexes[m].waiters != [] ==> k.mutexes[m].waiters[0] != p)
    ensures Undisturbed(k, ReleaseStep(k, m), p)
  {
    var x := k.mutexes[m];
    if x.waiters != [] {
      WakeupUndisturbed(k.(mutexes := k.mutexes[m := Mutex(Some(x.waiters[0]), 1, x.waiters[1..])]), x.waiters[0], p);
    }
  }

  lemma ExitUndisturbed(k: Kernel, p: Pid)
    requires p != k.running && p != k.idle && p != k.collector && p !in k.ready && NoDup(k.sleeping)
    ensures Undisturbed(k, ExitStep(k), p)
  {
    WakeupUndisturbed(if |k.exits| < EXIT_CAPACITY then k.(exits := k.exits + [k.running]) else k, k.collector, p);
  }

  lemma StepAsleep(k: Kernel, e: Event, p: Pid, due: nat)
    requires Ok(k) && Asleep(k, p, due) && Enabled(k, e)
    ensures var w := Step(k, e); if w.tick >= due then e.Tick? && w.tick == due && Awake(w, p) else Asleep(w, p, due)
  {
    if e.Tick? {
      TickAsleep(k, p, due);
      hide Ok, TickStep;
    } else {
      StepUndisturbed(k, e, p);
      hide Ok, Step;
    }
  }

  /** Event `j` of the run is the tick that makes the count `due`, and it releases the sleeper `p`. */
  ghost predicate WokenBy(k: Kernel, es: seq<Event>, j: nat, p: Pid, due: nat) {
    && j < |es| && es[j].Tick? && CanRun(k, es[..j]) && CanRun(k, es[..j + 1])
    && Asleep(Run(k, es[..j]), p, due) && Awake(Run(k, es[..j + 1]), p) && Run(k, es[..j + 1]).tick == due
  }

  lemma WokenLater(k: Kernel, es: seq<Event>, j: nat, p: Pid, due: nat)
    requires es != [] && Enabled(k, es[0]) && WokenBy(Step(k, es[0]), es[1..], j, p, due)
    ensures WokenBy(k, es, j + 1, p, due)
  {
    hide Step, Enabled, Awake, Asleep;
    RunPrefix(k, es, j);
    RunPrefix(k, es, j + 1);
  }

  lemma WokenNow(k: Kernel, es: seq<Event>, p: Pid, due: nat)
    requires es != [] && Enabled(k, es[0]) && es[0].Tick?
    requires Asleep(k, p, due) && Awake(Step(k, es[0]), p) && Step(k, es[0]).tick == due
    ensures WokenBy(k, es, 0, p, due)
  {
    hide Step, Enabled, Awake, Asleep;
    RunPrefix(k, es, 0);
    assert es[..0] == [];
  }

  /** A sleeper is released by the very tick that makes the count `due`, never before, whatever else
    * happens. */
  lemma {:induction false} SleepsUntilDue(k: Kernel, es: seq<Event>, p: Pid, due: nat)
    requires Ok(k) && Asleep(k, p, due) && CanRun(k, es)
    ensures Run(k, es).tick < due ==> Asleep(Run(k, es), p, due)
    ensures Run(k, es).tick >= due ==> exists j :: WokenBy(k, es, j, p, due)
    decreases |es|
  {
    assert k.tick < due;
    if es != [] {
      var w := Step(k, es[0]);
      StepOk(k, es[0]);
      StepAsleep(k, es[0], p, due);
      hide Ok, Step, Enabled, Awake, Asleep, WokenBy;
      if w.tick >= due {
        WokenNow(k, es, p, due);
        TickMonotone(w, es[1..]);
      } else {
        SleepsUntilDue(w, es[1..], p, due);
        if Run(k, es).tick >= due {
          var j :| WokenBy(w, es[1..], j, p, due);
          WokenLater(k, es, j, p, due);
        }
      }
    }
  }

  /** The clock never runs backwards. */
  lemma {:induction false} TickMonotone(k: Kernel, es: seq<Event>)
    requires CanRun(k, es)
    ensures k.tick <= Run(k, es).tick
    decreases |es|
  {
    if es != [] {
      StepTick(k, es[0]);
      hide Step, Enabled;
      TickMonotone(Step(k, es[0]), es[1..]);
    }
  }

  lemma StepTick(k: Kernel, e: Event)
    requires Enabled(k, e)
    ensures Step(k, e).tick == k.tick + if e.Tick? then 1 else 0
  {
    hide TickStep, ResumeStep, WakeExpired;
    match e
    case Tick => TickCounts(k);
    case Resume => ResumeTick(k);
    case _ =>
  }

  lemma TickCounts(k: Kernel)
    ensures TickStep(k).tick == k.tick + 1
  {
    hide WakeExpired;
    WakeExpiredSame(k.(tick := k.tick + 1), k.sleeping);
  }

  lemma ResumeTick(k: Kernel)
    ensures ResumeStep(k).tick == k.tick
  {
  }

  /** sleepProcess: a process that asks for `ms` milliseconds at tick `now` stays blocked until tick EndTick(now, ms), and
    * that tick releases it. Unless ms + 4 wraps, that is tick max(now + 1, now + ceil(ms / 5)). */
  lemma SleepWakesOnTime(k: Kernel, ms: nat, es: seq<Event>)
    requires Ok(k) && Enabled(k, Sleep(ms)) && k.tick + QWORD / SLOT_TIME + 1 < QWORD
    requires CanRun(Step(k, Sleep(ms)), es)
    ensures var p, end, w := k.running, EndTick(k.tick, ms), Run(Step(k, Sleep(ms)), es);
            && (w.tick < end ==> p in w.sleeping && w.st[p] == Blocked)
            && (w.tick >= end ==> exists j :: WokenBy(Step(k, Sleep(ms)), es, j, p, end))
    ensures EndTick(k.tick, ms) == DueTick(k.tick, ms) <==> ms + SLOT_TIME - 1 < QWORD
  {
    hide Ok, SleepUntil, Enabled, Awake, WokenBy, WakeTick, DueTick, Asleep;
    SleepStarts(k, ms);
    StepOk(k, Sleep(ms));
    SleepsUntilDue(Step(k, Sleep(ms)), es, k.running, EndTick(k.tick, ms));
    AsleepMeans(Run(Step(k, Sleep(ms)), es), k.running, EndTick(k.tick, ms));
  }

  lemma AsleepMeans(k: Kernel, p: Pid, due: nat)
    ensures Asleep(k, p, due) ==> p in k.sleeping && k.st[p] == Blocked
  {
  }

  lemma SleepStarts(k: Kernel, ms: nat)
    requires Ok(k) && Enabled(k, Sleep(ms)) && k.tick + QWORD / SLOT_TIME + 1 < QWORD
    ensures Asleep(Step(k, Sleep(ms)), k.running, EndTick(k.tick, ms)) && Step(k, Sleep(ms)).tick == k.tick
    ensures EndTick(k.tick, ms) == DueTick(k.tick, ms) <==> ms + SLOT_TIME - 1 < QWORD
  {
    hide WakeTick, DueTick, Ok, Asleep;
    WakeTickExact(k.tick, ms);
    SleepAsleep(k, WakeTick(k.tick, ms));
  }

  lemma SleepAsleep(k: Kernel, t: nat)
    requires Ok(k) && Calls(k) && k.tick <= t
    ensures Asleep(SleepUntil(k, t, Sleeping), k.running, if t > k.tick then t else k.tick + 1)
  {
    assert k.running !in k.ready && k.running != k.idle;
    hide Ok;
  }
}
