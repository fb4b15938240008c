/** What one event does to the kernel, aspect by aspect and for all events at once: who waits for the CPU and in which
  * order, who sleeps until when, who blocks on what, the flags, the slots and the open pages. */
module KernelLaws {
  import opened Common
  import opened Words
  import opened KernelModel
  import opened KernelInvariant
  import opened KernelRuns
  import opened KernelQueues

  // ---------------------------------------------------------------- who waits, who is woken

  /** What the caller of `e` has to wait for; Free if it goes on. */
  function WaitsFor(k: Kernel, e: Event): Cont {
    match e
    case Sleep(_) => Sleeping
    case Acquire(m) =>
      if m < |k.mutexes| && k.mutexes[m].owner.Some? && k.mutexes[m].owner != Some(k.running) then Locking(m) else Free
    case GetKey => if k.keys == [] then Keying else Free
    case AwaitDisk(ch) => if k.flag[ch] then Free else DiskWaiting(ch, k.tick + 100)
    case Collect => if k.exits == [] then Collecting else Free
    case Resume => (
      match k.cont[k.running]
      case Keying => if k.keys == [] then Keying else Free
      case Collecting => if k.exits == [] then Collecting else Free
      case _ => Free)
    case _ => Free
  }

  /** `p`, if it is blocked. */
  function IfBlocked(k: Kernel, p: Option<Pid>): seq<Pid> { if p.Some? && k.st[p.value] == Blocked then [p.value] else [] }

  /** Who becomes ready, in order. */
  function Woken(k: Kernel, e: Event): seq<Pid> {
    match e
    case Tick => Due(k.tick + 1, k.wake, k.sleeping)
    case KeyPress(_) => IfBlocked(k, k.keyWaiter)
    case DiskIrq(ch) => IfBlocked(k, k.diskWaiter[ch])
    case Release(m) => if FinalRelease(k, m, e) && k.mutexes[m].waiters != [] then [k.mutexes[m].waiters[0]] else []
    case Create(_) => if CanCreate(k) then [Probe(k.alloc, k.nextPid, 0).value] else []
    case Exit => IfBlocked(k, Some(k.collector))
    case _ => []
  }

  /** Who wants the CPU: the process that has it, then the ready list. Idle does not count. */
  function Order(k: Kernel): seq<Pid> { Current(k) + k.ready }

  function Current(k: Kernel): seq<Pid> { if k.running == k.idle then [] else [k.running] }

  // ---------------------------------------------------------------- the laws

  /** The scheduler is a queue. Who waits, exits or is preempted leaves its front, who is woken joins at the back, and a
    * preempted or yielding process joins behind those. */
  ghost predicate Queued(k: Kernel, e: Event, w: Kernel) {
    Order(w) ==
      if e.Exit? || WaitsFor(k, e) != Free then k.ready + Woken(k, e)
      else if e.Tick? || e.Yield? then k.ready + Woken(k, e) + Current(k)
      else Order(k) + Woken(k, e)
  }

  /** The caller that waits is blocked, those woken are not; nobody else's blocking changes. A creation adds a live process
    * and an exit takes one away. */
  ghost predicate Parted(k: Kernel, e: Event, w: Kernel) {
    && (forall p: Pid :: w.st[p] == Blocked <==>
          (p == k.running && WaitsFor(k, e) != Free) || (k.st[p] == Blocked && p !in Woken(k, e)))
    && (forall p: Pid :: w.st[p] == Exited <==>
          (p == k.running && e.Exit?) || (k.st[p] == Exited && !(e.Create? && p in Woken(k, e))))
  }

  /** Those who wait for time go to the tail of the sleep list, those woken leave it. */
  ghost predicate Slept(k: Kernel, e: Event, w: Kernel) {
    w.sleeping == Without(k.sleeping, Woken(k, e)) + (if InSleep(WaitsFor(k, e)) then [k.running] else [])
  }

  function Without(s: seq<Pid>, xs: seq<Pid>): seq<Pid> {
    if s == [] then [] else (if s[0] in xs then [] else [s[0]]) + Without(s[1..], xs)
  }

  /** Only ticks count time, and only a wait for time sets a wake-up tick: for the disk, 100 ticks of 5 ms on. */
  ghost predicate Timed(k: Kernel, e: Event, w: Kernel) {
    && w.tick == k.tick + (if e.Tick? then 1 else 0)
    && forall p: Pid :: w.wake[p] ==
         if p != k.running || !InSleep(WaitsFor(k, e)) then k.wake[p]
         else if e.Sleep? then WakeTick(k.tick, e.ms) else k.tick + 100
  }

  /** Where everybody goes on. */
  ghost predicate Continued(k: Kernel, e: Event, w: Kernel) {
    forall p: Pid :: w.cont[p] ==
      if e.Create? && p in Woken(k, e) then Free
      else if p != k.running then k.cont[p]
      else if e.Exit? then Free
      else if WaitsFor(k, e) != Free then WaitsFor(k, e)
      else if e.Yield? && k.ready != [] then Yielding
      else if e.Resume? then Free
      else k.cont[p]
  }

  /** A disk interrupt raises the flag of its channel, whoever waits; only clearDiskInterruptFlag lowers it. */
  ghost predicate Flagged(k: Kernel, e: Event, w: Kernel) {
    forall ch: Channel :: w.flag[ch] <==> e == DiskIrq(ch) || (k.flag[ch] && e != ClearFlag(ch))
  }

  /** A creation takes a slot, and the next search begins behind it; the collector frees those it takes off the queue. */
  ghost predicate Allotted(k: Kernel, e: Event, w: Kernel) {
    && (forall p: Pid :: w.alloc[p] <==> (e.Create? && p in Woken(k, e)) || (k.alloc[p] && p !in ExitOut(k, e)))
    && w.nextPid == (if e.Create? && Woken(k, e) != [] then Woken(k, e)[0] + 1 else k.nextPid)
  }

  /** Page numbers: the code area, 0x3000000 to 0x3100000, and the two pages of the window of pid `p`. */
  ghost predicate InCode(pg: nat) { 0x3000 <= pg < 0x3100 }

  ghost predicate InWindow(pg: nat, p: Pid) { 0x3100 + 3 * p <= pg < 0x3102 + 3 * p }

  /** Loading a program opens the code area, creating a user process its window; collecting a process closes its window. */
  ghost predicate Opened(k: Kernel, e: Event, w: Kernel) {
    forall pg: nat :: pg in w.us <==>
      || (e == Create(UserProgram) && InCode(pg))
      || (e.Create? && e.kind != KernelProcess && exists p :: p in Woken(k, e) && InWindow(pg, p))
      || (pg in k.us && forall p :: p in ExitOut(k, e) ==> !InWindow(pg, p))
  }

  ghost predicate Laws(k: Kernel, e: Event, w: Kernel) {
    && w.idle == k.idle && w.collector == k.collector
    && Queued(k, e, w) && Parted(k, e, w) && Slept(k, e, w) && Timed(k, e, w)
    && Continued(k, e, w) && Flagged(k, e, w) && Allotted(k, e, w) && Opened(k, e, w)
  }

  // ---------------------------------------------------------------- handing the CPU round

  predicate Busy(k: Kernel, p: Pid) { k.st[p] == Ready || k.st[p] == Running }

  /** What is on the ready list, and idle, may be given the CPU. */
  ghost predicate Sound(k: Kernel) {
    k.idle !in k.ready && Busy(k, k.idle) && (forall p :: p in k.ready ==> Busy(k, p)) && NoDup(k.sleeping)
  }

  /** The CPU has been handed round and `woken` have been released: `q` is the new order. */
  ghost predicate Moved(k: Kernel, w: Kernel, woken: seq<Pid>, q: seq<Pid>) {
    && w == k.(running := w.running, ready := w.ready, sleeping := w.sleeping, st := w.st)
    && Order(w) == q && w.sleeping == Without(k.sleeping, woken)
    && (forall p: Pid :: w.st[p] == Blocked <==> k.st[p] == Blocked && p !in woken)
    && (forall p: Pid :: w.st[p] == Exited <==> k.st[p] == Exited)
  }

  lemma {:induction false} WithoutNone(s: seq<Pid>)
    ensures Without(s, []) == s
  {
    if s != [] {
      WithoutNone(s[1..]);
    }
  }

  lemma {:induction false} WithoutOne(s: seq<Pid>, p: Pid)
    requires NoDup(s)
    ensures Without(s, [p]) == Common.Remove(s, p)
  {
    if s != [] {
      WithoutOne(s[1..], p);
      if s[0] == p {
        RemoveAbsent(s[1..], p);
      }
    }
  }

  lemma DispatchMoved(k: Kernel)
    requires Sound(k)
    ensures Moved(k, Dispatch(k), [], k.ready)
  {
    hide Without;
    WithoutNone(k.sleeping);
    if k.ready != [] {
      assert k.ready[0] in k.ready;
    }
    assert Order(Dispatch(k)) == k.ready;
  }

  lemma RotateMoved(k: Kernel)
    requires Sound(k) && k.ready != [] && k.running != k.idle && Busy(k, k.running)
    ensures Moved(k, Rotate(k), [], k.ready + [k.running])
  {
    hide Without;
    WithoutNone(k.sleeping);
    assert k.ready[0] in k.ready;
    assert Order(Rotate(k)) == k.ready + [k.running];
  }

  lemma TimeoutMoved(k: Kernel)
    requires Sound(k) && Busy(k, k.running)
    ensures Moved(k, Timeout(k), [], k.ready + Current(k))
  {
    hide Dispatch, Rotate, Sound, Busy;
    WithoutNone(k.sleeping);
    if k.ready != [] {
      if k.running != k.idle {
        RotateMoved(k);
      } else {
        DispatchMoved(k);
      }
    }
  }

  lemma WakeupMoved(k: Kernel, p: Pid)
    requires Sound(k)
    ensures var w := Wakeup(k, p);
            && Moved(k, w, IfBlocked(k, Some(p)), Order(k) + IfBlocked(k, Some(p))) && Sound(w)
            && w.running == k.running && w.ready == k.ready + IfBlocked(k, Some(p)) && (Busy(k, k.running) ==> Busy(w, k.running))
  {
    hide Without, Common.Remove, NoDup;
    WithoutNone(k.sleeping);
    WithoutOne(k.sleeping, p);
    RemoveNoDup(k.sleeping, p);
  }

  lemma Compose(k: Kernel, u: Kernel, w: Kernel, woken: seq<Pid>, q0: seq<Pid>, q: seq<Pid>)
    requires Moved(k, u, woken, q0) && Moved(u, w, [], q)
    ensures Moved(k, w, woken, q)
  {
    WithoutNone(u.sleeping);
  }

  lemma InterruptMoved(k: Kernel, p: Option<Pid>)
    requires Sound(k) && Busy(k, k.running) && Conserving(k)
    ensures Moved(k, WakeupInInterrupt(k, p), IfBlocked(k, p), Order(k) + IfBlocked(k, p))
  {
    hide Wakeup, Timeout, Sound, Moved, Busy;
    if p.Some? && k.st[p.value] == Blocked {
      var u := Wakeup(k, p.value);
      WakeupMoved(k, p.value);
      WakeupSame(k, p.value);
      if u.running == u.idle {
        TimeoutMoved(u);
        assert u.ready + Current(u) == u.ready == Order(k) + [p.value];
        Compose(k, u, Timeout(u), [p.value], Order(k) + [p.value], u.ready);
      }
    } else {
      Unmoved(k);
      assert Order(k) + IfBlocked(k, p) == Order(k);
    }
  }

  lemma WakeupSame(k: Kernel, p: Pid)
    ensures Wakeup(k, p).idle == k.idle
  {
  }

  lemma Unmoved(k: Kernel)
    ensures Moved(k, k, [], Order(k))
  {
    WithoutNone(k.sleeping);
  }

  lemma BlockMoved(k: Kernel, c: Cont)
    requires Sound(k) && k.running != k.idle && k.running !in k.ready
    ensures Moved(k.(st := k.st[k.running := Blocked], cont := k.cont[k.running := c]), Block(k, c), [], k.ready)
  {
    hide Dispatch, Moved;
    DispatchMoved(k.(st := k.st[k.running := Blocked], cont := k.cont[k.running := c]));
  }

  lemma {:induction false} LaterIs(tick: nat, wake: Ticks, ps: seq<Pid>, due: seq<Pid>)
    requires forall p :: p in ps ==> (p in due <==> tick >= wake[p])
    ensures Later(tick, wake, ps) == Without(ps, due)
  {
    if ps != [] {
      LaterIs(tick, wake, ps[1..], due);
    }
  }

  lemma ExpiredMoved(k: Kernel)
    requires Sound(k) && Busy(k, k.running) && forall p :: p in k.sleeping ==> k.st[p] == Blocked
    ensures var due, w := Due(k.tick, k.wake, k.sleeping), WakeExpired(k, k.sleeping);
            && Moved(k, w, due, Order(k) + due) && Sound(w) && Busy(w, w.running)
            && w.running == k.running && w.ready == k.ready + due
  {
    hide WakeExpired, Due, Later, Without, NoDup, Partitioned;
    var due, w := Due(k.tick, k.wake, k.sleeping), WakeExpired(k, k.sleeping);
    StablePartition(k, [], k.sleeping);
    WakeExpiredSame(k, k.sleeping);
    DueLaterMembers(k.tick, k.wake, k.sleeping);
    PartitionSays(k, w, due);
    WithoutNoDup(k.sleeping, due);
    assert Order(w) == Order(k) + due;
  }

  lemma PartitionSays(k: Kernel, w: Kernel, due: seq<Pid>)
    requires Partitioned(k, [], k.sleeping, w) && due == Due(k.tick, k.wake, k.sleeping)
    requires forall p: Pid :: p in due <==> p in k.sleeping && k.tick >= k.wake[p]
    ensures w.ready == k.ready + due && w.sleeping == Without(k.sleeping, due)
    ensures forall p: Pid :: w.st[p] == if p in due then Ready else k.st[p]
  {
    hide Due, Later, Without;
    LaterIs(k.tick, k.wake, k.sleeping, due);
    assert [] + Later(k.tick, k.wake, k.sleeping) == Later(k.tick, k.wake, k.sleeping);
  }

  lemma {:induction false} WithoutNoDup(s: seq<Pid>, xs: seq<Pid>)
    requires NoDup(s)
    ensures NoDup(Without(s, xs)) && forall p :: p in Without(s, xs) <==> p in s && p !in xs
  {
    if s != [] {
      WithoutNoDup(s[1..], xs);
    }
  }

  // ---------------------------------------------------------------- every event keeps the laws

  lemma OkSound(k: Kernel)
    requires Ok(k)
    ensures Sound(k) && Conserving(k) && Busy(k, k.running) && (k.running != k.idle ==> k.running !in k.ready)
    ensures forall p :: p in k.sleeping ==> k.st[p] == Blocked
  {
    hide Continuations, Wakeups, Mutexes, Exits;
  }

  /** The CPU has been handed round after `e` changed only what `k1` says: what all interrupts, and calls that neither wait
    * nor exit, have in common. */
  lemma MovedLaws(k: Kernel, e: Event, k1: Kernel, w: Kernel, woken: seq<Pid>, q: seq<Pid>)
    requires Moved(k1, w, woken, q) && woken == Woken(k, e) && WaitsFor(k, e) == Free && ExitOut(k, e) == []
    requires !e.Exit? && !e.Create? && !e.Resume? && !e.Sleep?
    requires k1 == k.(tick := k1.tick, keys := k1.keys, flag := k1.flag, mutexes := k1.mutexes, cont := k1.cont)
    requires k1.tick == k.tick + (if e.Tick? then 1 else 0) && Flagged(k, e, k1)
    requires k1.cont == if e.Yield? && k.ready != [] then k.cont[k.running := Yielding] else k.cont
    requires q == if e.Tick? || e.Yield? then k.ready + woken + Current(k) else Order(k) + woken
    ensures Laws(k, e, w)
  {
    hide Woken, WaitsFor, ExitOut, Without, Order, Current, InCode, InWindow;
  }

  lemma TickLaws(k: Kernel)
    requires Ok(k)
    ensures Laws(k, Tick, TickStep(k))
  {
    hide Ok, WakeExpired, Timeout, Due, Without, Sound, Busy, Moved, Laws, Order, Current;
    OkSound(k);
    var k1 := k.(tick := k.tick + 1);
    SoundAt(k, k1);
    TickMoved(k1);
    MovedLaws(k, Tick, k1, TickStep(k), Due(k1.tick, k1.wake, k1.sleeping), k.ready + Due(k1.tick, k1.wake, k1.sleeping) + Current(k));
  }

  lemma TickMoved(k: Kernel)
    requires Sound(k) && Busy(k, k.running) && forall p :: p in k.sleeping ==> k.st[p] == Blocked
    ensures var due := Due(k.tick, k.wake, k.sleeping);
            Moved(k, Timeout(WakeExpired(k, k.sleeping)), due, k.ready + due + Current(k))
  {
    hide WakeExpired, Timeout, Due, Without, Sound, Busy, Moved, Order;
    ExpiredMoved(k);
    var u := WakeExpired(k, k.sleeping);
    WakeExpiredSame(k, k.sleeping);
    TimeoutMoved(u);
    Compose(k, u, Timeout(u), Due(k.tick, k.wake, k.sleeping), Order(k) + Due(k.tick, k.wake, k.sleeping), u.ready + Current(u));
  }

  lemma SoundAt(k: Kernel, w: Kernel)
    requires Sound(k) && Busy(k, k.running)
    requires w.idle == k.idle && w.ready == k.ready && w.sleeping == k.sleeping && w.st == k.st && w.running == k.running
    ensures Sound(w) && Busy(w, w.running) && (Conserving(k) ==> Conserving(w)) && Order(w) == Order(k) && Current(w) == Current(k)
  {
  }

  lemma KeyPressLaws(k: Kernel, b: Byte)
    requires Ok(k)
    ensures Laws(k, KeyPress(b), KeyPressStep(k, b))
  {
    hide Ok, WakeupInInterrupt, Without, Sound, Busy, Moved, Laws, Order, Current;
    OkSound(k);
    var k1 := if |k.keys| < KEY_CAPACITY then k.(keys := k.keys + [b]) else k;
    SoundAt(k, k1);
    InterruptMoved(k1, k.keyWaiter);
    MovedLaws(k, KeyPress(b), k1, KeyPressStep(k, b), IfBlocked(k, k.keyWaiter), Order(k) + IfBlocked(k, k.keyWaiter));
  }

  lemma DiskIrqLaws(k: Kernel, ch: Channel)
    requires Ok(k)
    ensures Laws(k, DiskIrq(ch), DiskIrqStep(k, ch))
  {
    hide Ok, WakeupInInterrupt, Without, Sound, Busy, Moved, Laws, Order, Current;
    OkSound(k);
    var k1 := k.(flag := k.flag[ch := true]);
    SoundAt(k, k1);
    InterruptMoved(k1, k.diskWaiter[ch]);
    MovedLaws(k, DiskIrq(ch), k1, DiskIrqStep(k, ch), IfBlocked(k, k.diskWaiter[ch]), Order(k) + IfBlocked(k, k.diskWaiter[ch]));
  }

  lemma YieldLaws(k: Kernel)
    requires Ok(k) && k.running != k.idle
    ensures Laws(k, Yield, YieldStep(k))
  {
    hide Ok, Rotate, Without, Sound, Busy, Moved, Laws;
    OkSound(k);
    if k.ready == [] {
      Unmoved(k);
      MovedLaws(k, Yield, k, k, [], Order(k));
    } else {
      var k1 := k.(cont := k.cont[k.running := Yielding]);
      SoundAt(k, k1);
      RotateMoved(k1);
      MovedLaws(k, Yield, k1, YieldStep(k), [], k.ready + [k.running]);
    }
  }

  /** The caller of `e` blocks, for the reason given, after registering somewhere. */
  lemma ParkLaws(k: Kernel, e: Event, k1: Kernel, c: Cont)
    requires Ok(k) && k.running != k.idle && c == WaitsFor(k, e) && c != Free
    requires k1 == k.(wake := k1.wake, sleeping := k1.sleeping, mutexes := k1.mutexes, keyWaiter := k1.keyWaiter,
                      diskWaiter := k1.diskWaiter, cont := k1.cont)
    requires k1.cont[k.running := c] == k.cont[k.running := c]
    requires k1.sleeping == k.sleeping + if InSleep(c) then [k.running] else []
    requires k1.wake == if !InSleep(c) then k.wake else k.wake[k.running := if e.Sleep? then WakeTick(k.tick, e.ms) else k.tick + 100]
    ensures Laws(k, e, Block(k1, c))
  {
    hide Ok, Block, Moved, WaitsFor, Woken, ExitOut, InSleep, Queued, Parted, Slept, Timed, Continued, Flagged, Allotted, Opened;
    ParkMoved(k, k1, c);
    WaitsOnly(k, e);
    var k2 := k1.(st := k.st[k.running := Blocked], cont := k1.cont[k.running := c]);
    ParkedData(k, e, k2, Block(k1, c), c);
    ParkedSchedule(k, e, k2, Block(k1, c), c);
  }

  lemma ParkedData(k: Kernel, e: Event, k2: Kernel, w: Kernel, c: Cont)
    requires Moved(k2, w, [], k.ready) && c == WaitsFor(k, e) && c != Free
    requires Woken(k, e) == [] && ExitOut(k, e) == [] && !e.Create? && !e.Exit? && !e.Tick? && !e.DiskIrq? && !e.ClearFlag?
    requires k2 == k.(wake := k2.wake, sleeping := k2.sleeping, mutexes := k2.mutexes, keyWaiter := k2.keyWaiter,
                      diskWaiter := k2.diskWaiter, st := k2.st, cont := k.cont[k.running := c])
    requires k2.wake == if !InSleep(c) then k.wake else k.wake[k.running := if e.Sleep? then WakeTick(k.tick, e.ms) else k.tick + 100]
    ensures w.idle == k.idle && w.collector == k.collector
    ensures Timed(k, e, w) && Continued(k, e, w) && Flagged(k, e, w) && Allotted(k, e, w) && Opened(k, e, w)
  {
    hide WaitsFor, Woken, ExitOut, InSleep, Without, WakeTick, Order;
  }

  lemma ParkedSchedule(k: Kernel, e: Event, k2: Kernel, w: Kernel, c: Cont)
    requires Moved(k2, w, [], k.ready) && c == WaitsFor(k, e) && c != Free && Woken(k, e) == [] && !e.Create? && !e.Exit?
    requires k2.st == k.st[k.running := Blocked] && Busy(k, k.running)
    requires k2.sleeping == k.sleeping + if InSleep(c) then [k.running] else []
    ensures Queued(k, e, w) && Parted(k, e, w) && Slept(k, e, w)
  {
    hide WaitsFor, Woken, InSleep, Without;
    WithoutNone(k.sleeping);
    WithoutNone(k2.sleeping);
    assert k.ready + [] == k.ready;
  }

  lemma ParkMoved(k: Kernel, k1: Kernel, c: Cont)
    requires Ok(k) && k.running != k.idle
    requires k1.idle == k.idle && k1.ready == k.ready && k1.st == k.st && k1.running == k.running
    requires k1.sleeping == k.sleeping || k1.sleeping == k.sleeping + [k.running]
    ensures Busy(k, k.running)
    ensures Moved(k1.(st := k.st[k.running := Blocked], cont := k1.cont[k.running := c]), Block(k1, c), [], k.ready)
  {
    hide Ok, Sound, Moved, Block;
    OkSound(k);
    SoundParking(k, k1);
    BlockMoved(k1, c);
  }

  lemma SoundParking(k: Kernel, k1: Kernel)
    requires Ok(k) && k.running != k.idle
    requires k1.idle == k.idle && k1.ready == k.ready && k1.st == k.st && k1.running == k.running
    requires k1.sleeping == k.sleeping || k1.sleeping == k.sleeping + [k.running]
    ensures Sound(k1) && k1.running !in k1.ready
  {
    hide Continuations, Wakeups, Mutexes, Exits;
  }

  /** Waiting is all it does. */
  lemma WaitsOnly(k: Kernel, e: Event)
    requires WaitsFor(k, e) != Free
    ensures Woken(k, e) == [] && ExitOut(k, e) == [] && !e.Create? && !e.Exit? && !e.Tick? && !e.DiskIrq? && !e.ClearFlag?
  {
  }

  /** Nobody is scheduled, and the caller of `e` goes on. */
  lemma StayLaws(k: Kernel, e: Event, w: Kernel)
    requires WaitsFor(k, e) == Free && Woken(k, e) == [] && !e.Exit? && !e.Tick? && !e.Yield? && !e.Create? && !e.Sleep?
    requires w == k.(keys := w.keys, keyWaiter := w.keyWaiter, diskWaiter := w.diskWaiter, mutexes := w.mutexes,
                     exits := w.exits, alloc := w.alloc, us := w.us, flag := w.flag, cont := w.cont)
    requires w.cont == if e.Resume? then k.cont[k.running := Free] else k.cont
    requires Flagged(k, e, w) && Allotted(k, e, w) && Opened(k, e, w)
    ensures Laws(k, e, w)
  {
    hide Flagged, Allotted, Opened, Without, WaitsFor, Woken;
    WithoutNone(k.sleeping);
    assert Order(k) + [] == Order(k);
  }

  /** What a call that leaves flags, slots and pages alone satisfies. */
  lemma QuietLaws(k: Kernel, e: Event, w: Kernel)
    requires w.flag == k.flag && w.alloc == k.alloc && w.nextPid == k.nextPid && w.us == k.us
    requires !e.DiskIrq? && !e.ClearFlag? && !e.Create? && ExitOut(k, e) == []
    ensures Flagged(k, e, w) && Allotted(k, e, w) && Opened(k, e, w)
  {
    hide ExitOut, Woken;
  }

  lemma SleepLaws(k: Kernel, ms: nat)
    requires Ok(k) && k.running != k.idle
    ensures Laws(k, Sleep(ms), SleepUntil(k, WakeTick(k.tick, ms), Sleeping))
  {
    hide Laws, Ok, Block, WakeTick;
    ParkLaws(k, Sleep(ms), k.(wake := k.wake[k.running := WakeTick(k.tick, ms)], sleeping := k.sleeping + [k.running]), Sleeping);
  }

  lemma AcquireLaws(k: Kernel, m: nat)
    requires Ok(k) && k.running != k.idle && m < |k.mutexes|
    ensures Laws(k, Acquire(m), AcquireStep(k, m))
  {
    hide Laws, Ok, Block, Flagged, Allotted, Opened;
    var x, w := k.mutexes[m], AcquireStep(k, m);
    if x.owner.Some? && x.owner != Some(k.running) {
      assert k.sleeping + [] == k.sleeping;
      ParkLaws(k, Acquire(m), k.(mutexes := k.mutexes[m := x.(waiters := x.waiters + [k.running])]), Locking(m));
    } else {
      QuietLaws(k, Acquire(m), w);
      StayLaws(k, Acquire(m), w);
    }
  }

  lemma GetKeyLaws(k: Kernel)
    requires Ok(k) && k.running != k.idle
    ensures Laws(k, GetKey, GetKeyStep(k))
  {
    hide Laws, Ok, Block, Flagged, Allotted, Opened;
    var w := GetKeyStep(k);
    if k.keys == [] {
      assert k.sleeping + [] == k.sleeping;
      ParkLaws(k, GetKey, k.(keyWaiter := Some(k.running)), Keying);
    } else {
      QuietLaws(k, GetKey, w);
      StayLaws(k, GetKey, w);
    }
  }

  lemma PollKeyLaws(k: Kernel)
    ensures Laws(k, PollKey, if k.keys == [] then k else k.(keys := k.keys[1..]))
  {
    hide Laws, Flagged, Allotted, Opened;
    var w := if k.keys == [] then k else k.(keys := k.keys[1..]);
    QuietLaws(k, PollKey, w);
    StayLaws(k, PollKey, w);
  }

  lemma ClearFlagLaws(k: Kernel, ch: Channel)
    ensures Laws(k, ClearFlag(ch), k.(flag := k.flag[ch := false]))
  {
    hide Laws;
    StayLaws(k, ClearFlag(ch), k.(flag := k.flag[ch := false]));
  }

  lemma AwaitDiskLaws(k: Kernel, ch: Channel)
    requires Ok(k) && k.running != k.idle
    ensures Laws(k, AwaitDisk(ch), AwaitDiskStep(k, ch, k.tick + DISK_TIMEOUT_TICKS))
  {
    hide Laws, Ok, Block, Flagged, Allotted, Opened;
    var t := k.tick + DISK_TIMEOUT_TICKS;
    var w := AwaitDiskStep(k, ch, t);
    if k.flag[ch] {
      QuietLaws(k, AwaitDisk(ch), w);
      StayLaws(k, AwaitDisk(ch), w);
    } else {
      ParkLaws(k, AwaitDisk(ch), k.(diskWaiter := k.diskWaiter[ch := Some(k.running)], wake := k.wake[k.running := t],
                                    sleeping := k.sleeping + [k.running]), DiskWaiting(ch, t));
    }
  }

  lemma CollectLaws(k: Kernel)
    requires Ok(k) && k.running != k.idle
    ensures Laws(k, Collect, CollectStep(k))
  {
    hide Laws, Ok, Block, Flagged, Allotted, Opened, StackPages;
    if k.exits == [] {
      assert k.sleeping + [] == k.sleeping;
      ParkLaws(k, Collect, k, Collecting);
    } else {
      FreeLaws(k, Collect, CollectStep(k));
      StayLaws(k, Collect, CollectStep(k));
    }
  }

  lemma WindowIs(p: Pid)
    ensures forall pg: nat :: pg in StackPages(p) <==> InWindow(pg, p)
  {
  }

  lemma FreeLaws(k: Kernel, e: Event, w: Kernel)
    requires k.exits != [] && (e == Collect || (e == Resume && k.cont[k.running] == Collecting))
    requires w.flag == k.flag && w.nextPid == k.nextPid
    requires w.alloc == k.alloc[k.exits[0] := false] && w.us == k.us - StackPages(k.exits[0])
    ensures Flagged(k, e, w) && Allotted(k, e, w) && Opened(k, e, w)
  {
    hide StackPages, InWindow;
    WindowIs(k.exits[0]);
  }

  lemma ResumeLaws(k: Kernel)
    requires Ok(k) && k.cont[k.running] != Free
    ensures Laws(k, Resume, ResumeStep(k))
  {
    hide Laws, Ok, Block, Flagged, Allotted, Opened, StackPages, SleepUntil;
    ResumeFacts(k);
    assert k.sleeping + [] == k.sleeping;
    var w := ResumeStep(k);
    match k.cont[k.running]
    case Keying =>
      if k.keys == [] {
        ParkLaws(k, Resume, Leave(k).(keyWaiter := Some(k.running)), Keying);
      } else {
        QuietLaws(k, Resume, w);
        StayLaws(k, Resume, w);
      }
    case Collecting =>
      if k.exits == [] {
        ParkLaws(k, Resume, Leave(k), Collecting);
      } else {
        FreeLaws(k, Resume, w);
        StayLaws(k, Resume, w);
      }
    case _ =>
      QuietLaws(k, Resume, w);
      StayLaws(k, Resume, w);
  }

  lemma ResumeFacts(k: Kernel)
    requires Ok(k) && k.cont[k.running] != Free
    ensures k.running != k.idle
    ensures k.cont[k.running].DiskWaiting? ==> k.flag[k.cont[k.running].ch] || k.tick >= k.cont[k.running].deadline
  {
    hide Lists, Mutexes, Exits;
  }

  lemma ReleaseLaws(k: Kernel, m: nat)
    requires Ok(k) && k.running != k.idle && m < |k.mutexes|
    ensures Laws(k, Release(m), ReleaseStep(k, m))
  {
    hide Laws, Ok, Wakeup, Flagged, Allotted, Opened;
    var x, w := k.mutexes[m], ReleaseStep(k, m);
    if FinalRelease(k, m, Release(m)) && x.waiters != [] {
      HandOverLaws(k, m);
    } else {
      QuietLaws(k, Release(m), w);
      StayLaws(k, Release(m), w);
    }
  }

  lemma FirstWaiterBlocked(k: Kernel, m: nat)
    requires Ok(k) && m < |k.mutexes| && k.mutexes[m].waiters != []
    ensures k.st[k.mutexes[m].waiters[0]] == Blocked
  {
    hide Continuations, Wakeups, Mutexes, Exits;
    assert Waits(k.mutexes, m, k.mutexes[m].waiters[0]);
  }

  lemma HandOverLaws(k: Kernel, m: nat)
    requires Ok(k) && k.running != k.idle && m < |k.mutexes| && FinalRelease(k, m, Release(m)) && k.mutexes[m].waiters != []
    ensures Laws(k, Release(m), ReleaseStep(k, m))
  {
    hide Ok, Wakeup, Without, Sound, Busy, Moved, Laws, Order;
    OkSound(k);
    FirstWaiterBlocked(k, m);
    var x := k.mutexes[m];
    var k1 := k.(mutexes := k.mutexes[m := Mutex(Some(x.waiters[0]), 1, x.waiters[1..])]);
    SoundAt(k, k1);
    WakeupMoved(k1, x.waiters[0]);
    MovedLaws(k, Release(m), k1, ReleaseStep(k, m), [x.waiters[0]], Order(k) + [x.waiters[0]]);
  }

  lemma CreateLaws(k: Kernel, kind: Kind)
    requires Ok(k) && CanCreate(k) && k.running != k.idle
    ensures Laws(k, Create(kind), CreateStep(k, kind))
  {
    hide Ok, Probe, CodePages, StackPages, Without, InCode, InWindow, Opened;
    SlotIsFree(k);
    var p, w := Probe(k.alloc, k.nextPid, 0).value, CreateStep(k, kind);
    AbsentStays(k.sleeping, p);
    assert Order(w) == Order(k) + [p];
    CreateOpens(k, kind);
  }

  lemma CreateOpens(k: Kernel, kind: Kind)
    requires CanCreate(k)
    ensures Opened(k, Create(kind), CreateStep(k, kind))
  {
    hide Probe, CodePages, StackPages, InWindow, InCode;
    var p := Probe(k.alloc, k.nextPid, 0).value;
    WindowIs(p);
    CodeIs();
  }

  lemma CodeIs()
    ensures forall pg: nat :: pg in CodePages() <==> InCode(pg)
  {
  }

  lemma SlotIsFree(k: Kernel)
    requires Ok(k) && CanCreate(k)
    ensures var p := Probe(k.alloc, k.nextPid, 0).value; !k.alloc[p] && p !in k.sleeping && p != k.running && p != k.idle
  {
    hide Continuations, Wakeups, Mutexes, Exits, Probe;
    ProbeResult(k.alloc, k.nextPid, 0);
  }

  lemma {:induction false} AbsentStays(s: seq<Pid>, p: Pid)
    requires p !in s
    ensures Without(s, [p]) == s
  {
    if s != [] {
      AbsentStays(s[1..], p);
    }
  }

  lemma ExitLaws(k: Kernel)
    requires Ok(k) && Calls(k)
    ensures Laws(k, Exit, ExitStep(k))
  {
    hide Ok, ExitStep, Without;
    ExitMoved(k);
  }

  lemma ExitMoved(k: Kernel)
    requires Ok(k) && Calls(k)
    ensures var w, woken := ExitStep(k), IfBlocked(k, Some(k.collector));
            && w == k.(running := w.running, ready := w.ready, sleeping := w.sleeping, st := w.st, exits := w.exits,
                       cont := k.cont[k.running := Free])
            && Order(w) == k.ready + woken && w.sleeping == Without(k.sleeping, woken)
            && (forall p: Pid :: w.st[p] == Blocked <==> k.st[p] == Blocked && p !in woken)
            && (forall p: Pid :: w.st[p] == Exited <==> p == k.running || k.st[p] == Exited)
  {
    hide Ok, Wakeup, Dispatch, Without, Sound;
    OkSound(k);
    var cur := k.running;
    var k1 := if |k.exits| < EXIT_CAPACITY then k.(exits := k.exits + [cur]) else k;
    SoundAt(k, k1);
    WakeupMoved(k1, k.collector);
    var k2 := Wakeup(k1, k.collector);
    var k3 := k2.(st := k2.st[cur := Exited], cont := k2.cont[cur := Free]);
    SoundDying(k2, k3, cur);
    DispatchMoved(k3);
    WithoutNone(k3.sleeping);
  }

  lemma SoundDying(k: Kernel, w: Kernel, cur: Pid)
    requires Sound(k) && cur != k.idle && cur !in k.ready && w == k.(st := k.st[cur := Exited], cont := w.cont)
    ensures Sound(w)
  {
  }

  /** Every event obeys every law. */
  lemma StepLaws(k: Kernel, e: Event)
    requires Ok(k) && Enabled(k, e)
    ensures Laws(k, e, Step(k, e))
  {
    hide Laws, Ok, TickStep, KeyPressStep, DiskIrqStep, YieldStep, SleepUntil, AcquireStep, ReleaseStep, GetKeyStep, AwaitDiskStep,
      CreateStep, ExitStep, CollectStep, ResumeStep, CanCreate, WakeTick;
    CollectorIsNotIdle(k);
    match e
    case Tick => TickLaws(k);
    case KeyPress(b) => KeyPressLaws(k, b);
    case DiskIrq(ch) => DiskIrqLaws(k, ch);
    case Yield => YieldLaws(k);
    case Sleep(ms) => SleepLaws(k, ms);
    case Acquire(m) => AcquireLaws(k, m);
    case Release(m) => ReleaseLaws(k, m);
    case GetKey => GetKeyLaws(k);
    case PollKey => PollKeyLaws(k);
    case ClearFlag(ch) => ClearFlagLaws(k, ch);
    case AwaitDisk(ch) => AwaitDiskLaws(k, ch);
    case Create(kind) => CreateLaws(k, kind);
    case Exit => ExitLaws(k);
    case Collect => CollectLaws(k);
    case Resume => ResumeLaws(k);
  }

  lemma CollectorIsNotIdle(k: Kernel)
    requires Ok(k)
    ensures k.collector != k.idle
  {
  }

  // ---------------------------------------------------------------- what the order says about the CPU

  lemma StepQueued(k: Kernel, e: Event)
    requires Ok(k) && Enabled(k, e)
    ensures Queued(k, e, Step(k, e)) && Conserving(Step(k, e))
  {
    hide Step, Enabled, Queued, Parted, Slept, Timed, Continued, Flagged, Allotted, Opened, Core, OnCpu;
    StepLaws(k, e);
    StepOk(k, e);
  }

  lemma HeadRuns(w: Kernel, q: seq<Pid>)
    requires Order(w) == q && q != [] && Conserving(w)
    ensures w.running == q[0] && w.ready == q[1..]
  {
  }

  /** Who neither waits, exits, yields nor is interrupted by the timer keeps the CPU. */
  lemma KeepsCpu(k: Kernel, e: Event)
    requires Ok(k) && Enabled(k, e) && k.running != k.idle && WaitsFor(k, e) == Free && !e.Exit? && !e.Tick? && !e.Yield?
    ensures Step(k, e).running == k.running && k.ready <= Step(k, e).ready
  {
    hide Ok, Step, Enabled, WaitsFor, Woken, Conserving, Queued, Order, Current;
    StepQueued(k, e);
    StaysInFront(k, e, Step(k, e));
    HeadRuns(Step(k, e), Order(Step(k, e)));
  }

  lemma StaysInFront(k: Kernel, e: Event, w: Kernel)
    requires Queued(k, e, w) && k.running != k.idle && WaitsFor(k, e) == Free && !e.Exit? && !e.Tick? && !e.Yield?
    ensures Order(w) != [] && Order(w)[0] == k.running && k.ready <= Order(w)[1..]
  {
    hide WaitsFor, Woken;
    InFront(k.running, k.ready, Woken(k, e));
  }

  lemma InFront(x: Pid, s: seq<Pid>, t: seq<Pid>)
    ensures ([x] + s + t)[0] == x && s <= ([x] + s + t)[1..]
  {
    assert ([x] + s + t)[1..] == s + t;
  }

  /** A process that waits, exits, yields or is interrupted by the timer hands the CPU to the head of the ready list. */
  lemma HandsOn(k: Kernel, e: Event)
    requires Ok(k) && Enabled(k, e) && k.ready != [] && (WaitsFor(k, e) != Free || e.Exit? || e.Tick? || e.Yield?)
    ensures Pops(k, Step(k, e))
  {
    hide Ok, Step, Enabled, WaitsFor, Woken, Conserving;
    StepQueued(k, e);
    HeadRuns(Step(k, e), Order(Step(k, e)));
  }

  // ---------------------------------------------------------------- the laws leave nothing open

  /** The mutexes and the two queues, which have laws of their own. */
  ghost predicate Passed(k: Kernel, e: Event, w: Kernel) {
    && |w.mutexes| == |k.mutexes| && (forall m :: 0 <= m < |k.mutexes| ==> MutexStep(k, w, m, e))
    && k.keys + KeyIn(k, e) == KeyOut(k, e) + w.keys && k.exits + ExitIn(k, e) == ExitOut(k, e) + w.exits
  }

  lemma StepPassed(k: Kernel, e: Event)
    requires Enabled(k, e)
    ensures Passed(k, e, Step(k, e))
  {
    hide Step, Enabled, MutexStep, KeyIn, KeyOut, ExitIn, ExitOut;
    StepQueues(k, e);
    forall m | 0 <= m < |k.mutexes| ensures MutexStep(k, Step(k, e), m, e) {
      StepMutex(k, e, m);
    }
    MutexesSame(k, e);
  }

  lemma MutexesSame(k: Kernel, e: Event)
    requires Enabled(k, e)
    ensures |Step(k, e).mutexes| == |k.mutexes|
  {
    hide Step;
    if k.mutexes != [] {
      StepMutex(k, e, 0);
    } else {
      OtherMutex(k, e);
    }
  }

  /** Whatever obeys the laws and the invariant is the state after the event, but for what a slot nobody uses holds and
    * for the state byte of idle, which nobody reads. */
  lemma LawsDecide(k: Kernel, e: Event, w: Kernel)
    requires Ok(k) && Enabled(k, e) && Ok(w) && Laws(k, e, w) && Passed(k, e, w)
    ensures var v := Step(k, e);
            && w == v.(st := w.st, user := w.user, program := w.program)
            && forall p: Pid :: v.alloc[p] && p != v.idle ==> w.st[p] == v.st[p]
  {
    hide Ok, Step, Enabled, Laws, Passed;
    StepLaws(k, e);
    StepPassed(k, e);
    StepOk(k, e);
    SameSchedule(k, e, w, Step(k, e));
    SameData(k, e, w, Step(k, e));
    SameMutexes(k, e, w, Step(k, e));
    SameWaiters(w, Step(k, e));
    SameStates(k, e, w, Step(k, e));
  }

  lemma SameSchedule(k: Kernel, e: Event, w: Kernel, v: Kernel)
    requires Laws(k, e, w) && Laws(k, e, v) && Ok(w) && Ok(v)
    ensures w.idle == v.idle && w.collector == v.collector && w.running == v.running && w.ready == v.ready && w.sleeping == v.sleeping
  {
    hide Core, OnCpu, Parted, Timed, Continued, Flagged, Allotted, Opened;
    assert Order(w) == Order(v);
    hide Queued;
    assert w.ready == Order(w)[|Current(w)|..] && v.ready == Order(v)[|Current(v)|..];
  }

  lemma SameData(k: Kernel, e: Event, w: Kernel, v: Kernel)
    requires Laws(k, e, w) && Laws(k, e, v)
    ensures w.tick == v.tick && w.wake == v.wake && w.cont == v.cont && w.flag == v.flag && w.alloc == v.alloc
    ensures w.nextPid == v.nextPid && w.us == v.us
  {
    hide Queued, Parted, Slept, WaitsFor, Woken, ExitOut, InCode, InWindow;
    assert w.wake == v.wake by { hide Continued, Flagged, Allotted, Opened; }
    assert w.cont == v.cont by { hide Timed, Flagged, Allotted, Opened; }
    assert w.flag == v.flag by { hide Timed, Continued, Allotted, Opened; }
    assert w.alloc == v.alloc by { hide Timed, Continued, Flagged, Opened; }
    assert w.us == v.us by { hide Timed, Continued, Flagged, Allotted; }
  }

  lemma SameMutexes(k: Kernel, e: Event, w: Kernel, v: Kernel)
    requires Passed(k, e, w) && Passed(k, e, v)
    ensures w.mutexes == v.mutexes && w.keys == v.keys && w.exits == v.exits
  {
    hide KeyIn, KeyOut, ExitIn, ExitOut, FinalRelease;
    assert w.keys == (k.keys + KeyIn(k, e))[|KeyOut(k, e)|..] && v.keys == (k.keys + KeyIn(k, e))[|KeyOut(k, e)|..];
    assert w.exits == (k.exits + ExitIn(k, e))[|ExitOut(k, e)|..] && v.exits == (k.exits + ExitIn(k, e))[|ExitOut(k, e)|..];
    forall m | 0 <= m < |k.mutexes| ensures w.mutexes[m] == v.mutexes[m] {
      assert MutexStep(k, w, m, e) && MutexStep(k, v, m, e);
    }
  }

  lemma SameWaiters(w: Kernel, v: Kernel)
    requires Ok(w) && Ok(v) && w.cont == v.cont
    ensures w.keyWaiter == v.keyWaiter && w.diskWaiter == v.diskWaiter
  {
    hide Lists, Wakeups, Mutexes, Exits;
    forall ch: Channel ensures w.diskWaiter[ch] == v.diskWaiter[ch] {
    }
  }

  lemma SameStates(k: Kernel, e: Event, w: Kernel, v: Kernel)
    requires Ok(w) && Ok(v) && Laws(k, e, w) && Laws(k, e, v) && w.running == v.running && w.idle == v.idle && w.alloc == v.alloc
    ensures forall p: Pid :: v.alloc[p] && p != v.idle ==> w.st[p] == v.st[p]
  {
    hide Queued, Slept, Timed, Continued, Flagged, Allotted, Opened, Lists, Continuations, Wakeups, Mutexes, Exits, WaitsFor, Woken;
  }
}
