/** The invariant of the process core and its preservation by every step. */
module KernelInvariant {
  import opened Common
  import opened Words
  import opened KernelModel

  predicate InSleep(c: Cont) { c.Sleeping? || c.DiskWaiting? }

  /** Allocated and not yet past exitProcess. */
  predicate Live(k: Kernel, p: Pid) { k.alloc[p] && k.st[p] != Exited }

  predicate Waits(ms: seq<Mutex>, m: nat, p: Pid) { m < |ms| && p in ms[m].waiters }

  ghost predicate Special(k: Kernel) {
    && k.alloc[0] && k.alloc[k.idle] && k.alloc[k.collector]
    && k.st[0] != Exited && k.st[k.idle] != Exited && k.st[k.collector] != Exited
    && k.idle != 0 && k.collector != 0 && k.idle != k.collector
    && k.st[k.idle] != Blocked && k.cont[k.idle] == Free
    && (k.cont[k.collector] == Free || k.cont[k.collector] == Collecting)
    && k.nextPid <= PROCESS_MAXCOUNT
  }

  /** The three kinds of list hold exactly the processes whose state byte says so, once each. */
  ghost predicate Lists(k: Kernel) {
    && NoDup(k.ready) && NoDup(k.sleeping)
    && (forall m :: 0 <= m < |k.mutexes| ==> NoDup(k.mutexes[m].waiters))
    && (forall p: Pid :: p in k.ready <==> k.alloc[p] && k.st[p] == Ready && p != k.idle)
    && (forall p: Pid :: p in k.sleeping <==> k.alloc[p] && k.st[p] == Blocked && InSleep(k.cont[p]))
    && (forall m: nat, p: Pid :: m < |k.mutexes| ==>
          (Waits(k.mutexes, m, p) <==> k.alloc[p] && k.st[p] == Blocked && k.cont[p] == Locking(m)))
  }

  /** What a process in the middle of a region is waiting for. */
  ghost predicate Continuations(k: Kernel) {
    && (forall p: Pid :: !Live(k, p) ==> k.cont[p] == Free)
    && (forall p: Pid :: Live(k, p) && k.st[p] == Blocked ==> k.cont[p] != Free && k.cont[p] != Yielding)
    && (forall p: Pid :: k.cont[p] == Keying <==> k.keyWaiter == Some(p))
    && (forall ch: Channel :: k.diskWaiter[ch].Some? ==>
          k.cont[k.diskWaiter[ch].value].DiskWaiting? && k.cont[k.diskWaiter[ch].value].ch == ch)
    && (forall p: Pid :: k.cont[p].DiskWaiting? ==>
          k.diskWaiter[k.cont[p].ch] == Some(p) && DISK_MUTEX < |k.mutexes| && k.mutexes[DISK_MUTEX].owner == Some(p))
    && (forall p: Pid :: k.cont[p] == Collecting ==> p == k.collector)
    && (forall p: Pid :: k.cont[p].Locking? ==> k.cont[p].mutex < |k.mutexes|)
  }

  /** A blocked process has not missed its event, and a process released early has really been woken. */
  ghost predicate Wakeups(k: Kernel) {
    && (k.st[k.collector] == Blocked ==> k.exits == [])
    && (k.keyWaiter.Some? && k.st[k.keyWaiter.value] == Blocked ==> k.keys == [])
    && (forall p: Pid :: k.cont[p].DiskWaiting? ==>
          if k.st[p] == Blocked then !k.flag[k.cont[p].ch] && k.wake[p] == k.cont[p].deadline
          else k.flag[k.cont[p].ch] || k.tick >= k.cont[p].deadline)
  }

  predicate MutexOk(k: Kernel, x: Mutex, m: nat) {
    && x.count < WORD_LIMIT
    && (x.owner.None? ==> x.waiters == [] && x.count == 0)
    && (x.owner.Some? ==>
          var p := x.owner.value;
          Live(k, p) && p != k.idle && p != k.collector && (k.cont[p] == Locking(m) ==> k.st[p] != Blocked))
  }

  /** Mutexes are owned by live processes, and whoever is on the way out of acquireLock is the owner. */
  ghost predicate Mutexes(k: Kernel) {
    && (forall m :: 0 <= m < |k.mutexes| ==> MutexOk(k, k.mutexes[m], m))
    && (forall p: Pid :: k.cont[p].Locking? && k.st[p] != Blocked && k.cont[p].mutex < |k.mutexes| ==>
          k.mutexes[k.cont[p].mutex].owner == Some(p))
  }

  ghost predicate Exits(k: Kernel) {
    && NoDup(k.exits) && |k.exits| <= EXIT_CAPACITY
    && (forall p :: p in k.exits ==> k.alloc[p] && k.st[p] == Exited)
  }

  ghost predicate Pages(k: Kernel) {
    forall pg: nat :: pg in k.us <==>
      (k.program && pg in CodePages()) || exists p: Pid :: k.alloc[p] && k.user[p] && pg in StackPages(p)
  }

  /** Everything that mentions neither who has the CPU nor what the blocked wait for. */
  ghost predicate Body(k: Kernel) {
    Special(k) && Lists(k) && Continuations(k) && Mutexes(k) && Exits(k) && |k.keys| <= KEY_CAPACITY
  }

  /** Everything that does not mention who has the CPU. */
  ghost predicate Core(k: Kernel) { Body(k) && Wakeups(k) }

  /** Nobody but idle has the RUNNING state byte: the CPU is about to be handed over. */
  ghost predicate Vacant(k: Kernel) {
    forall p: Pid :: k.alloc[p] && k.st[p] == Running ==> p == k.idle
  }

  ghost predicate OnCpu(k: Kernel) {
    && k.alloc[k.running]
    && (k.running != k.idle ==> k.st[k.running] == Running)
    && (forall p: Pid :: k.alloc[p] && k.st[p] == Running && p != k.idle ==> p == k.running)
  }

  /** Idle runs only while nobody is ready. */
  ghost predicate Conserving(k: Kernel) { k.running == k.idle ==> k.ready == [] }

  ghost predicate Ok(k: Kernel) { Core(k) && OnCpu(k) && Conserving(k) }

  ghost predicate Inv(k: Kernel) { Ok(k) && Pages(k) }

  lemma InvOk(k: Kernel)
    requires Inv(k)
    ensures Ok(k)
  {
    hide Ok, Pages;
  }

  // ---------------------------------------------------------------- scheduler primitives

  /** `d` differs from `k` only in the ready list and in who is READY or RUNNING. */
  ghost predicate Reordered(k: Kernel, d: Kernel) {
    && d == k.(ready := d.ready, st := d.st, running := d.running)
    && (forall p: Pid :: k.st[p] == Blocked <==> d.st[p] == Blocked)
    && (forall p: Pid :: k.st[p] == Exited <==> d.st[p] == Exited)
  }

  /** Handing the CPU round touches nothing but the ready list. */
  lemma ReorderedCore(k: Kernel, d: Kernel)
    requires Core(k) && Reordered(k, d)
    requires NoDup(d.ready) && forall p: Pid :: p in d.ready <==> d.alloc[p] && d.st[p] == Ready && p != d.idle
    ensures Core(d)
  {
    assert Lists(d) by { hide Continuations, Wakeups, Mutexes, Exits; }
    assert Continuations(d) by { hide Wakeups, Mutexes, Exits, Lists; }
    assert Wakeups(d) by { hide Continuations, Mutexes, Exits, Lists; }
    assert Mutexes(d) by {
      hide Continuations, Wakeups, Exits, Lists;
    }
    assert Exits(d) by { hide Continuations, Wakeups, Mutexes, Lists; }
  }

  lemma DispatchInv(k: Kernel)
    requires Core(k) && Vacant(k)
    ensures Core(Dispatch(k)) && OnCpu(Dispatch(k)) && Conserving(Dispatch(k))
  {
    hide Continuations, Wakeups, Mutexes, Exits;
    var d := Dispatch(k);
    if k.ready != [] {
      assert k.ready[0] in k.ready;
      assert forall p :: p in d.ready <==> p in k.ready && p != k.ready[0];
    }
    ReorderedCore(k, d);
  }

  /** A woken process is one whose wait is over. */
  ghost predicate MayWake(k: Kernel, p: Pid) {
    && k.alloc[p] && k.st[p] == Blocked && !k.cont[p].Locking?
    && (k.cont[p].DiskWaiting? ==> k.flag[k.cont[p].ch] || k.tick >= k.cont[p].deadline)
  }

  lemma WakeupBody(k: Kernel, p: Pid)
    requires Body(k) && k.alloc[p] && k.st[p] == Blocked && !k.cont[p].Locking?
    ensures Body(Wakeup(k, p))
  {
    hide Lists, Continuations, Mutexes, Exits;
    WakeupLists(k, p);
    WakeupContinuations(k, p);
    WakeupMutexes(k, p);
    WakeupExits(k, p);
  }

  lemma WakeupLists(k: Kernel, p: Pid)
    requires Body(k) && k.alloc[p] && k.st[p] == Blocked && !k.cont[p].Locking?
    ensures Lists(Wakeup(k, p))
  {
    hide Continuations, Mutexes, Exits;
    RemoveNoDup(k.sleeping, p);
  }

  lemma WakeupContinuations(k: Kernel, p: Pid)
    requires Body(k) && k.alloc[p] && k.st[p] == Blocked && !k.cont[p].Locking?
    ensures Continuations(Wakeup(k, p))
  {
    hide Mutexes, Exits, Lists;
  }

  lemma WakeupMutexes(k: Kernel, p: Pid)
    requires Body(k) && k.alloc[p] && k.st[p] == Blocked && !k.cont[p].Locking?
    ensures Mutexes(Wakeup(k, p))
  {
    hide Exits, Lists, Continuations;
  }

  lemma WakeupExits(k: Kernel, p: Pid)
    requires Body(k) && k.alloc[p] && k.st[p] == Blocked && !k.cont[p].Locking?
    ensures Exits(Wakeup(k, p))
  {
    hide Continuations, Mutexes, Lists;
  }

  lemma WakeupCore(k: Kernel, p: Pid)
    requires Core(k) && MayWake(k, p)
    ensures Core(Wakeup(k, p))
  {
    WakeupBody(k, p);
    hide Lists, Mutexes, Exits;
  }

  /** The running process goes to the tail, the head takes over. */
  lemma RotateInv(k: Kernel)
    requires Core(k) && OnCpu(k) && k.running != k.idle && k.ready != []
    ensures Core(Rotate(k)) && OnCpu(Rotate(k)) && Conserving(Rotate(k))
  {
    hide Continuations, Wakeups, Mutexes, Exits;
    var d := Rotate(k);
    assert k.ready[0] in k.ready;
    assert k.running !in k.ready;
    assert forall p :: p in d.ready <==> (p in k.ready && p != k.ready[0]) || p == k.running;
    ReorderedCore(k, d);
  }

  lemma TimeoutInv(k: Kernel)
    requires Core(k) && OnCpu(k) && k.cont[k.running] == Free
    ensures Core(Timeout(k)) && OnCpu(Timeout(k)) && Conserving(Timeout(k))
  {
    if k.ready != [] {
      if k.running != k.idle {
        RotateInv(k);
      } else {
        assert Vacant(k);
        DispatchInv(k);
      }
    }
  }

  lemma WakeupInInterruptInv(k: Kernel, p: Option<Pid>)
    requires Core(k) && OnCpu(k) && Conserving(k) && k.cont[k.running] == Free
    requires p.Some? && k.st[p.value] == Blocked ==> MayWake(k, p.value)
    ensures var w := WakeupInInterrupt(k, p); Core(w) && OnCpu(w) && Conserving(w)
  {
    if p.Some? && k.st[p.value] == Blocked {
      WakeupCore(k, p.value);
      var w := Wakeup(k, p.value);
      if w.running == w.idle {
        TimeoutInv(w);
      }
    }
  }

  lemma {:induction false} WakeExpiredCore(k: Kernel, ps: seq<Pid>)
    requires Core(k) && OnCpu(k) && k.cont[k.running] == Free
    requires NoDup(ps) && forall p :: p in ps ==> p in k.sleeping
    ensures var w := WakeExpired(k, ps);
            Core(w) && OnCpu(w) && w.cont == k.cont && w.running == k.running
    decreases |ps|
  {
    if ps != [] {
      var p := ps[0];
      assert p in k.sleeping;
      if k.tick >= k.wake[p] {
        WakeupCore(k, p);
        RemoveNoDup(k.sleeping, p);
        WakeExpiredCore(Wakeup(k, p), ps[1..]);
      } else {
        WakeExpiredCore(k, ps[1..]);
      }
    }
  }

  // ---------------------------------------------------------------- events

  lemma TickForward(k: Kernel)
    requires Core(k) && OnCpu(k)
    ensures var k1 := k.(tick := k.tick + 1);
            Core(k1) && OnCpu(k1) && NoDup(k1.sleeping) && forall p: Pid :: p in k1.sleeping ==> p in k.sleeping
  {
  }

  lemma TickInv(k: Kernel)
    requires Ok(k) && k.cont[k.running] == Free
    ensures Ok(TickStep(k))
  {
    hide Core, OnCpu, Conserving;
    TickForward(k);
    var k1 := k.(tick := k.tick + 1);
    WakeExpiredCore(k1, k.sleeping);
    TimeoutInv(WakeExpired(k1, k.sleeping));
  }

  // ---------------------------------------------------------------- blocking

  /** `k1` is `k` with the running process parked at `c` and registered wherever its waker looks. */
  ghost predicate Parks(k: Kernel, k1: Kernel, c: Cont) {
    && k.running != k.idle && k.cont[k.running] == Free && c != Free && c != Yielding
    && k1 == k.(st := k.st[k.running := Blocked], cont := k.cont[k.running := c], wake := k1.wake,
                sleeping := k1.sleeping, mutexes := k1.mutexes, keyWaiter := k1.keyWaiter, diskWaiter := k1.diskWaiter)
    && (forall p: Pid :: p != k.running ==> k1.wake[p] == k.wake[p])
    && k1.sleeping == (if InSleep(c) then k.sleeping + [k.running] else k.sleeping)
    && (c == Collecting <==> k.running == k.collector) && (c == Collecting ==> k.exits == [])
    && (if c == Keying then k.keyWaiter.None? && k.keys == [] && k1.keyWaiter == Some(k.running) else k1.keyWaiter == k.keyWaiter)
    && (if c.DiskWaiting? then
          OwnsDisk(k) && !k.flag[c.ch] && k1.wake[k.running] == c.deadline &&
          k1.diskWaiter == k.diskWaiter[c.ch := Some(k.running)]
        else k1.diskWaiter == k.diskWaiter)
    && (if c.Locking? then
          c.mutex < |k.mutexes| && var x := k.mutexes[c.mutex];
          x.owner.Some? && x.owner != Some(k.running) &&
          k1.mutexes == k.mutexes[c.mutex := x.(waiters := x.waiters + [k.running])]
        else k1.mutexes == k.mutexes)
  }

  lemma ParksQueues(k: Kernel, k1: Kernel, c: Cont)
    requires Special(k) && Lists(k) && OnCpu(k) && Parks(k, k1, c)
    ensures Special(k1) && Vacant(k1)
    ensures NoDup(k1.ready) && NoDup(k1.sleeping)
    ensures forall p: Pid :: p in k1.ready <==> k1.alloc[p] && k1.st[p] == Ready && p != k1.idle
    ensures forall p: Pid :: p in k1.sleeping <==> k1.alloc[p] && k1.st[p] == Blocked && InSleep(k1.cont[p])
  {
  }

  lemma ParksWaiters(k: Kernel, k1: Kernel, c: Cont)
    requires Lists(k) && OnCpu(k) && Parks(k, k1, c)
    ensures forall m :: 0 <= m < |k1.mutexes| ==> NoDup(k1.mutexes[m].waiters)
    ensures forall m: nat, p: Pid :: m < |k1.mutexes| ==>
              (Waits(k1.mutexes, m, p) <==> k1.alloc[p] && k1.st[p] == Blocked && k1.cont[p] == Locking(m))
  {
    assert forall m: nat :: !Waits(k.mutexes, m, k.running);
    if c.Locking? {
      var x := k.mutexes[c.mutex];
      assert forall m: nat, p: Pid ::
        Waits(k1.mutexes, m, p) <==> Waits(k.mutexes, m, p) || (m == c.mutex && p == k.running);
      assert k.running !in x.waiters by { assert !Waits(k.mutexes, c.mutex, k.running); }
    }
  }

  lemma ParksLists(k: Kernel, k1: Kernel, c: Cont)
    requires Special(k) && Lists(k) && OnCpu(k) && Parks(k, k1, c)
    ensures Lists(k1) && Special(k1) && Vacant(k1)
  {
    hide Parks, Special, OnCpu, Vacant;
    ParksQueues(k, k1, c);
    ParksWaiters(k, k1, c);
  }

  lemma ParksContinuations(k: Kernel, k1: Kernel, c: Cont)
    requires Special(k) && Continuations(k) && OnCpu(k) && Parks(k, k1, c) && Mutexes(k)
    ensures Continuations(k1)
  {
    hide MutexOk, Exits;
  }

  lemma ParksExits(k: Kernel, k1: Kernel, c: Cont)
    requires OnCpu(k) && Parks(k, k1, c) && Exits(k)
    ensures Exits(k1)
  {
    hide Continuations, Mutexes;
  }

  lemma ParksMutexes(k: Kernel, k1: Kernel, c: Cont)
    requires Special(k) && Mutexes(k) && OnCpu(k) && Parks(k, k1, c)
    ensures Mutexes(k1)
  {
    forall m | 0 <= m < |k1.mutexes| ensures MutexOk(k1, k1.mutexes[m], m) {
      assert MutexOk(k, k.mutexes[m], m);
    }
    hide MutexOk;
  }

  lemma ParksWakeups(k: Kernel, k1: Kernel, c: Cont)
    requires Special(k) && Continuations(k) && Wakeups(k) && OnCpu(k) && Parks(k, k1, c)
    ensures Wakeups(k1)
  {
  }

  lemma ParksInv(k: Kernel, k1: Kernel, c: Cont)
    requires Core(k) && OnCpu(k) && Parks(k, k1, c)
    ensures var d := Dispatch(k1); Core(d) && OnCpu(d) && Conserving(d)
  {
    hide Lists, Continuations, Wakeups, Mutexes;
    ParksLists(k, k1, c);
    ParksContinuations(k, k1, c);
    ParksExits(k, k1, c);
    ParksMutexes(k, k1, c);
    ParksWakeups(k, k1, c);
    DispatchInv(k1);
  }

  // ---------------------------------------------------------------- leaving a region

  lemma LeaveContinuations(k: Kernel)
    requires Continuations(k) && Wakeups(k) && OnCpu(k) && k.running != k.idle
    ensures Continuations(Leave(k)) && Wakeups(Leave(k))
  {
  }

  lemma LeaveCore(k: Kernel)
    requires Core(k) && OnCpu(k)
    ensures Core(Leave(k)) && OnCpu(Leave(k))
    ensures k.running == k.idle ==> Leave(k) == k
  {
    var k1 := Leave(k);
    if k.running == k.idle {
      assert k1.cont == k.cont;
    } else {
      LeaveContinuations(k);
      assert Lists(k1) by { hide Continuations, Wakeups, Mutexes, Exits; }
      assert Mutexes(k1) by {
        hide Continuations, Wakeups, Exits, Lists;
      }
    }
  }

  lemma YieldInv(k: Kernel)
    requires Ok(k) && Calls(k)
    ensures Ok(YieldStep(k))
  {
    hide Lists, Continuations, Wakeups, Mutexes, Exits;
    if k.ready != [] {
      YieldLists(k);
      YieldContinuations(k);
      YieldWakeups(k);
      YieldMutexes(k);
      RotateInv(k.(cont := k.cont[k.running := Yielding]));
    }
  }

  lemma YieldLists(k: Kernel)
    requires Ok(k) && Calls(k)
    ensures var k1 := k.(cont := k.cont[k.running := Yielding]); Lists(k1) && (Exits(k) ==> Exits(k1))
  {
    hide Continuations, Wakeups, Mutexes;
  }

  lemma YieldContinuations(k: Kernel)
    requires Ok(k) && Calls(k)
    ensures Continuations(k.(cont := k.cont[k.running := Yielding]))
  {
    hide Wakeups, Mutexes, Exits, Lists;
  }

  lemma YieldWakeups(k: Kernel)
    requires Ok(k) && Calls(k)
    ensures Wakeups(k.(cont := k.cont[k.running := Yielding]))
  {
    hide Continuations, Mutexes, Exits, Lists;
  }

  lemma YieldMutexes(k: Kernel)
    requires Ok(k) && Calls(k)
    ensures Mutexes(k.(cont := k.cont[k.running := Yielding]))
  {
    hide Continuations, Wakeups, Exits, Lists;
  }

  // ---------------------------------------------------------------- the blocking calls

  lemma SleepInv(k: Kernel, t: nat)
    requires Ok(k) && Calls(k)
    ensures Ok(SleepUntil(k, t, Sleeping))
  {
    hide Core;
    var k0 := k.(wake := k.wake[k.running := t], sleeping := k.sleeping + [k.running]);
    ParksInv(k, k0.(st := k0.st[k.running := Blocked], cont := k0.cont[k.running := Sleeping]), Sleeping);
  }

  lemma AwaitDiskInv(k: Kernel, ch: Channel, deadline: nat)
    requires Ok(k) && Calls(k) && OwnsDisk(k)
    ensures Ok(AwaitDiskStep(k, ch, deadline))
  {
    hide Core;
    if !k.flag[ch] && k.tick < deadline {
      var k0 := k.(diskWaiter := k.diskWaiter[ch := Some(k.running)], wake := k.wake[k.running := deadline],
                   sleeping := k.sleeping + [k.running]);
      var c := DiskWaiting(ch, deadline);
      ParksInv(k, k0.(st := k0.st[k.running := Blocked], cont := k0.cont[k.running := c]), c);
    }
  }

  lemma GetKeyInv(k: Kernel)
    requires Ok(k) && Calls(k) && (k.keyWaiter.None? || k.keys != [])
    ensures Ok(GetKeyStep(k))
  {
    if k.keys == [] {
      hide Core;
      var k0 := k.(keyWaiter := Some(k.running));
      ParksInv(k, k0.(st := k0.st[k.running := Blocked], cont := k0.cont[k.running := Keying]), Keying);
    } else {
      TakeKeyCore(k);
    }
  }

  lemma TakeKeyCore(k: Kernel)
    requires Ok(k) && k.keys != [] 
    ensures Ok(k.(keys := k.keys[1..]))
  {
    var k1 := k.(keys := k.keys[1..]);
    assert Mutexes(k1) by {
      hide Continuations, Wakeups, Exits, Lists;
    }
    hide Mutexes;
  }

  lemma AcquireInv(k: Kernel, m: nat)
    requires Ok(k) && Calls(k) && m < |k.mutexes|
    ensures Ok(AcquireStep(k, m))
  {
    hide Core;
    var x := k.mutexes[m];
    if x.owner.Some? && x.owner != Some(k.running) {
      var k0 := k.(mutexes := k.mutexes[m := x.(waiters := x.waiters + [k.running])]);
      ParksInv(k, k0.(st := k0.st[k.running := Blocked], cont := k0.cont[k.running := Locking(m)]), Locking(m));
    } else {
      var y := if x.owner.None? then x.(owner := Some(k.running), count := 1) else x.(count := (x.count + 1) % WORD_LIMIT);
      OwnerCore(k, m, y);
    }
  }

  /** Changes of a mutex that leave its wait list alone. */
  lemma OwnerCore(k: Kernel, m: nat, y: Mutex)
    requires Ok(k) && Calls(k) && m < |k.mutexes|
    requires y.waiters == k.mutexes[m].waiters && y.count < WORD_LIMIT
    requires y.owner == Some(k.running) || (y.owner.None? && y.count == 0 && y.waiters == [])
    requires k.mutexes[m].owner.None? || k.mutexes[m].owner == Some(k.running)
    ensures Ok(k.(mutexes := k.mutexes[m := y]))
  {
    hide Lists, Continuations, Mutexes;
    OwnerLists(k, m, y);
    OwnerContinuations(k, m, y);
    OwnerMutexes(k, m, y);
  }

  lemma OwnerLists(k: Kernel, m: nat, y: Mutex)
    requires Ok(k) && Calls(k) && m < |k.mutexes|
    requires y.waiters == k.mutexes[m].waiters && y.count < WORD_LIMIT
    requires y.owner == Some(k.running) || (y.owner.None? && y.count == 0 && y.waiters == [])
    requires k.mutexes[m].owner.None? || k.mutexes[m].owner == Some(k.running)
    ensures Lists(k.(mutexes := k.mutexes[m := y]))
  {
    hide Continuations, Wakeups, Mutexes, Exits;
    var k1 := k.(mutexes := k.mutexes[m := y]);
    assert forall j: nat, p: Pid :: Waits(k1.mutexes, j, p) <==> Waits(k.mutexes, j, p);
  }

  lemma OwnerContinuations(k: Kernel, m: nat, y: Mutex)
    requires Ok(k) && Calls(k) && m < |k.mutexes|
    requires y.waiters == k.mutexes[m].waiters && y.count < WORD_LIMIT
    requires y.owner == Some(k.running) || (y.owner.None? && y.count == 0 && y.waiters == [])
    requires k.mutexes[m].owner.None? || k.mutexes[m].owner == Some(k.running)
    ensures Continuations(k.(mutexes := k.mutexes[m := y]))
  {
    hide Wakeups, Mutexes, Exits, Lists;
  }

  lemma OwnerMutexes(k: Kernel, m: nat, y: Mutex)
    requires Ok(k) && Calls(k) && m < |k.mutexes|
    requires y.waiters == k.mutexes[m].waiters && y.count < WORD_LIMIT
    requires y.owner == Some(k.running) || (y.owner.None? && y.count == 0 && y.waiters == [])
    requires k.mutexes[m].owner.None? || k.mutexes[m].owner == Some(k.running)
    ensures Mutexes(k.(mutexes := k.mutexes[m := y]))
  {
    hide Continuations, Wakeups, Exits, Lists;
  }

  /** Handing a mutex over to its first waiter. */
  ghost predicate HandsOver(k: Kernel, w: Kernel, m: nat, next: Pid)
    requires m < |k.mutexes|
  {
    var x := k.mutexes[m];
    && x.owner == Some(k.running) && x.waiters != [] && next == x.waiters[0]
    && w == k.(mutexes := k.mutexes[m := Mutex(Some(next), 1, x.waiters[1..])],
               st := k.st[next := Ready], ready := k.ready + [next])
  }

  lemma HandoffTarget(k: Kernel, m: nat)
    requires Core(k) && OnCpu(k) && m < |k.mutexes| && k.mutexes[m].waiters != []
    ensures var p := k.mutexes[m].waiters[0];
            k.alloc[p] && k.st[p] == Blocked && k.cont[p] == Locking(m) && p != k.idle && p != k.collector && p !in k.sleeping
            && p != k.running && Remove(k.sleeping, p) == k.sleeping
  {
    var p := k.mutexes[m].waiters[0];
    assert Waits(k.mutexes, m, p);
    RemoveAbsent(k.sleeping, p);
  }

  lemma HandoffLists(k: Kernel, w: Kernel, m: nat, p: Pid)
    requires Lists(k) && m < |k.mutexes| && HandsOver(k, w, m, p) && p != k.idle
    ensures Lists(w)
  {
    var x := k.mutexes[m];
    assert Waits(k.mutexes, m, p);
    assert forall q :: q in x.waiters[1..] <==> q in x.waiters && q != p;
    assert forall j: nat, q: Pid :: Waits(w.mutexes, j, q) <==> Waits(k.mutexes, j, q) && !(j == m && q == p);
  }

  lemma HandoffRest(k: Kernel, w: Kernel, m: nat, p: Pid)
    requires Core(k) && OnCpu(k) && Calls(k) && m < |k.mutexes| && HandsOver(k, w, m, p)
    requires k.st[p] == Blocked && k.cont[p] == Locking(m) && k.alloc[p] && p != k.idle && p != k.collector
    ensures Special(w) && Continuations(w) && Wakeups(w) && Mutexes(w) && Exits(w)
  {
    hide Continuations, Wakeups, Mutexes, Exits, Lists;
    HandoffContinuations(k, w, m, p);
    HandoffMutexes(k, w, m, p);
    HandoffExits(k, w, m, p);
  }

  lemma HandoffContinuations(k: Kernel, w: Kernel, m: nat, p: Pid)
    requires Core(k) && OnCpu(k) && Calls(k) && m < |k.mutexes| && HandsOver(k, w, m, p)
    requires k.st[p] == Blocked && k.cont[p] == Locking(m) && k.alloc[p] && p != k.idle && p != k.collector
    ensures Continuations(w) && Wakeups(w)
  {
    hide Mutexes, Exits, Lists;
  }

  lemma HandoffMutexes(k: Kernel, w: Kernel, m: nat, p: Pid)
    requires Core(k) && OnCpu(k) && Calls(k) && m < |k.mutexes| && HandsOver(k, w, m, p)
    requires k.st[p] == Blocked && k.cont[p] == Locking(m) && k.alloc[p] && p != k.idle && p != k.collector
    ensures Mutexes(w)
  {
    hide Continuations, Wakeups, Exits, Lists;
  }

  lemma HandoffExits(k: Kernel, w: Kernel, m: nat, p: Pid)
    requires Core(k) && OnCpu(k) && Calls(k) && m < |k.mutexes| && HandsOver(k, w, m, p)
    requires k.st[p] == Blocked && k.cont[p] == Locking(m) && k.alloc[p] && p != k.idle && p != k.collector
    ensures Exits(w)
  {
    hide Continuations, Wakeups, Mutexes, Lists;
  }

  lemma HandOverInv(k: Kernel, m: nat)
    requires Ok(k) && Calls(k) && m < |k.mutexes| && k.mutexes[m].owner == Some(k.running) && k.mutexes[m].waiters != []
    ensures var x := k.mutexes[m];
            Ok(Wakeup(k.(mutexes := k.mutexes[m := Mutex(Some(x.waiters[0]), 1, x.waiters[1..])]), x.waiters[0]))
  {
    hide Special, Continuations, Wakeups, Mutexes, Exits, Lists;
    var x := k.mutexes[m];
    var w := Wakeup(k.(mutexes := k.mutexes[m := Mutex(Some(x.waiters[0]), 1, x.waiters[1..])]), x.waiters[0]);
    HandoffTarget(k, m);
    assert HandsOver(k, w, m, x.waiters[0]);
    HandoffLists(k, w, m, x.waiters[0]);
    HandoffRest(k, w, m, x.waiters[0]);
  }

  lemma ReleaseInv(k: Kernel, m: nat)
    requires Ok(k) && Calls(k) && m < |k.mutexes|
    ensures Ok(ReleaseStep(k, m))
  {
    hide Ok, Wakeup;
    var x := k.mutexes[m];
    if x.owner == Some(k.running) {
      if (x.count - 1) % WORD_LIMIT != 0 {
        OwnerCore(k, m, x.(count := (x.count - 1) % WORD_LIMIT));
      } else if x.waiters == [] {
        OwnerCore(k, m, Mutex(None, 0, []));
      } else {
        HandOverInv(k, m);
      }
    }
  }

  // ---------------------------------------------------------------- interrupts

  lemma KeyPressInv(k: Kernel, b: Byte)
    requires Ok(k) && k.cont[k.running] == Free
    ensures Ok(KeyPressStep(k, b))
  {
    hide Lists, Continuations, Wakeups, Mutexes, Exits;
    // between the enqueue and the wakeup a blocked consumer faces a non-empty queue, so the key is
    // accounted for after the wakeup
    var w := WakeupInInterrupt(k, k.keyWaiter);
    var k1 := if |k.keys| < KEY_CAPACITY then k.(keys := k.keys + [b]) else k;
    var w1 := WakeupInInterrupt(k1, k.keyWaiter);
    assert w1 == w.(keys := k1.keys);
    if k.keyWaiter.Some? {
      KeyWaiterMayWake(k);
    }
    WakeupInInterruptInv(k, k.keyWaiter);
    AddKeyCore(w, k1.keys);
  }

  lemma KeyWaiterMayWake(k: Kernel)
    requires Body(k) && k.keyWaiter.Some?
    ensures k.cont[k.keyWaiter.value] == Keying
    ensures k.st[k.keyWaiter.value] == Blocked ==> MayWake(k, k.keyWaiter.value)
  {
    hide Lists, Mutexes, Exits;
  }

  lemma AddKeyCore(k: Kernel, keys: seq<Byte>)
    requires Ok(k) && |keys| <= KEY_CAPACITY && (k.keyWaiter.Some? ==> k.st[k.keyWaiter.value] != Blocked)
    ensures Ok(k.(keys := keys))
  {
    hide Lists, Continuations, Mutexes, Exits;
    KeysLists(k, keys);
    KeysMutexes(k, keys);
  }

  lemma KeysLists(k: Kernel, keys: seq<Byte>)
    ensures Lists(k) ==> Lists(k.(keys := keys))
    ensures Continuations(k) ==> Continuations(k.(keys := keys))
    ensures Exits(k) ==> Exits(k.(keys := keys))
  {
    hide Mutexes;
  }

  lemma KeysMutexes(k: Kernel, keys: seq<Byte>)
    ensures Mutexes(k) ==> Mutexes(k.(keys := keys))
  {
    hide Lists, Continuations, Exits;
  }

  /** The flag and the wakeup together: in between, a blocked waiter's flag is already up. */
  lemma DiskIrqCore(k: Kernel, ch: Channel)
    requires Core(k) && OnCpu(k) && k.diskWaiter[ch].Some? && k.st[k.diskWaiter[ch].value] == Blocked
    ensures var w := Wakeup(k.(flag := k.flag[ch := true]), k.diskWaiter[ch].value); Core(w) && OnCpu(w)
  {
    hide Lists, Continuations, Wakeups, Mutexes, Exits;
    var k1 := k.(flag := k.flag[ch := true]);
    var p := k.diskWaiter[ch].value;
    WaiterWaits(k, ch);
    FlagBody(k, ch, true);
    WakeupBody(k1, p);
    DiskIrqWakeups(k, ch);
  }

  lemma WaiterWaits(k: Kernel, ch: Channel)
    requires Body(k) && OnCpu(k) && k.diskWaiter[ch].Some? && k.st[k.diskWaiter[ch].value] == Blocked
    ensures var p := k.diskWaiter[ch].value; k.cont[p].DiskWaiting? && k.alloc[p] && p != k.idle && p != k.running
  {
    hide Lists, Mutexes, Exits;
  }

  lemma DiskIrqWakeups(k: Kernel, ch: Channel)
    requires Core(k) && k.diskWaiter[ch].Some? && k.st[k.diskWaiter[ch].value] == Blocked
    ensures Wakeups(Wakeup(k.(flag := k.flag[ch := true]), k.diskWaiter[ch].value))
  {
    hide Lists, Mutexes, Exits;
  }

  lemma FlagBody(k: Kernel, ch: Channel, b: bool)
    requires Body(k)
    ensures Body(k.(flag := k.flag[ch := b]))
  {
    hide Lists, Continuations, Mutexes, Exits;
    FlagLists(k, ch, b);
    FlagMutexes(k, ch, b);
  }

  lemma FlagLists(k: Kernel, ch: Channel, b: bool)
    ensures Lists(k) ==> Lists(k.(flag := k.flag[ch := b]))
    ensures Continuations(k) ==> Continuations(k.(flag := k.flag[ch := b]))
    ensures Exits(k) ==> Exits(k.(flag := k.flag[ch := b]))
  {
    hide Mutexes;
  }

  lemma FlagMutexes(k: Kernel, ch: Channel, b: bool)
    ensures Mutexes(k) ==> Mutexes(k.(flag := k.flag[ch := b]))
  {
    hide Lists, Continuations, Exits;
  }

  lemma DiskIrqInv(k: Kernel, ch: Channel)
    requires Ok(k) && k.cont[k.running] == Free
    ensures Ok(DiskIrqStep(k, ch))
  {
    hide Lists, Continuations, Wakeups, Mutexes, Exits;
    var p := k.diskWaiter[ch];
    var k1 := k.(flag := k.flag[ch := true]);
    if p.Some? && k.st[p.value] == Blocked {
      DiskIrqCore(k, ch);
      var w := Wakeup(k1, p.value);
      if w.running == w.idle {
        TimeoutInv(w);
      }
    } else {
      FlagCore(k, ch, true);
    }
  }

  /** A flag may change while nobody is blocked on it; clearing also needs nobody on the way out. */
  lemma FlagCore(k: Kernel, ch: Channel, b: bool)
    requires Ok(k) && (k.diskWaiter[ch].Some? ==> b && k.st[k.diskWaiter[ch].value] != Blocked)
    ensures Ok(k.(flag := k.flag[ch := b]))
  {
    hide Lists, Continuations, Wakeups, Mutexes, Exits;
    FlagBody(k, ch, b);
    FlagWakeups(k, ch, b);
  }

  lemma FlagWakeups(k: Kernel, ch: Channel, b: bool)
    requires Core(k) && (k.diskWaiter[ch].Some? ==> b && k.st[k.diskWaiter[ch].value] != Blocked)
    ensures Wakeups(k.(flag := k.flag[ch := b]))
  {
    hide Lists, Mutexes, Exits;
  }

  lemma ClearFlagInv(k: Kernel, ch: Channel)
    requires Ok(k) && Calls(k) && OwnsDisk(k)
    ensures Ok(k.(flag := k.flag[ch := false]))
  {
    assert k.diskWaiter[ch].None? by { hide Lists, Mutexes, Exits, Wakeups; }
    hide Core;
    FlagCore(k, ch, false);
  }

  // ---------------------------------------------------------------- exit, collection, creation

  /** `k3` is `w` with the running process past exitProcess. */
  ghost predicate Exits3(w: Kernel, k3: Kernel) {
    k3 == w.(st := w.st[w.running := Exited], cont := w.cont[w.running := Free],
             exits := if |w.exits| < EXIT_CAPACITY then w.exits + [w.running] else w.exits)
  }

  lemma ExitLists(w: Kernel, k3: Kernel)
    requires Lists(w) && OnCpu(w) && Calls(w) && Exits3(w, k3)
    ensures Lists(k3) && Vacant(k3)
  {
  }

  lemma ExitMutexes(w: Kernel, k3: Kernel)
    requires Mutexes(w) && Calls(w) && Exits3(w, k3)
    requires forall m :: 0 <= m < |w.mutexes| ==> w.mutexes[m].owner != Some(w.running)
    ensures Mutexes(k3)
  {
  }

  /** The exiting process, after the collector has been woken and before the CPU is handed over. */
  lemma ExitBody(w: Kernel, k3: Kernel)
    requires Core(w) && OnCpu(w) && Calls(w) && w.running != 0 && w.st[w.collector] != Blocked
    requires forall m :: 0 <= m < |w.mutexes| ==> w.mutexes[m].owner != Some(w.running)
    requires Exits3(w, k3)
    ensures Core(k3) && Vacant(k3)
  {
    hide Lists, Mutexes, Continuations, Wakeups, Exits;
    ExitLists(w, k3);
    ExitMutexes(w, k3);
    ExitContinuations(w, k3);
    ExitExits(w, k3);
  }

  lemma ExitContinuations(w: Kernel, k3: Kernel)
    requires Core(w) && OnCpu(w) && Calls(w) && w.running != 0 && w.st[w.collector] != Blocked
    requires Exits3(w, k3)
    ensures Continuations(k3) && Wakeups(k3)
  {
    hide Lists, Mutexes, Exits;
  }

  lemma ExitExits(w: Kernel, k3: Kernel)
    requires Core(w) && OnCpu(w) && Calls(w) && w.running != 0 && w.st[w.collector] != Blocked
    requires Exits3(w, k3)
    ensures Exits(k3)
  {
    hide Lists, Mutexes, Continuations, Wakeups;
  }

  lemma ExitInv(k: Kernel)
    requires Ok(k) && Enabled(k, Exit)
    ensures Ok(ExitStep(k))
  {
    hide Lists, Continuations, Wakeups, Mutexes, Exits;
    var cur := k.running;
    var w := Wakeup(k, k.collector);
    if k.st[k.collector] == Blocked {
      CollectorMayWake(k);
      WakeupCore(k, k.collector);
    }
    var k3 := w.(st := w.st[cur := Exited], cont := w.cont[cur := Free],
                 exits := if |w.exits| < EXIT_CAPACITY then w.exits + [cur] else w.exits);
    ExitBody(w, k3);
    DispatchInv(k3);
  }

  lemma CollectorMayWake(k: Kernel)
    requires Body(k) && OnCpu(k) && k.st[k.collector] == Blocked
    ensures MayWake(k, k.collector)
  {
    hide Lists, Mutexes, Exits;
  }

  /** A slot that the collector frees, or creation fills, is on no list. */
  lemma CollectInv(k: Kernel)
    requires Ok(k) && k.running == k.collector && k.cont[k.running] == Free
    ensures Ok(CollectStep(k))
  {
    if k.exits == [] {
      assert k.collector != k.idle;
      hide Core;
      ParksInv(k, k.(st := k.st[k.running := Blocked], cont := k.cont[k.running := Collecting]), Collecting);
    } else {
      FreeCore(k);
    }
  }

  lemma FreeCore(k: Kernel)
    requires Ok(k) && k.running == k.collector && k.exits != []
    ensures Ok(Freed(k))
  {
    hide Lists, Continuations, Wakeups, Mutexes, Exits, StackPages;
    FreedIsDead(k);
    FreeLists(k);
    FreeContinuations(k);
    FreeMutexes(k);
    FreeExits(k);
  }

  /** The kernel with the slot of the first exited pid given back. */
  function Freed(k: Kernel): Kernel
    requires k.exits != []
  {
    k.(exits := k.exits[1..], alloc := k.alloc[k.exits[0] := false], us := k.us - StackPages(k.exits[0]))
  }

  lemma FreedIsDead(k: Kernel)
    requires Ok(k) && k.exits != []
    ensures k.alloc[k.exits[0]] && k.st[k.exits[0]] == Exited
  {
    hide Lists, Continuations, Wakeups, Mutexes;
    assert k.exits[0] in k.exits;
  }

  lemma FreeLists(k: Kernel)
    requires Ok(k) && k.exits != [] && k.alloc[k.exits[0]] && k.st[k.exits[0]] == Exited
    ensures Lists(Freed(k))
  {
    hide Continuations, Wakeups, Mutexes, Exits, StackPages;
  }

  lemma FreeContinuations(k: Kernel)
    requires Ok(k) && k.exits != [] && k.alloc[k.exits[0]] && k.st[k.exits[0]] == Exited
    ensures Continuations(Freed(k)) && Wakeups(Freed(k))
  {
    hide Mutexes, Exits, Lists, StackPages;
  }

  lemma FreeMutexes(k: Kernel)
    requires Ok(k) && k.exits != [] && k.alloc[k.exits[0]] && k.st[k.exits[0]] == Exited
    ensures Mutexes(Freed(k))
  {
    hide Continuations, Wakeups, Exits, Lists, StackPages;
  }

  lemma FreeExits(k: Kernel)
    requires Ok(k) && k.exits != [] && k.alloc[k.exits[0]] && k.st[k.exits[0]] == Exited
    ensures Exits(Freed(k))
  {
    hide Continuations, Wakeups, Mutexes, Lists, StackPages;
  }

  /** createProcess never takes a slot that is in use; the transient index 1024 is never used. */
  lemma {:induction false} ProbeResult(alloc: Marks, idx: nat, tries: nat)
    requires alloc[0] && idx <= PROCESS_MAXCOUNT && tries <= PROCESS_MAXCOUNT
    ensures var r := Probe(alloc, idx, tries); r.Some? ==> r.value < PROCESS_MAXCOUNT && !alloc[r.value]
    decreases PROCESS_MAXCOUNT - tries
  {
    if alloc[idx % PROCESS_MAXCOUNT] {
      if tries < PROCESS_MAXCOUNT {
        ProbeResult(alloc, (idx + 1) % PROCESS_MAXCOUNT, tries + 1);
      }
    } else {
      assert idx % PROCESS_MAXCOUNT != 0;
      assert idx < PROCESS_MAXCOUNT;
    }
  }

  /** `w` is `k` with the free slot `p` turned into a ready process. */
  ghost predicate Creates(k: Kernel, w: Kernel, p: Pid) {
    && !k.alloc[p] && k.nextPid <= PROCESS_MAXCOUNT
    && w == k.(st := k.st[p := Ready], ready := k.ready + [p], alloc := k.alloc[p := true], cont := k.cont[p := Free],
               user := w.user, nextPid := p + 1, program := w.program, us := w.us)
  }

  lemma CreateLists(k: Kernel, w: Kernel, p: Pid)
    requires Lists(k) && Special(k) && Creates(k, w, p)
    ensures Lists(w) && Special(w)
  {
  }

  lemma CreateMutexes(k: Kernel, w: Kernel, p: Pid)
    requires Mutexes(k) && Continuations(k) && Creates(k, w, p)
    ensures Mutexes(w) && Continuations(w)
  {
  }

  lemma CreateCore(k: Kernel, w: Kernel, p: Pid)
    requires Core(k) && Creates(k, w, p)
    ensures Core(w)
  {
    hide Lists, Mutexes, Special;
    CreateLists(k, w, p);
    CreateMutexes(k, w, p);
    assert Wakeups(w) by { hide Exits; }
    assert Exits(w) by { hide Continuations, Wakeups; }
  }

  lemma CreateInv(k: Kernel, kind: Kind)
    requires Ok(k) && Calls(k) && CanCreate(k)
    ensures Ok(CreateStep(k, kind))
  {
    hide Lists, Mutexes, Wakeups, Exits, Continuations, Probe, CodePages, StackPages;
    assert Special(k);
    ProbeResult(k.alloc, k.nextPid, 0);
    CreateCore(k, CreateStep(k, kind), Probe(k.alloc, k.nextPid, 0).value);
  }

  lemma LeaveFacts(k: Kernel)
    requires Ok(k) && k.cont[k.running] != Free
    ensures var c, w := k.cont[k.running], Leave(k);
            && Ok(w) && k.running != k.idle && (c == Collecting <==> k.running == k.collector) && (c == Keying ==> w.keyWaiter.None?)
            && (c.DiskWaiting? ==> OwnsDisk(w))
  {
    hide Lists, Mutexes, Exits, Wakeups;
    LeaveCore(k);
  }

  lemma ResumeInv(k: Kernel)
    requires Ok(k) && k.cont[k.running] != Free
    ensures Ok(ResumeStep(k))
  {
    hide Ok, GetKeyStep, AwaitDiskStep, CollectStep;
    var c := k.cont[k.running];
    var w := Leave(k);
    LeaveFacts(k);
    match c
    case Keying => GetKeyInv(w);
    case DiskWaiting(ch, deadline) => AwaitDiskInv(w, ch, deadline);
    case Collecting => CollectInv(w);
    case _ =>
  }

  // ---------------------------------------------------------------- user-access pages

  lemma StackPagesDisjoint(p: Pid, q: Pid)
    requires p != q
    ensures StackPages(p) !! StackPages(q) && StackPages(p) !! CodePages()
  {
  }

  lemma CreatePages(k: Kernel, kind: Kind)
    requires Pages(k) && CanCreate(k) && !k.alloc[Probe(k.alloc, k.nextPid, 0).value]
    ensures Pages(CreateStep(k, kind))
  {
    var w := CreateStep(k, kind);
    var p: Pid := Probe(k.alloc, k.nextPid, 0).value;
    forall pg: nat ensures pg in w.us <==>
      (w.program && pg in CodePages()) || exists q: Pid :: w.alloc[q] && w.user[q] && pg in StackPages(q)
    {
      if exists q: Pid :: k.alloc[q] && k.user[q] && pg in StackPages(q) {
        var q: Pid :| k.alloc[q] && k.user[q] && pg in StackPages(q);
        assert w.alloc[q] && w.user[q];
      }
      if pg in StackPages(p) && kind != KernelProcess {
        assert w.alloc[p] && w.user[p];
      }
    }
  }

  lemma FreePages(k: Kernel, w: Kernel, p: Pid)
    requires Pages(k) && w.us == k.us - StackPages(p)
    requires w.alloc == k.alloc[p := false] && w.user == k.user && w.program == k.program
    ensures Pages(w)
  {
    forall q: Pid | q != p ensures StackPages(p) !! StackPages(q) {
      StackPagesDisjoint(p, q);
    }
    forall pg: nat ensures pg in w.us <==>
      (w.program && pg in CodePages()) || exists q: Pid :: w.alloc[q] && w.user[q] && pg in StackPages(q)
    {
      assert pg in StackPages(p) ==> pg !in CodePages();
      if q: Pid :| k.alloc[q] && k.user[q] && pg in StackPages(q) {
        assert q != p ==> w.alloc[q] && w.user[q] && pg !in StackPages(p);
      }
    }
  }

  /** The fields a step that neither creates nor collects leaves alone. */
  ghost predicate SameMemory(k: Kernel, w: Kernel) {
    w.us == k.us && w.alloc == k.alloc && w.user == k.user && w.program == k.program && w.nextPid == k.nextPid
  }

  lemma {:induction false} WakeExpiredSame(k: Kernel, ps: seq<Pid>)
    ensures var w := WakeExpired(k, ps); w == k.(sleeping := w.sleeping, ready := w.ready, st := w.st)
    decreases |ps|
  {
    if ps != [] {
      WakeExpiredSame(if k.tick >= k.wake[ps[0]] then Wakeup(k, ps[0]) else k, ps[1..]);
    }
  }

  lemma OtherSteps(k: Kernel, e: Event)
    requires Enabled(k, e) && !e.Create?
    requires k.exits == [] || !(e.Collect? || (e.Resume? && k.cont[k.running] == Collecting))
    ensures SameMemory(k, Step(k, e))
  {
    hide WakeExpired, TickStep, ResumeStep, KeyPressStep, DiskIrqStep, CreateStep, ExitStep, CollectStep, AwaitDiskStep;
    match e
    case Tick => TickSame(k);
    case KeyPress(_) => InterruptSteps(k, e);
    case DiskIrq(_) => InterruptSteps(k, e);
    case Resume => ResumeSame(k);
    case Exit => ExitSame(k);
    case AwaitDisk(ch) => LoopSteps(k, DiskWaiting(ch, k.tick + DISK_TIMEOUT_TICKS));
    case Collect => LoopSteps(k, Collecting);
    case _ =>
  }

  lemma TickSame(k: Kernel)
    ensures SameMemory(k, TickStep(k))
  {
    hide WakeExpired;
    WakeExpiredSame(k.(tick := k.tick + 1), k.sleeping);
  }

  lemma ResumeSame(k: Kernel)
    requires k.cont[k.running] == Collecting ==> k.exits == []
    ensures SameMemory(k, ResumeStep(k))
  {
    hide CollectStep, GetKeyStep, AwaitDiskStep;
    LoopSteps(Leave(k), k.cont[k.running]);
  }

  lemma ExitSame(k: Kernel)
    ensures SameMemory(k, ExitStep(k))
  {
  }

  lemma InterruptSteps(k: Kernel, e: Event)
    requires Enabled(k, e) && (e.KeyPress? || e.DiskIrq?)
    ensures SameMemory(k, Step(k, e))
  {
    hide WakeExpired, TickStep, ResumeStep, CreateStep, ExitStep;
  }

  lemma LoopSteps(k: Kernel, c: Cont)
    ensures c.Collecting? && k.exits == [] ==> SameMemory(k, CollectStep(k))
    ensures c.Keying? ==> SameMemory(k, GetKeyStep(k))
    ensures c.DiskWaiting? ==> SameMemory(k, AwaitDiskStep(k, c.ch, c.deadline))
  {
  }

  /** Only creation and collection touch the U/S bits, the allocation table and the user marks. */
  lemma PagesStep(k: Kernel, e: Event)
    requires Enabled(k, e) && Ok(k) && Pages(k)
    ensures Pages(Step(k, e))
  {
    hide Ok, Step, Enabled;
    if e.Create? {
      CreatingPages(k, e.kind);
    } else if k.exits != [] && (e.Collect? || (e.Resume? && k.cont[k.running] == Collecting)) {
      CollectingPages(k, e);
    } else {
      OtherSteps(k, e);
    }
  }

  lemma CreatingPages(k: Kernel, kind: Kind)
    requires Enabled(k, Create(kind)) && Ok(k) && Pages(k)
    ensures Pages(Step(k, Create(kind)))
  {
    hide Ok, Pages;
    SlotZero(k);
    ProbeResult(k.alloc, k.nextPid, 0);
    CreatePages(k, kind);
  }

  lemma CollectingPages(k: Kernel, e: Event)
    requires Enabled(k, e) && Pages(k) && k.exits != [] && (e.Collect? || (e.Resume? && k.cont[k.running] == Collecting))
    ensures Pages(Step(k, e))
  {
    hide Pages;
    FreePages(k, Step(k, e), k.exits[0]);
  }

  lemma SlotZero(k: Kernel)
    requires Ok(k)
    ensures k.alloc[0] && k.nextPid <= PROCESS_MAXCOUNT
  {
  }

  // ---------------------------------------------------------------- every step, every run

  lemma StepOk(k: Kernel, e: Event)
    requires Ok(k) && Enabled(k, e)
    ensures Ok(Step(k, e))
  {
    hide Ok, TickStep, KeyPressStep, DiskIrqStep, YieldStep, SleepUntil, AcquireStep, ReleaseStep, GetKeyStep,
      AwaitDiskStep, CreateStep, ExitStep, CollectStep, ResumeStep;
    match e
    case Tick => TickInv(k);
    case KeyPress(b) => KeyPressInv(k, b);
    case DiskIrq(ch) => DiskIrqInv(k, ch);
    case Yield => YieldInv(k);
    case Sleep(ms) => SleepInv(k, WakeTick(k.tick, ms));
    case Acquire(m) => AcquireInv(k, m);
    case Release(m) => ReleaseInv(k, m);
    case GetKey => GetKeyInv(k);
    case PollKey => if k.keys != [] { TakeKeyCore(k); }
    case ClearFlag(ch) => ClearFlagInv(k, ch);
    case AwaitDisk(ch) => AwaitDiskInv(k, ch, k.tick + DISK_TIMEOUT_TICKS);
    case Create(kind) => CreateInv(k, kind);
    case Exit => ExitInv(k);
    case Collect => CollectInv(k);
    case Resume => ResumeInv(k);
  }

  lemma StepInv(k: Kernel, e: Event)
    requires Inv(k) && Enabled(k, e)
    ensures Inv(Step(k, e))
  {
    hide Ok, Pages, Step;
    PagesStep(k, e);
    StepOk(k, e);
  }

  lemma {:induction false} RunInv(k: Kernel, es: seq<Event>)
    requires Inv(k) && CanRun(k, es)
    ensures Inv(Run(k, es))
    decreases |es|
  {
    if es != [] {
      StepInv(k, es[0]);
      RunInv(Step(k, es[0]), es[1..]);
    }
  }

  /** Two runs, one after the other, are one run. */
  lemma {:induction false} RunsOn(k: Kernel, a: seq<Event>, b: seq<Event>)
    requires CanRun(k, a) && CanRun(Run(k, a), b)
    ensures CanRun(k, a + b) && Run(k, a + b) == Run(Run(k, a), b)
    decreases |a|
  {
    hide Step, Enabled;
    if a == [] {
      assert a + b == b;
    } else {
      RunsOn(Step(k, a[0]), a[1..], b);
      assert (a + b)[0] == a[0] && (a + b)[1..] == a[1..] + b;
    }
  }

  /** A run can be cut anywhere. */
  lemma {:induction false} RunSplits(k: Kernel, es: seq<Event>, i: nat)
    requires CanRun(k, es) && i <= |es|
    ensures CanRun(k, es[..i]) && CanRun(Run(k, es[..i]), es[i..]) && Run(k, es) == Run(Run(k, es[..i]), es[i..])
    decreases i
  {
    hide Step, Enabled;
    if i == 0 {
      assert es[..i] == [] && es[i..] == es;
    } else {
      RunSplits(Step(k, es[0]), es[1..], i - 1);
      assert es[..i][1..] == es[1..][..i - 1] && es[i..] == es[1..][i - 1..];
    }
  }

  lemma {:induction false} RunOk(k: Kernel, es: seq<Event>)
    requires Ok(k) && CanRun(k, es)
    ensures Ok(Run(k, es))
    decreases |es|
  {
    hide Ok, Step, Enabled;
    if es != [] {
      StepOk(k, es[0]);
      RunOk(Step(k, es[0]), es[1..]);
    }
  }

  lemma BootInv(mutexCount: nat)
    ensures Inv(Boot(mutexCount))
  {
    var k := Boot(mutexCount);
  }

  /** A state some run from boot leads to. */
  ghost predicate Reachable(k: Kernel) {
    exists n: nat, es: seq<Event> :: CanRun(Boot(n), es) && k == Run(Boot(n), es)
  }

  lemma ReachableInv(k: Kernel)
    requires Reachable(k)
    ensures Inv(k)
  {
    var n: nat, es: seq<Event> :| CanRun(Boot(n), es) && k == Run(Boot(n), es);
    BootInv(n);
    RunInv(Boot(n), es);
  }
}
