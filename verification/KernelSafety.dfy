/** What the invariant means: results about every reachable state of the process core. */
module KernelSafety {
  import opened Common
  import opened KernelModel
  import opened KernelInvariant

  // ---------------------------------------------------------------- exactly one place

  /** Everywhere a process can be.  The ready list, the sleep list and all wait lists share one link field. */
  datatype Place = OnProcessor | InReadyList | InSleepList | InWaitList(m: nat) | ParkedOnKey | ParkedCollector

  predicate At(k: Kernel, p: Pid, place: Place) {
    match place
    case OnProcessor => k.running == p
    case InReadyList => p in k.ready
    case InSleepList => p in k.sleeping
    case InWaitList(m) => Waits(k.mutexes, m, p)
    case ParkedOnKey => k.keyWaiter == Some(p) && p != k.running && p !in k.ready
    case ParkedCollector => k.collector == p && p != k.running && p !in k.ready
  }

  function PlaceOf(k: Kernel, p: Pid): Place {
    match k.st[p]
    case Ready => InReadyList
    case Blocked => (
      match k.cont[p]
      case Locking(m) => InWaitList(m)
      case Keying => ParkedOnKey
      case Collecting => ParkedCollector
      case _ => InSleepList)
    case _ => OnProcessor
  }

  /** No process is lost and no link field is on two lists: a live process is in exactly the place its
    * state byte and its continuation name, and at most once in any list. */
  lemma ExactlyOnePlace(k: Kernel, p: Pid)
    requires Reachable(k) && Live(k, p) && p != k.idle
    ensures forall place :: At(k, p, place) <==> place == PlaceOf(k, p)
    ensures NoDup(k.ready) && NoDup(k.sleeping) && forall m :: 0 <= m < |k.mutexes| ==> NoDup(k.mutexes[m].waiters)
  {
    ReachableInv(k);
    forall place ensures At(k, p, place) <==> place == PlaceOf(k, p) {
      assert k.collector == p && k.st[p] == Blocked ==> k.cont[p] == Collecting;
      match place
      case OnProcessor =>
      case InReadyList =>
      case InSleepList =>
      case InWaitList(m) =>
      case ParkedOnKey => KeyPlace(k, p);
      case ParkedCollector =>
    }
  }

  lemma KeyPlace(k: Kernel, p: Pid)
    requires Inv(k) && Live(k, p) && p != k.idle
    ensures k.keyWaiter == Some(p) && p != k.running && p !in k.ready <==> PlaceOf(k, p) == ParkedOnKey
  {
  }

  /** Idle and the dead are on no list at all. */
  lemma NowhereElse(k: Kernel, p: Pid)
    requires Reachable(k) && (p == k.idle || !Live(k, p))
    ensures forall place :: At(k, p, place) ==> place == OnProcessor && p == k.idle
    ensures p !in k.ready && p !in k.sleeping && forall m: nat :: !Waits(k.mutexes, m, p)
  {
    ReachableInv(k);
  }

  /** Idle runs only while no process is ready. */
  lemma WorkConservation(k: Kernel)
    requires Reachable(k)
    ensures k.running == k.idle ==> forall p: Pid :: Live(k, p) && p != k.idle ==> k.st[p] == Blocked
  {
    ReachableInv(k);
  }

  // ---------------------------------------------------------------- no lost wakeup

  /** In every reachable state a parked process really has nothing to do: the collector faces an empty
    * exit queue, the key waiter an empty key queue, and a disk waiter a lowered flag, the disk mutex in
    * its hands and the timer set. */
  lemma NoLostWakeup(k: Kernel)
    requires Reachable(k)
    ensures k.st[k.collector] == Blocked ==> k.exits == []
    ensures forall p: Pid :: k.cont[p] == Keying && k.st[p] == Blocked ==> k.keyWaiter == Some(p) && k.keys == []
    ensures forall p: Pid :: k.cont[p].DiskWaiting? && k.st[p] == Blocked ==>
              !k.flag[k.cont[p].ch] && k.diskWaiter[k.cont[p].ch] == Some(p) && p in k.sleeping &&
              DISK_MUTEX < |k.mutexes| && k.mutexes[DISK_MUTEX].owner == Some(p) && k.wake[p] == k.cont[p].deadline
  {
    ReachableInv(k);
  }

  /** waitInterrupt blocks at most once, and its result tells why it came back. */
  lemma DiskWaitReturns(k: Kernel)
    requires Reachable(k) && k.cont[k.running].DiskWaiting?
    ensures var c := k.cont[k.running]; var w := Step(k, Resume);
            && w.running == k.running && w.cont[w.running] == Free
            && (w.flag[c.ch] || w.tick >= c.deadline)
            && w.diskWaiter[c.ch].None?
  {
    hide Reachable, Lists, Mutexes, Exits, Pages;
    ReachableInv(k);
  }

  /** Whoever returns from acquireLock owns the mutex. */
  lemma AcquireReturnsOwner(k: Kernel)
    requires Reachable(k) && k.cont[k.running].Locking?
    ensures var m := k.cont[k.running].mutex; m < |k.mutexes| && Step(k, Resume).mutexes[m].owner == Some(k.running)
    ensures Step(k, Resume).running == k.running
  {
    ReachableInv(k);
  }

  /** When getKey may be called: it keeps the protocol of all waiters exactly if nobody else is registered as waiting, or
    * a key is there to be taken. A process that registers over another one, be that one blocked or woken but not yet
    * back on the CPU, breaks it. */
  lemma GetKeyExactly(k: Kernel)
    requires Ok(k) && Calls(k)
    ensures Ok(GetKeyStep(k)) <==> k.keyWaiter.None? || k.keys != []
  {
    hide Lists, Wakeups, Mutexes, Exits;
    if k.keyWaiter.None? || k.keys != [] {
      GetKeyInv(k);
    } else {
      var p, w := k.keyWaiter.value, GetKeyStep(k);
      assert k.cont[p] == Keying && p != k.running;
      assert w.keyWaiter == Some(k.running) && w.cont[p] == Keying;
      assert !Continuations(w);
    }
  }

  // ---------------------------------------------------------------- pid slots

  /** How far slot `p` lies behind `idx`, going round the table. */
  function Distance(idx: nat, p: Pid): nat
    requires idx <= PROCESS_MAXCOUNT
  {
    if p >= idx then p - idx else p + PROCESS_MAXCOUNT - idx
  }

  lemma DistanceStep(idx: nat, p: Pid)
    requires idx <= PROCESS_MAXCOUNT
    ensures Distance(idx, p) == 0 <==> p == idx % PROCESS_MAXCOUNT
    ensures Distance(idx, p) > 0 ==> Distance((idx + 1) % PROCESS_MAXCOUNT, p) == Distance(idx, p) - 1
  {
  }

  /** The probe visits the slots in order from `idx` and gives up only after all of them. */
  lemma {:induction false} ProbeOrder(alloc: Marks, idx: nat, tries: nat)
    requires alloc[0] && idx <= PROCESS_MAXCOUNT && tries <= PROCESS_MAXCOUNT
    ensures var r := Probe(alloc, idx, tries);
            if r.None? then forall q: Pid :: Distance(idx, q) <= PROCESS_MAXCOUNT - tries ==> alloc[q]
            else r.value < PROCESS_MAXCOUNT && !alloc[r.value] &&
                 forall q: Pid :: Distance(idx, q) < Distance(idx, r.value) ==> alloc[q]
    decreases PROCESS_MAXCOUNT - tries
  {
    ProbeResult(alloc, idx, tries);
    forall q: Pid ensures Distance(idx, q) == 0 <==> q == idx % PROCESS_MAXCOUNT
      ensures Distance(idx, q) > 0 ==> Distance((idx + 1) % PROCESS_MAXCOUNT, q) == Distance(idx, q) - 1
    {
      DistanceStep(idx, q);
    }
    hide Distance;
    if alloc[idx % PROCESS_MAXCOUNT] && tries < PROCESS_MAXCOUNT {
      ProbeOrder(alloc, (idx + 1) % PROCESS_MAXCOUNT, tries + 1);
    }
  }

  /** createProcess succeeds exactly when some slot is free; the slot is the first free one from
    * pidCountIdx round, and it belongs to nobody. */
  lemma PidSlots(k: Kernel)
    requires Reachable(k)
    ensures CanCreate(k) <==> exists p: Pid :: !k.alloc[p]
    ensures k.nextPid <= PROCESS_MAXCOUNT
    ensures CanCreate(k) ==>
              var p := Probe(k.alloc, k.nextPid, 0).value;
              && !k.alloc[p] && p !in k.exits && (forall place :: !At(k, p, place))
              && forall q: Pid :: Distance(k.nextPid, q) < Distance(k.nextPid, p) ==> k.alloc[q]
  {
    SlotFacts(k);
    hide Reachable, Probe, At;
    ProbeOrder(k.alloc, k.nextPid, 0);
    var r := Probe(k.alloc, k.nextPid, 0);
    if r.Some? {
      NowhereElse(k, r.value);
    } else {
      assert forall p: Pid :: Distance(k.nextPid, p) <= PROCESS_MAXCOUNT;
    }
  }

  lemma SlotFacts(k: Kernel)
    requires Reachable(k)
    ensures k.alloc[0] && k.alloc[k.idle] && k.nextPid <= PROCESS_MAXCOUNT && forall p :: p in k.exits ==> k.alloc[p]
  {
    ReachableInv(k);
    hide Reachable;
  }

  // ---------------------------------------------------------------- user-access pages

  /** A page is open to ring 3 exactly if it is in the code area once a program has been loaded, or in
    * the stack window of a user process not yet collected. */
  lemma UserPages(k: Kernel, pg: nat)
    requires Reachable(k)
    ensures pg in k.us <==>
              (k.program && USER_CODE_ADDRESS <= pg * 0x1000 < USER_CODE_ADDRESS + USER_CODE_SIZE) ||
              exists p: Pid :: k.alloc[p] && k.user[p] &&
                USER_STACK_BASE + USER_STACK_INTERVAL * p <= pg * 0x1000 < USER_STACK_BASE + USER_STACK_INTERVAL * p + USER_STACK_SIZE
    ensures pg in k.us ==> USER_CODE_ADDRESS <= pg * 0x1000 < USER_MEMORY_END
  {
    ReachableInv(k);
    assert pg in CodePages() <==> USER_CODE_ADDRESS <= pg * 0x1000 < USER_CODE_ADDRESS + USER_CODE_SIZE;
    forall p: Pid ensures pg in StackPages(p) <==>
      USER_STACK_BASE + USER_STACK_INTERVAL * p <= pg * 0x1000 < USER_STACK_BASE + USER_STACK_INTERVAL * p + USER_STACK_SIZE
    {
    }
  }

  /** Stack windows of different pids never meet, and the guard page above each is never opened. */
  lemma GuardPages(k: Kernel, p: Pid, q: Pid)
    requires Reachable(k)
    ensures p != q ==> StackPages(p) !! StackPages(q)
    ensures (USER_STACK_BASE + USER_STACK_INTERVAL * p + USER_STACK_SIZE) / 0x1000 !in k.us
    ensures k.alloc[p] && !k.user[p] ==> StackPages(p) !! k.us
  {
    ReachableInv(k);
    assert Pages(k);
    hide Inv, Reachable;
    if p != q {
      StackPagesDisjoint(p, q);
    }
    GuardPage(p);
    if k.alloc[p] && !k.user[p] {
      forall r: Pid | r != p ensures StackPages(p) !! StackPages(r) && StackPages(p) !! CodePages() {
        StackPagesDisjoint(p, r);
      }
      StackPagesDisjoint(p, if p == 0 then 1 else 0);
      hide StackPages, CodePages;
    }
  }

  lemma GuardPage(p: Pid)
    ensures var guard := (USER_STACK_BASE + USER_STACK_INTERVAL * p + USER_STACK_SIZE) / 0x1000;
            guard !in CodePages() && forall r: Pid :: guard !in StackPages(r)
  {
    var guard := (USER_STACK_BASE + USER_STACK_INTERVAL * p + USER_STACK_SIZE) / 0x1000;
    assert guard == 0x3102 + 3 * p;
    forall r: Pid ensures guard !in StackPages(r) {
    }
  }
}
