/** Conservation and order over whole runs: the mutex wait list, the key queue, the exit queue. */
module KernelQueues {
  import opened Common
  import opened Words
  import opened KernelModel
  import opened KernelInvariant
  import opened KernelLeaks

  // ---------------------------------------------------------------- mutex: direct hand-over in order

  /** A release that gives the mutex up: by the owner, bringing the count to zero. */
  predicate FinalRelease(k: Kernel, m: nat, e: Event) {
    && e == Release(m) && m < |k.mutexes| && k.mutexes[m].owner == Some(k.running)
    && (k.mutexes[m].count - 1) % WORD_LIMIT == 0
  }

  function FinalReleases(k: Kernel, m: nat, es: seq<Event>): nat
    requires CanRun(k, es)
    decreases |es|
  {
    if es == [] then 0 else (if FinalRelease(k, m, es[0]) then 1 else 0) + FinalReleases(Step(k, es[0]), m, es[1..])
  }

  /** What one event does to mutex `m`. */
  predicate MutexStep(k: Kernel, w: Kernel, m: nat, e: Event)
    requires m < |k.mutexes|
  {
    && |w.mutexes| == |k.mutexes|
    && var x, y := k.mutexes[m], w.mutexes[m];
    if FinalRelease(k, m, e) then
      if x.waiters == [] then y == Mutex(None, 0, [])
      else y == Mutex(Some(x.waiters[0]), 1, x.waiters[1..])
    else if e == Release(m) && x.owner == Some(k.running) then y == x.(count := (x.count - 1) % WORD_LIMIT)
    else if e == Acquire(m) then
      if x.owner == Some(k.running) then y == x.(count := (x.count + 1) % WORD_LIMIT)
      else if x.owner.None? then y == x.(owner := Some(k.running), count := 1)
      else y == x.(waiters := x.waiters + [k.running])
    else y == x
  }

  lemma StepMutex(k: Kernel, e: Event, m: nat)
    requires Enabled(k, e) && m < |k.mutexes|
    ensures MutexStep(k, Step(k, e), m, e)
  {
    hide SleepUntil, Block;
    match e
    case Acquire(j) => AcquireMutex(k, j, m);
    case Release(j) => ReleaseMutex(k, j, m);
    case _ => OtherMutex(k, e);
  }

  lemma AcquireMutex(k: Kernel, j: nat, m: nat)
    requires j < |k.mutexes| && m < |k.mutexes|
    ensures MutexStep(k, AcquireStep(k, j), m, Acquire(j))
  {
  }

  lemma ReleaseMutex(k: Kernel, j: nat, m: nat)
    requires j < |k.mutexes| && m < |k.mutexes|
    ensures MutexStep(k, ReleaseStep(k, j), m, Release(j))
  {
  }

  /** No other event touches a mutex. */
  lemma OtherMutex(k: Kernel, e: Event)
    requires Enabled(k, e) && !e.Acquire? && !e.Release?
    ensures Step(k, e).mutexes == k.mutexes
  {
    match e
    case Tick =>
      WakeExpiredSame(k.(tick := k.tick + 1), k.sleeping);
      hide WakeExpired;
    case Resume => ResumeMutexes(k);
    case KeyPress(_) => hide TickStep, ResumeStep, CreateStep, ExitStep;
    case DiskIrq(_) => hide TickStep, ResumeStep, CreateStep, ExitStep;
    case _ => hide TickStep, ResumeStep, KeyPressStep, DiskIrqStep;
  }

  lemma ResumeMutexes(k: Kernel)
    ensures ResumeStep(k).mutexes == k.mutexes
  {
  }

  lemma {:induction false} MutexCountSame(k: Kernel, es: seq<Event>, m: nat)
    requires CanRun(k, es) && m < |k.mutexes|
    ensures |Run(k, es).mutexes| == |k.mutexes|
    decreases |es|
  {
    if es != [] {
      StepMutex(k, es[0], m);
      hide Step, Enabled;
      MutexCountSame(Step(k, es[0]), es[1..], m);
    }
  }

  lemma FifoStep(k: Kernel, w: Kernel, m: nat, e: Event, i: nat)
    requires m < |k.mutexes| && i < |k.mutexes[m].waiters| && MutexStep(k, w, m, e)
    ensures m < |w.mutexes|
    ensures var p := k.mutexes[m].waiters[i];
            if FinalRelease(k, m, e) && i == 0 then w.mutexes[m].owner == Some(p)
            else var i' := if FinalRelease(k, m, e) then i - 1 else i;
                 i' < |w.mutexes[m].waiters| && w.mutexes[m].waiters[i'] == p
  {
  }

  /** The process at position `i` of a wait list is at position i - r after r final releases, whatever else
    * happens, and final release number i + 1 makes it the owner: first come, first served. */
  lemma {:induction false} MutexFifo(k: Kernel, es: seq<Event>, m: nat, i: nat)
    requires CanRun(k, es) && m < |k.mutexes| && i < |k.mutexes[m].waiters|
    ensures m < |Run(k, es).mutexes|
    ensures var p, r, w := k.mutexes[m].waiters[i], FinalReleases(k, m, es), Run(k, es);
            if r <= i then i - r < |w.mutexes[m].waiters| && w.mutexes[m].waiters[i - r] == p
            else exists j :: OwnerAt(k, es, j, m, i, p)
    decreases |es|
  {
    hide Step, Enabled, OwnerAt, FinalRelease, MutexStep;
    MutexCountSame(k, es, m);
    var p := k.mutexes[m].waiters[i];
    if es != [] {
      var w := Step(k, es[0]);
      StepMutex(k, es[0], m);
      FifoStep(k, w, m, es[0], i);
      var f := FinalRelease(k, m, es[0]);
      if f && i == 0 {
        OwnerNow(k, es, m, p);
      } else {
        var i' := if f then i - 1 else i;
        MutexFifo(w, es[1..], m, i');
        if FinalReleases(w, m, es[1..]) > i' {
          var j :| OwnerAt(w, es[1..], j, m, i', p);
          OwnerLater(k, es, j, m, i, p);
        }
      }
    }
  }

  /** After j + 1 events, the last of them final release number i + 1, `p` owns the mutex. */
  ghost predicate OwnerAt(k: Kernel, es: seq<Event>, j: nat, m: nat, i: nat, p: Pid) {
    && j < |es| && CanRun(k, es[..j]) && CanRun(k, es[..j + 1])
    && FinalReleases(k, m, es[..j]) == i && FinalReleases(k, m, es[..j + 1]) == i + 1
    && m < |Run(k, es[..j + 1]).mutexes| && Run(k, es[..j + 1]).mutexes[m].owner == Some(p)
  }

  lemma OwnerNow(k: Kernel, es: seq<Event>, m: nat, p: Pid)
    requires es != [] && Enabled(k, es[0]) && FinalRelease(k, m, es[0])
    requires m < |Step(k, es[0]).mutexes| && Step(k, es[0]).mutexes[m].owner == Some(p)
    ensures OwnerAt(k, es, 0, m, 0, p)
  {
    hide Step, Enabled, FinalRelease;
    var w, one := Step(k, es[0]), [es[0]];
    assert es[..0] == [] && es[..1] == one && one[0] == es[0] && one[1..] == [];
    assert CanRun(w, []) && Run(w, []) == w && FinalReleases(w, m, []) == 0;
    assert CanRun(k, one) && Run(k, one) == w && FinalReleases(k, m, one) == 1;
    assert CanRun(k, []) && FinalReleases(k, m, []) == 0;
  }

  lemma OwnerLater(k: Kernel, es: seq<Event>, j: nat, m: nat, i: nat, p: Pid)
    requires es != [] && Enabled(k, es[0])
    requires var f := if FinalRelease(k, m, es[0]) then 1 else 0; i >= f && OwnerAt(Step(k, es[0]), es[1..], j, m, i - f, p)
    ensures OwnerAt(k, es, j + 1, m, i, p)
  {
    hide Step, Enabled, FinalRelease;
    assert es[..j + 1][1..] == es[1..][..j] && es[..j + 2][1..] == es[1..][..j + 1];
  }

  // ---------------------------------------------------------------- mutex: the count

  function DepthStep(k: Kernel, w: Kernel, m: nat, d: nat, e: Event): nat {
    if m >= |k.mutexes| || m >= |w.mutexes| || w.mutexes[m].owner.None? then 0
    else if w.mutexes[m].owner != k.mutexes[m].owner then 1
    else if w.mutexes[m].owner == Some(k.running) && e == Acquire(m) then d + 1
    else if w.mutexes[m].owner == Some(k.running) && e == Release(m) && d > 0 then d - 1
    else d
  }

  /** Acquires minus releases by the owner since it became the owner, `d` so far. */
  function Depth(k: Kernel, m: nat, d: nat, es: seq<Event>): nat
    requires CanRun(k, es)
    decreases |es|
  {
    if es == [] then d else
      var w := Step(k, es[0]);
      Depth(w, m, DepthStep(k, w, m, d, es[0]), es[1..])
  }

  /** The 16-bit count is the depth modulo 2^16, and zero depth goes with a free mutex. */
  predicate CountIs(k: Kernel, m: nat, d: nat) {
    && m < |k.mutexes| && k.mutexes[m].count == d % WORD_LIMIT
    && (k.mutexes[m].owner.None? <==> d == 0)
  }

  lemma CountStep(k: Kernel, w: Kernel, m: nat, d: nat, e: Event)
    requires m < |k.mutexes| && MutexStep(k, w, m, e) && CountIs(k, m, d)
    requires k.running !in k.mutexes[m].waiters
    ensures CountIs(w, m, DepthStep(k, w, m, d, e))
  {
    if e == Release(m) && k.mutexes[m].owner == Some(k.running) {
      ReleaseCount(k, w, m, d);
    } else if e == Acquire(m) {
      AcquireCount(k, w, m, d);
    }
  }

  lemma ReleaseCount(k: Kernel, w: Kernel, m: nat, d: nat)
    requires m < |k.mutexes| && MutexStep(k, w, m, Release(m)) && CountIs(k, m, d)
    requires k.running !in k.mutexes[m].waiters && k.mutexes[m].owner == Some(k.running)
    ensures CountIs(w, m, DepthStep(k, w, m, d, Release(m)))
  {
    CountMoves(d);
  }

  lemma AcquireCount(k: Kernel, w: Kernel, m: nat, d: nat)
    requires m < |k.mutexes| && MutexStep(k, w, m, Acquire(m)) && CountIs(k, m, d)
    ensures CountIs(w, m, DepthStep(k, w, m, d, Acquire(m)))
  {
    CountMoves(d);
  }

  lemma CountMoves(d: nat)
    ensures (d % WORD_LIMIT + 1) % WORD_LIMIT == (d + 1) % WORD_LIMIT
    ensures d > 0 ==> (d % WORD_LIMIT - 1) % WORD_LIMIT == (d - 1) % WORD_LIMIT
  {
  }

  /** Along every run the count of a mutex is the owner's acquires minus its releases, modulo 2^16. */
  lemma {:induction false} CountIsDepth(k: Kernel, es: seq<Event>, m: nat, d: nat)
    requires Ok(k) && CanRun(k, es) && CountIs(k, m, d)
    ensures CountIs(Run(k, es), m, Depth(k, m, d, es))
    decreases |es|
  {
    if es != [] {
      var w := Step(k, es[0]);
      StepMutex(k, es[0], m);
      StepOk(k, es[0]);
      WaitersAreOthers(k, m);
      CountStep(k, w, m, d, es[0]);
      hide Ok, Step, Enabled, CountIs, DepthStep;
      CountIsDepth(w, es[1..], m, DepthStep(k, w, m, d, es[0]));
    }
  }

  /** releaseLock by the owner gives the mutex up at depth 1, as it should, and also at every other depth
    * that is 1 modulo 2^16. */
  lemma GivesUpWhen(k: Kernel, m: nat, d: nat)
    requires Ok(k) && Enabled(k, Release(m)) && CountIs(k, m, d) && k.mutexes[m].owner == Some(k.running)
    ensures Step(k, Release(m)).mutexes[m].owner != Some(k.running) <==> d % WORD_LIMIT == 1
    ensures d <= WORD_LIMIT ==> (Step(k, Release(m)).mutexes[m].owner != Some(k.running) <==> d == 1)
  {
    StepMutex(k, Release(m), m);
    WaitersAreOthers(k, m);
    hide Ok, Step;
  }

  /** Nesting beyond 2^16 breaks it: after 65537 acquires by one process a single release frees the mutex. */
  lemma NestingOverflow(n: nat)
    requires n % WORD_LIMIT == 1
    ensures var es := Acquires(n);
            && CanRun(Boot(1), es) && Depth(Boot(1), 0, 0, es) == n
            && Enabled(Run(Boot(1), es), Release(0)) && |Run(Boot(1), es).mutexes| == 1
            && Step(Run(Boot(1), es), Release(0)).mutexes == [Mutex(None, 0, [])]
  {
    var k := Boot(1);
    Nested(k, n, 0);
    var w := Run(k, Acquires(n));
    hide Run, CanRun, Depth, Acquires, Boot;
    assert ReleaseStep(w, 0).mutexes == [Mutex(None, 0, [])];
  }

  function Acquires(n: nat): seq<Event> { if n == 0 then [] else [Acquire(0)] + Acquires(n - 1) }

  lemma {:induction false} Nested(k: Kernel, n: nat, d: nat)
    requires Calls(k) && |k.mutexes| == 1 && k.mutexes[0].waiters == [] && CountIs(k, 0, d)
    requires k.mutexes[0].owner.None? || k.mutexes[0].owner == Some(k.running)
    ensures CanRun(k, Acquires(n)) && Depth(k, 0, d, Acquires(n)) == d + n
    ensures var w := Run(k, Acquires(n));
            && Calls(w) && |w.mutexes| == 1 && w.mutexes[0].waiters == [] && CountIs(w, 0, d + n)
            && (n > 0 ==> w.mutexes[0].owner == Some(w.running))
    decreases n
  {
    if n > 0 {
      var es := Acquires(n);
      assert es[0] == Acquire(0) && es[1..] == Acquires(n - 1);
      var w := Step(k, Acquire(0));
      assert w == AcquireStep(k, 0);
      assert DepthStep(k, w, 0, d, Acquire(0)) == d + 1;
      assert CountIs(w, 0, d + 1);
      Nested(w, n - 1, d + 1);
    }
  }

  lemma WaitersAreOthers(k: Kernel, m: nat)
    requires Ok(k) && m < |k.mutexes|
    ensures k.mutexes[m].owner.Some? ==> k.mutexes[m].owner.value !in k.mutexes[m].waiters
    ensures k.running !in k.mutexes[m].waiters
  {
    forall p | p in k.mutexes[m].waiters ensures k.st[p] == Blocked && k.cont[p] == Locking(m) && p != k.idle {
      assert Waits(k.mutexes, m, p);
    }
  }

  /** The same from boot: in every run the count is the depth modulo 2^16 and the mutex is free, with
    * nobody waiting, exactly while the depth is zero. */
  lemma MutexCountFromBoot(n: nat, es: seq<Event>, m: nat)
    requires m < n && CanRun(Boot(n), es)
    ensures var k, d := Run(Boot(n), es), Depth(Boot(n), m, 0, es);
            && m < |k.mutexes| && k.mutexes[m].count == d % WORD_LIMIT
            && (k.mutexes[m].owner.None? <==> d == 0) && (d == 0 ==> k.mutexes[m].waiters == [])
  {
    BootInv(n);
    assert CountIs(Boot(n), m, 0);
    RunInv(Boot(n), es);
    CountIsDepth(Boot(n), es, m, 0);
    var k := Run(Boot(n), es);
    assert MutexOk(k, k.mutexes[m], m);
    hide Inv, Run, CanRun, Boot, Depth;
  }

  // ---------------------------------------------------------------- keys and exited pids

  // what one event puts into and takes out of the key queue and the exit queue
  function KeyIn(k: Kernel, e: Event): seq<Byte> {
    if e.KeyPress? && |k.keys| < KEY_CAPACITY then [e.key] else []
  }

  function KeyOut(k: Kernel, e: Event): seq<Byte> {
    if k.keys != [] && (e.GetKey? || e.PollKey? || (e.Resume? && k.cont[k.running] == Keying)) then [k.keys[0]] else []
  }

  function ExitIn(k: Kernel, e: Event): seq<Pid> {
    if e.Exit? && |k.exits| < EXIT_CAPACITY then [k.running] else []
  }

  function ExitOut(k: Kernel, e: Event): seq<Pid> {
    if k.exits != [] && (e.Collect? || (e.Resume? && k.cont[k.running] == Collecting)) then [k.exits[0]] else []
  }

  lemma StepQueues(k: Kernel, e: Event)
    requires Enabled(k, e)
    ensures var w := Step(k, e);
            k.keys + KeyIn(k, e) == KeyOut(k, e) + w.keys && k.exits + ExitIn(k, e) == ExitOut(k, e) + w.exits
  {
    hide ResumeStep, TickStep, KeyPressStep, DiskIrqStep, ExitStep, AcquireStep, ReleaseStep, YieldStep, CreateStep, SleepUntil,
      AwaitDiskStep, GetKeyStep, CollectStep;
    match e
    case Tick => TickQueues(k);
    case Resume => ResumeQueues(k);
    case KeyPress(_) => InterruptQueues(k, e);
    case DiskIrq(_) => InterruptQueues(k, e);
    case Exit => ExitQueues(k);
    case _ => CallQueues(k, e);
  }

  lemma TickQueues(k: Kernel)
    ensures TickStep(k).keys == k.keys && TickStep(k).exits == k.exits
  {
    hide WakeExpired;
    WakeExpiredSame(k.(tick := k.tick + 1), k.sleeping);
  }

  lemma ExitQueues(k: Kernel)
    ensures ExitStep(k).keys == k.keys && k.exits + ExitIn(k, Exit) == ExitStep(k).exits
  {
  }

  lemma InterruptQueues(k: Kernel, e: Event)
    requires Enabled(k, e) && (e.KeyPress? || e.DiskIrq?)
    ensures var w := Step(k, e); k.keys + KeyIn(k, e) == w.keys && k.exits == w.exits
  {
    hide WakeExpired, ResumeStep, TickStep;
  }

  lemma CallQueues(k: Kernel, e: Event)
    requires Enabled(k, e) && !(e.Tick? || e.Resume? || e.KeyPress? || e.DiskIrq? || e.Exit?)
    ensures var w := Step(k, e); k.keys == KeyOut(k, e) + w.keys && k.exits == ExitOut(k, e) + w.exits
  {
    hide ResumeStep, TickStep, KeyPressStep, DiskIrqStep, ExitStep, YieldStep, AcquireStep, ReleaseStep, AwaitDiskStep, CreateStep,
      SleepUntil, Wakeup, Probe;
    CallsKeepQueues(k, e);
  }

  lemma CallsKeepQueues(k: Kernel, e: Event)
    requires Enabled(k, e)
    ensures YieldStep(k).keys == k.keys && YieldStep(k).exits == k.exits
    ensures e.Sleep? ==> Step(k, e).keys == k.keys && Step(k, e).exits == k.exits
    ensures e.Acquire? || e.Release? ==> Step(k, e).keys == k.keys && Step(k, e).exits == k.exits
    ensures e.AwaitDisk? || e.Create? ==> Step(k, e).keys == k.keys && Step(k, e).exits == k.exits
  {
    hide ResumeStep, TickStep, KeyPressStep, DiskIrqStep, ExitStep, Probe, StackPages, CodePages, GetKeyStep, CollectStep;
  }

  lemma ResumeQueues(k: Kernel)
    ensures var w := ResumeStep(k);
            k.keys == KeyOut(k, Resume) + w.keys && k.exits == ExitOut(k, Resume) + w.exits
  {
    var l := Leave(k);
    assert l.keys == k.keys && l.exits == k.exits;
    hide Leave;
    LoopQueues(l, k.cont[k.running]);
    hide GetKeyStep, AwaitDiskStep, CollectStep;
  }

  lemma LoopQueues(k: Kernel, c: Cont)
    ensures c.Keying? ==> var w := GetKeyStep(k); k.keys == (if k.keys == [] then [] else [k.keys[0]]) + w.keys && k.exits == w.exits
    ensures c.DiskWaiting? ==> var w := AwaitDiskStep(k, c.ch, c.deadline); k.keys == w.keys && k.exits == w.exits
    ensures c.Collecting? ==> var w := CollectStep(k); k.exits == (if k.exits == [] then [] else [k.exits[0]]) + w.exits && k.keys == w.keys
  {
  }

  // the same over a run
  function KeysIn(k: Kernel, es: seq<Event>): seq<Byte>
    requires CanRun(k, es)
    decreases |es|
  {
    if es == [] then [] else KeyIn(k, es[0]) + KeysIn(Step(k, es[0]), es[1..])
  }

  function KeysOut(k: Kernel, es: seq<Event>): seq<Byte>
    requires CanRun(k, es)
    decreases |es|
  {
    if es == [] then [] else KeyOut(k, es[0]) + KeysOut(Step(k, es[0]), es[1..])
  }

  function ExitsIn(k: Kernel, es: seq<Event>): seq<Pid>
    requires CanRun(k, es)
    decreases |es|
  {
    if es == [] then [] else ExitIn(k, es[0]) + ExitsIn(Step(k, es[0]), es[1..])
  }

  function ExitsOut(k: Kernel, es: seq<Event>): seq<Pid>
    requires CanRun(k, es)
    decreases |es|
  {
    if es == [] then [] else ExitOut(k, es[0]) + ExitsOut(Step(k, es[0]), es[1..])
  }

  /** Over any run, what readers take out is, in order and once each, what went in: the keys that getKey and
    * getQueue return, and the pids the collector frees. */
  lemma {:induction false} QueuesConserve(k: Kernel, es: seq<Event>)
    requires CanRun(k, es)
    ensures k.keys + KeysIn(k, es) == KeysOut(k, es) + Run(k, es).keys
    ensures k.exits + ExitsIn(k, es) == ExitsOut(k, es) + Run(k, es).exits
    decreases |es|
  {
    if es != [] {
      var e, w, rest := es[0], Step(k, es[0]), es[1..];
      StepQueues(k, e);
      hide Step, Enabled, KeyIn, KeyOut, ExitIn, ExitOut;
      QueuesConserve(w, rest);
      Chain(k.keys, KeyIn(k, e), KeyOut(k, e), w.keys, KeysIn(w, rest), KeysOut(w, rest), Run(w, rest).keys);
      Chain(k.exits, ExitIn(k, e), ExitOut(k, e), w.exits, ExitsIn(w, rest), ExitsOut(w, rest), Run(w, rest).exits);
    }
  }

  /** Conservation composes. */
  lemma Chain<T>(a: seq<T>, i: seq<T>, o: seq<T>, b: seq<T>, i': seq<T>, o': seq<T>, c: seq<T>)
    requires a + i == o + b && b + i' == o' + c
    ensures a + (i + i') == (o + o') + c
  {
    assert a + (i + i') == (a + i) + i' == (o + b) + i' == o + (b + i') == o + (o' + c) == (o + o') + c;
  }

  // ---------------------------------------------------------------- slot conservation

  function Allocated(k: Kernel): set<Pid> { set p: Pid | k.alloc[p] }

  function LiveSet(k: Kernel): set<Pid> { set p: Pid | Live(k, p) }

  /** Every dead process that still holds a slot is queued for the collector. */
  ghost predicate NoLeak(k: Kernel) { forall p: Pid :: !Lost(k, p) }

  /** Nobody has died, and no pid has left the exit queue without its slot being freed. */
  ghost predicate NoDeath(k: Kernel, w: Kernel) {
    forall p: Pid :: w.alloc[p] && w.st[p] == Exited ==> k.alloc[p] && k.st[p] == Exited && (p in k.exits ==> p in w.exits)
  }

  lemma {:induction false} WakeExpiredNoDeath(k: Kernel, ps: seq<Pid>)
    ensures NoDeath(k, WakeExpired(k, ps))
    decreases |ps|
  {
    if ps != [] {
      var k1 := if k.tick >= k.wake[ps[0]] then Wakeup(k, ps[0]) else k;
      WakeExpiredNoDeath(k1, ps[1..]);
    }
  }

  lemma StepNoDeath(k: Kernel, e: Event)
    requires Enabled(k, e) && !e.Exit?
    ensures NoDeath(k, Step(k, e))
  {
    match e
    case Tick =>
      WakeExpiredNoDeath(k.(tick := k.tick + 1), k.sleeping);
      hide WakeExpired;
    case Resume => ResumeNoDeath(k);
    case KeyPress(_) => InterruptNoDeath(k, e);
    case DiskIrq(_) => InterruptNoDeath(k, e);
    case Create(kind) => CreateNoDeath(k, kind);
    case Release(m) => hide WakeExpired, ResumeStep, TickStep, KeyPressStep, DiskIrqStep, CreateStep, StackPages;
    case _ => CallNoDeath(k, e);
  }

  lemma InterruptNoDeath(k: Kernel, e: Event)
    requires Enabled(k, e) && (e.KeyPress? || e.DiskIrq?)
    ensures NoDeath(k, Step(k, e))
  {
    hide WakeExpired, ResumeStep, TickStep;
  }

  lemma CreateNoDeath(k: Kernel, kind: Kind)
    requires CanCreate(k)
    ensures NoDeath(k, CreateStep(k, kind))
  {
    hide Probe, CodePages, StackPages;
  }

  lemma CallNoDeath(k: Kernel, e: Event)
    requires Enabled(k, e) && !(e.Tick? || e.Resume? || e.KeyPress? || e.DiskIrq? || e.Exit? || e.Create? || e.Release?)
    ensures NoDeath(k, Step(k, e))
  {
    hide WakeExpired, ResumeStep, TickStep, KeyPressStep, DiskIrqStep, ExitStep, CreateStep, ReleaseStep, StackPages;
  }

  lemma ResumeNoDeath(k: Kernel)
    ensures NoDeath(k, ResumeStep(k))
  {
    hide StackPages;
  }

  /** exitProcess keeps the dead accounted for exactly if the exit queue has room. */
  lemma ExitLeaksWhenFull(k: Kernel)
    requires Ok(k) && Enabled(k, Exit)
    ensures NoLeak(Step(k, Exit)) <==> NoLeak(k) && |k.exits| < EXIT_CAPACITY
  {
    hide Ok, Step, Enabled, Lost;
    forall p: Pid ensures Lost(Step(k, Exit), p) <==> Lost(k, p) || (p == k.running && |k.exits| >= EXIT_CAPACITY) {
      LosesExactly(k, p);
    }
    LosesExactly(k, k.running);
  }

  /** At most 102 slots in use means there is always room: shell, collector, idle and the exiting process
    * are alive, so at most 98 pids are queued. */
  lemma RoomForExit(k: Kernel)
    requires Ok(k) && Enabled(k, Exit) && |Allocated(k)| <= 102
    ensures |k.exits| < EXIT_CAPACITY
  {
    var alive := {0, k.idle, k.collector, k.running};
    assert |alive| == 4;
    assert alive <= Allocated(k);
    assert forall p :: p in k.exits ==> p in Allocated(k) - alive;
    hide Ok, Allocated;
    Pigeonhole(k.exits, Allocated(k) - alive);
  }

  /** In every run that never has more than 102 slots in use, no slot is ever lost: the slots in use are
    * the live processes plus the pids waiting for the collector. */
  lemma {:induction false} SlotsConserved(k: Kernel, es: seq<Event>)
    requires Ok(k) && NoLeak(k) && CanRun(k, es) && Small(k, es)
    ensures NoLeak(Run(k, es)) && |Allocated(Run(k, es))| == |LiveSet(Run(k, es))| + |Run(k, es).exits|
    decreases |es|
  {
    hide Ok, NoLeak, Step, Enabled, Allocated, LiveSet;
    if es == [] {
      CountSlots(k);
    } else {
      NoLeakStep(k, es[0]);
      StepOk(k, es[0]);
      SlotsConserved(Step(k, es[0]), es[1..]);
    }
  }

  lemma NoLeakStep(k: Kernel, e: Event)
    requires Ok(k) && NoLeak(k) && Enabled(k, e) && |Allocated(k)| <= 102
    ensures NoLeak(Step(k, e))
  {
    hide Ok, Step, Enabled, Allocated;
    if e.Exit? {
      RoomForExit(k);
      ExitLeaksWhenFull(k);
    } else {
      StepNoDeath(k, e);
      forall p: Pid ensures !Lost(Step(k, e), p) {
        assert !Lost(k, p);
      }
    }
  }

  /** No state of the run has more than 102 slots in use. */
  ghost predicate Small(k: Kernel, es: seq<Event>)
    requires CanRun(k, es)
    decreases |es|
  {
    |Allocated(k)| <= 102 && (es != [] ==> Small(Step(k, es[0]), es[1..]))
  }

  lemma CountSlots(k: Kernel)
    requires Ok(k) && NoLeak(k)
    ensures |Allocated(k)| == |LiveSet(k)| + |k.exits|
  {
    hide Ok, NoLeak;
    DeadAreQueued(k);
    var dead := set p | p in k.exits;
    assert Allocated(k) == LiveSet(k) + dead && LiveSet(k) !! dead;
    hide Allocated, LiveSet;
    SetSize(k.exits);
  }

  lemma DeadAreQueued(k: Kernel)
    requires Ok(k) && NoLeak(k)
    ensures NoDup(k.exits) && forall p: Pid :: k.alloc[p] && k.st[p] == Exited <==> p in k.exits
  {
    hide Lists, Continuations, Wakeups, Mutexes;
    forall p: Pid | k.alloc[p] && k.st[p] == Exited ensures p in k.exits {
      assert !Lost(k, p);
    }
  }

  lemma {:induction false} SetSize<T>(s: seq<T>)
    requires NoDup(s)
    ensures |set x | x in s| == |s|
  {
    if s != [] {
      var n := |s| - 1;
      SetSize(s[..n]);
      assert (set x | x in s) == (set x | x in s[..n]) + {s[n]};
    }
  }
}
