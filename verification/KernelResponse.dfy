/** Sleeping and waiting for the CPU together: when a process that slept has run again. */
module KernelResponse {
  import opened Common
  import opened Words
  import opened KernelModel
  import opened KernelInvariant
  import opened KernelRuns

  function IndexOf(s: seq<Pid>, p: Pid): (i: nat)
    requires p in s
    ensures i < |s| && s[i] == p
  {
    if s[0] == p then 0 else 1 + IndexOf(s[1..], p)
  }

  /** Who goes before the sleeper `p` when the next tick releases it: the processes ready by then and the sleepers
    * released with it that went to sleep earlier. */
  function Ahead(k: Kernel, p: Pid): nat
    requires p in Due(k.tick + 1, k.wake, k.sleeping)
  {
    |k.ready| + IndexOf(Due(k.tick + 1, k.wake, k.sleeping), p)
  }

  lemma Released(k: Kernel, p: Pid)
    requires p in k.sleeping && k.tick + 1 >= k.wake[p]
    ensures p in Due(k.tick + 1, k.wake, k.sleeping)
  {
    DueLaterMembers(k.tick + 1, k.wake, k.sleeping);
  }

  /** The tick that releases a sleeper puts it behind exactly those. */
  lemma WakePosition(k: Kernel, p: Pid)
    requires Ok(k) && p in k.sleeping && k.tick + 1 >= k.wake[p]
    ensures p in Due(k.tick + 1, k.wake, k.sleeping)
    ensures var n, w := Ahead(k, p), TickStep(k);
            if n == 0 then w.running == p else n - 1 < |w.ready| && w.ready[n - 1] == p
  {
    hide Ok, WakeExpired, Due, Later, NoDup, Ahead;
    Released(k, p);
    AheadAfterWaking(k, p);
    PlaceAfterTimeout(WakeExpired(k.(tick := k.tick + 1), k.sleeping), p, Ahead(k, p));
  }

  /** In the ready list as the walk of the sleep list leaves it. */
  lemma AheadAfterWaking(k: Kernel, p: Pid)
    requires Ok(k) && p in k.sleeping && k.tick + 1 >= k.wake[p]
    ensures p in Due(k.tick + 1, k.wake, k.sleeping)
    ensures var u := WakeExpired(k.(tick := k.tick + 1), k.sleeping); Ahead(k, p) < |u.ready| && u.ready[Ahead(k, p)] == p
  {
    hide Ok, WakeExpired, Due, Later, NoDup;
    var k1 := k.(tick := k.tick + 1);
    Released(k, p);
    SleepersBlocked(k);
    StablePartition(k1, [], k.sleeping);
    WakeExpiredSame(k1, k.sleeping);
  }

  lemma PlaceAfterTimeout(u: Kernel, p: Pid, n: nat)
    requires n < |u.ready| && u.ready[n] == p
    ensures var w := Timeout(u); if n == 0 then w.running == p else n - 1 < |w.ready| && w.ready[n - 1] == p
  {
  }

  /** There are at most 1022 of them. */
  lemma AheadBound(k: Kernel, p: Pid)
    requires Ok(k) && p in k.sleeping && k.tick + 1 >= k.wake[p]
    ensures p in Due(k.tick + 1, k.wake, k.sleeping) && Ahead(k, p) <= PROCESS_MAXCOUNT - 2
  {
    hide Ok, Due, NoDup;
    var due := Due(k.tick + 1, k.wake, k.sleeping);
    Released(k, p);
    QueueOfOthers(k);
    NotIdle(k.ready + due, k.idle);
  }

  lemma QueueOfOthers(k: Kernel)
    requires Ok(k)
    ensures var q := k.ready + Due(k.tick + 1, k.wake, k.sleeping); NoDup(q) && k.idle !in q
  {
    hide Ok;
    var due := Due(k.tick + 1, k.wake, k.sleeping);
    SleepersBlocked(k);
    ReadyApart(k);
    DueLaterMembers(k.tick + 1, k.wake, k.sleeping);
    DueNoDup(k.tick + 1, k.wake, k.sleeping);
    forall i, j | 0 <= i < j < |k.ready + due| ensures (k.ready + due)[i] != (k.ready + due)[j] {
      if i < |k.ready| <= j {
        assert due[j - |k.ready|] in due && k.ready[i] in k.ready;
      }
    }
  }

  lemma ReadyApart(k: Kernel)
    requires Ok(k)
    ensures NoDup(k.ready) && k.idle !in k.ready
  {
  }

  lemma {:induction false} DueNoDup(tick: nat, wake: Ticks, ps: seq<Pid>)
    requires NoDup(ps)
    ensures NoDup(Due(tick, wake, ps))
  {
    if ps != [] {
      DueNoDup(tick, wake, ps[1..]);
      DueLaterMembers(tick, wake, ps[1..]);
    }
  }

  /** A queue without idle holds at most 1023 processes. */
  lemma NotIdle(q: seq<Pid>, idle: Pid)
    requires NoDup(q) && idle !in q
    ensures |q| <= PROCESS_MAXCOUNT - 1
  {
    hide NoDup, AllPids;
    var all := AllPids(PROCESS_MAXCOUNT);
    assert |all - {idle}| == |all| - 1;
    Pigeonhole(q, all - {idle});
  }

  ghost function AllPids(n: nat): (s: set<Pid>)
    requires n <= PROCESS_MAXCOUNT
    ensures |s| == n && forall p: Pid :: p in s <==> p < n
  {
    if n == 0 then {} else AllPids(n - 1) + {n - 1}
  }

  // ---------------------------------------------------------------- counting ticks

  lemma {:induction false} TicksAdd(a: seq<Event>, b: seq<Event>)
    ensures TickCount(a + b) == TickCount(a) + TickCount(b)
  {
    if a == [] {
      assert a + b == b;
    } else {
      TicksAdd(a[1..], b);
      assert (a + b)[1..] == a[1..] + b;
    }
  }

  lemma {:induction false} RunTicks(k: Kernel, es: seq<Event>)
    requires CanRun(k, es)
    ensures Run(k, es).tick == k.tick + TickCount(es)
    decreases |es|
  {
    hide Step, Enabled;
    if es != [] {
      StepTick(k, es[0]);
      RunTicks(Step(k, es[0]), es[1..]);
    }
  }

  // ---------------------------------------------------------------- running again

  /** After `i` events of the run `p` has the CPU. */
  ghost predicate HasCpu(k: Kernel, es: seq<Event>, i: nat, p: Pid) {
    i <= |es| && CanRun(k, es[..i]) && Run(k, es[..i]).running == p
  }

  /** Event `j` is the tick that releases the sleeper `p`, and after as many further ticks as processes went before it, it
    * has had the CPU. */
  ghost predicate RunsAfter(k: Kernel, es: seq<Event>, j: nat, p: Pid, end: nat) {
    && WokenBy(k, es, j, p, end)
    && var u := Run(k, es[..j]);
    && u.tick + 1 == end && p in Due(u.tick + 1, u.wake, u.sleeping)
    && (TickCount(es[j + 1..]) >= Ahead(u, p) ==> exists i: nat :: j < i && HasCpu(k, es, i, p))
  }

  lemma WokenRunsAfter(k: Kernel, es: seq<Event>, j: nat, p: Pid, end: nat)
    requires Ok(k) && CanRun(k, es) && WokenBy(k, es, j, p, end)
    ensures RunsAfter(k, es, j, p, end)
  {
    hide Ok, Step, Enabled, TickStep, Ahead, Asleep, Awake, Due, HasCpu;
    var u, w, rest := Run(k, es[..j]), Run(k, es[..j + 1]), es[j + 1..];
    WakingTick(k, es, j);
    RunOk(k, es[..j]);
    RunOk(k, es[..j + 1]);
    DueNow(u, p, end);
    WakePosition(u, p);
    var n := Ahead(u, p);
    if TickCount(rest) >= n {
      if n == 0 {
        CpuNow(k, es, j + 1, p);
      } else {
        RunSplits(k, es, j + 1);
        BoundedResponse(w, rest, n - 1);
        var i :| 0 <= i <= |rest| && CanRun(w, rest[..i]) && Run(w, rest[..i]).running == w.ready[n - 1];
        CpuLater(k, es, j + 1, i, p);
      }
    }
  }

  lemma CpuNow(k: Kernel, es: seq<Event>, i: nat, p: Pid)
    requires i <= |es| && CanRun(k, es[..i]) && Run(k, es[..i]).running == p
    ensures HasCpu(k, es, i, p)
  {
  }

  lemma CpuLater(k: Kernel, es: seq<Event>, a: nat, i: nat, p: Pid)
    requires a + i <= |es| && CanRun(k, es[..a])
    requires CanRun(Run(k, es[..a]), es[a..][..i]) && Run(Run(k, es[..a]), es[a..][..i]).running == p
    ensures HasCpu(k, es, a + i, p)
  {
    hide Step, Enabled;
    RunsOn(k, es[..a], es[a..][..i]);
    assert es[..a] + es[a..][..i] == es[..a + i];
  }

  lemma WakingTick(k: Kernel, es: seq<Event>, j: nat)
    requires CanRun(k, es) && j < |es| && es[j] == Tick
    ensures CanRun(k, es[..j]) && CanRun(k, es[..j + 1])
    ensures Run(k, es[..j + 1]) == TickStep(Run(k, es[..j]))
  {
    hide Step, Enabled;
    RunSplits(k, es, j);
    var u := Run(k, es[..j]);
    assert es[j..][0] == Tick && [Tick][1..] == [];
    assert CanRun(u, [Tick]) && Run(u, [Tick]) == Step(u, Tick);
    RunsOn(k, es[..j], [Tick]);
    assert es[..j] + [Tick] == es[..j + 1];
    TickIs(u);
  }

  lemma TickIs(k: Kernel)
    requires Enabled(k, Tick)
    ensures Step(k, Tick) == TickStep(k)
  {
  }

  lemma DueNow(u: Kernel, p: Pid, end: nat)
    requires Asleep(u, p, end) && TickStep(u).tick == end
    ensures p in u.sleeping && u.tick + 1 == end && u.wake[p] <= end
  {
    hide WakeExpired;
    WakeExpiredSame(u.(tick := u.tick + 1), u.sleeping);
  }

  /** A process that asks for `ms` milliseconds is released by the tick EndTick, and has had the CPU after as many further
    * ticks as processes went before it. */
  lemma SleepThenRuns(k: Kernel, ms: nat, es: seq<Event>)
    requires Ok(k) && Enabled(k, Sleep(ms)) && k.tick + QWORD / SLOT_TIME + 1 < QWORD
    requires var k1 := Step(k, Sleep(ms)); CanRun(k1, es) && Run(k1, es).tick >= EndTick(k.tick, ms)
    ensures exists j: nat :: RunsAfter(Step(k, Sleep(ms)), es, j, k.running, EndTick(k.tick, ms))
  {
    hide Ok, Step, Enabled, WokenBy, EndTick, DueTick, RunsAfter;
    StepOk(k, Sleep(ms));
    SleepWakesOnTime(k, ms, es);
    var k1, end := Step(k, Sleep(ms)), EndTick(k.tick, ms);
    var j: nat :| WokenBy(k1, es, j, k.running, end);
    WokenRunsAfter(k1, es, j, k.running, end);
  }

  /** `p` has the CPU at some point of the run, at tick `end` or later. */
  ghost predicate HasRun(k: Kernel, es: seq<Event>, p: Pid, end: nat) {
    exists i: nat :: HasCpu(k, es, i, p) && Run(k, es[..i]).tick >= end
  }

  /** In numbers: at the latest 1022 ticks after the one that ends its sleep, it has had the CPU. */
  lemma SleepThenRunsWithin(k: Kernel, ms: nat, es: seq<Event>)
    requires Ok(k) && Enabled(k, Sleep(ms)) && k.tick + QWORD / SLOT_TIME + 1 < QWORD
    requires CanRun(Step(k, Sleep(ms)), es) && TickCount(es) >= EndTick(k.tick, ms) - k.tick + PROCESS_MAXCOUNT - 2
    ensures HasRun(Step(k, Sleep(ms)), es, k.running, EndTick(k.tick, ms))
  {
    hide Ok, Step, Enabled, EndTick, RunsAfter, HasRun;
    StepTick(k, Sleep(ms));
    StepOk(k, Sleep(ms));
    RunTicks(Step(k, Sleep(ms)), es);
    SleepThenRuns(k, ms, es);
    var j: nat :| RunsAfter(Step(k, Sleep(ms)), es, j, k.running, EndTick(k.tick, ms));
    RunsInTime(Step(k, Sleep(ms)), es, j, k.running, EndTick(k.tick, ms));
  }

  lemma RunsInTime(k: Kernel, es: seq<Event>, j: nat, p: Pid, end: nat)
    requires Ok(k) && CanRun(k, es) && RunsAfter(k, es, j, p, end) && TickCount(es) >= end - k.tick + PROCESS_MAXCOUNT - 2
    ensures HasRun(k, es, p, end)
  {
    hide Ok, Step, Enabled, Ahead, Due, HasCpu, Awake;
    RunOk(k, es[..j]);
    AheadBound(Run(k, es[..j]), p);
    RunTicks(k, es[..j + 1]);
    TicksAdd(es[..j + 1], es[j + 1..]);
    assert es[..j + 1] + es[j + 1..] == es;
    var i: nat :| j < i && HasCpu(k, es, i, p);
    LaterTick(k, es, j + 1, i, p);
  }

  lemma LaterTick(k: Kernel, es: seq<Event>, a: nat, b: nat, p: Pid)
    requires a <= b && HasCpu(k, es, b, p)
    ensures CanRun(k, es[..a]) && CanRun(k, es[..b]) && Run(k, es[..a]).tick <= Run(k, es[..b]).tick
  {
    hide Step, Enabled;
    RunSplits(k, es[..b], a);
    assert es[..b][..a] == es[..a];
    TickMonotone(Run(k, es[..a]), es[..b][a..]);
  }
}
