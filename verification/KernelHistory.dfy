/** What a state says about the run that led to it: which interrupts and calls raised the disk flags, how many ticks have
  * passed, which creations opened the pages that are open. */
module KernelHistory {
  import opened Common
  import opened KernelModel
  import opened KernelInvariant
  import opened KernelRuns
  import opened KernelQueues
  import opened KernelLaws

  /** The last event of a run. */
  lemma RunLast(k: Kernel, es: seq<Event>)
    requires Ok(k) && CanRun(k, es) && es != []
    ensures var i := |es| - 1;
            && es == es[..i] + [es[i]] && CanRun(k, es[..i]) && Ok(Run(k, es[..i])) && Enabled(Run(k, es[..i]), es[i])
            && Run(k, es) == Step(Run(k, es[..i]), es[i])
  {
    hide Ok, Step, Enabled;
    var i := |es| - 1;
    RunSplits(k, es, i);
    assert es[i..][1..] == [];
    RunOk(k, es[..i]);
  }

  /** Where every run begins: the shell has the CPU and the collector is next, idle is aside, nobody is blocked, every queue
    * is empty and every mutex free. */
  lemma BootSays(n: nat)
    ensures var k := Boot(n);
            && Order(k) == [0, 1] && k.idle == 2 && k.collector == 1 && k.sleeping == [] && k.exits == [] && k.keys == []
            && (forall p: Pid :: Live(k, p) <==> p < 3) && (forall p: Pid :: Live(k, p) ==> k.st[p] != Blocked && k.cont[p] == Free)
            && |k.mutexes| == n && (forall m :: 0 <= m < n ==> k.mutexes[m].owner.None? && k.mutexes[m].waiters == [])
            && k.keyWaiter.None? && (forall ch: Channel :: k.diskWaiter[ch].None?) && k.us == {}
  {
  }

  /** The state after the first `i` events. */
  function After(k: Kernel, es: seq<Event>, i: nat): Kernel { if i <= |es| && CanRun(k, es[..i]) then Run(k, es[..i]) else k }

  lemma AfterPrefix(k: Kernel, es: seq<Event>, n: nat)
    requires n <= |es|
    ensures forall i: nat :: i <= n ==> After(k, es[..n], i) == After(k, es, i)
  {
    hide Run, CanRun;
    forall i: nat | i <= n ensures After(k, es[..n], i) == After(k, es, i) {
      assert es[..n][..i] == es[..i];
    }
  }

  // ---------------------------------------------------------------- ticks

  lemma {:induction false} TickLast(es: seq<Event>)
    requires es != []
    ensures TickCount(es) == TickCount(es[..|es| - 1]) + if es[|es| - 1].Tick? then 1 else 0
    decreases |es|
  {
    if |es| > 1 {
      TickLast(es[1..]);
      assert es[..|es| - 1][1..] == es[1..][..|es| - 2];
    }
  }

  /** The tick count is the number of timer interrupts. */
  lemma {:induction false} TicksCounted(k: Kernel, es: seq<Event>)
    requires Ok(k) && CanRun(k, es)
    ensures Run(k, es).tick == k.tick + TickCount(es)
    decreases |es|
  {
    if es != [] {
      RunLast(k, es);
      var a := es[..|es| - 1];
      TickLast(es);
      hide Ok, Step, Enabled, Run, CanRun, TickCount;
      TicksCounted(k, a);
      StepLaws(Run(k, a), es[|es| - 1]);
    }
  }

  // ---------------------------------------------------------------- disk flags

  /** A disk interrupt of `ch` that no clearDiskInterruptFlag has followed. */
  ghost predicate Signalled(es: seq<Event>, ch: Channel) {
    exists i :: 0 <= i < |es| && es[i] == DiskIrq(ch) && forall j :: i < j < |es| ==> es[j] != ClearFlag(ch)
  }

  lemma SignalledLast(es: seq<Event>, ch: Channel)
    requires es != []
    ensures Signalled(es, ch) <==>
      es[|es| - 1] == DiskIrq(ch) || (Signalled(es[..|es| - 1], ch) && es[|es| - 1] != ClearFlag(ch))
  {
    var n := |es| - 1;
    var a := es[..n];
    if es[n] == DiskIrq(ch) {
      assert Signalled(es, ch);
    } else if Signalled(a, ch) && es[n] != ClearFlag(ch) {
      var i :| 0 <= i < |a| && a[i] == DiskIrq(ch) && forall j :: i < j < |a| ==> a[j] != ClearFlag(ch);
      assert es[i] == DiskIrq(ch) && forall j :: i < j < |es| ==> es[j] != ClearFlag(ch) by {
        assert forall j :: i < j < |a| ==> a[j] == es[j];
      }
    }
    if Signalled(es, ch) && es[n] != DiskIrq(ch) {
      var i :| 0 <= i < |es| && es[i] == DiskIrq(ch) && forall j :: i < j < |es| ==> es[j] != ClearFlag(ch);
      assert a[i] == DiskIrq(ch) && forall j :: i < j < |a| ==> a[j] != ClearFlag(ch);
    }
  }

  /** A flag is up exactly if an interrupt of its channel has not been cleared since, whoever waited or not. */
  lemma {:induction false} FlagExactly(n: nat, es: seq<Event>, ch: Channel)
    requires CanRun(Boot(n), es)
    ensures Run(Boot(n), es).flag[ch] <==> Signalled(es, ch)
    decreases |es|
  {
    BootInv(n);
    hide Inv, Ok, Boot, Step, Enabled, Signalled, Run, CanRun;
    if es == [] {
      RunNothing(Boot(n));
      NothingYet(n, ch);
    } else {
      InvOk(Boot(n));
      RunLast(Boot(n), es);
      FlagExactly(n, es[..|es| - 1], ch);
      FlagStep(Run(Boot(n), es[..|es| - 1]), es[|es| - 1], ch);
      SignalledLast(es, ch);
    }
  }

  lemma RunNothing(k: Kernel)
    ensures CanRun(k, []) && Run(k, []) == k
  {
  }

  lemma NothingYet(n: nat, ch: Channel)
    ensures !Boot(n).flag[ch] && !Signalled([], ch)
  {
  }

  /** A disk interrupt raises the flag of its channel, and nothing else touches a flag but clearDiskInterruptFlag. */
  lemma FlagStep(k: Kernel, e: Event, ch: Channel)
    requires Ok(k) && Enabled(k, e)
    ensures Step(k, e).flag[ch] <==> e == DiskIrq(ch) || (k.flag[ch] && e != ClearFlag(ch))
  {
    hide Ok, Step, Enabled, Queued, Parted, Slept, Timed, Continued, Allotted, Opened;
    StepLaws(k, e);
  }

  /** waitInterrupt returns at once exactly if such an interrupt has come; otherwise the caller is blocked for 100 ticks. */
  lemma AwaitReports(n: nat, es: seq<Event>, ch: Channel)
    requires CanRun(Boot(n), es) && Enabled(Run(Boot(n), es), AwaitDisk(ch))
    ensures var k := Run(Boot(n), es); var w := Step(k, AwaitDisk(ch)); var p := k.running;
            if Signalled(es, ch) then w.running == p && w.cont[p] == Free && w.flag[ch]
            else w.st[p] == Blocked && w.cont[p] == DiskWaiting(ch, TickCount(es) + 100) && !w.flag[ch]
  {
    hide Inv, Ok, Boot, Step, Signalled, Run, CanRun, TickCount;
    BootInv(n);
    InvOk(Boot(n));
    RunOk(Boot(n), es);
    FlagExactly(n, es, ch);
    TicksCounted(Boot(n), es);
    BootTick(n);
    AwaitLaws(Run(Boot(n), es), ch);
  }

  lemma BootTick(n: nat)
    ensures Boot(n).tick == 0
  {
  }

  lemma AwaitLaws(k: Kernel, ch: Channel)
    requires Ok(k) && Enabled(k, AwaitDisk(ch))
    ensures var w := Step(k, AwaitDisk(ch)); var p := k.running;
            if k.flag[ch] then w.running == p && w.cont[p] == Free && w.flag[ch]
            else w.st[p] == Blocked && w.cont[p] == DiskWaiting(ch, k.tick + 100) && !w.flag[ch]
  {
    hide Ok, Step, Queued, Slept, Timed, Allotted, Opened;
    AwaitCalls(k, ch);
    StepLaws(k, AwaitDisk(ch));
    if k.flag[ch] {
      KeepsCpu(k, AwaitDisk(ch));
    }
  }

  lemma AwaitCalls(k: Kernel, ch: Channel)
    requires Enabled(k, AwaitDisk(ch))
    ensures Calls(k)
  {
  }

  /** A process that comes back from its wait returns from waitInterrupt: TRUE, which is the flag, exactly if such an
    * interrupt has come, and otherwise at the end of its 100 ticks. */
  lemma ResumeReports(n: nat, es: seq<Event>)
    requires CanRun(Boot(n), es) && Run(Boot(n), es).cont[Run(Boot(n), es).running].DiskWaiting?
    ensures var k := Run(Boot(n), es); var c, w := k.cont[k.running], Step(k, Resume);
            && w.running == k.running && w.cont[k.running] == Free
            && (w.flag[c.ch] <==> Signalled(es, c.ch))
            && (!Signalled(es, c.ch) ==> TickCount(es) >= c.deadline)
  {
    hide Inv, Ok, Boot, Step, Signalled, Run, CanRun, TickCount;
    BootInv(n);
    InvOk(Boot(n));
    RunOk(Boot(n), es);
    var k := Run(Boot(n), es);
    FlagExactly(n, es, k.cont[k.running].ch);
    TicksCounted(Boot(n), es);
    BootTick(n);
    ResumeReturns(k);
  }

  lemma ResumeReturns(k: Kernel)
    requires Ok(k) && k.cont[k.running].DiskWaiting?
    ensures var c, w := k.cont[k.running], Step(k, Resume);
            && w.running == k.running && w.cont[k.running] == Free && w.flag[c.ch] == k.flag[c.ch]
            && (k.flag[c.ch] || k.tick >= c.deadline)
  {
    hide Ok, Step, Queued, Slept, Timed, Allotted, Opened;
    ResumeFacts(k);
    StepLaws(k, Resume);
    KeepsCpu(k, Resume);
  }

  /** Blocked in waitInterrupt. */
  ghost predicate InWait(k: Kernel, p: Pid, ch: Channel, deadline: nat) {
    k.alloc[p] && k.st[p] == Blocked && k.cont[p] == DiskWaiting(ch, deadline)
  }

  /** What wakes it: the interrupt of its channel, or the tick of its deadline. */
  lemma WokenExactly(k: Kernel, e: Event, p: Pid, ch: Channel, deadline: nat)
    requires Ok(k) && Enabled(k, e) && InWait(k, p, ch, deadline)
    ensures p in Woken(k, e) <==> e == DiskIrq(ch) || (e.Tick? && k.tick + 1 >= deadline)
    ensures p != k.running && p != k.idle && p !in k.exits
  {
    hide Mutexes, Probe, Due, Step, NoDup;
    DueLaterMembers(k.tick + 1, k.wake, k.sleeping);
    if e.Create? {
      SlotIsFree(k);
    }
    if e.Release? && k.mutexes[e.mutex].waiters != [] {
      assert Waits(k.mutexes, e.mutex, k.mutexes[e.mutex].waiters[0]);
    }
  }

  lemma WaitStep(k: Kernel, e: Event, p: Pid, ch: Channel, deadline: nat)
    requires Ok(k) && Enabled(k, e) && InWait(k, p, ch, deadline)
    ensures var w := Step(k, e);
            if e == DiskIrq(ch) || (e.Tick? && w.tick >= deadline) then w.st[p] == Ready || w.st[p] == Running
            else InWait(w, p, ch, deadline)
  {
    hide Ok, Step, Enabled, Queued, Slept, Flagged, Opened, Woken, WaitsFor;
    WokenExactly(k, e, p, ch, deadline);
    StepLaws(k, e);
    OutOfExits(k, e, p);
  }

  lemma OutOfExits(k: Kernel, e: Event, p: Pid)
    requires p !in k.exits
    ensures p !in ExitOut(k, e)
  {
  }

  /** A wait for the disk ends with the interrupt of its channel or with the tick of its deadline, whichever comes first,
    * and with nothing else. */
  lemma {:induction false} DiskWaitEnds(k: Kernel, es: seq<Event>, e: Event, p: Pid, ch: Channel, deadline: nat)
    requires Ok(k) && InWait(k, p, ch, deadline) && k.tick < deadline
    requires CanRun(k, es) && Enabled(Run(k, es), e) && DiskIrq(ch) !in es && Run(k, es).tick < deadline
    ensures InWait(Run(k, es), p, ch, deadline)
    ensures var w := Step(Run(k, es), e);
            if e == DiskIrq(ch) || w.tick >= deadline then w.st[p] == Ready || w.st[p] == Running else InWait(w, p, ch, deadline)
    decreases |es|
  {
    hide Ok, Step, Enabled, InWait;
    if es == [] {
      WaitStep(k, e, p, ch, deadline);
      TickStepCounts(k, e);
    } else {
      var w := Step(k, es[0]);
      WaitStep(k, es[0], p, ch, deadline);
      StepOk(k, es[0]);
      TickMonotone(w, es[1..]);
      DiskWaitEnds(w, es[1..], e, p, ch, deadline);
    }
  }

  lemma TickStepCounts(k: Kernel, e: Event)
    requires Ok(k) && Enabled(k, e)
    ensures Step(k, e).tick == k.tick + if e.Tick? then 1 else 0
  {
    hide Ok, Step, Enabled, Queued, Parted, Slept, Continued, Flagged, Allotted, Opened;
    StepLaws(k, e);
  }

  // ---------------------------------------------------------------- slots and pages

  /** The collector has not freed slot `p` since event `i`. */
  ghost predicate Kept(k: Kernel, es: seq<Event>, i: nat, p: Pid) {
    forall j :: i < j < |es| ==> p !in ExitOut(After(k, es, j), es[j])
  }

  lemma KeptLast(k: Kernel, es: seq<Event>, i: nat, p: Pid)
    requires es != [] && i < |es| - 1
    ensures var n := |es| - 1; Kept(k, es, i, p) <==> Kept(k, es[..n], i, p) && p !in ExitOut(After(k, es, n), es[n])
  {
    hide After, ExitOut;
    var n := |es| - 1;
    AfterPrefix(k, es, n);
    var a := es[..n];
    if Kept(k, a, i, p) && p !in ExitOut(After(k, es, n), es[n]) {
      forall j | i < j < |es| ensures p !in ExitOut(After(k, es, j), es[j]) {
        if j < n {
          assert p !in ExitOut(After(k, a, j), a[j]);
        }
      }
    }
    if Kept(k, es, i, p) {
      assert p !in ExitOut(After(k, es, n), es[n]);
      forall j | i < j < |a| ensures p !in ExitOut(After(k, a, j), a[j]) {
        assert p !in ExitOut(After(k, es, j), es[j]);
      }
    }
  }

  /** Event `i` of the run created a process in slot `p`, and the collector has not freed the slot since. */
  ghost predicate FilledBy(k: Kernel, es: seq<Event>, i: nat, p: Pid) {
    i < |es| && es[i].Create? && p in Woken(After(k, es, i), es[i]) && Kept(k, es, i, p)
  }

  lemma FilledLast(k: Kernel, es: seq<Event>, i: nat, p: Pid)
    requires es != []
    ensures var n := |es| - 1; var kn := After(k, es, n);
            FilledBy(k, es, i, p) <==>
              if i < n then FilledBy(k, es[..n], i, p) && p !in ExitOut(kn, es[n])
              else i == n && es[n].Create? && p in Woken(kn, es[n])
  {
    hide After, Woken, ExitOut, Kept;
    var n := |es| - 1;
    AfterPrefix(k, es, n);
    if i < n {
      KeptLast(k, es, i, p);
    } else if i == n {
      KeptNow(k, es, p);
    }
  }

  lemma KeptNow(k: Kernel, es: seq<Event>, p: Pid)
    requires es != []
    ensures Kept(k, es, |es| - 1, p)
  {
  }

  /** The same for some event. */
  ghost predicate Filled(k: Kernel, es: seq<Event>, p: Pid) { exists i: nat :: FilledBy(k, es, i, p) }

  lemma FilledStep(k: Kernel, es: seq<Event>, p: Pid)
    requires es != []
    ensures var n := |es| - 1; var kn := After(k, es, n);
            Filled(k, es, p) <==> (Filled(k, es[..n], p) && p !in ExitOut(kn, es[n])) || (es[n].Create? && p in Woken(kn, es[n]))
  {
    hide After, Woken, ExitOut;
    var n := |es| - 1;
    forall i: nat { FilledLast(k, es, i, p); }
    assert forall i: nat :: FilledBy(k, es[..n], i, p) ==> i < n;
    hide FilledBy;
    if Filled(k, es[..n], p) && p !in ExitOut(After(k, es, n), es[n]) {
      var i: nat :| FilledBy(k, es[..n], i, p);
      assert FilledBy(k, es, i, p);
    }
    if es[n].Create? && p in Woken(After(k, es, n), es[n]) {
      assert FilledBy(k, es, n, p);
    }
  }

  lemma AfterLast(k: Kernel, es: seq<Event>)
    requires es != [] && CanRun(k, es[..|es| - 1])
    ensures After(k, es, |es| - 1) == Run(k, es[..|es| - 1])
  {
    hide Run, CanRun;
  }

  /** A slot is in use exactly if it is one of the three initScheduler fills, or a creation took it and no collection has
    * freed it since. */
  lemma {:induction false} SlotsExactly(n: nat, es: seq<Event>, p: Pid)
    requires CanRun(Boot(n), es)
    ensures Run(Boot(n), es).alloc[p] <==> p < 3 || Filled(Boot(n), es, p)
    ensures Run(Boot(n), es).idle == 2 && Run(Boot(n), es).collector == 1
    decreases |es|
  {
    BootInv(n);
    hide Inv, Ok, Boot, Step, Enabled, Run, CanRun, Filled;
    if es == [] {
      RunNothing(Boot(n));
      BootSlots(n, p);
    } else {
      InvOk(Boot(n));
      RunLast(Boot(n), es);
      var a := es[..|es| - 1];
      SlotsExactly(n, a, p);
      AfterLast(Boot(n), es);
      FilledStep(Boot(n), es, p);
      SlotStep(Run(Boot(n), a), es[|es| - 1], p);
    }
  }

  lemma BootSlots(n: nat, p: Pid)
    ensures Boot(n).alloc[p] <==> p < 3
    ensures Boot(n).idle == 2 && Boot(n).collector == 1 && !Filled(Boot(n), [], p)
  {
  }

  lemma SlotStep(k: Kernel, e: Event, p: Pid)
    requires Ok(k) && Enabled(k, e) && k.idle == 2 && k.collector == 1
    ensures Step(k, e).alloc[p] <==> (e.Create? && p in Woken(k, e)) || (k.alloc[p] && p !in ExitOut(k, e))
    ensures p < 3 ==> p !in ExitOut(k, e) && k.alloc[p]
    ensures Step(k, e).idle == 2 && Step(k, e).collector == 1
  {
    hide Ok, Step, Enabled, Queued, Parted, Slept, Timed, Continued, Flagged, Opened;
    StepLaws(k, e);
    if p < 3 {
      SystemStays(k, p);
      OutOfExits(k, e, p);
    }
  }

  lemma SystemStays(k: Kernel, p: Pid)
    requires Ok(k) && (p == 0 || p == k.idle || p == k.collector)
    ensures p !in k.exits && k.alloc[p]
  {
  }

  /** A creation of a user process, or of a user program, filled slot `p`. */
  ghost predicate UserFilled(k: Kernel, es: seq<Event>, p: Pid) {
    exists i: nat :: FilledBy(k, es, i, p) && es[i].kind != KernelProcess
  }

  lemma UserFilledStep(k: Kernel, es: seq<Event>, p: Pid)
    requires es != []
    ensures var n := |es| - 1; var kn := After(k, es, n);
            UserFilled(k, es, p) <==>
              || (UserFilled(k, es[..n], p) && p !in ExitOut(kn, es[n]))
              || (es[n].Create? && es[n].kind != KernelProcess && p in Woken(kn, es[n]))
  {
    hide After, Woken, ExitOut, Kept;
    var n := |es| - 1;
    forall i: nat { FilledLast(k, es, i, p); }
    assert forall i: nat :: FilledBy(k, es[..n], i, p) ==> i < n && es[..n][i] == es[i];
    hide FilledBy;
    if UserFilled(k, es[..n], p) && p !in ExitOut(After(k, es, n), es[n]) {
      var i: nat :| FilledBy(k, es[..n], i, p) && es[..n][i].kind != KernelProcess;
      assert FilledBy(k, es, i, p);
    }
    if es[n].Create? && es[n].kind != KernelProcess && p in Woken(After(k, es, n), es[n]) {
      assert FilledBy(k, es, n, p);
    }
  }

  /** A page is open to ring 3 exactly if it lies in the code area and a program has been loaded, or in the window of a
    * slot that a user creation filled and the collector has not freed since. */
  lemma {:induction false} PagesExactly(n: nat, es: seq<Event>, pg: nat)
    requires CanRun(Boot(n), es)
    ensures pg in Run(Boot(n), es).us <==>
              (InCode(pg) && Create(UserProgram) in es) || exists p: Pid :: UserFilled(Boot(n), es, p) && InWindow(pg, p)
    decreases |es|
  {
    BootInv(n);
    hide Inv, Ok, Boot, Step, Enabled, Run, CanRun, UserFilled, InCode, InWindow;
    if es == [] {
      RunNothing(Boot(n));
      BootPages(n, pg);
    } else {
      InvOk(Boot(n));
      RunLast(Boot(n), es);
      var a := es[..|es| - 1];
      PagesExactly(n, a, pg);
      AfterLast(Boot(n), es);
      forall p: Pid { UserFilledStep(Boot(n), es, p); }
      PageStep(Run(Boot(n), a), es[|es| - 1], pg);
      PagesApart(pg);
    }
  }

  lemma BootPages(n: nat, pg: nat)
    ensures pg !in Boot(n).us && forall p: Pid :: !UserFilled(Boot(n), [], p)
  {
  }

  lemma PageStep(k: Kernel, e: Event, pg: nat)
    requires Ok(k) && Enabled(k, e)
    ensures pg in Step(k, e).us <==>
      || (e == Create(UserProgram) && InCode(pg))
      || (e.Create? && e.kind != KernelProcess && exists p :: p in Woken(k, e) && InWindow(pg, p))
      || (pg in k.us && forall p :: p in ExitOut(k, e) ==> !InWindow(pg, p))
  {
    hide Ok, Step, Enabled, Queued, Parted, Slept, Timed, Continued, Flagged, Allotted, InCode, InWindow;
    StepLaws(k, e);
  }

  lemma PagesApart(pg: nat)
    ensures forall p: Pid, q: Pid :: InWindow(pg, p) && InWindow(pg, q) ==> p == q
    ensures forall p: Pid :: InWindow(pg, p) ==> !InCode(pg)
  {
  }
}
